/** Re-creating persisted scopes, parents before children, whatever order they were saved in. */
module ScopeRestore {
  import opened Common
  import opened ScopeForest
  import opened ScopeTree

  datatype SavedScope = SavedScope(id: ScopeId, parent: Option<ScopeId>, name: string)

  datatype RestoreError = Orphan | CreateFailed(error: ScopeError)

  /** A missing or empty parent id means the root. */
  function ParentOf(item: SavedScope): ScopeId {
    if item.parent.None? || item.parent.value == "" then ROOT_SCOPE_ID else item.parent.value
  }

  predicate Skipped(item: SavedScope, f: Forest) {
    item.id == ROOT_SCOPE_ID || item.id in f
  }

  /** The scopes still to be created: a repeated id counts with its last row. */
  function Wanted(saved: seq<SavedScope>, f: Forest): (want: Forest)
    ensures forall k :: k in want ==> k !in f && k != ROOT_SCOPE_ID && want[k].id == k && want[k].parent.Some?
  {
    if saved == [] then map[]
    else
      var item := saved[|saved| - 1];
      var before := Wanted(saved[..|saved| - 1], f);
      if Skipped(item, f) then before
      else before[item.id := Scope(item.id, Some(ParentOf(item)), item.name)]
  }

  ghost predicate NoBlank(want: Forest) {
    forall k :: k in want ==> !IsBlank(k) && !IsBlank(want[k].name)
  }

  ghost predicate CanWrite(tree: ScopeTree)
    reads tree, tree.store
  {
    StoredVersion(tree.store.saved) == tree.version
  }

  /**
   Creates every saved scope under its saved parent, in whatever order a pass meets them.  It
   succeeds exactly when the existing and the saved scopes together are a tree whose new ids and
   names are not blank and the tree may write.
   */
  method RestoreScopes(tree: ScopeTree, saved: seq<SavedScope>) returns (r: Result<(), RestoreError>)
    requires tree.Valid()
    modifies tree, tree.store
    ensures tree.Valid()
    ensures var before := old(tree.scopes.at);
            var want := Wanted(saved, before);
            && (r.Ok? <==> want == map[] || (old(CanWrite(tree)) && IsTree(before + want) && NoBlank(want)))
            && (r.Ok? ==> tree.scopes.at == before + want)
            && (r == Err(Orphan) ==> !IsTree(before + want))
            && (exists pending :: pending <= want.Keys && tree.scopes.at == before + (want - pending))
  {
    hide Table.Ordered, CanWrite, IsBlank;
    ghost var before, writable := tree.scopes.at, CanWrite(tree);
    var want := Wanted(saved, tree.scopes.at);
    var pending := want.Keys;
    assert before + (want - pending) == before;
    while pending != {}
      invariant tree.Valid() && CanWrite(tree) == writable
      invariant StillMissing(before, want, pending, tree.scopes.at, writable)
      decreases pending
    {
      var progressed, error;
      pending, progressed, error := Pass(tree, want, pending, before, writable);
      if error.Some? {
        return Err(CreateFailed(error.value));
      }
      if !progressed {
        StuckIsNoTree(before, want, pending, tree.scopes.at, writable);
        return Err(Orphan);
      }
    }
    assert before + (want - {}) == before + want;
    r := Ok(());
  }

  /** One pass over the pending scopes; it either fails, or leaves only scopes without a parent yet. */
  method Pass(tree: ScopeTree, want: Forest, round: set<ScopeId>, ghost before: Forest, ghost writable: bool)
    returns (pending: set<ScopeId>, progressed: bool, error: Option<ScopeError>)
    requires tree.Valid() && CanWrite(tree) == writable
    requires StillMissing(before, want, round, tree.scopes.at, writable)
    modifies tree, tree.store
    ensures tree.Valid() && CanWrite(tree) == writable
    ensures pending <= round && StillMissing(before, want, pending, tree.scopes.at, writable)
    ensures error.Some? ==> want != map[] && !(writable && NoBlank(want))
    ensures progressed ==> pending != round
    ensures error.None? && !progressed ==>
              pending == round && forall k :: k in round ==> want[k].parent.value !in tree.scopes.at
  {
    hide ScopeTree.Valid, CanWrite, IsBlank;
    var todo := round;
    pending := round;
    progressed, error := false, None;
    while todo != {}
      invariant tree.Valid() && CanWrite(tree) == writable
      invariant StillMissing(before, want, pending, tree.scopes.at, writable)
      invariant todo <= pending <= round
      invariant error.None? && if progressed then pending != round else pending == round
      invariant !progressed ==> forall k :: k in round - todo ==> want[k].parent.value !in tree.scopes.at
      decreases todo
    {
      var id :| id in todo;
      todo := todo - {id};
      var parent := want[id].parent.value;
      if parent in tree.scopes.at {
        error := CreateNew(tree, id, want[id].name, parent);
        if error.Some? {
          return;
        }
        OneFewerMissing(before, want, pending, id);
        pending := pending - {id};
        progressed := true;
        assert id in round && id !in pending;
      }
    }
  }

  /** `ScopeTree.create` for an id that is new and a parent that exists. */
  method CreateNew(tree: ScopeTree, id: ScopeId, name: string, parent: ScopeId)
    returns (error: Option<ScopeError>)
    requires tree.Valid() && id !in tree.scopes.at && parent in tree.scopes.at
    modifies tree, tree.store
    ensures tree.Valid() && CanWrite(tree) == old(CanWrite(tree))
    ensures error == if IsBlank(id) || IsBlank(name) then Some(BlankText)
                     else if !old(CanWrite(tree)) then Some(StaleVersion) else None
    ensures tree.scopes.at == if error.Some? then old(tree.scopes.at)
                              else WithScope(old(tree.scopes.at), id, name, parent)
  {
    var created := tree.Create(id, name, parent);
    error := if created.Err? then Some(created.error) else None;
  }

  // ------------------------------------------------------------ invariants of the loops

  /**
   The tree holds the old scopes and the wanted ones that are not pending any more; each of these
   was created, so the tree could write and its texts were not blank.
   */
  ghost predicate StillMissing(before: Forest, want: Forest, pending: set<ScopeId>, f: Forest, writable: bool) {
    && pending <= want.Keys && before.Keys !! want.Keys && ROOT_SCOPE_ID in before
    && f == before + (want - pending)
    && (forall k :: k in want && k !in pending ==> writable && !IsBlank(k) && !IsBlank(want[k].name))
    && (forall k :: k in want ==> want[k].id == k && want[k].parent.Some?)
  }

  lemma OneFewerMissing(before: Forest, want: Forest, pending: set<ScopeId>, id: ScopeId)
    requires before.Keys !! want.Keys && id in pending && pending <= want.Keys
    requires want[id].id == id && want[id].parent.Some?
    ensures WithScope(before + (want - pending), id, want[id].name, want[id].parent.value)
            == before + (want - (pending - {id}))
  {
  }

  /** If no pending scope has a parent in the tree, some parent chain never reaches the root. */
  lemma StuckIsNoTree(before: Forest, want: Forest, pending: set<ScopeId>, f: Forest, writable: bool)
    requires StillMissing(before, want, pending, f, writable) && pending != {}
    requires forall k :: k in pending ==> want[k].parent.Some? && want[k].parent.value !in f
    ensures !IsTree(before + want)
  {
    var goal := before + want;
    if IsTree(goal) {
      var k :| k in pending;
      assert k in goal;
      NeverLeaves(before, want, pending, f, writable, k, |Chain(goal, k)| - 1);
    }
  }

  lemma {:induction false} NeverLeaves(before: Forest, want: Forest, pending: set<ScopeId>, f: Forest,
                                       writable: bool, k: ScopeId, i: nat)
    requires StillMissing(before, want, pending, f, writable) && k in pending
    requires forall k :: k in pending ==> want[k].parent.Some? && want[k].parent.value !in f
    requires HasChain(before + want, k) && i < |Chain(before + want, k)|
    ensures Chain(before + want, k)[i] in pending
  {
    var goal := before + want;
    var c := Chain(goal, k);
    if i > 0 {
      NeverLeaves(before, want, pending, f, writable, k, i - 1);
      assert goal[c[i - 1]].parent == Some(c[i - 1 + 1]);
      assert goal[c[i - 1]] == want[c[i - 1]];
      assert c[i] !in f && c[i] in goal;
    }
  }

  // ------------------------------------------------------------ order and round trip

  /** Each row says where its scope goes, and nothing else is wanted. */
  lemma {:induction false} WantedHolds(saved: seq<SavedScope>, f: Forest, k: ScopeId)
    requires UniqueIds(saved)
    ensures k in Wanted(saved, f) <==> exists s :: s in saved && s.id == k && !Skipped(s, f)
    ensures forall s :: s in saved && s.id == k && !Skipped(s, f) ==>
              k in Wanted(saved, f) && Wanted(saved, f)[k] == Scope(k, Some(ParentOf(s)), s.name)
  {
    if saved != [] {
      var rest, last := saved[..|saved| - 1], saved[|saved| - 1];
      WantedHolds(rest, f, k);
      assert saved == rest + [last];
      assert forall s :: s in saved <==> s in rest || s == last;
    }
  }

  ghost predicate UniqueIds(saved: seq<SavedScope>) {
    forall i, j :: 0 <= i < j < |saved| ==> saved[i].id != saved[j].id
  }

  /** The rebuilt tree does not depend on the order in which the scopes were saved. */
  lemma OrderDoesNotMatter(a: seq<SavedScope>, b: seq<SavedScope>, f: Forest)
    requires UniqueIds(a) && UniqueIds(b)
    requires forall s :: s in a <==> s in b
    ensures Wanted(a, f) == Wanted(b, f)
  {
    forall k
      ensures k in Wanted(a, f) <==> k in Wanted(b, f)
      ensures k in Wanted(a, f) ==> Wanted(a, f)[k] == Wanted(b, f)[k]
    {
      WantedHolds(a, f, k);
      WantedHolds(b, f, k);
    }
  }

  /** The rows a tree is persisted as. */
  function Rows(order: seq<ScopeId>, f: Forest): (rows: seq<SavedScope>)
    requires forall i :: 0 <= i < |order| ==> order[i] in f
    ensures |rows| == |order|
    ensures forall i :: 0 <= i < |order| ==> rows[i] == SavedScope(f[order[i]].id, f[order[i]].parent, f[order[i]].name)
  {
    seq(|order|, i requires 0 <= i < |order| => SavedScope(f[order[i]].id, f[order[i]].parent, f[order[i]].name))
  }

  /**
   Restoring the rows of a tree on top of a part of it gives that tree back, provided no scope in it
   has an empty parent id.
   */
  lemma RestoreRebuilds(t: Table, f: Forest)
    requires t.Ordered() && IsTree(t.at) && "" !in t.at
    requires ROOT_SCOPE_ID in f && forall k :: k in f ==> k in t.at && f[k] == t.at[k]
    ensures f + Wanted(Rows(t.order, t.at), f) == t.at
  {
    var rows := Rows(t.order, t.at);
    var want := Wanted(rows, f);
    hide IsTree, Wanted;
    forall k
      ensures k in want <==> k in t.at && k !in f
      ensures k in want ==> want[k] == t.at[k]
    {
      RestoredAt(t, f, k);
    }
  }

  lemma RestoredAt(t: Table, f: Forest, k: ScopeId)
    requires t.Ordered() && IsTree(t.at) && "" !in t.at
    requires ROOT_SCOPE_ID in f && forall k :: k in f ==> k in t.at && f[k] == t.at[k]
    ensures var want := Wanted(Rows(t.order, t.at), f);
            (k in want <==> k in t.at && k !in f) && (k in want ==> want[k] == t.at[k])
  {
    var rows := Rows(t.order, t.at);
    hide IsTree, Wanted;
    assert UniqueIds(rows);
    WantedHolds(rows, f, k);
    if k in Wanted(rows, f) {
      assert k in t.at && k != ROOT_SCOPE_ID;
      RowOf(t, rows, k);
    } else if k in t.at && k !in f {
      RowOf(t, rows, k);
    }
  }

  lemma RowOf(t: Table, rows: seq<SavedScope>, k: ScopeId)
    requires t.Ordered() && IsTree(t.at) && "" !in t.at
    requires rows == Rows(t.order, t.at) && k in t.at && k != ROOT_SCOPE_ID
    ensures exists s :: s in rows && s.id == k && Scope(k, Some(ParentOf(s)), s.name) == t.at[k]
  {
    var i :| 0 <= i < |t.order| && t.order[i] == k;
    assert rows[i] in rows;
    ChainStep(t.at, k);
  }
}
