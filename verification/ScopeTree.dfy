/**
 The mutable scope tree and the compare-and-swap store it commits to.

 A dictionary of scopes keeps its insertion order, so it is a `Table`: the keys in order and the
 map itself.  `Edit` says what one update does to a table, `Step` what one tree sharing the store
 sees when it tries to commit that update; the classes are proved against the two.
 */
module ScopeTree {
  import opened Common
  import opened ScopeForest
  import opened CommitLog

  datatype Table = Table(order: seq<ScopeId>, at: Forest) {

    ghost predicate Ordered() {
      && Distinct(order)
      && (forall k :: k in order <==> k in at)
      && (forall k :: k in at ==> at[k].id == k)
    }

    /** `dict.values()`, in insertion order. */
    function Values(): seq<Scope>
      requires forall i :: 0 <= i < |order| ==> order[i] in at
    {
      ValuesOf(order, at)
    }

    /** Every scope is listed after its parent, the root first. */
    ghost predicate ParentsFirst() {
      |order| > 0 && Listed(at, order)
    }
  }

  function ValuesOf(order: seq<ScopeId>, at: Forest): seq<Scope>
    requires forall i :: 0 <= i < |order| ==> order[i] in at
  {
    if order == [] then []
    else ValuesOf(order[..|order| - 1], at) + [at[order[|order| - 1]]]
  }

  ghost predicate Listed(at: Forest, s: seq<ScopeId>) {
    s == [] ||
    var rest, last := s[..|s| - 1], s[|s| - 1];
    && Listed(at, rest)
    && last in at
    && if rest == [] then last == ROOT_SCOPE_ID
       else at[last].parent.Some? && at[last].parent.value in rest
  }

  datatype Snapshot = Snapshot(version: nat, scopes: seq<Scope>)

  datatype ScopeError =
    | BlankText
    | AlreadyExists(id: ScopeId)
    | NotFound(id: ScopeId)
    | NotEmpty(id: ScopeId)
    | RootRemoval
    | StaleVersion
    | InvalidSnapshot

  datatype Op =
    | CreateScope(id: ScopeId, name: string, parent: ScopeId)
    | RemoveScope(id: ScopeId, recursive: bool)

  datatype Committed = Committed(copy: Copy<Table>, saved: Option<Snapshot>, error: Option<ScopeError>)

  const ROOT_TABLE := Table([ROOT_SCOPE_ID], map[ROOT_SCOPE_ID := Scope(ROOT_SCOPE_ID, None, "root")])

  function StoredVersion(saved: Option<Snapshot>): nat {
    if saved.Some? then saved.value.version else 0
  }

  function Put(t: Table, s: Scope): Table {
    Table(if s.id in t.at then t.order else t.order + [s.id], t.at[s.id := s])
  }

  /** The dictionary built from a list of scopes: a repeated id keeps its place and its last value. */
  function TableOf(scopes: seq<Scope>): (t: Table)
    ensures t.Ordered()
  {
    if scopes == [] then Table([], map[])
    else Put(TableOf(scopes[..|scopes| - 1]), scopes[|scopes| - 1])
  }

  function Keep(order: seq<ScopeId>, gone: set<ScopeId>): (s: seq<ScopeId>)
    ensures forall k :: k in s <==> k in order && k !in gone
  {
    if order == [] then []
    else if order[|order| - 1] in gone then Keep(order[..|order| - 1], gone)
    else Keep(order[..|order| - 1], gone) + [order[|order| - 1]]
  }

  /** What one update does to a table, or the error it raises. */
  ghost function Edit(t: Table, op: Op): Result<Table, ScopeError>
    requires t.Ordered() && IsTree(t.at)
  {
    match op
    case CreateScope(id, name, parent) =>
      if IsBlank(id) || IsBlank(name) then Err(BlankText)
      else if id in t.at then Err(AlreadyExists(id))
      else if parent !in t.at then Err(NotFound(parent))
      else Ok(Table(t.order + [id], WithScope(t.at, id, name, parent)))
    case RemoveScope(id, recursive) =>
      if id == ROOT_SCOPE_ID then Err(RootRemoval)
      else if id !in t.at then Err(NotFound(id))
      else if !recursive && Subtree(t.at, id) != {id} then Err(NotEmpty(id))
      else Ok(Table(Keep(t.order, Subtree(t.at, id)), t.at - Subtree(t.at, id)))
  }

  /** One tree's attempt to commit an update to the shared store. */
  ghost function Step(c: Copy<Table>, saved: Option<Snapshot>, op: Op): Committed
    requires c.state.Ordered() && IsTree(c.state.at)
  {
    match Edit(c.state, op)
    case Err(e) => Committed(c, saved, Some(e))
    case Ok(t) =>
      if StoredVersion(saved) != c.version then Committed(c, saved, Some(StaleVersion))
      else
        EditKeepsTree(c.state, op);
        Committed(Copy(t, c.version + 1), Some(Snapshot(c.version + 1, t.Values())), None)
  }

  lemma StepOfCreate(c: Copy<Table>, saved: Option<Snapshot>, id: ScopeId, name: string, parent: ScopeId)
    requires c.state.Ordered() && IsTree(c.state.at) && id !in c.state.at
    ensures var s := Step(c, saved, CreateScope(id, name, parent));
            && s.error == (if IsBlank(id) || IsBlank(name) then Some(BlankText)
                           else if parent !in c.state.at then Some(NotFound(parent))
                           else if StoredVersion(saved) != c.version then Some(StaleVersion) else None)
            && if s.error.Some? then s.copy == c && s.saved == saved
               else && s.copy.state.at == WithScope(c.state.at, id, name, parent)
                    && StoredVersion(s.saved) == s.copy.version
  {
  }

  // ------------------------------------------------------------ facts about one edit

  lemma {:induction false} KeepKeepsOrder(order: seq<ScopeId>, gone: set<ScopeId>)
    requires Distinct(order)
    ensures Distinct(Keep(order, gone))
  {
    if order != [] {
      KeepKeepsOrder(order[..|order| - 1], gone);
    }
  }

  /** An update leaves a tree, and no scope that survives it gets another chain of ancestors. */
  lemma EditKeepsTree(t: Table, op: Op)
    requires t.Ordered() && IsTree(t.at)
    requires Edit(t, op).Ok?
    ensures var u := Edit(t, op).value;
            && u.Ordered() && IsTree(u.at)
            && (forall k :: k in t.at && k in u.at ==>
                  u.at[k] == t.at[k] && Chain(u.at, k) == Chain(t.at, k))
  {
    match op
    case CreateScope(id, name, parent) =>
      WithScopeKeepsChains(t.at, id, name, parent);
    case RemoveScope(id, recursive) =>
      WithoutSubtreeKeepsChains(t.at, id);
      KeepKeepsOrder(t.order, Subtree(t.at, id));
  }

  lemma {:induction false} KeepListed(f: Forest, g: Forest, s: seq<ScopeId>, gone: set<ScopeId>)
    requires Listed(f, s) && ROOT_SCOPE_ID !in gone
    requires forall k :: k in f && k !in gone ==> k in g && g[k] == f[k]
    requires forall k :: k in f && k !in gone && f[k].parent.Some? ==> f[k].parent.value !in gone
    ensures Listed(g, Keep(s, gone)) && (s != [] ==> Keep(s, gone) != [])
  {
    if s != [] {
      KeepListed(f, g, s[..|s| - 1], gone);
    }
  }

  lemma {:induction false} ListedIn(f: Forest, g: Forest, s: seq<ScopeId>)
    requires Listed(f, s)
    requires forall k :: k in f ==> k in g && g[k] == f[k]
    ensures Listed(g, s)
  {
    if s != [] {
      ListedIn(f, g, s[..|s| - 1]);
    }
  }

  lemma EditKeepsParentsFirst(t: Table, op: Op)
    requires t.Ordered() && IsTree(t.at) && t.ParentsFirst()
    requires Edit(t, op).Ok?
    ensures Edit(t, op).value.ParentsFirst()
  {
    var u := Edit(t, op).value;
    match op
    case CreateScope(id, name, parent) =>
      ListedIn(t.at, u.at, t.order);
      assert u.order[..|u.order| - 1] == t.order;
    case RemoveScope(id, recursive) =>
      var gone := Subtree(t.at, id);
      ChainOfRoot(t.at);
      forall k | k in t.at && k !in gone && t.at[k].parent.Some? ensures t.at[k].parent.value !in gone {
        ChainStep(t.at, k);
      }
      KeepListed(t.at, u.at, t.order, gone);
  }

  /** Saving a table and reading the list back gives the same dictionary, in the same order. */
  lemma TableRoundTrip(t: Table)
    requires t.Ordered()
    ensures TableOf(t.Values()) == t
  {
    ReadBack(t.order, t.at);
    assert t.at == map k | k in t.order :: t.at[k];
  }

  lemma ReadBackLast(order: seq<ScopeId>, at: Forest)
    requires order != [] && forall i :: 0 <= i < |order| ==> order[i] in at
    ensures TableOf(ValuesOf(order, at))
            == Put(TableOf(ValuesOf(order[..|order| - 1], at)), at[order[|order| - 1]])
  {
    var before := ValuesOf(order[..|order| - 1], at);
    var values := before + [at[order[|order| - 1]]];
    assert values == ValuesOf(order, at);
    hide Put, ValuesOf;
    assert values[..|values| - 1] == before;
  }

  lemma {:induction false} ReadBack(order: seq<ScopeId>, at: Forest)
    requires Distinct(order)
    requires forall i :: 0 <= i < |order| ==> order[i] in at && at[order[i]].id == order[i]
    ensures TableOf(ValuesOf(order, at)) == Table(order, map k | k in order :: at[k])
  {
    if order != [] {
      var rest, last := order[..|order| - 1], order[|order| - 1];
      ReadBack(rest, at);
      ReadBackLast(order, at);
      hide TableOf, ValuesOf;
      assert order == rest + [last];
      OneMoreKey(rest, last, at);
    }
  }

  lemma OneMoreKey(rest: seq<ScopeId>, last: ScopeId, at: Forest)
    requires last !in rest && last in at && forall k :: k in rest ==> k in at
    ensures (map k | k in rest :: at[k])[last := at[last]] == map k | k in rest + [last] :: at[k]
  {
  }

  // ------------------------------------------------------------ the objects

  class InMemoryScopeStore {
    var saved: Option<Snapshot>

    constructor ()
      ensures saved == None
    {
      saved := None;
    }

    method Save(scopes: seq<Scope>, expectedVersion: nat) returns (r: Result<nat, ScopeError>)
      modifies this
      ensures r.Ok? <==> StoredVersion(old(saved)) == expectedVersion
      ensures r.Ok? ==> r.value == expectedVersion + 1 && saved == Some(Snapshot(r.value, scopes))
      ensures r.Err? ==> r.error == StaleVersion && saved == old(saved)
    {
      var current := StoredVersion(saved);
      if current != expectedVersion {
        return Err(StaleVersion);
      }
      var version := current + 1;
      saved := Some(Snapshot(version, scopes));
      r := Ok(version);
    }
  }

  class ScopeTree {
    const store: InMemoryScopeStore
    var scopes: Table
    var version: nat

    ghost predicate Valid()
      reads this
    {
      scopes.Ordered() && IsTree(scopes.at)
    }

    ghost function View(): Copy<Table>
      reads this
    {
      Copy(scopes, version)
    }

    constructor Loaded(store: InMemoryScopeStore, scopes: Table, version: nat)
      ensures this.store == store && View() == Copy(scopes, version)
    {
      this.store, this.scopes, this.version := store, scopes, version;
    }

    /** Opens a tree on a store: an empty store gets a fresh root, a bad snapshot is refused. */
    static method Open(store: InMemoryScopeStore) returns (r: Result<ScopeTree, ScopeError>)
      modifies store
      ensures r.Ok? <==> old(store.saved).None? || IsTree(TableOf(old(store.saved).value.scopes).at)
      ensures r.Ok? ==> fresh(r.value) && r.value.Valid() && r.value.store == store
      ensures r.Ok? && old(store.saved).None? ==>
                && r.value.View() == Copy(ROOT_TABLE, 1)
                && store.saved == Some(Snapshot(1, ROOT_TABLE.Values()))
      ensures old(store.saved).Some? ==> store.saved == old(store.saved)
      ensures r.Ok? && old(store.saved).Some? ==>
                r.value.View() == Copy(TableOf(store.saved.value.scopes), store.saved.value.version)
    {
      if store.saved.None? {
        RootTableIsTree();
        var saved := store.Save(ROOT_TABLE.Values(), 0);
        var tree := new ScopeTree.Loaded(store, ROOT_TABLE, saved.value);
        return Ok(tree);
      }
      var table := TableOf(store.saved.value.scopes);
      var ok := ValidateSnapshot(table);
      if !ok {
        return Err(InvalidSnapshot);
      }
      var tree := new ScopeTree.Loaded(store, table, store.saved.value.version);
      r := Ok(tree);
    }

    /** Accepts a dictionary of scopes exactly when it is a tree rooted at `root`, cycles included. */
    static method ValidateSnapshot(t: Table) returns (ok: bool)
      requires t.Ordered()
      ensures ok <==> IsTree(t.at)
    {
      if ROOT_SCOPE_ID !in t.at || t.at[ROOT_SCOPE_ID].parent.Some? {
        return false;
      }
      for n := 0 to |t.order|
        invariant forall i {:trigger Settled(t.at, t.order[i])} :: 0 <= i < n ==> Settled(t.at, t.order[i])
      {
        var scope := t.order[n];
        if !HasParent(t.at, scope) {
          OrphanIsNoTree(t.at, scope);
          return false;
        }
        var stops := FollowParents(t.at, scope);
        if !stops {
          return false;
        }
      }
      AllStopIsTree(t);
      return true;
    }

    /** The inner loop: follows the parent links until they end, repeat, or leave the dictionary. */
    static method FollowParents(f: Forest, scope: ScopeId) returns (stops: bool)
      requires scope in f && ROOT_SCOPE_ID in f && f[ROOT_SCOPE_ID].parent == None
      ensures if stops then Stops(f, scope) else !IsTree(f)
    {
      var seen := {};
      var current := scope;
      ghost var path := [scope];
      while f[current].parent.Some?
        invariant IsWalk(f, scope, path) && path[|path| - 1] == current
        invariant forall k :: k in seen <==> k in path[..|path| - 1]
        invariant seen <= f.Keys
        decreases f.Keys - seen
      {
        if current in seen {
          CycleIsNoTree(f, scope, path);
          return false;
        }
        seen := seen + {current};
        var parent := f[current].parent.value;
        if parent !in f {
          OrphanIsNoTree(f, current);
          return false;
        }
        assert (path + [parent])[..|path|] == path[..|path| - 1] + [current];
        path := path + [parent];
        current := parent;
      }
      assert WalkEnds(f, scope, path);
      return true;
    }

    method Create(id: ScopeId, name: string, parent: ScopeId) returns (r: Result<Scope, ScopeError>)
      requires Valid()
      modifies this, store
      ensures Valid()
      ensures var c := Step(old(View()), old(store.saved), CreateScope(id, name, parent));
              && View() == c.copy && store.saved == c.saved
              && (r.Err? <==> c.error.Some?) && (r.Err? ==> r.error == c.error.value)
      ensures r.Ok? ==> r.value == Scope(id, Some(parent), name)
    {
      if IsBlank(id) || IsBlank(name) {
        return Err(BlankText);
      }
      if id in scopes.at {
        return Err(AlreadyExists(id));
      }
      if parent !in scopes.at {
        return Err(NotFound(parent));
      }
      EditKeepsTree(scopes, CreateScope(id, name, parent));
      var scope := Scope(id, Some(parent), name);
      var error := Commit(Put(scopes, scope));
      r := if error.Some? then Err(error.value) else Ok(scope);
    }

    method Commit(updated: Table) returns (error: Option<ScopeError>)
      requires updated.Ordered()
      modifies this, store
      ensures if StoredVersion(old(store.saved)) != old(version)
              then error == Some(StaleVersion) && View() == old(View()) && store.saved == old(store.saved)
              else
                && error == None && View() == Copy(updated, old(version) + 1)
                && store.saved == Some(Snapshot(old(version) + 1, updated.Values()))
    {
      var saved := store.Save(updated.Values(), version);
      if saved.Err? {
        return Some(saved.error);
      }
      scopes := updated;
      version := saved.value;
      error := None;
    }

    method Ancestors(id: ScopeId, includeSelf: bool) returns (r: Result<seq<ScopeId>, ScopeError>)
      requires Valid()
      ensures id !in scopes.at ==> r == Err(NotFound(id))
      ensures id in scopes.at ==>
                r == Ok(if includeSelf then Chain(scopes.at, id) else Chain(scopes.at, id)[1..])
    {
      if id !in scopes.at {
        return Err(NotFound(id));
      }
      ghost var c, i := Chain(scopes.at, id), 0;
      var result := if includeSelf then [id] else [];
      var current := id;
      ChainUp(scopes.at, id, 0);
      hide IsChain, HasChain, IsTree;
      while scopes.at[current].parent.Some?
        invariant 0 <= i < |c| && c[i] == current && current in scopes.at
        invariant scopes.at[current].parent == if i + 1 < |c| then Some(c[i + 1]) else None
        invariant result == if includeSelf then c[..i + 1] else c[1..i + 1]
        decreases |c| - i
      {
        current := scopes.at[current].parent.value;
        result := result + [current];
        i := i + 1;
        ChainUp(scopes.at, id, i);
      }
      assert c[..i + 1] == c && c[1..i + 1] == c[1..];
      r := Ok(result);
    }

    method DepthOf(id: ScopeId) returns (r: Result<nat, ScopeError>)
      requires Valid()
      ensures r == if id in scopes.at then Ok(Depth(scopes.at, id)) else Err(NotFound(id))
    {
      var above := Ancestors(id, false);
      r := match above case Ok(s) => Ok(|s|) case Err(e) => Err(e);
    }

    method IsAncestor(a: ScopeId, d: ScopeId, includeSelf: bool) returns (r: Result<bool, ScopeError>)
      requires Valid()
      ensures a in scopes.at && d in scopes.at ==>
                r == Ok(d in Subtree(scopes.at, a) && (includeSelf || a != d))
      ensures r.Err? <==> a !in scopes.at || d !in scopes.at
    {
      if a !in scopes.at {
        return Err(NotFound(a));
      }
      var above := Ancestors(d, includeSelf);
      if above.Err? {
        return Err(above.error);
      }
      ChainDistinct(scopes.at, d);
      ghost var c := Chain(scopes.at, d);
      assert c == [d] + c[1..];
      r := Ok(a in above.value);
    }

    method Children(id: ScopeId) returns (r: Result<seq<ScopeId>, ScopeError>)
      requires Valid()
      ensures r.Err? ==> id !in scopes.at && r.error == NotFound(id)
      ensures r.Ok? ==> id in scopes.at && Distinct(r.value)
      ensures r.Ok? ==> forall k :: k in r.value <==> k in scopes.at && scopes.at[k].parent == Some(id)
      ensures r.Ok? ==> InOrder(scopes.order, r.value)
      ensures r.Ok? ==> r.value == KidsOf(scopes.order, scopes.at, id)
    {
      if id !in scopes.at {
        return Err(NotFound(id));
      }
      hide IsTree;
      var kids := [];
      for n := 0 to |scopes.order|
        invariant kids == KidsOf(scopes.order[..n], scopes.at, id)
      {
        assert scopes.order[..n + 1][..n] == scopes.order[..n];
        if scopes.at[scopes.order[n]].parent == Some(id) {
          kids := kids + [scopes.order[n]];
        }
      }
      assert scopes.order[..|scopes.order|] == scopes.order;
      KidsDistinct(scopes.order, scopes.at, id);
      KidsInOrder(scopes.order, scopes.at, id);
      r := Ok(kids);
    }

    /** Everything below a scope, each scope once and after all its ancestors. */
    method Descendants(id: ScopeId) returns (r: Result<seq<ScopeId>, ScopeError>)
      requires Valid()
      ensures r.Err? ==> id !in scopes.at && r.error == NotFound(id)
      ensures r.Ok? ==> id in scopes.at && Distinct(r.value)
      ensures r.Ok? ==> forall k :: k in r.value <==> k in Subtree(scopes.at, id) && k != id
      ensures r.Ok? ==> RootsFirst(scopes.at, r.value)
      ensures r.Ok? ==> r.value == DepthFirst(scopes, id, |KidsOf(scopes.order, scopes.at, id)|)
    {
      if id !in scopes.at {
        return Err(NotFound(id));
      }
      var below := Visit(id);
      r := Ok(below);
    }

    method Visit(parent: ScopeId) returns (below: seq<ScopeId>)
      requires Valid() && parent in scopes.at
      ensures Distinct(below)
      ensures forall k :: k in below <==> k in Subtree(scopes.at, parent) && k != parent
      ensures RootsFirst(scopes.at, below)
      ensures below == DepthFirst(scopes, parent, |KidsOf(scopes.order, scopes.at, parent)|)
      decreases |scopes.at| - |Chain(scopes.at, parent)|
    {
      hide DepthFirst, KidsOf, RootsFirst, Subtree, Distinct;
      ghost var f := scopes.at;
      var kids := Children(parent);
      var children := kids.value;
      below := [];
      NothingBelow(scopes, parent);
      for n := 0 to |children|
        invariant Distinct(below) && RootsFirst(f, below)
        invariant forall k :: k in below <==> k in Covered(f, children[..n])
        invariant below == DepthFirst(scopes, parent, n)
      {
        var child := children[n];
        ChildBelow(f, parent, child);
        ChainFits(f, child);
        var deeper := Visit(child);
        DepthFirstStep(scopes, parent, n);
        ChildFirst(f, child, deeper);
        SiblingsApart(f, parent, children, n, below, [child] + deeper);
        below := below + ([child] + deeper);
      }
      assert children[..|children|] == children;
      ChildrenCover(f, parent, children);
    }

    /** Removes a scope, or its whole subtree; every scope is reported before its ancestors. */
    method Remove(id: ScopeId, recursive: bool) returns (r: Result<seq<ScopeId>, ScopeError>)
      requires Valid()
      modifies this, store
      ensures Valid()
      ensures var c := Step(old(View()), old(store.saved), RemoveScope(id, recursive));
              && View() == c.copy && store.saved == c.saved
              && (r.Err? <==> c.error.Some?) && (r.Err? ==> r.error == c.error.value)
      ensures r.Ok? ==> Distinct(r.value)
      ensures r.Ok? ==> forall k :: k in r.value <==> k in Subtree(old(scopes.at), id)
      ensures r.Ok? ==> LeavesFirst(old(scopes.at), r.value)
    {
      hide DepthFirst, KidsOf, RootsFirst, LeavesFirst, Distinct;
      if id == ROOT_SCOPE_ID {
        return Err(RootRemoval);
      }
      var below := Descendants(id);
      if below.Err? {
        return Err(below.error);
      }
      ghost var f := scopes.at;
      RemovalOrder(f, id, below.value);
      if below.value != [] && !recursive {
        return Err(NotEmpty(id));
      }
      var removed := Reversed(below.value) + [id];
      EditKeepsTree(scopes, RemoveScope(id, recursive));
      var gone := set k | k in removed;
      assert gone == Subtree(f, id);
      var updated := Table(Keep(scopes.order, gone), scopes.at - gone);
      var error := Commit(updated);
      r := if error.Some? then Err(error.value) else Ok(removed);
    }
  }

  lemma RootTableIsTree()
    ensures ROOT_TABLE.Ordered() && IsTree(ROOT_TABLE.at) && ROOT_TABLE.ParentsFirst()
    ensures ROOT_TABLE.Values() == [Scope(ROOT_SCOPE_ID, None, "root")]
    ensures TableOf(ROOT_TABLE.Values()) == ROOT_TABLE
  {
    assert IsChain(ROOT_TABLE.at, ROOT_SCOPE_ID, [ROOT_SCOPE_ID]);
    assert [ROOT_SCOPE_ID][..0] == [];
    assert ValuesOf([], ROOT_TABLE.at) == [];
    assert ValuesOf([ROOT_SCOPE_ID], ROOT_TABLE.at) == [] + [ROOT_TABLE.at[ROOT_SCOPE_ID]];
    TableRoundTrip(ROOT_TABLE);
  }

  /** The children of a scope, in the order of the dictionary. */
  function KidsOf(order: seq<ScopeId>, at: Forest, id: ScopeId): (kids: seq<ScopeId>)
    ensures forall k :: k in kids <==> k in order && k in at && at[k].parent == Some(id)
  {
    if order == [] then []
    else
      var rest, last := KidsOf(order[..|order| - 1], at, id), order[|order| - 1];
      if last in at && at[last].parent == Some(id) then rest + [last] else rest
  }

  lemma {:induction false} KidsDistinct(order: seq<ScopeId>, at: Forest, id: ScopeId)
    requires Distinct(order)
    ensures Distinct(KidsOf(order, at, id))
  {
    if order != [] {
      KidsDistinct(order[..|order| - 1], at, id);
    }
  }

  /** One scope comes before another in the dictionary. */
  ghost predicate Before(order: seq<ScopeId>, x: ScopeId, y: ScopeId) {
    exists i, j :: 0 <= i < j < |order| && order[i] == x && order[j] == y
  }

  /** The scopes are listed as the dictionary lists them. */
  ghost predicate InOrder(order: seq<ScopeId>, some: seq<ScopeId>) {
    forall i, j :: 0 <= i < j < |some| ==> Before(order, some[i], some[j])
  }

  lemma {:induction false} KidsInOrder(order: seq<ScopeId>, at: Forest, id: ScopeId)
    ensures InOrder(order, KidsOf(order, at, id))
  {
    if order != [] {
      var rest, last := order[..|order| - 1], order[|order| - 1];
      KidsInOrder(rest, at, id);
      assert order == rest + [last];
      InOrderStill(rest, last, KidsOf(rest, at, id));
    }
  }

  lemma InOrderStill(order: seq<ScopeId>, last: ScopeId, some: seq<ScopeId>)
    requires InOrder(order, some) && forall k :: k in some ==> k in order
    ensures InOrder(order + [last], some) && InOrder(order + [last], some + [last])
  {
    var all := some + [last];
    forall i, j | 0 <= i < j < |all| ensures Before(order + [last], all[i], all[j]) {
      if j < |some| {
        assert Before(order, some[i], some[j]);
        var k, l :| 0 <= k < l < |order| && order[k] == some[i] && order[l] == some[j];
        assert (order + [last])[k] == some[i] && (order + [last])[l] == some[j];
      } else {
        assert some[i] in some;
        var k :| 0 <= k < |order| && order[k] == some[i];
        assert (order + [last])[k] == some[i] && (order + [last])[|order|] == last;
      }
    }
    forall i, j | 0 <= i < j < |some| ensures Before(order + [last], some[i], some[j]) {
      assert all[i] == some[i] && all[j] == some[j];
    }
  }

  lemma {:induction false} KeepInOrder(order: seq<ScopeId>, gone: set<ScopeId>)
    ensures InOrder(order, Keep(order, gone))
  {
    if order != [] {
      var rest, last := order[..|order| - 1], order[|order| - 1];
      KeepInOrder(rest, gone);
      assert order == rest + [last];
      InOrderStill(rest, last, Keep(rest, gone));
    }
  }

  /** The dictionary appends what is created, and keeps what is not removed in its order. */
  lemma EditKeepsOrder(t: Table, op: Op)
    requires t.Ordered() && IsTree(t.at) && Edit(t, op).Ok?
    ensures op.CreateScope? ==> Edit(t, op).value.order == t.order + [op.id]
    ensures op.RemoveScope? ==> InOrder(t.order, Edit(t, op).value.order)
  {
    if op.RemoveScope? {
      KeepInOrder(t.order, Subtree(t.at, op.id));
    }
  }

  /** Everything below the first `n` children of a scope, each child followed by what is below it. */
  ghost function DepthFirst(t: Table, parent: ScopeId, n: nat): seq<ScopeId>
    requires t.Ordered() && IsTree(t.at) && parent in t.at && n <= |KidsOf(t.order, t.at, parent)|
    decreases |t.at| - |Chain(t.at, parent)|, n
  {
    if n == 0 then []
    else
      var child := KidsOf(t.order, t.at, parent)[n - 1];
      ChildBelow(t.at, parent, child);
      ChainFits(t.at, child);
      DepthFirst(t, parent, n - 1) + ([child] + DepthFirst(t, child, |KidsOf(t.order, t.at, child)|))
  }

  lemma NothingBelow(t: Table, parent: ScopeId)
    requires t.Ordered() && IsTree(t.at) && parent in t.at
    ensures DepthFirst(t, parent, 0) == [] && Distinct<ScopeId>([]) && RootsFirst(t.at, [])
    ensures Covered(t.at, []) == {}
  {
  }

  lemma DepthFirstStep(t: Table, parent: ScopeId, n: nat)
    requires t.Ordered() && IsTree(t.at) && parent in t.at && n < |KidsOf(t.order, t.at, parent)|
    ensures var child := KidsOf(t.order, t.at, parent)[n];
            && child in t.at
            && DepthFirst(t, parent, n + 1)
               == DepthFirst(t, parent, n) + ([child] + DepthFirst(t, child, |KidsOf(t.order, t.at, child)|))
  {
    ChildBelow(t.at, parent, KidsOf(t.order, t.at, parent)[n]);
    ChainFits(t.at, KidsOf(t.order, t.at, parent)[n]);
  }

  // ------------------------------------------------------------ validation

  predicate HasParent(f: Forest, id: ScopeId) {
    id in f && (id == ROOT_SCOPE_ID || (f[id].parent.Some? && f[id].parent.value in f))
  }

  ghost predicate IsWalk(f: Forest, id: ScopeId, p: seq<ScopeId>) {
    && |p| > 0 && p[0] == id
    && (forall i :: 0 <= i < |p| ==> p[i] in f)
    && (forall i :: 0 <= i < |p| - 1 ==> f[p[i]].parent == Some(p[i + 1]))
  }

  ghost predicate Stops(f: Forest, id: ScopeId) {
    exists p :: WalkEnds(f, id, p)
  }

  ghost predicate Settled(f: Forest, id: ScopeId) {
    HasParent(f, id) && Stops(f, id)
  }

  ghost predicate WalkEnds(f: Forest, id: ScopeId, p: seq<ScopeId>) {
    IsWalk(f, id, p) && f[p[|p| - 1]].parent == None
  }

  /** In a tree every walk up the parent links is a prefix of the chain. */
  lemma {:induction false} WalkIsPrefix(f: Forest, id: ScopeId, p: seq<ScopeId>)
    requires IsTree(f) && IsWalk(f, id, p)
    ensures p <= Chain(f, id)
    decreases |p|
  {
    if |p| > 1 {
      assert f[p[0]].parent == Some(p[1]);
      ChainStep(f, id);
      assert IsWalk(f, p[1], p[1..]);
      WalkIsPrefix(f, p[1], p[1..]);
      assert p == [id] + p[1..];
    }
  }

  lemma SettledAt(t: Table, k: ScopeId)
    requires t.Ordered() && k in t.at
    requires forall i {:trigger Settled(t.at, t.order[i])} :: 0 <= i < |t.order| ==> Settled(t.at, t.order[i])
    ensures Settled(t.at, k)
  {
    var i :| 0 <= i < |t.order| && t.order[i] == k;
    assert Settled(t.at, t.order[i]);
  }

  lemma AllStopIsTree(t: Table)
    requires t.Ordered() && ROOT_SCOPE_ID in t.at && t.at[ROOT_SCOPE_ID].parent == None
    requires forall i {:trigger Settled(t.at, t.order[i])} :: 0 <= i < |t.order| ==> Settled(t.at, t.order[i])
    ensures IsTree(t.at)
  {
    forall k | k in t.at ensures HasChain(t.at, k) {
      SettledAt(t, k);
      var p :| WalkEnds(t.at, k, p);
      SettledAt(t, p[|p| - 1]);
      assert IsChain(t.at, k, p);
    }
  }

  lemma OrphanIsNoTree(f: Forest, id: ScopeId)
    requires id in f && !HasParent(f, id)
    ensures !IsTree(f)
  {
    if IsTree(f) {
      ChainStep(f, id);
    }
  }

  lemma CycleIsNoTree(f: Forest, id: ScopeId, p: seq<ScopeId>)
    requires IsWalk(f, id, p)
    requires exists i :: 0 <= i < |p| - 1 && p[i] == p[|p| - 1]
    ensures !IsTree(f)
  {
    if IsTree(f) {
      WalkIsPrefix(f, id, p);
      ChainDistinct(f, id);
    }
  }

  // ------------------------------------------------------------ descendants

  /** No scope is listed after one of its descendants. */
  ghost predicate RootsFirst(f: Forest, s: seq<ScopeId>) {
    && (forall i :: 0 <= i < |s| ==> HasChain(f, s[i]))
    && (forall i, j :: 0 <= i < j < |s| ==> s[j] !in Chain(f, s[i]))
  }

  /** No scope is listed after one of its ancestors. */
  ghost predicate LeavesFirst(f: Forest, s: seq<ScopeId>) {
    && (forall i :: 0 <= i < |s| ==> HasChain(f, s[i]))
    && (forall i, j :: 0 <= i < j < |s| ==> s[i] !in Chain(f, s[j]))
  }

  ghost function Covered(f: Forest, tops: seq<ScopeId>): set<ScopeId>
    requires IsTree(f)
  {
    set k | k in f && exists i :: 0 <= i < |tops| && tops[i] in Chain(f, k)
  }

  function Reversed(s: seq<ScopeId>): (r: seq<ScopeId>)
    ensures |r| == |s| && forall i :: 0 <= i < |s| ==> r[i] == s[|s| - 1 - i]
  {
    if s == [] then [] else Reversed(s[1..]) + [s[0]]
  }

  lemma ReversedLeavesFirst(f: Forest, s: seq<ScopeId>)
    requires RootsFirst(f, s) && Distinct(s)
    ensures LeavesFirst(f, Reversed(s)) && Distinct(Reversed(s))
    ensures forall k :: k in Reversed(s) <==> k in s
  {
    forall k | k in s ensures k in Reversed(s) {
      var i :| 0 <= i < |s| && s[i] == k;
      assert Reversed(s)[|s| - 1 - i] == k;
    }
  }

  lemma RemovalOrder(f: Forest, id: ScopeId, below: seq<ScopeId>)
    requires IsTree(f) && id in f
    requires Distinct(below) && RootsFirst(f, below)
    requires forall k :: k in below <==> k in Subtree(f, id) && k != id
    ensures var removed := Reversed(below) + [id];
            && Distinct(removed) && LeavesFirst(f, removed)
            && (forall k :: k in removed <==> k in Subtree(f, id))
    ensures below == [] <==> Subtree(f, id) == {id}
  {
    ReversedLeavesFirst(f, below);
    forall k | k in below ensures k !in Chain(f, id) {
      if k in Chain(f, id) {
        UnderTransitive(f, id, k, id);
      }
    }
    assert id in Subtree(f, id);
    if below != [] {
      assert below[0] in Subtree(f, id);
    }
  }

  lemma ChildBelow(f: Forest, parent: ScopeId, child: ScopeId)
    requires IsTree(f) && child in f && f[child].parent == Some(parent)
    ensures parent in f && Chain(f, child) == [child] + Chain(f, parent)
  {
    ChainOfRoot(f);
    assert child != ROOT_SCOPE_ID;
    ChainStep(f, child);
  }

  lemma ConcatRootsFirst(f: Forest, a: seq<ScopeId>, b: seq<ScopeId>)
    requires Distinct(a) && RootsFirst(f, a) && Distinct(b) && RootsFirst(f, b)
    requires forall x, y :: x in a && y in b ==> x != y && y !in Chain(f, x)
    ensures Distinct(a + b) && RootsFirst(f, a + b)
  {
    var all := a + b;
    forall i, j | 0 <= i < j < |all| ensures all[i] != all[j] && all[j] !in Chain(f, all[i]) {
      if i < |a| <= j {
        assert all[i] in a && all[j] in b;
      }
    }
  }

  lemma ChildFirst(f: Forest, child: ScopeId, deeper: seq<ScopeId>)
    requires IsTree(f) && child in f
    requires Distinct(deeper) && RootsFirst(f, deeper)
    requires forall k :: k in deeper <==> k in Subtree(f, child) && k != child
    ensures Distinct([child] + deeper) && RootsFirst(f, [child] + deeper)
    ensures forall k :: k in [child] + deeper <==> k in Subtree(f, child)
  {
    forall y | y in deeper ensures y !in Chain(f, child) {
      UnderTransitive(f, child, child, y);
      if y in Chain(f, child) {
        UnderTransitive(f, child, y, child);
      }
    }
    ConcatRootsFirst(f, [child], deeper);
  }

  /** Two children of one scope are never both on one chain. */
  lemma SiblingUnique(f: Forest, parent: ScopeId, a: ScopeId, b: ScopeId, k: ScopeId)
    requires HasChain(f, k) && a in Chain(f, k) && b in Chain(f, k)
    requires a in f && b in f && f[a].parent == f[b].parent == Some(parent)
    ensures a == b
  {
    var c := Chain(f, k);
    ChainDistinct(f, k);
    var i :| 0 <= i < |c| && c[i] == a;
    var j :| 0 <= j < |c| && c[j] == b;
    assert i < |c| - 1 && j < |c| - 1;
    assert c[i + 1] == parent == c[j + 1];
  }

  lemma SiblingsApart(f: Forest, parent: ScopeId, kids: seq<ScopeId>, n: nat, below: seq<ScopeId>,
                      block: seq<ScopeId>)
    requires IsTree(f) && Distinct(kids) && n < |kids|
    requires forall k :: k in kids ==> k in f && f[k].parent == Some(parent)
    requires Distinct(below) && RootsFirst(f, below)
    requires forall k :: k in below <==> k in Covered(f, kids[..n])
    requires Distinct(block) && RootsFirst(f, block)
    requires forall k :: k in block <==> k in Subtree(f, kids[n])
    ensures Distinct(below + block) && RootsFirst(f, below + block)
    ensures forall k :: k in below + block <==> k in Covered(f, kids[..n + 1])
  {
    forall x, y | x in below && y in block ensures x != y && y !in Chain(f, x) {
      var i :| 0 <= i < n && kids[..n][i] in Chain(f, x);
      if y in Chain(f, x) {
        UnderTransitive(f, kids[n], y, x);
        SiblingUnique(f, parent, kids[i], kids[n], x);
      }
    }
    ConcatRootsFirst(f, below, block);
    assert kids[..n + 1] == kids[..n] + [kids[n]];
    CoveredByOneMore(f, kids[..n], kids[n]);
  }

  lemma CoveredByOneMore(f: Forest, tops: seq<ScopeId>, top: ScopeId)
    requires IsTree(f)
    ensures Covered(f, tops + [top]) == Covered(f, tops) + Subtree(f, top)
  {
    var more := tops + [top];
    forall k | k in Covered(f, tops) ensures k in Covered(f, more) {
      var i :| 0 <= i < |tops| && tops[i] in Chain(f, k);
      assert more[i] in Chain(f, k);
    }
    forall k | k in Subtree(f, top) ensures k in Covered(f, more) {
      assert more[|tops|] in Chain(f, k);
    }
  }

  /** The scopes under some child of a scope are its proper descendants. */
  lemma ChildrenCover(f: Forest, parent: ScopeId, kids: seq<ScopeId>)
    requires IsTree(f) && parent in f
    requires forall k :: k in kids <==> k in f && f[k].parent == Some(parent)
    ensures Covered(f, kids) == Subtree(f, parent) - {parent}
  {
    forall k | k in Covered(f, kids) ensures k in Subtree(f, parent) && k != parent {
      var i :| 0 <= i < |kids| && kids[i] in Chain(f, k);
      assert kids[i] in kids;
      ChildBelow(f, parent, kids[i]);
      UnderTransitive(f, parent, kids[i], k);
      ChainDistinct(f, kids[i]);
      assert Chain(f, kids[i])[1..] == Chain(f, parent);
    }
    forall k | k in Subtree(f, parent) && k != parent ensures k in Covered(f, kids) {
      ChildOnChain(f, parent, k);
    }
  }

  lemma ChildOnChain(f: Forest, parent: ScopeId, k: ScopeId)
    requires IsTree(f) && k in f && parent in Chain(f, k) && k != parent
    ensures exists child :: child in Chain(f, k) && child in f && f[child].parent == Some(parent)
  {
    var c := Chain(f, k);
    var j :| 0 <= j < |c| && c[j] == parent;
    assert f[c[j - 1]].parent == Some(c[j - 1 + 1]);
  }
}
