/** Scopes as plain values, and the parent chains that make a map of scopes a tree. */
module ScopeForest {
  import opened Common

  type ScopeId = string

  const ROOT_SCOPE_ID: ScopeId := "root"

  datatype Scope = Scope(id: ScopeId, parent: Option<ScopeId>, name: string)

  type Forest = map<ScopeId, Scope>

  /** `c` walks from `id` up the parent links and ends at a parentless root. */
  ghost predicate IsChain(f: Forest, id: ScopeId, c: seq<ScopeId>) {
    && |c| > 0 && c[0] == id && c[|c| - 1] == ROOT_SCOPE_ID
    && (forall i :: 0 <= i < |c| ==> c[i] in f)
    && (forall i :: 0 <= i < |c| - 1 ==> f[c[i]].parent == Some(c[i + 1]))
    && f[ROOT_SCOPE_ID].parent == None
  }

  ghost predicate HasChain(f: Forest, id: ScopeId) {
    exists c :: IsChain(f, id, c)
  }

  /** A tree rooted at `root`: every parent chain ends there. */
  ghost predicate IsTree(f: Forest) {
    && ROOT_SCOPE_ID in f
    && f[ROOT_SCOPE_ID].parent == None
    && (forall k :: k in f ==> f[k].id == k)
    && (forall k {:trigger HasChain(f, k)} :: k in f ==> HasChain(f, k))
  }

  /** The scope itself, then its ancestors, nearest first. */
  ghost function Chain(f: Forest, id: ScopeId): (c: seq<ScopeId>)
    requires HasChain(f, id)
    ensures IsChain(f, id, c)
  {
    var c :| IsChain(f, id, c);
    c
  }

  ghost function Depth(f: Forest, id: ScopeId): nat
    requires HasChain(f, id)
  {
    |Chain(f, id)| - 1
  }

  /** The scopes that have `id` among themselves and their ancestors. */
  ghost function Subtree(f: Forest, id: ScopeId): set<ScopeId>
    requires IsTree(f)
  {
    set k | k in f && id in Chain(f, k)
  }

  lemma TreeHasChain(f: Forest, id: ScopeId)
    requires IsTree(f) && id in f
    ensures HasChain(f, id)
  {
  }

  /** Only the root stands alone; every other chain goes on with the parent's. */
  lemma ChainStart(f: Forest, id: ScopeId, c: seq<ScopeId>)
    requires IsChain(f, id, c)
    ensures |c| == 1 <==> id == ROOT_SCOPE_ID
    ensures |c| > 1 ==> f[id].parent == Some(c[1]) && IsChain(f, c[1], c[1..])
  {
    if |c| > 1 {
      assert f[c[0]].parent == Some(c[1]);
    }
  }

  lemma {:induction false} ChainUnique(f: Forest, id: ScopeId, c: seq<ScopeId>, d: seq<ScopeId>)
    requires IsChain(f, id, c) && IsChain(f, id, d)
    ensures c == d
    decreases |c|
  {
    ChainStart(f, id, c);
    ChainStart(f, id, d);
    if id != ROOT_SCOPE_ID {
      ChainUnique(f, c[1], c[1..], d[1..]);
      assert c == [c[0]] + c[1..] && d == [d[0]] + d[1..];
    }
  }

  lemma ChainIs(f: Forest, id: ScopeId, c: seq<ScopeId>)
    requires IsChain(f, id, c)
    ensures HasChain(f, id) && Chain(f, id) == c
  {
    ChainUnique(f, id, c, Chain(f, id));
  }

  /** Every suffix of a chain is the chain of its first scope. */
  lemma ChainSuffix(f: Forest, id: ScopeId, i: nat)
    requires HasChain(f, id) && i < |Chain(f, id)|
    ensures HasChain(f, Chain(f, id)[i]) && Chain(f, Chain(f, id)[i]) == Chain(f, id)[i..]
  {
    var c := Chain(f, id);
    ChainIs(f, c[i], c[i..]);
  }

  /** The parent link at position `i` of a chain leads to the next position, if there is one. */
  lemma ChainUp(f: Forest, id: ScopeId, i: nat)
    requires HasChain(f, id) && i < |Chain(f, id)|
    ensures var c := Chain(f, id);
            c[i] in f && f[c[i]].parent == if i + 1 < |c| then Some(c[i + 1]) else None
  {
  }

  /** No scope is its own proper ancestor. */
  lemma ChainDistinct(f: Forest, id: ScopeId)
    requires HasChain(f, id)
    ensures Distinct(Chain(f, id))
  {
    var c := Chain(f, id);
    forall i, j | 0 <= i < j < |c| ensures c[i] != c[j] {
      ChainSuffix(f, id, i);
      ChainSuffix(f, id, j);
      assert |c[i..]| != |c[j..]|;
    }
  }

  lemma ChainFits(f: Forest, id: ScopeId)
    requires HasChain(f, id)
    ensures |Chain(f, id)| <= |f|
  {
    ChainDistinct(f, id);
    DistinctBound(Chain(f, id), f.Keys);
    assert |f.Keys| == |f|;
  }

  lemma ChainOfRoot(f: Forest)
    requires IsTree(f)
    ensures Chain(f, ROOT_SCOPE_ID) == [ROOT_SCOPE_ID]
  {
    ChainIs(f, ROOT_SCOPE_ID, [ROOT_SCOPE_ID]);
  }

  /** A chain is the scope followed by the chain of its parent. */
  lemma ChainStep(f: Forest, id: ScopeId)
    requires IsTree(f) && id in f && id != ROOT_SCOPE_ID
    ensures f[id].parent.Some? && f[id].parent.value in f
    ensures Chain(f, id) == [id] + Chain(f, f[id].parent.value)
  {
    var c := Chain(f, id);
    assert |c| > 1;
    assert f[c[0]].parent == Some(c[1]);
    ChainSuffix(f, id, 1);
    assert c == [c[0]] + c[1..];
  }

  /** A scope with no children is alone in its subtree. */
  lemma ChildlessIff(f: Forest, id: ScopeId)
    requires IsTree(f) && id in f
    ensures id in Subtree(f, id)
    ensures Subtree(f, id) == {id} <==> forall k :: k in f ==> f[k].parent != Some(id)
  {
    forall k | k in f && f[k].parent == Some(id) ensures k in Subtree(f, id) && k != id {
      ChainOfRoot(f);
      ChainStep(f, k);
      ChainDistinct(f, k);
      assert Chain(f, k)[1] == id;
    }
    forall k | k in Subtree(f, id) && k != id ensures exists kid :: kid in f && f[kid].parent == Some(id) {
      var c := Chain(f, k);
      var j :| 0 <= j < |c| && c[j] == id;
      assert f[c[j - 1]].parent == Some(c[j - 1 + 1]);
    }
  }

  /** Being under a scope is transitive, and mutual only for equal scopes. */
  lemma UnderTransitive(f: Forest, a: ScopeId, b: ScopeId, k: ScopeId)
    requires IsTree(f) && b in f && k in f
    requires a in Chain(f, b) && b in Chain(f, k)
    ensures a in Chain(f, k)
    ensures k in Chain(f, b) ==> b == k
  {
    var c := Chain(f, k);
    var i :| 0 <= i < |c| && c[i] == b;
    ChainSuffix(f, k, i);
    assert Chain(f, b) == c[i..];
    if k in Chain(f, b) {
      ChainDistinct(f, k);
      var j :| 0 <= j < |c[i..]| && c[i..][j] == k;
      assert c[i + j] == c[0];
    }
  }

  // ------------------------------------------------------------------ edits

  function WithScope(f: Forest, id: ScopeId, name: string, parent: ScopeId): Forest {
    f[id := Scope(id, Some(parent), name)]
  }

  /** A new leaf keeps the tree a tree and every existing chain as it was. */
  lemma WithScopeKeepsChains(f: Forest, id: ScopeId, name: string, parent: ScopeId)
    requires IsTree(f) && id !in f && parent in f
    ensures var g := WithScope(f, id, name, parent);
            && IsTree(g)
            && (forall k :: k in f ==> Chain(g, k) == Chain(f, k))
            && Chain(g, id) == [id] + Chain(f, parent)
  {
    var g := WithScope(f, id, name, parent);
    forall k | k in f ensures HasChain(g, k) && Chain(g, k) == Chain(f, k) {
      assert IsChain(g, k, Chain(f, k));
      ChainIs(g, k, Chain(f, k));
    }
    assert IsChain(g, id, [id] + Chain(f, parent));
    ChainIs(g, id, [id] + Chain(f, parent));
  }

  /** Dropping a whole subtree keeps the rest a tree with the same chains and depths. */
  lemma WithoutSubtreeKeepsChains(f: Forest, id: ScopeId)
    requires IsTree(f) && id in f && id != ROOT_SCOPE_ID
    ensures var g := f - Subtree(f, id);
            && IsTree(g)
            && g.Keys == f.Keys - Subtree(f, id)
            && (forall k :: k in g ==> Chain(g, k) == Chain(f, k) && Depth(g, k) == Depth(f, k))
  {
    var g := f - Subtree(f, id);
    ChainOfRoot(f);
    forall k | k in g ensures HasChain(g, k) && Chain(g, k) == Chain(f, k) {
      var c := Chain(f, k);
      forall i | 0 <= i < |c| ensures c[i] in g {
        if c[i] in Subtree(f, id) {
          UnderTransitive(f, id, c[i], k);
        }
      }
      assert IsChain(g, k, c);
      ChainIs(g, k, c);
    }
  }
}
