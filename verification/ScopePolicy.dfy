/** Nearest-scope shadowing: which of the plugins a consumer may see it gets. */
module ScopePolicy {
  import opened Common
  import opened ScopeForest
  import opened StableSort
  import opened TextOrder

  datatype Candidate<S> = Candidate(scope: ScopeId, key: string, ranking: int, service: S)

  /** `{scope: index}` over the visible chain: the last position of a scope, the length when it has none. */
  function Distance(visible: seq<ScopeId>, scope: ScopeId): (d: nat)
    ensures d <= |visible|
    ensures d < |visible| <==> scope in visible
    ensures d < |visible| ==> visible[d] == scope && forall i :: d < i < |visible| ==> visible[i] != scope
  {
    if visible == [] then 0
    else
      var n := |visible| - 1;
      if visible[n] == scope then n
      else
        var d := Distance(visible[..n], scope);
        if d == n then n + 1 else d
  }

  predicate RankedBefore<S>(a: Candidate<S>, b: Candidate<S>) {
    a.ranking > b.ranking || (a.ranking == b.ranking && TextLe(a.key, b.key))
  }

  /** The sort key inside one scope: ranking down, then key. */
  function ByRanking<S>(): (Candidate<S>, Candidate<S>) -> bool {
    (a, b) => RankedBefore(a, b)
  }

  /** The sort key across scopes: nearest first, then as inside one scope. */
  function ByDistance<S>(visible: seq<ScopeId>): (Candidate<S>, Candidate<S>) -> bool {
    (a: Candidate<S>, b: Candidate<S>) =>
      || Distance(visible, a.scope) < Distance(visible, b.scope)
      || (Distance(visible, a.scope) == Distance(visible, b.scope) && RankedBefore(a, b))
  }

  function InScope<S>(scope: ScopeId): Candidate<S> -> bool {
    (c: Candidate<S>) => c.scope == scope
  }

  function InScopes<S>(visible: seq<ScopeId>): Candidate<S> -> bool {
    (c: Candidate<S>) => c.scope in visible
  }

  function HasKey<S>(key: string): Candidate<S> -> bool {
    (c: Candidate<S>) => c.key == key
  }

  // ------------------------------------------------------------ the two resolutions

  function ResolveBest<S>(visible: seq<ScopeId>, candidates: seq<Candidate<S>>): Option<Candidate<S>> {
    var seen := Filter(InScopes(visible), candidates);
    if seen == [] then None else Some(FirstMin(ByDistance(visible), seen))
  }

  /** The first candidate of every key that is not in `seen` yet. */
  function FirstOfKeys<S>(s: seq<Candidate<S>>, seen: set<string>): seq<Candidate<S>> {
    if s == [] then []
    else if s[0].key in seen then FirstOfKeys(s[1..], seen)
    else [s[0]] + FirstOfKeys(s[1..], seen + {s[0].key})
  }

  /** The loop over scopes, each one sorted on its own. */
  function ScopeByScope<S>(visible: seq<ScopeId>, candidates: seq<Candidate<S>>): seq<Candidate<S>> {
    if visible == [] then []
    else Sort(ByRanking(), Filter(InScope(visible[0]), candidates)) + ScopeByScope(visible[1..], candidates)
  }

  /** One sort of everything visible. */
  function AllAtOnce<S>(visible: seq<ScopeId>, candidates: seq<Candidate<S>>): seq<Candidate<S>> {
    Sort(ByDistance(visible), Filter(InScopes(visible), candidates))
  }

  method ResolveAggregate<S>(visible: seq<ScopeId>, candidates: seq<Candidate<S>>)
    returns (resolved: seq<Candidate<S>>)
    ensures resolved == FirstOfKeys(ScopeByScope(visible, candidates), {})
  {
    hide *;
    resolved := [];
    var seen := {};
    ghost var all := ScopeByScope(visible, candidates);
    assert visible[0..] == visible;
    for n := 0 to |visible|
      invariant resolved + FirstOfKeys(ScopeByScope(visible[n..], candidates), seen) == FirstOfKeys(all, {})
    {
      var local := Sort(ByRanking(), Filter(InScope(visible[n]), candidates));
      NextScope(visible[n..], candidates);
      assert visible[n..][1..] == visible[n + 1..];
      ghost var later := ScopeByScope(visible[n + 1..], candidates);
      assert local[0..] == local;
      for m := 0 to |local|
        invariant resolved + FirstOfKeys(local[m..] + later, seen) == FirstOfKeys(all, {})
      {
        NextCandidate(resolved, local[m..] + later, seen);
        assert (local[m..] + later)[1..] == local[m + 1..] + later;
        if local[m].key !in seen {
          seen := seen + {local[m].key};
          resolved := resolved + [local[m]];
        }
      }
      assert local[|local|..] + later == later;
    }
    NothingMore(visible[|visible|..], candidates, seen);
  }

  lemma NextScope<S>(visible: seq<ScopeId>, candidates: seq<Candidate<S>>)
    requires visible != []
    ensures ScopeByScope(visible, candidates)
            == Sort(ByRanking(), Filter(InScope(visible[0]), candidates)) + ScopeByScope(visible[1..], candidates)
  {
  }

  lemma NextCandidate<S>(before: seq<Candidate<S>>, s: seq<Candidate<S>>, seen: set<string>)
    requires s != []
    ensures before + FirstOfKeys(s, seen)
            == if s[0].key in seen then before + FirstOfKeys(s[1..], seen)
               else (before + [s[0]]) + FirstOfKeys(s[1..], seen + {s[0].key})
  {
    if s[0].key !in seen {
      Regroup(before, s[0], FirstOfKeys(s[1..], seen + {s[0].key}));
    }
  }

  lemma NothingMore<S>(visible: seq<ScopeId>, candidates: seq<Candidate<S>>, seen: set<string>)
    requires visible == []
    ensures FirstOfKeys(ScopeByScope(visible, candidates), seen) == []
  {
  }

  // ------------------------------------------------------------ injected providers

  /** An injected object; two entries with one id are the same object. */
  datatype Provider = Provider(id: int, scope: Option<string>, key: Option<string>, ranking: Option<int>)

  type Metadata = map<int, (string, string, int)>

  /** The given metadata first, then the attributes the manager left on the object. */
  function MetadataOf(p: Provider, metadata: Metadata): Option<(string, string, int)> {
    if p.id in metadata then Some(metadata[p.id])
    else if p.scope.Some? && p.key.Some? then
      Some((p.scope.value, p.key.value, if p.ranking.Some? then p.ranking.value else 0))
    else None
  }

  function Scoped(providers: seq<Provider>, metadata: Metadata): seq<Candidate<Provider>> {
    if providers == [] then []
    else
      var p := providers[0];
      (match MetadataOf(p, metadata)
       case None => []
       case Some((scope, key, ranking)) => [Candidate(scope, key, ranking, p)])
      + Scoped(providers[1..], metadata)
  }

  function Legacy(metadata: Metadata): Provider -> bool {
    (p: Provider) => MetadataOf(p, metadata).None?
  }

  function Services<S>(s: seq<Candidate<S>>): seq<S> {
    seq(|s|, i requires 0 <= i < |s| => s[i].service)
  }

  /** A provider is legacy if neither the caller nor the object itself says where it belongs. */
  lemma LegacyIff(p: Provider, metadata: Metadata)
    ensures Legacy(metadata)(p) <==> p.id !in metadata && (p.scope == None || p.key == None)
  {
  }

  /** A provider that is not stands for one candidate: what the caller gave comes before what the object says. */
  lemma CandidateOf(p: Provider, metadata: Metadata)
    ensures p.id in metadata ==>
              Scoped([p], metadata) == [Candidate(metadata[p.id].0, metadata[p.id].1, metadata[p.id].2, p)]
    ensures p.id !in metadata && p.scope.Some? && p.key.Some? ==>
              Scoped([p], metadata)
              == [Candidate(p.scope.value, p.key.value, if p.ranking == None then 0 else p.ranking.value, p)]
    ensures Legacy(metadata)(p) ==> Scoped([p], metadata) == []
  {
    assert [p][1..] == [];
  }

  /** Providers are taken one by one, in their order. */
  lemma {:induction false} ScopedJoins(first: seq<Provider>, second: seq<Provider>, metadata: Metadata)
    ensures Scoped(first + second, metadata) == Scoped(first, metadata) + Scoped(second, metadata)
  {
    if first == [] {
      assert first + second == second;
    } else {
      assert (first + second)[1..] == first[1..] + second;
      ScopedJoins(first[1..], second, metadata);
    }
  }

  predicate SameObjects(providers: seq<Provider>) {
    forall i, j :: 0 <= i < |providers| && 0 <= j < |providers| && providers[i].id == providers[j].id ==>
      providers[i] == providers[j]
  }

  method Complete(providers: seq<Provider>, metadata: Metadata) returns (complete: Metadata)
    requires SameObjects(providers)
    ensures forall i :: 0 <= i < |providers| ==>
              MetadataOf(providers[i], metadata)
              == if providers[i].id in complete then Some(complete[providers[i].id]) else None
  {
    complete := metadata;
    for n := 0 to |providers|
      invariant forall k :: k in metadata ==> k in complete && complete[k] == metadata[k]
      invariant forall k :: k in complete && k !in metadata ==>
                  exists j :: 0 <= j < n && providers[j].id == k
                    && MetadataOf(providers[j], metadata) == Some(complete[k])
      invariant forall j :: 0 <= j < n && MetadataOf(providers[j], metadata).Some? ==> providers[j].id in complete
    {
      var p := providers[n];
      if p.id !in complete && p.scope.Some? && p.key.Some? {
        complete := complete[p.id := (p.scope.value, p.key.value, if p.ranking.Some? then p.ranking.value else 0)];
      }
    }
  }

  method ScopedCandidates(providers: seq<Provider>, complete: Metadata, ghost metadata: Metadata)
    returns (scoped: seq<Candidate<Provider>>)
    requires forall i :: 0 <= i < |providers| ==>
               MetadataOf(providers[i], metadata)
               == if providers[i].id in complete then Some(complete[providers[i].id]) else None
    ensures scoped == Scoped(providers, metadata)
  {
    hide *;
    scoped := [];
    assert providers[0..] == providers;
    for n := 0 to |providers|
      invariant scoped + Scoped(providers[n..], metadata) == Scoped(providers, metadata)
    {
      var p := providers[n];
      NextProvider(providers[n..], metadata);
      assert providers[n..][1..] == providers[n + 1..];
      if p.id in complete {
        var (scope, key, ranking) := complete[p.id];
        Regroup(scoped, Candidate(scope, key, ranking, p), Scoped(providers[n + 1..], metadata));
        scoped := scoped + [Candidate(scope, key, ranking, p)];
      }
    }
    NextProvider(providers[|providers|..], metadata);
  }

  lemma NextProvider(providers: seq<Provider>, metadata: Metadata)
    ensures providers == [] ==> Scoped(providers, metadata) == []
    ensures providers != [] ==>
              var more := Scoped(providers[1..], metadata);
              match MetadataOf(providers[0], metadata)
              case None => Scoped(providers, metadata) == more
              case Some((scope, key, ranking)) =>
                Scoped(providers, metadata) == [Candidate(scope, key, ranking, providers[0])] + more
  {
    hide MetadataOf;
  }

  lemma Regroup<T>(before: seq<T>, x: T, more: seq<T>)
    ensures before + ([x] + more) == (before + [x]) + more
  {
  }

  method ResolveScopedAggregate(visible: seq<ScopeId>, providers: seq<Provider>, metadata: Metadata)
    returns (r: seq<Provider>)
    requires SameObjects(providers)
    ensures visible == [] ==> r == providers
    ensures visible != [] ==>
              r == Services(FirstOfKeys(AllAtOnce(visible, Scoped(providers, metadata)), {}))
                   + Filter(Legacy(metadata), providers)
  {
    if visible == [] {
      return providers;
    }
    var complete := Complete(providers, metadata);
    var legacy := Filter(Legacy(metadata), providers);
    var scoped := ScopedCandidates(providers, complete, metadata);
    var sorted := Sort(ByDistance(visible), Filter(InScopes(visible), scoped));
    var selected := SelectFirst(sorted);
    r := selected + legacy;
  }

  method SelectFirst<S>(sorted: seq<Candidate<S>>) returns (selected: seq<S>)
    ensures selected == Services(FirstOfKeys(sorted, {}))
  {
    hide *;
    selected := [];
    ghost var chosen: seq<Candidate<S>> := [];
    var seen := {};
    assert sorted[0..] == sorted;
    NoServices<S>();
    for n := 0 to |sorted|
      invariant chosen + FirstOfKeys(sorted[n..], seen) == FirstOfKeys(sorted, {})
      invariant selected == Services(chosen)
    {
      assert sorted[n..][1..] == sorted[n + 1..];
      NextCandidate(chosen, sorted[n..], seen);
      if sorted[n].key !in seen {
        OneMoreService(chosen, sorted[n]);
        seen := seen + {sorted[n].key};
        selected := selected + [sorted[n].service];
        chosen := chosen + [sorted[n]];
      }
    }
    NoneLeft(chosen, sorted[|sorted|..], seen);
  }

  lemma NoServices<S>()
    ensures Services<S>([]) == []
  {
  }

  lemma OneMoreService<S>(chosen: seq<Candidate<S>>, c: Candidate<S>)
    ensures Services(chosen + [c]) == Services(chosen) + [c.service]
  {
  }

  lemma NoneLeft<S>(chosen: seq<Candidate<S>>, s: seq<Candidate<S>>, seen: set<string>)
    requires s == []
    ensures chosen + FirstOfKeys(s, seen) == chosen
  {
  }

  method ResolveScopedBest(visible: seq<ScopeId>, providers: seq<Provider>, metadata: Metadata)
    returns (r: Option<Provider>)
    requires SameObjects(providers)
    ensures r == match ResolveBest(visible, Scoped(providers, metadata))
                 case None => None
                 case Some(c) => Some(c.service)
  {
    var complete := Complete(providers, metadata);
    var scoped := ScopedCandidates(providers, complete, metadata);
    var best := ResolveBest(visible, scoped);
    r := match best case None => None case Some(c) => Some(c.service);
  }

  // ------------------------------------------------------------ the orders

  lemma ByDistanceIsPreorder<S(!new)>(visible: seq<ScopeId>)
    ensures TotalPreorder(ByDistance<S>(visible))
  {
    TextLeOrders();
  }

  lemma ByRankingIsPreorder<S(!new)>()
    ensures TotalPreorder(ByRanking<S>())
  {
    TextLeOrders();
  }

  // ------------------------------------------------------------ the two aggregates agree

  lemma {:induction false} InsertBefore<T>(le: (T, T) -> bool, x: T, left: seq<T>, right: seq<T>)
    requires forall i :: 0 <= i < |right| ==> le(x, right[i])
    ensures Insert(le, x, left + right) == Insert(le, x, left) + right
  {
    if left == [] {
      assert left + right == right;
      if right != [] {
        assert le(x, right[0]);
      }
    } else {
      assert (left + right)[1..] == left[1..] + right;
      if !le(x, left[0]) {
        InsertBefore(le, x, left[1..], right);
      }
    }
  }

  lemma {:induction false} InsertAfter<T>(le: (T, T) -> bool, x: T, left: seq<T>, right: seq<T>)
    requires forall i :: 0 <= i < |left| ==> !le(x, left[i])
    ensures Insert(le, x, left + right) == left + Insert(le, x, right)
  {
    if left == [] {
      assert left + right == right;
    } else {
      assert (left + right)[1..] == left[1..] + right;
      assert !le(x, left[0]);
      InsertAfter(le, x, left[1..], right);
    }
  }

  lemma {:induction false} InsertSame<T>(le: (T, T) -> bool, le': (T, T) -> bool, x: T, s: seq<T>)
    requires forall i :: 0 <= i < |s| ==> le(x, s[i]) == le'(x, s[i])
    ensures Insert(le, x, s) == Insert(le', x, s)
  {
    if s != [] && !le(x, s[0]) {
      assert le(x, s[0]) == le'(x, s[0]);
      InsertSame(le, le', x, s[1..]);
    }
  }

  /** Everything listed scope by scope lives in one of those scopes. */
  lemma {:induction false} ScopeByScopeIn<S(!new)>(visible: seq<ScopeId>, candidates: seq<Candidate<S>>)
    ensures forall c :: c in ScopeByScope(visible, candidates) ==> c.scope in visible
  {
    if visible != [] {
      ScopeByScopeIn(visible[1..], candidates);
      LocalIn(visible[0], candidates);
    }
  }

  lemma LocalIn<S(!new)>(scope: ScopeId, candidates: seq<Candidate<S>>)
    ensures forall c :: c in Sort(ByRanking(), Filter(InScope(scope), candidates)) ==> c.scope == scope
  {
    ByRankingIsPreorder<S>();
    forall c | c in Sort(ByRanking(), Filter(InScope(scope), candidates)) ensures c.scope == scope {
      SortIn(ByRanking(), Filter(InScope(scope), candidates), c);
      FilterIn(InScope(scope), candidates, c);
    }
  }

  /** A further candidate goes into the block of its scope, exactly where the global sort puts it. */
  lemma {:induction false} InsertIntoBlock<S(!new)>(
    whole: seq<ScopeId>, n: nat, c: Candidate<S>, rest: seq<Candidate<S>>)
    requires Distinct(whole) && n <= |whole|
    ensures ScopeByScope(whole[n..], [c] + rest)
            == if c.scope in whole[n..] then Insert(ByDistance(whole), c, ScopeByScope(whole[n..], rest))
               else ScopeByScope(whole[n..], rest)
    decreases |whole| - n
  {
    if n < |whole| {
      var le := ByDistance<S>(whole);
      var scope := whole[n];
      var left := Sort(ByRanking(), Filter(InScope(scope), rest));
      var right := ScopeByScope(whole[n + 1..], rest);
      assert whole[n..][1..] == whole[n + 1..] && whole[n..] == [scope] + whole[n + 1..];
      InsertIntoBlock(whole, n + 1, c, rest);
      FilterCons(InScope(scope), c, rest);
      LocalIn(scope, rest);
      ScopeByScopeIn(whole[n + 1..], rest);
      if c.scope == scope {
        assert scope !in whole[n + 1..];
        forall i | 0 <= i < |right| ensures le(c, right[i]) {
          assert right[i] in right;
          Farther(whole, n, right[i].scope);
        }
        InsertBefore(le, c, left, right);
        forall i | 0 <= i < |left| ensures le(c, left[i]) == ByRanking()(c, left[i]) {
          assert left[i] in left;
        }
        InsertSame(le, ByRanking(), c, left);
      } else if c.scope in whole[n + 1..] {
        forall i | 0 <= i < |left| ensures !le(c, left[i]) {
          assert left[i] in left;
          Farther(whole, n, c.scope);
        }
        InsertAfter(le, c, left, right);
      }
    }
  }

  /** In a chain without repetition, later means farther. */
  lemma Farther(whole: seq<ScopeId>, n: nat, scope: ScopeId)
    requires Distinct(whole) && n < |whole| && scope in whole[n + 1..]
    ensures Distance(whole, whole[n]) == n < Distance(whole, scope) < |whole|
  {
    var i :| n + 1 <= i < |whole| && whole[i] == scope;
    assert whole[Distance(whole, scope)] == whole[i];
    assert whole[Distance(whole, whole[n])] == whole[n];
  }

  /** Sorting scope by scope and sorting once give the same list. */
  lemma {:induction false} SortsAgree<S(!new)>(visible: seq<ScopeId>, candidates: seq<Candidate<S>>)
    requires Distinct(visible)
    ensures ScopeByScope(visible, candidates) == AllAtOnce(visible, candidates)
  {
    if candidates == [] {
      NothingListed<S>(visible);
    } else {
      var c, rest := candidates[0], candidates[1..];
      SortsAgree(visible, rest);
      assert candidates == [c] + rest && visible[0..] == visible;
      InsertIntoBlock(visible, 0, c, rest);
      FilterCons(InScopes(visible), c, rest);
    }
  }

  lemma {:induction false} NothingListed<S(!new)>(visible: seq<ScopeId>)
    ensures ScopeByScope<S>(visible, []) == []
  {
    if visible != [] {
      NothingListed<S>(visible[1..]);
    }
  }

  /** For a chain of scopes, `resolve_aggregate` and `resolve_scoped_aggregate` select the same list. */
  lemma AggregatesAgree<S(!new)>(visible: seq<ScopeId>, candidates: seq<Candidate<S>>)
    requires Distinct(visible)
    ensures FirstOfKeys(ScopeByScope(visible, candidates), {}) == FirstOfKeys(AllAtOnce(visible, candidates), {})
  {
    SortsAgree(visible, candidates);
  }

  // ------------------------------------------------------------ what is selected

  lemma {:induction false} FirstOfKeysIn<S(!new)>(s: seq<Candidate<S>>, seen: set<string>, c: Candidate<S>)
    requires c in FirstOfKeys(s, seen)
    ensures c in s && c.key !in seen
  {
    if s[0].key in seen {
      FirstOfKeysIn(s[1..], seen, c);
    } else if c != s[0] {
      FirstOfKeysIn(s[1..], seen + {s[0].key}, c);
    }
  }

  /** Of the candidates with one key, exactly the first stays. */
  lemma {:induction false} FirstOfKeysByKey<S(!new)>(s: seq<Candidate<S>>, seen: set<string>, key: string)
    ensures var same := Filter(HasKey(key), s);
            Filter(HasKey(key), FirstOfKeys(s, seen)) == if key in seen || same == [] then [] else [same[0]]
  {
    if s != [] {
      var c := s[0];
      assert s == [c] + s[1..];
      FilterCons(HasKey(key), c, s[1..]);
      if c.key in seen {
        FirstOfKeysByKey(s[1..], seen, key);
      } else {
        FirstOfKeysByKey(s[1..], seen + {c.key}, key);
        FilterCons(HasKey(key), c, FirstOfKeys(s[1..], seen + {c.key}));
      }
    }
  }

  lemma {:induction false} FirstOfKeysSorted<S(!new)>(
    le: (Candidate<S>, Candidate<S>) -> bool, s: seq<Candidate<S>>, seen: set<string>)
    requires SortedBy(le, s)
    ensures SortedBy(le, FirstOfKeys(s, seen))
  {
    if s != [] {
      var more := if s[0].key in seen then seen else seen + {s[0].key};
      FirstOfKeysSorted(le, s[1..], more);
      var t := FirstOfKeys(s[1..], more);
      forall i | 0 <= i < |t| ensures le(s[0], t[i]) {
        FirstOfKeysIn(s[1..], more, t[i]);
      }
    }
  }

  /**
   The aggregate holds, for every key, exactly the candidate `resolve_best` picks among those with
   that key; it is ordered by distance, ranking and key, and starts with the best of all.
   */
  lemma AggregateIsBestPerKey<S(!new)>(visible: seq<ScopeId>, candidates: seq<Candidate<S>>)
    ensures var r := FirstOfKeys(AllAtOnce(visible, candidates), {});
            && (forall key :: Filter(HasKey(key), r)
                              == match ResolveBest(visible, Filter(HasKey(key), candidates))
                                 case None => []
                                 case Some(c) => [c])
            && (forall i, j :: 0 <= i < j < |r| ==>
                  || Distance(visible, r[i].scope) < Distance(visible, r[j].scope)
                  || (&& r[i].scope == r[j].scope
                      && (|| r[i].ranking > r[j].ranking
                          || (r[i].ranking == r[j].ranking && TextLe(r[i].key, r[j].key)))))
            && (forall c :: c in r ==> c in candidates && c.scope in visible)
            && (r == [] <==> ResolveBest(visible, candidates).None?)
            && (r != [] ==> ResolveBest(visible, candidates) == Some(r[0]))
  {
    var le := ByDistance<S>(visible);
    var seen := Filter(InScopes(visible), candidates);
    var all := AllAtOnce(visible, candidates);
    var r := FirstOfKeys(all, {});
    ByDistanceIsPreorder<S>(visible);
    SortSorts(le, seen);
    FirstOfKeysSorted(le, all, {});
    forall c | c in r ensures c in candidates && c.scope in visible {
      FirstOfKeysIn(all, {}, c);
      SortIn(le, seen, c);
      FilterIn(InScopes(visible), candidates, c);
    }
    if seen != [] {
      SortHead(le, seen);
    }
    forall key
      ensures Filter(HasKey(key), r)
              == match ResolveBest(visible, Filter(HasKey(key), candidates)) case None => [] case Some(c) => [c]
    {
      var same := Filter(HasKey(key), seen);
      FirstOfKeysByKey(all, {}, key);
      FilterSort(le, HasKey(key), seen);
      FilterFilter(HasKey(key), InScopes(visible), candidates);
      if same != [] {
        SortHead(le, same);
      }
    }
  }

  /**
   `resolve_best` is visible, nearest, of highest ranking there, and then of smallest key; of several
   such it is the first.
   */
  lemma BestIsNearest<S(!new)>(visible: seq<ScopeId>, candidates: seq<Candidate<S>>)
    ensures var r := ResolveBest(visible, candidates);
            && (r.None? <==> forall c :: c in candidates ==> c.scope !in visible)
            && (r.Some? ==>
                  && r.value in candidates && r.value.scope in visible
                  && (forall c :: c in candidates && c.scope in visible ==>
                        || Distance(visible, r.value.scope) < Distance(visible, c.scope)
                        || (&& r.value.scope == c.scope
                            && (|| r.value.ranking > c.ranking
                                || (r.value.ranking == c.ranking && TextLe(r.value.key, c.key))))))
    ensures ResolveBest(visible, candidates).Some? ==>
              var r := ResolveBest(visible, candidates).value;
              exists n :: 0 <= n < |candidates| && candidates[n] == r
                          && forall j :: 0 <= j < n ==>
                               || candidates[j].scope != r.scope || candidates[j].ranking != r.ranking
                               || candidates[j].key != r.key
  {
    var seen := Filter(InScopes(visible), candidates);
    forall c ensures c in seen <==> c in candidates && c.scope in visible {
      FilterIn(InScopes(visible), candidates, c);
    }
    if seen != [] {
      assert seen[0] in seen;
      ByDistanceIsPreorder<S>(visible);
      var k := FirstMinIsFirst(ByDistance(visible), seen);
      var n := FilterAt(InScopes(visible), candidates, k);
      forall j | 0 <= j < n
        ensures || candidates[j].scope != candidates[n].scope || candidates[j].ranking != candidates[n].ranking
                || candidates[j].key != candidates[n].key
      {
        if candidates[j].scope in visible {
          assert candidates[j] in seen[..k];
        }
      }
    }
  }

  /** With distinct (scope, ranking, key) triples the result does not depend on the input order. */
  lemma AggregateForgetsOrder<S(!new)>(visible: seq<ScopeId>, a: seq<Candidate<S>>, b: seq<Candidate<S>>)
    requires multiset(a) == multiset(b)
    requires forall x, y ::
               x in a && y in a && x.scope in visible && (x.scope, x.ranking, x.key) == (y.scope, y.ranking, y.key) ==>
                 x == y
    ensures AllAtOnce(visible, a) == AllAtOnce(visible, b)
    ensures FirstOfKeys(AllAtOnce(visible, a), {}) == FirstOfKeys(AllAtOnce(visible, b), {})
  {
    var p := InScopes<S>(visible);
    var le := ByDistance<S>(visible);
    ByDistanceIsPreorder<S>(visible);
    forall x ensures multiset(Filter(p, a))[x] == multiset(Filter(p, b))[x] {
      FilterCount(p, a, x);
      FilterCount(p, b, x);
    }
    forall x, y | x in Filter(p, a) && y in Filter(p, a) && le(x, y) && le(y, x) ensures x == y {
      FilterIn(p, a, x);
      FilterIn(p, a, y);
      TextLeTotal(x.key, y.key);
      assert visible[Distance(visible, x.scope)] == x.scope;
      assert (x.scope, x.ranking, x.key) == (y.scope, y.ranking, y.key);
    }
    SortForgetsOrder(le, Filter(p, a), Filter(p, b));
  }

  /** The chain of a scope in a tree never repeats a scope, so the theorems above apply to it. */
  lemma TreeAggregatesAgree<S(!new)>(f: Forest, consumer: ScopeId, candidates: seq<Candidate<S>>)
    requires IsTree(f) && consumer in f
    ensures FirstOfKeys(ScopeByScope(Chain(f, consumer), candidates), {})
            == FirstOfKeys(AllAtOnce(Chain(f, consumer), candidates), {})
  {
    ChainDistinct(f, consumer);
    AggregatesAgree(Chain(f, consumer), candidates);
  }
}
