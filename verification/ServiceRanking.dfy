/**
 The integer `service.ranking` against the shadowing policy.

 Pelix orders services by one number, so a component's depth in the tree and its own ranking are
 folded into depth * 1000000 + ranking.  This says exactly when the largest such number belongs to
 the component the policy would choose.
 */
module ServiceRanking {
  import opened Common
  import opened ScopeForest
  import opened ScopePolicy
  import opened StableSort
  import opened LdapFilter

  const SCOPE_RANKING_STRIDE := 1_000_000

  ghost function RankOf<S>(f: Forest, c: Candidate<S>): int
    requires HasChain(f, c.scope)
  {
    Depth(f, c.scope) * SCOPE_RANKING_STRIDE + c.ranking
  }

  /** No candidate from farther away makes up for its distance with its ranking. */
  ghost predicate NoOvertaking<S(!new)>(visible: seq<ScopeId>, candidates: seq<Candidate<S>>, best: Candidate<S>) {
    forall c :: c in candidates && c.scope in visible && c.scope != best.scope ==>
      c.ranking - best.ranking < (Distance(visible, c.scope) - Distance(visible, best.scope)) * SCOPE_RANKING_STRIDE
  }

  ghost predicate Highest<S(!new)>(f: Forest, visible: seq<ScopeId>, candidates: seq<Candidate<S>>, top: Candidate<S>)
    requires forall c :: c in candidates && c.scope in visible ==> HasChain(f, c.scope)
  {
    && top in candidates && top.scope in visible
    && (forall c :: c in candidates && c.scope in visible ==> RankOf(f, c) <= RankOf(f, top))
  }

  /** Along one chain depth falls by one with every step away from the consumer. */
  lemma DepthFalls(f: Forest, consumer: ScopeId, scope: ScopeId)
    requires HasChain(f, consumer) && scope in Chain(f, consumer)
    ensures HasChain(f, scope)
    ensures Depth(f, scope) == Depth(f, consumer) - Distance(Chain(f, consumer), scope)
  {
    ChainSuffix(f, consumer, Distance(Chain(f, consumer), scope));
  }

  lemma DepthsFall(f: Forest, consumer: ScopeId)
    requires HasChain(f, consumer)
    ensures forall s :: s in Chain(f, consumer) ==>
              HasChain(f, s) && Depth(f, s) == Depth(f, consumer) - Distance(Chain(f, consumer), s)
  {
    forall s | s in Chain(f, consumer)
      ensures HasChain(f, s) && Depth(f, s) == Depth(f, consumer) - Distance(Chain(f, consumer), s)
    {
      DepthFalls(f, consumer, s);
    }
  }

  /** Some candidate has the largest number. */
  lemma {:induction false} HighestExists<S(!new)>(f: Forest, consumer: ScopeId, candidates: seq<Candidate<S>>)
    returns (top: Candidate<S>)
    requires HasChain(f, consumer)
    requires exists c :: c in candidates && c.scope in Chain(f, consumer)
    ensures forall c :: c in candidates && c.scope in Chain(f, consumer) ==> HasChain(f, c.scope)
    ensures Highest(f, Chain(f, consumer), candidates, top)
  {
    DepthsFall(f, consumer);
    var visible := Chain(f, consumer);
    var rest := candidates[1..];
    assert candidates == [candidates[0]] + rest;
    if exists c :: c in rest && c.scope in visible {
      top := HighestExists(f, consumer, rest);
      if candidates[0].scope in visible && RankOf(f, candidates[0]) > RankOf(f, top) {
        top := candidates[0];
      }
    } else {
      top := candidates[0];
    }
  }

  /**
   Every candidate with the largest number has the scope and the ranking of `resolve_best` exactly
   when no farther candidate leads by as much as a stride for every step it is farther.
   */
  lemma RankingAgreesIff<S(!new)>(f: Forest, consumer: ScopeId, candidates: seq<Candidate<S>>)
    requires HasChain(f, consumer)
    requires ResolveBest(Chain(f, consumer), candidates).Some?
    ensures var visible := Chain(f, consumer);
            var best := ResolveBest(visible, candidates).value;
            && (forall c :: c in candidates && c.scope in visible ==> HasChain(f, c.scope))
            && (NoOvertaking(visible, candidates, best)
                <==> forall top :: Highest(f, visible, candidates, top) ==>
                       top.scope == best.scope && top.ranking == best.ranking)
  {
    var visible := Chain(f, consumer);
    var best := ResolveBest(visible, candidates).value;
    DepthsFall(f, consumer);
    BestIsNearest(visible, candidates);
    if NoOvertaking(visible, candidates, best) {
      forall top | Highest(f, visible, candidates, top)
        ensures top.scope == best.scope && top.ranking == best.ranking
      {
        assert RankOf(f, best) <= RankOf(f, top);
      }
    } else {
      var c :| c in candidates && c.scope in visible && c.scope != best.scope
            && c.ranking - best.ranking
               >= (Distance(visible, c.scope) - Distance(visible, best.scope)) * SCOPE_RANKING_STRIDE;
      assert RankOf(f, c) >= RankOf(f, best);
      var top := HighestExists(f, consumer, candidates);
      if top.scope == best.scope && top.ranking == best.ranking {
        assert Highest(f, visible, candidates, c);
      }
    }
  }

  /** Rankings that differ by less than a stride never overtake a nearer scope. */
  lemma CloseRankingsAgree<S(!new)>(visible: seq<ScopeId>, candidates: seq<Candidate<S>>)
    requires ResolveBest(visible, candidates).Some?
    requires forall a, b :: a in candidates && b in candidates && a.scope in visible && b.scope in visible ==>
               a.ranking - b.ranking < SCOPE_RANKING_STRIDE
    ensures NoOvertaking(visible, candidates, ResolveBest(visible, candidates).value)
  {
    var best := ResolveBest(visible, candidates).value;
    BestIsNearest(visible, candidates);
    forall c | c in candidates && c.scope in visible && c.scope != best.scope
      ensures c.ranking - best.ranking
              < (Distance(visible, c.scope) - Distance(visible, best.scope)) * SCOPE_RANKING_STRIDE
    {
      assert Distance(visible, best.scope) + 1 <= Distance(visible, c.scope);
    }
  }

  /** The bound is tight: one stride across one step ties, and the tie may go to the farther scope. */
  lemma StrideTies(f: Forest, consumer: ScopeId)
    requires IsTree(f) && consumer in f && consumer != ROOT_SCOPE_ID
    ensures f[consumer].parent.Some? && HasChain(f, f[consumer].parent.value)
    ensures var near := Candidate(consumer, "k", 0, 1);
            var far := Candidate(f[consumer].parent.value, "k", SCOPE_RANKING_STRIDE, 2);
            && ResolveBest(Chain(f, consumer), [far, near]) == Some(near)
            && RankOf(f, far) == RankOf(f, near)
            && !NoOvertaking(Chain(f, consumer), [far, near], near)
  {
    ChainStep(f, consumer);
    var parent := f[consumer].parent.value;
    var visible := Chain(f, consumer);
    ChainDistinct(f, consumer);
    assert visible[0] == consumer && visible[1] == parent;
    var near := Candidate(consumer, "k", 0, 1);
    var far := Candidate(parent, "k", SCOPE_RANKING_STRIDE, 2);
    DepthsFall(f, consumer);
    assert Distance(visible, parent) == 1;
    BestIsNearest(visible, [far, near]);
    assert near in [far, near] && far in [far, near];
    assert ResolveBest(visible, [far, near]).Some?;
  }

  // ------------------------------------------------------------ looking a service up

  /** What the service registry knows of a component. */
  function Attributes<S>(c: Candidate<S>): map<string, string> {
    map[SCOPE_ATTRIBUTE := c.scope]
  }

  function Passes<S>(filter: string, other: string -> bool): Candidate<S> -> bool {
    (c: Candidate<S>) => WellFormed(filter) && Holds(FilterOf(filter), Attributes(c), other)
  }

  ghost function ByRank<S>(f: Forest): (Candidate<S>, Candidate<S>) -> bool {
    (a: Candidate<S>, b: Candidate<S>) =>
      HasChain(f, a.scope) && HasChain(f, b.scope) && RankOf(f, a) >= RankOf(f, b)
  }

  /** `find_service`: the first of the services passing the filter with the largest number. */
  ghost function FindService<S>(f: Forest, services: seq<Candidate<S>>, filter: string, other: string -> bool)
    : Option<Candidate<S>>
  {
    var found := Filter(Passes(filter, other), services);
    if found == [] then None else Some(FirstMin(ByRank(f), found))
  }

  lemma {:induction false} FirstMinOn<S(!new)>(f: Forest, s: seq<Candidate<S>>) returns (k: nat)
    requires s != [] && forall c :: c in s ==> HasChain(f, c.scope)
    ensures k < |s| && s[k] == FirstMin(ByRank(f), s)
    ensures forall i :: 0 <= i < |s| ==> RankOf(f, s[i]) <= RankOf(f, s[k])
    ensures forall i :: 0 <= i < k ==> RankOf(f, s[i]) < RankOf(f, s[k])
  {
    if |s| == 1 {
      return 0;
    }
    var rest := s[1..];
    k := FirstMinOn(f, rest);
    assert forall i :: 0 < i < |s| ==> s[i] == rest[i - 1];
    k := if RankOf(f, s[0]) >= RankOf(f, rest[k]) then 0 else k + 1;
  }

  /**
   Looking a service up through the visibility filter of a consumer finds one exactly when the
   policy resolves one, and with no overtaking it is one of the same scope and ranking.
   */
  lemma FindServiceFollowsPolicy<S(!new)>(f: Forest, consumer: ScopeId, services: seq<Candidate<S>>,
                                          other: string -> bool)
    requires HasChain(f, consumer)
    ensures var visible := Chain(f, consumer);
            var found := FindService(f, services, VisibilityFilter(visible), other);
            var best := ResolveBest(visible, services);
            && (found.None? <==> best.None?)
            && (found.Some? && NoOvertaking(visible, services, best.value) ==>
                  found.value.scope == best.value.scope && found.value.ranking == best.value.ranking)
  {
    var visible := Chain(f, consumer);
    var filter := VisibilityFilter(visible);
    var found := Filter(Passes(filter, other), services);
    var seen := Filter(InScopes(visible), services);
    forall c ensures c in found <==> c in services && c.scope in visible
             ensures c in seen <==> c in services && c.scope in visible
    {
      FilterIn(Passes(filter, other), services, c);
      FilterIn(InScopes(visible), services, c);
      VisibilityFilterAdmits(visible, Attributes(c), other);
    }
    if found != [] {
      assert found[0] in seen;
    }
    if seen != [] {
      assert seen[0] in found;
      DepthsFall(f, consumer);
      var k := FirstMinOn(f, found);
      assert forall c :: c in found ==> RankOf(f, c) <= RankOf(f, found[k]);
      RankingAgreesIff(f, consumer, services);
    }
  }

  /** Of several services with the largest number the registry answers with the first. */
  lemma FindServiceIsFirst<S(!new)>(f: Forest, services: seq<Candidate<S>>, filter: string, other: string -> bool)
    requires forall c :: c in services && Passes(filter, other)(c) ==> HasChain(f, c.scope)
    ensures FindService(f, services, filter, other).None? <==> forall c :: c in services ==> !Passes(filter, other)(c)
    ensures FindService(f, services, filter, other).Some? ==>
              var found := FindService(f, services, filter, other).value;
              exists n :: 0 <= n < |services| && services[n] == found && Passes(filter, other)(found)
                          && forall j :: 0 <= j < |services| && Passes(filter, other)(services[j]) ==>
                               if j < n then RankOf(f, services[j]) < RankOf(f, found)
                               else RankOf(f, services[j]) <= RankOf(f, found)
  {
    var found := Filter(Passes(filter, other), services);
    forall c ensures c in found <==> c in services && Passes(filter, other)(c) {
      FilterIn(Passes(filter, other), services, c);
    }
    hide Passes;
    if found == [] {
      forall c | c in services ensures !Passes(filter, other)(c) {
        assert c !in found;
      }
    } else {
      assert found[0] in found;
      var k := FirstMinOn(f, found);
      var n := FilterAt(Passes(filter, other), services, k);
      forall j | 0 <= j < |services| && Passes(filter, other)(services[j])
        ensures if j < n then RankOf(f, services[j]) < RankOf(f, found[k])
                else RankOf(f, services[j]) <= RankOf(f, found[k])
      {
        assert services[j] in found;
      }
    }
  }
}
