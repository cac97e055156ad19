/** A sliding-window rate limit per client.  Times are readings of a monotonic clock. */
module RateLimit {

  /** The hits younger than the window. */
  function Recent(hits: seq<real>, window: real, now: real): seq<real> {
    if hits == [] then []
    else
      var rest := Recent(hits[..|hits| - 1], window, now);
      if now - hits[|hits| - 1] < window then rest + [hits[|hits| - 1]] else rest
  }

  /** The hits in the half-open interval of one window that starts at `start`. */
  ghost function Inside(hits: seq<real>, window: real, start: real): seq<real> {
    if hits == [] then []
    else
      var rest := Inside(hits[..|hits| - 1], window, start);
      if start <= hits[|hits| - 1] < start + window then rest + [hits[|hits| - 1]] else rest
  }

  /** Every hit came when fewer than `limit` earlier ones were younger than the window. */
  ghost predicate Admitted(history: seq<real>, limit: int, window: real) {
    forall i {:trigger history[i]} :: 0 <= i < |history| ==> |Recent(history[..i], window, history[i])| < limit
  }

  lemma RecentLast(hits: seq<real>, hit: real, window: real, now: real)
    ensures Recent(hits + [hit], window, now)
            == if now - hit < window then Recent(hits, window, now) + [hit] else Recent(hits, window, now)
  {
    assert (hits + [hit])[..|hits|] == hits;
  }

  /** What was pruned earlier would be pruned now. */
  lemma {:induction false} PruningIsHarmless(hits: seq<real>, window: real, earlier: real, now: real)
    requires earlier <= now
    ensures Recent(Recent(hits, window, earlier), window, now) == Recent(hits, window, now)
  {
    if hits != [] {
      var rest, hit := hits[..|hits| - 1], hits[|hits| - 1];
      PruningIsHarmless(rest, window, earlier, now);
      RecentLast(Recent(rest, window, earlier), hit, window, now);
    }
  }

  lemma {:induction false} InsideIsRecent(hits: seq<real>, window: real, start: real, now: real)
    requires now < start + window
    ensures |Inside(hits, window, start)| <= |Recent(hits, window, now)|
  {
    if hits != [] {
      InsideIsRecent(hits[..|hits| - 1], window, start, now);
    }
  }

  /** The positions of the hits in such an interval. */
  lemma {:induction false} InsideCounts(hits: seq<real>, window: real, start: real)
    ensures |Inside(hits, window, start)| == |set i | 0 <= i < |hits| && start <= hits[i] < start + window|
  {
    var there := set i | 0 <= i < |hits| && start <= hits[i] < start + window;
    if hits == [] {
      assert there == {};
    } else {
      var n := |hits| - 1;
      InsideCounts(hits[..n], window, start);
      var before := set i | 0 <= i < n && start <= hits[..n][i] < start + window;
      assert there == before + if start <= hits[n] < start + window then {n} else {};
    }
  }

  /** No interval as long as the window holds more than `limit` admitted hits, wherever it starts. */
  lemma {:induction false} NoWindowOverflows(history: seq<real>, limit: int, window: real, start: real)
    requires Admitted(history, limit, window)
    ensures |Inside(history, window, start)| <= if limit < 0 then 0 else limit
  {
    if history != [] {
      var n := |history| - 1;
      var rest, hit := history[..n], history[n];
      assert forall i :: 0 <= i < n ==> rest[..i] == history[..i] && rest[i] == history[i];
      NoWindowOverflows(rest, limit, window, start);
      if start <= hit < start + window {
        InsideIsRecent(rest, window, start, hit);
      }
    }
  }

  lemma AdmitOne(history: seq<real>, hit: real, limit: int, window: real)
    requires Admitted(history, limit, window) && |Recent(history, window, hit)| < limit
    ensures Admitted(history + [hit], limit, window)
  {
    var longer := history + [hit];
    forall i {:trigger longer[i]} | 0 <= i < |longer| ensures |Recent(longer[..i], window, longer[i])| < limit {
      if i < |history| {
        assert longer[..i] == history[..i] && longer[i] == history[i];
      } else {
        assert longer[..i] == history;
      }
    }
  }

  /** From `clock` on, the pruned list says what the full history says. */
  ghost predicate Faithful(hits: seq<real>, history: seq<real>, window: real, clock: real) {
    forall now {:trigger Recent(hits, window, now)} ::
      clock <= now ==> Recent(hits, window, now) == Recent(history, window, now)
  }

  lemma StaysFaithful(hits: seq<real>, history: seq<real>, window: real, clock: real, now: real)
    requires Faithful(hits, history, window, clock) && clock <= now
    ensures Recent(hits, window, now) == Recent(history, window, now)
    ensures Faithful(Recent(hits, window, now), history, window, now)
    ensures Faithful(Recent(hits, window, now) + [now], history + [now], window, now)
    ensures |Recent(hits, window, now)| <= |hits|
  {
    var recent := Recent(hits, window, now);
    RecentIsShorter(hits, window, now);
    forall later | now <= later
      ensures Recent(recent, window, later) == Recent(history, window, later)
      ensures Recent(recent + [now], window, later) == Recent(history + [now], window, later)
    {
      PruningIsHarmless(history, window, now, later);
      RecentLast(recent, now, window, later);
      RecentLast(history, now, window, later);
    }
  }

  class RateLimit {
    const limit: int
    const window: real
    var hits: map<string, seq<real>>
    /** Every accepted request of each client, never pruned. */
    ghost var history: map<string, seq<real>>
    /** The last reading of the clock. */
    ghost var clock: real

    constructor (limit: int, window: real, ghost start: real)
      ensures Valid() && this.limit == limit && this.window == window && history == map[] && clock == start
    {
      this.limit, this.window := limit, window;
      hits, history, clock := map[], map[], start;
      new;
      forall client ensures InOrder(client) {
        assert Hits(client) == [] && History(client) == [];
      }
    }

    function Hits(client: string): seq<real>
      reads this
    {
      if client in hits then hits[client] else []
    }

    ghost function History(client: string): seq<real>
      reads this
    {
      if client in history then history[client] else []
    }

    ghost predicate InOrder(client: string)
      reads this
    {
      && Faithful(Hits(client), History(client), window, clock)
      && Admitted(History(client), limit, window)
      && |Hits(client)| <= if limit < 0 then 0 else limit
    }

    ghost predicate Valid()
      reads this
    {
      forall client :: InOrder(client)
    }

    /** One request: true lets it in, false answers 429. */
    method Dependency(client: string, now: real) returns (accepted: bool)
      requires Valid() && clock <= now
      modifies this
      ensures Valid() && clock == now
      ensures accepted <==> |Recent(old(History(client)), window, now)| < limit
      ensures history == if accepted then old(history)[client := old(History(client)) + [now]] else old(history)
      ensures hits == old(hits)[client := Recent(old(Hits(client)), window, now) + if accepted then [now] else []]
    {
      ghost var full := History(client);
      assert InOrder(client);
      StaysFaithful(Hits(client), full, window, clock, now);
      var recent := Recent(Hits(client), window, now);
      assert recent + [] == recent;
      clock := now;
      accepted := |recent| < limit;
      if accepted {
        AdmitOne(full, now, limit, window);
        recent := recent + [now];
        history := history[client := full + [now]];
      }
      hits := hits[client := recent];
      forall other ensures InOrder(other) {
        assert old(InOrder(other));
        if other != client {
          assert Hits(other) == old(Hits(other)) && History(other) == old(History(other));
        }
      }
    }

    /** Whatever happened so far, no interval of one window holds too many accepted requests. */
    lemma LimitHolds(client: string, start: real)
      requires Valid()
      ensures |set i | 0 <= i < |History(client)| && start <= History(client)[i] < start + window|
              <= if limit < 0 then 0 else limit
    {
      assert InOrder(client);
      InsideCounts(History(client), window, start);
      NoWindowOverflows(History(client), limit, window, start);
    }
  }

  lemma {:induction false} RecentIsShorter(hits: seq<real>, window: real, now: real)
    ensures |Recent(hits, window, now)| <= |hits|
  {
    if hits != [] {
      RecentIsShorter(hits[..|hits| - 1], window, now);
    }
  }
}
