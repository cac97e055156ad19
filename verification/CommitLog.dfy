/**
 Optimistic commits to one store shared by several in-memory copies.

 Every copy remembers the version it was read or written at; a write names that version, and the
 store accepts it only if nothing was written since, then moves to the next version.  A run is any
 interleaving of opening copies and of attempted updates, each one atomic.  `log` is a history
 variable: the updates that committed, in commit order.
 */
module CommitLog {
  import opened Common

  datatype Copy<T> = Copy(state: T, version: nat)

  datatype Stored<T> = Empty | Stored(version: nat, state: T)

  datatype System<T, O> = System(copies: seq<Copy<T>>, stored: Stored<T>, log: seq<O>)

  datatype Event<O> = Open | Attempt(copy: nat, op: O)

  /** One update on plain values; `None` when it is not allowed. */
  type Update<!T, !O> = (T, O) -> Option<T>

  ghost function Fresh<T, O>(): System<T, O> {
    System([], Empty, [])
  }

  ghost function Next<T, O>(init: T, edit: Update<T, O>, s: System<T, O>, e: Event<O>): System<T, O> {
    match e
    case Open =>
      var stored := if s.stored.Empty? then Stored(1, init) else s.stored;
      System(s.copies + [Copy(stored.state, stored.version)], stored, s.log)
    case Attempt(i, op) =>
      if i >= |s.copies| || edit(s.copies[i].state, op).None? || s.stored.Empty?
         || s.copies[i].version != s.stored.version
      then s
      else
        var state, version := edit(s.copies[i].state, op).value, s.stored.version + 1;
        System(s.copies[i := Copy(state, version)], Stored(version, state), s.log + [op])
  }

  ghost function Run<T, O>(init: T, edit: Update<T, O>, events: seq<Event<O>>, n: nat): System<T, O>
    requires n <= |events|
  {
    if n == 0 then Fresh() else Next(init, edit, Run(init, edit, events, n - 1), events[n - 1])
  }

  /** The state reached by the first n updates, if every one of them is allowed in turn. */
  ghost function Replay<T, O>(init: T, edit: Update<T, O>, log: seq<O>, n: nat): Option<T>
    requires n <= |log|
  {
    if n == 0 then Some(init)
    else
      match Replay(init, edit, log, n - 1)
      case None => None
      case Some(t) => edit(t, log[n - 1])
  }

  /** A copy at version v is the replay of exactly the first v - 1 commits. */
  ghost predicate SeenPrefix<T, O>(init: T, edit: Update<T, O>, log: seq<O>, c: Copy<T>) {
    1 <= c.version <= |log| + 1 && Replay(init, edit, log, c.version - 1) == Some(c.state)
  }

  /** The store is the replay of the whole log, and every copy the replay of a prefix. */
  ghost predicate Consistent<T, O>(init: T, edit: Update<T, O>, s: System<T, O>) {
    && (s.stored.Empty? ==> s.copies == [] && s.log == [])
    && (s.stored.Stored? ==>
          s.stored.version == |s.log| + 1 && Replay(init, edit, s.log, |s.log|) == Some(s.stored.state))
    && (forall i :: 0 <= i < |s.copies| ==> SeenPrefix(init, edit, s.log, s.copies[i]))
  }

  lemma {:induction false} ReplayOfPrefix<T, O>(init: T, edit: Update<T, O>, log: seq<O>, more: seq<O>, n: nat)
    requires n <= |log|
    ensures Replay(init, edit, log + more, n) == Replay(init, edit, log, n)
  {
    if n > 0 {
      ReplayOfPrefix(init, edit, log, more, n - 1);
    }
  }

  lemma NextKeepsConsistent<T, O>(init: T, edit: Update<T, O>, s: System<T, O>, e: Event<O>)
    requires Consistent(init, edit, s)
    ensures Consistent(init, edit, Next(init, edit, s, e))
  {
    var u := Next(init, edit, s, e);
    if u.log != s.log {
      ReplayOfPrefix(init, edit, s.log, [e.op], |s.log|);
      forall i | 0 <= i < |u.copies| ensures SeenPrefix(init, edit, u.log, u.copies[i]) {
        if i != e.copy {
          ReplayOfPrefix(init, edit, s.log, [e.op], s.copies[i].version - 1);
        }
      }
    }
  }

  /** Every interleaving of any number of copies keeps the store equal to the replay of its commits. */
  lemma {:induction false} RunsAreConsistent<T, O>(init: T, edit: Update<T, O>, events: seq<Event<O>>, n: nat)
    requires n <= |events|
    ensures Consistent(init, edit, Run(init, edit, events, n))
  {
    if n > 0 {
      RunsAreConsistent(init, edit, events, n - 1);
      NextKeepsConsistent(init, edit, Run(init, edit, events, n - 1), events[n - 1]);
    }
  }

  /** Whatever every allowed update keeps holds of the store and of every copy. */
  lemma {:induction false} ReplayKeeps<T(!new), O(!new)>(init: T, edit: Update<T, O>, log: seq<O>, n: nat,
                                                        good: T -> bool)
    requires n <= |log| && good(init)
    requires forall t, op :: good(t) && edit(t, op).Some? ==> good(edit(t, op).value)
    ensures Replay(init, edit, log, n).Some? ==> good(Replay(init, edit, log, n).value)
  {
    if n > 0 {
      ReplayKeeps(init, edit, log, n - 1, good);
    }
  }

  lemma RunsKeep<T(!new), O(!new)>(init: T, edit: Update<T, O>, events: seq<Event<O>>, n: nat, good: T -> bool)
    requires n <= |events| && good(init)
    requires forall t, op :: good(t) && edit(t, op).Some? ==> good(edit(t, op).value)
    ensures var s := Run(init, edit, events, n);
            && (s.stored.Stored? ==> good(s.stored.state))
            && (forall i :: 0 <= i < |s.copies| ==> good(s.copies[i].state))
  {
    RunsAreConsistent(init, edit, events, n);
    var s := Run(init, edit, events, n);
    ReplayKeeps(init, edit, s.log, |s.log|, good);
    forall i | 0 <= i < |s.copies| ensures good(s.copies[i].state) {
      assert SeenPrefix(init, edit, s.log, s.copies[i]);
      ReplayKeeps(init, edit, s.log, s.copies[i].version - 1, good);
    }
  }

  // ------------------------------------------------------------ what follows for callers

  /** A copy is never ahead of the store, and equal versions mean equal states. */
  lemma VersionsDetermineStates<T, O>(init: T, edit: Update<T, O>, events: seq<Event<O>>, i: nat, j: nat)
    requires i < |Run(init, edit, events, |events|).copies| && j < |Run(init, edit, events, |events|).copies|
    ensures var s := Run(init, edit, events, |events|);
            && s.stored.Stored?
            && s.copies[i].version <= s.stored.version
            && (s.copies[i].version == s.copies[j].version ==> s.copies[i] == s.copies[j])
            && (s.copies[i].version == s.stored.version ==> s.copies[i].state == s.stored.state)
  {
    RunsAreConsistent(init, edit, events, |events|);
    var s := Run(init, edit, events, |events|);
    assert SeenPrefix(init, edit, s.log, s.copies[i]) && SeenPrefix(init, edit, s.log, s.copies[j]);
  }

  /**
   No committed update is ever lost: an attempt commits exactly when its copy has seen every commit
   so far and the update is allowed on what the store holds; the store then holds that update of
   what it held before.  Any other attempt, a stale one above all, changes nothing anywhere.
   */
  lemma NoLostUpdate<T, O>(init: T, edit: Update<T, O>, events: seq<Event<O>>, i: nat, op: O)
    requires i < |Run(init, edit, events, |events|).copies|
    ensures var s := Run(init, edit, events, |events|);
            var u := Next(init, edit, s, Attempt(i, op));
            && s.stored.Stored?
            && (if s.copies[i].version == s.stored.version && edit(s.stored.state, op).Some?
                then
                  && u.log == s.log + [op]
                  && u.stored == Stored(s.stored.version + 1, edit(s.stored.state, op).value)
                  && u.copies == s.copies[i := Copy(u.stored.state, u.stored.version)]
                else u == s)
  {
    VersionsDetermineStates(init, edit, events, i, i);
  }

  /** What has been committed at some point stays a prefix of what is committed later. */
  lemma {:induction false} HistoryOnlyGrows<T, O>(init: T, edit: Update<T, O>, events: seq<Event<O>>, m: nat, n: nat)
    requires m <= n <= |events|
    ensures Run(init, edit, events, m).log <= Run(init, edit, events, n).log
  {
    if m < n {
      HistoryOnlyGrows(init, edit, events, m, n - 1);
    }
  }
}
