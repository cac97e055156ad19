/**
 The registry that shuts an idle server down: a timed state machine over attached clients and
 one timer task.  Every method takes the reading of the clock at which it runs.
 */
module ClientRegistry {
  import opened Common

  type Client = nat
  type Callback = nat

  /** A timer task: asleep until `due`, or over. */
  datatype Task = Asleep(due: real) | Cancelled | Done

  /** The clients attached from `time` on. */
  datatype Attached = Attached(time: real, clients: set<Client>)

  /** Entry `i` of the log was still in force at some moment from `since` on. */
  ghost predicate InForceSince(log: seq<Attached>, i: nat, since: real)
    requires i < |log|
  {
    i + 1 == |log| || since < log[i + 1].time
  }

  ghost predicate InOrder(log: seq<Attached>) {
    forall i, j :: 0 <= i < j < |log| ==> log[i].time <= log[j].time
  }

  /** No client was attached at any moment from `since` on. */
  ghost predicate IdleSince(log: seq<Attached>, since: real) {
    forall i :: 0 <= i < |log| && InForceSince(log, i, since) ==> log[i].clients == {}
  }

  /** The log is in order of time, ends with `clients`, and is empty from `idleFrom` on. */
  ghost predicate LogFits(log: seq<Attached>, clients: set<Client>, idleFrom: nat, clock: real) {
    && log != [] && InOrder(log) && log[|log| - 1].clients == clients && log[|log| - 1].time <= clock
    && idleFrom <= |log| && (clients == {} <==> idleFrom < |log|)
    && (forall i :: idleFrom <= i < |log| ==> log[i].clients == {})
  }

  lemma LogGrows(log: seq<Attached>, clients: set<Client>, idleFrom: nat, clock: real, now: real, next: set<Client>)
    requires LogFits(log, clients, idleFrom, clock) && clock <= now
    ensures next != {} ==> LogFits(log + [Attached(now, next)], next, |log| + 1, now)
    ensures next == {} ==> LogFits(log + [Attached(now, next)], next, idleFrom, now)
  {
  }

  lemma IdleFromThen(log: seq<Attached>, clients: set<Client>, idleFrom: nat, clock: real, since: real)
    requires LogFits(log, clients, idleFrom, clock) && clients == {} && log[idleFrom].time <= since
    ensures IdleSince(log, since)
  {
    forall i | 0 <= i < idleFrom ensures !InForceSince(log, i, since) {
      assert i + 1 < idleFrom ==> log[i + 1].time <= log[idleFrom].time;
    }
  }

  class ClientRegistry {
    const grace: real
    var clients: set<Client>
    var ready: bool
    var enabled: bool
    var callback: Option<Callback>
    /** The timer the registry holds, as an index into `tasks`. */
    var timer: Option<nat>
    /** Every task ever created; those the registry dropped are still on the event loop. */
    var tasks: seq<Task>
    /** Who was attached when. */
    ghost var log: seq<Attached>
    /** Where the present idle period starts in the log; its end when a client is attached. */
    ghost var idleFrom: nat
    ghost var clock: real
    /** `mark_ready` found the registry enabled and with a callback, and nobody disabled it since. */
    ghost var armed: bool
    /** The callback ran since the last client left. */
    ghost var ran: bool

    constructor (grace: real, ghost now: real)
      requires 0.0 <= grace
      ensures Valid() && this.grace == grace && clients == {} && !ready && !enabled && tasks == []
      ensures callback == None && clock == now && log == [Attached(now, {})] && !armed && !ran
    {
      this.grace := grace;
      clients, ready, enabled, callback, timer, tasks := {}, false, false, None, None, [];
      log, idleFrom, clock, armed, ran := [Attached(now, {})], 0, now, false, false;
    }

    predicate IsAsleep(id: nat)
      reads this
    {
      id < |tasks| && tasks[id].Asleep?
    }

    /** The registry holds a timer that is not done. */
    predicate Pending()
      reads this
    {
      timer.Some? && IsAsleep(timer.value)
    }

    ghost predicate Valid()
      reads this
    {
      && LogFits(log, clients, idleFrom, clock)
      && 0.0 <= grace
      // a task that can still fire is the one the registry holds, so there is at most one
      && (forall id: nat :: IsAsleep(id) ==> timer == Some(id))
      && (timer.Some? ==> timer.value < |tasks|)
      // it was scheduled within the present idle period, by a registry that was ready
      && (Pending() ==> clients == {} && ready && callback.Some?
                        && log[idleFrom].time + grace <= tasks[timer.value].due <= clock + grace)
      // an armed registry does not forget to shut down
      && (armed ==> ready && enabled && callback.Some? && (clients == {} ==> Pending() || ran))
    }

    method SetShutdownCallback(callback: Callback, ghost now: real)
      requires Valid() && clock <= now
      modifies this`callback, this`clock
      ensures Valid() && clock == now && this.callback == Some(callback)
    {
      this.callback := Some(callback);
      clock := now;
    }

    method SetEnabled(enabled: bool, ghost now: real)
      requires Valid() && clock <= now
      modifies this`enabled, this`clock, this`armed
      ensures Valid() && clock == now && this.enabled == enabled
      ensures armed == (old(armed) && enabled)
    {
      this.enabled := enabled;
      clock := now;
      armed := armed && enabled;
    }

    /** Time passes. */
    ghost method Wait(now: real)
      requires Valid() && clock <= now
      modifies this`clock
      ensures Valid() && clock == now
    {
      clock := now;
    }

    method MarkReady(now: real)
      requires Valid() && clock <= now
      modifies this`ready, this`timer, this`tasks, this`clock, this`armed
      ensures Valid() && clock == now && ready
      ensures armed == (old(armed) || (enabled && callback.Some?))
      ensures Pending() <==> old(Pending()) || (clients == {} && enabled && callback.Some?)
    {
      ready := true;
      clock := now;
      if clients == {} {
        ScheduleShutdown(now);
      }
      armed := armed || (enabled && callback.Some?);
    }

    method Attach(client: Client, ghost now: real)
      requires Valid() && clock <= now
      modifies this`clients, this`timer, this`tasks, this`log, this`idleFrom, this`clock, this`ran
      ensures Valid() && clock == now && clients == old(clients) + {client}
      ensures log == old(log) + [Attached(now, clients)]
      ensures (forall id: nat :: !IsAsleep(id)) && !ran
    {
      hide LogFits;
      LogGrows(log, clients, idleFrom, clock, now, clients + {client});
      clients := clients + {client};
      CancelTimer();
      log := log + [Attached(now, clients)];
      idleFrom, clock, ran := |log|, now, false;
    }

    method Detach(client: Client, now: real)
      requires Valid() && clock <= now
      modifies this`clients, this`timer, this`tasks, this`log, this`idleFrom, this`clock
      ensures Valid() && clock == now && clients == old(clients) - {client}
      ensures log == old(log) + [Attached(now, clients)]
      ensures Pending() <==> old(Pending()) || (clients == {} && ready && enabled && callback.Some?)
    {
      LogGrows(log, clients, idleFrom, clock, now, clients - {client});
      hide LogFits;
      clients := clients - {client};
      idleFrom := if clients != {} then |log| + 1 else idleFrom;
      log := log + [Attached(now, clients)];
      clock := now;
      if clients == {} {
        ScheduleShutdown(now);
      }
    }

    method CancelTimer()
      modifies this`timer, this`tasks
      ensures timer == None
      ensures tasks == if old(Pending()) then old(tasks)[old(timer).value := Cancelled] else old(tasks)
    {
      if timer.Some? && IsAsleep(timer.value) {
        tasks := tasks[timer.value := Cancelled];
      }
      timer := None;
    }

    method ScheduleShutdown(now: real)
      modifies this`timer, this`tasks
      ensures if ready && enabled && callback.Some? && !old(Pending())
              then tasks == old(tasks) + [Asleep(now + grace)] && timer == Some(|old(tasks)|)
              else tasks == old(tasks) && timer == old(timer)
    {
      if !ready || !enabled || callback.None? {
        return;
      }
      if timer.Some? && IsAsleep(timer.value) {
        return;
      }
      tasks := tasks + [Asleep(now + grace)];
      timer := Some(|tasks| - 1);
    }

    /**
     The event loop wakes a task once its time has come: the server is shut down only after a whole
     grace period without a client, and the assertion of the source never fails.
     */
    method RunTimer(id: nat, ghost now: real) returns (called: Option<Callback>)
      requires Valid() && clock <= now && IsAsleep(id) && tasks[id].due <= now
      modifies this`tasks, this`clock, this`ran
      ensures Valid() && clock == now && tasks == old(tasks)[id := Done]
      ensures called == if enabled then callback else None
      ensures enabled ==> called.Some?
      ensures called.Some? ==> clients == {} && ready && IdleSince(log, now - grace)
      ensures ran == (old(ran) || called.Some?)
    {
      called := None;
      IdleFromThen(log, clients, idleFrom, clock, now - grace);
      tasks := tasks[id := Done];
      clock := now;
      if clients == {} && ready && enabled {
        assert callback.Some?;
        called := callback;
        ran := true;
      }
    }
  }

  // ------------------------------------------------------------ runs

  /** What happens to a registry, and when; a task that is not asleep or not due does not wake. */
  datatype Event =
    | SetCallback(now: real, callback: Callback)
    | SetEnabled(now: real, on: bool)
    | Ready(now: real)
    | Join(now: real, client: Client)
    | Leave(now: real, client: Client)
    | Wake(now: real, id: nat)

  predicate Timed(start: real, events: seq<Event>) {
    && (forall i :: 0 <= i < |events| ==> start <= events[i].now)
    && (forall i, j :: 0 <= i < j < |events| ==> events[i].now <= events[j].now)
  }

  /** Who was attached when, read off the events alone. */
  ghost function LogOf(start: real, events: seq<Event>): (log: seq<Attached>)
    ensures log != []
  {
    if events == [] then [Attached(start, {})]
    else
      var log, e := LogOf(start, events[..|events| - 1]), events[|events| - 1];
      var clients := log[|log| - 1].clients;
      match e
      case Join(now, client) => log + [Attached(now, clients + {client})]
      case Leave(now, client) => log + [Attached(now, clients - {client})]
      case _ => log
  }

  datatype Mode = Mode(enabled: bool, hasCallback: bool, armed: bool)

  /** Armed: marked ready while enabled and with a callback, and not disabled since. */
  ghost function ModeOf(events: seq<Event>): Mode {
    if events == [] then Mode(false, false, false)
    else
      var m, e := ModeOf(events[..|events| - 1]), events[|events| - 1];
      match e
      case SetCallback(_, _) => m.(hasCallback := true)
      case SetEnabled(_, on) => m.(enabled := on, armed := m.armed && on)
      case Ready(_) => m.(armed := m.armed || (m.enabled && m.hasCallback))
      case _ => m
  }

  /** No client was attached at any moment from `since` until before `until`. */
  ghost predicate IdleBetween(log: seq<Attached>, since: real, until: real) {
    forall i :: 0 <= i < |log| && log[i].time < until && InForceSince(log, i, since) ==> log[i].clients == {}
  }

  lemma IdleStays(log: seq<Attached>, entry: Attached, since: real, until: real)
    requires IdleBetween(log, since, until) && until <= entry.time
    ensures IdleBetween(log + [entry], since, until)
  {
    var longer := log + [entry];
    forall i | 0 <= i < |longer| && longer[i].time < until && InForceSince(longer, i, since)
      ensures longer[i].clients == {}
    {
      assert InForceSince(log, i, since);
    }
  }

  /**
   Any run over any events: the callback is called only after a whole grace period in which nobody
   was attached, and an armed registry without clients has a timer running that is due within the
   grace period, or has called back since the last client left.
   */
  method Run(grace: real, start: real, events: seq<Event>) returns (r: ClientRegistry, calls: seq<real>)
    requires 0.0 <= grace && Timed(start, events)
    ensures fresh(r) && r.Valid() && r.log == LogOf(start, events)
    ensures forall k :: 0 <= k < |calls| ==> IdleBetween(LogOf(start, events), calls[k] - grace, calls[k])
    ensures ModeOf(events).armed && r.clients == {} ==>
              r.ran || exists id: nat :: r.IsAsleep(id) && r.tasks[id].due <= r.clock + grace
    ensures forall first, second :: r.IsAsleep(first) && r.IsAsleep(second) ==> first == second
  {
    r := new ClientRegistry(grace, start);
    calls := [];
    for n := 0 to |events|
      invariant fresh(r) && r.Valid() && r.grace == grace && r.log == LogOf(start, events[..n])
      invariant r.clock <= if n < |events| then events[n].now else r.clock
      invariant ModeOf(events[..n]) == Mode(r.enabled, r.callback.Some?, r.armed)
      invariant forall k :: 0 <= k < |calls| ==> calls[k] <= r.clock && IdleBetween(r.log, calls[k] - grace, calls[k])
    {
      var e := events[n];
      assert events[..n + 1][..n] == events[..n];
      calls := Step(r, e, calls);
    }
    assert events[..|events|] == events;
    if r.armed && r.clients == {} && !r.ran {
      assert r.IsAsleep(r.timer.value);
    }
  }

  /** One event of a run. */
  method Step(r: ClientRegistry, e: Event, calls: seq<real>) returns (called: seq<real>)
    requires r.Valid() && r.clock <= e.now
    requires forall k :: 0 <= k < |calls| ==> calls[k] <= r.clock && IdleBetween(r.log, calls[k] - r.grace, calls[k])
    modifies r
    ensures r.Valid() && r.clock == e.now
    ensures forall k :: 0 <= k < |called| ==> called[k] <= r.clock && IdleBetween(r.log, called[k] - r.grace, called[k])
    ensures r.log == match e
                     case Join(now, client) => old(r.log) + [Attached(now, old(r.clients) + {client})]
                     case Leave(now, client) => old(r.log) + [Attached(now, old(r.clients) - {client})]
                     case _ => old(r.log)
    ensures r.log[|r.log| - 1].clients == r.clients
    ensures r.enabled == if e.SetEnabled? then e.on else old(r.enabled)
    ensures r.callback.Some? == (old(r.callback).Some? || e.SetCallback?)
    ensures r.armed == match e
                       case SetEnabled(_, on) => old(r.armed) && on
                       case Ready(_) => old(r.armed) || (old(r.enabled) && old(r.callback).Some?)
                       case _ => old(r.armed)
  {
    called := calls;
    match e
    case SetCallback(now, callback) => r.SetShutdownCallback(callback, now);
    case SetEnabled(now, on) => r.SetEnabled(on, now);
    case Ready(now) => r.MarkReady(now);
    case Join(now, client) =>
      forall k | 0 <= k < |calls| {
        IdleStays(r.log, Attached(now, r.clients + {client}), calls[k] - r.grace, calls[k]);
      }
      r.Attach(client, now);
    case Leave(now, client) =>
      forall k | 0 <= k < |calls| {
        IdleStays(r.log, Attached(now, r.clients - {client}), calls[k] - r.grace, calls[k]);
      }
      r.Detach(client, now);
    case Wake(now, id) =>
      if r.IsAsleep(id) && r.tasks[id].due <= now {
        var callback := r.RunTimer(id, now);
        if callback.Some? {
          called := called + [now];
        }
      } else {
        r.Wait(now);
      }
  }
}
