/**
 Several scope trees sharing one store: `ScopeTree.Open`, `Create` and `Remove` are the steps of a
 `CommitLog` run whose updates are the edits of a scope table, so its theorems hold of scope trees.
 */
module ScopeReplicas {
  import opened Common
  import opened ScopeForest
  import opened ScopeTree
  import opened CommitLog

  type ScopeSystem = System<Table, Op>

  type ScopeEvent = Event<Op>

  ghost predicate Sound(t: Table) {
    t.Ordered() && IsTree(t.at) && t.ParentsFirst()
  }

  /** The update of one table, for every table: unsound ones allow none. */
  ghost function TableEdit(t: Table, op: Op): Option<Table> {
    if !(t.Ordered() && IsTree(t.at)) then None
    else match Edit(t, op) case Ok(u) => Some(u) case Err(_) => None
  }

  /** What the next tree opened on the store would hold. */
  function Contents(saved: Option<Snapshot>): Stored<Table> {
    match saved
    case None => Empty
    case Some(snapshot) => Stored(snapshot.version, TableOf(snapshot.scopes))
  }

  ghost function ScopeRun(events: seq<ScopeEvent>): ScopeSystem {
    Run(ROOT_TABLE, TableEdit, events, |events|)
  }

  /** An update through one tree object is one attempt of the run: same winner, same contents. */
  lemma StepIsAttempt(s: ScopeSystem, i: nat, saved: Option<Snapshot>, op: Op)
    requires i < |s.copies| && s.copies[i].state.Ordered() && IsTree(s.copies[i].state.at)
    requires saved.Some? && s.stored == Contents(saved)
    ensures var c := Step(s.copies[i], saved, op);
            Next(ROOT_TABLE, TableEdit, s, Attempt(i, op))
            == System(s.copies[i := c.copy], Contents(c.saved), if c.error.None? then s.log + [op] else s.log)
  {
    hide Edit;
    StepContents(s.copies[i], saved, op);
    assert s.copies[i := s.copies[i]] == s.copies;
  }

  lemma StepContents(c: Copy<Table>, saved: Option<Snapshot>, op: Op)
    requires c.state.Ordered() && IsTree(c.state.at) && saved.Some?
    ensures var d := Step(c, saved, op);
            if TableEdit(c.state, op).Some? && saved.value.version == c.version
            then
              && d.error == None
              && d.copy == Copy(TableEdit(c.state, op).value, c.version + 1)
              && Contents(d.saved) == Stored(d.copy.version, d.copy.state)
            else d.error.Some? && d.copy == c && d.saved == saved
  {
    hide Edit;
    if Edit(c.state, op).Ok? {
      EditKeepsTree(c.state, op);
      TableRoundTrip(Edit(c.state, op).value);
    }
  }

  lemma EditKeepsSound(t: Table, op: Op)
    requires Sound(t) && TableEdit(t, op).Some?
    ensures Sound(TableEdit(t, op).value)
  {
    EditKeepsTree(t, op);
    EditKeepsParentsFirst(t, op);
  }

  /**
   In every interleaving of opens and updates from an empty store, the stored scopes and those of
   every tree are a tree rooted at `root` whose parents are listed before their children; so every
   snapshot ever saved passes validation when it is loaded again.
   */
  lemma RunsStayTrees(events: seq<ScopeEvent>)
    ensures var s := ScopeRun(events);
            && (s.stored.Stored? ==> Sound(s.stored.state))
            && (forall i :: 0 <= i < |s.copies| ==> Sound(s.copies[i].state))
  {
    RootTableIsTree();
    forall t, op | Sound(t) && TableEdit(t, op).Some? ensures Sound(TableEdit(t, op).value) {
      EditKeepsSound(t, op);
    }
    RunsKeep(ROOT_TABLE, TableEdit, events, |events|, Sound);
  }

  /** Opening a tree in any such run gives a tree that holds what the store holds. */
  lemma OpenSucceeds(events: seq<ScopeEvent>, saved: Option<Snapshot>)
    requires Contents(saved) == ScopeRun(events).stored
    ensures saved.Some? ==> IsTree(TableOf(saved.value.scopes).at)
    ensures saved.None? ==> Contents(Some(Snapshot(1, ROOT_TABLE.Values()))) == Stored(1, ROOT_TABLE)
    ensures var s := Next(ROOT_TABLE, TableEdit, ScopeRun(events), Open);
            s.copies == ScopeRun(events).copies
              + [if saved.None? then Copy(ROOT_TABLE, 1)
                 else Copy(TableOf(saved.value.scopes), saved.value.version)]
  {
    RunsStayTrees(events);
    RootTableIsTree();
  }

  /** The same update through two trees at different versions: the one that is behind is refused. */
  lemma StaleTreeIsRefused(events: seq<ScopeEvent>, i: nat, op: Op)
    requires i < |ScopeRun(events).copies|
    requires ScopeRun(events).stored.Stored? && ScopeRun(events).copies[i].version != ScopeRun(events).stored.version
    ensures ScopeRun(events).copies[i].version < ScopeRun(events).stored.version
    ensures Next(ROOT_TABLE, TableEdit, ScopeRun(events), Attempt(i, op)) == ScopeRun(events)
  {
    VersionsDetermineStates(ROOT_TABLE, TableEdit, events, i, i);
  }
}
