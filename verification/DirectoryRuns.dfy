/** Whole runs of the agent directory, among commands to the manager it works through. */
module DirectoryRuns {
  import opened Common
  import opened ScopeForest
  import opened EffectiveProperties
  import opened PluginTables
  import opened AgentRecords
  import opened Ids
  import opened AgentSetup
  import opened AgentDirectory
  import ManagerRuns
  import PluginManager

  datatype Command =
    | Apply(a: AgentId, bindings: map<string, Binding>, starting: Starts)
    | Ensure(a: AgentId, plugin: string, properties: Props, building: nat -> Starts, starts: bool)
    | Reload(target: Option<AgentId>, building: nat -> Starts)
    | MaterializeAll(building: nat -> Starts)
    | Remove(a: AgentId)
    | Manage(command: ManagerRuns.Command, world: ManagerRuns.World)

  /** All that later calls depend on. */
  datatype Stage = Stage(
    catalog: Catalog,
    llmDefaults: Props,
    manager: ManagerRuns.State,
    plugins: Plugins,
    loops: Loops,
    failed: set<AgentId>,
    configs: map<AgentId, map<string, Binding>>)

  ghost function StageOf(d: AgentDirectory): Stage
    reads d, d.manager, d.manager.tree, d.manager.store, d.manager.tree.store
  {
    Stage(d.catalog, d.llmDefaults, ManagerRuns.StateOf(d.manager), d.plugins, d.loops, d.failed, d.configs)
  }

  function SetupIn(g: Stage): Setup {
    Setup(g.catalog, g.llmDefaults, g.manager.scopedFields, g.configs, g.manager.plugins.Keys, g.manager.bundles)
  }

  function StandingIn(g: Stage): Standing {
    Standing(g.manager.scopes, g.plugins.Keys, g.failed, false)
  }

  function BooksIn(g: Stage): Books {
    Books(g.manager.tables.instances, g.manager.tables.user, g.plugins, g.loops)
  }

  /** The agents whose records and scopes are not the same. */
  function AstrayIn(g: Stage): set<AgentId> {
    StrayIn(BooksIn(g))
  }

  lemma StageIs(d: AgentDirectory)
    ensures SetupIn(StageOf(d)) == d.CurrentSetup() && StandingIn(StageOf(d)) == d.CurrentStanding()
    ensures BooksIn(StageOf(d)) == d.CurrentBooks() && AstrayIn(StageOf(d)) == d.OutOfStep()
    ensures StageOf(d).manager.scopes == d.manager.tree.scopes.at
    ensures StageOf(d) == Stage(d.catalog, d.llmDefaults, ManagerRuns.StateOf(d.manager), d.plugins, d.loops, d.failed,
                                d.configs)
    ensures d.CurrentSetup()
            == Setup(d.catalog, d.llmDefaults, d.manager.scopedFields, d.configs, d.manager.plugins.Keys,
                     d.manager.bundles)
    ensures d.CurrentStanding() == Standing(d.manager.tree.scopes.at, d.plugins.Keys, d.failed, false)
    ensures d.CurrentBooks() == Books(d.manager.instances, d.manager.userProperties, d.plugins, d.loops)
  {
  }

  // ------------------------------------------------------------ commands of others

  predicate IsAgentScope(scope: ScopeId) {
    "agent:" <= scope
  }

  /** Others create nothing in agents' scopes, and delete nothing that is on record. */
  predicate Meddles(plugins: Plugins, loops: Loops, born: Option<(Uuid, ScopeId)>, dying: set<Uuid>) {
    || (born.Some? && (IsAgentScope(born.value.1) || born.value.0 in AllRecorded(plugins, loops)))
    || dying * AllRecorded(plugins, loops) != {}
  }

  /** What others do to the manager's instances leaves the records as right as they were. */
  lemma OthersKeepRecords(before: map<Uuid, Instance>, after: map<Uuid, Instance>, plugins: Plugins, loops: Loops,
                          born: Option<(Uuid, ScopeId)>, dying: set<Uuid>)
    requires NoLeak(before, plugins, loops)
    requires ManagerRuns.Effect(before, after, born, dying) && !Meddles(plugins, loops, born, dying)
    ensures NoLeak(after, plugins, loops)
    ensures Astray(after, plugins, loops) == Astray(before, plugins, loops)
  {
    forall a
      ensures Accounted(after, plugins, loops, a)
      ensures Recorded(plugins, loops, a) <= after.Keys <==> Recorded(plugins, loops, a) <= before.Keys
    {
      assert Accounted(before, plugins, loops, a);
      SameLiving(before, after, plugins, loops, born, dying, a);
      hide Recorded, AllRecorded, Living, RecordedOnce, ManagerRuns.Effect, Meddles;
      var all := Recorded(plugins, loops, a);
      assert all <= after.Keys <==> all * after.Keys == all;
      assert all <= before.Keys <==> all * before.Keys == all;
    }
    AstraySame(before, plugins, loops, after, plugins, loops, {});
  }

  lemma SameLiving(before: map<Uuid, Instance>, after: map<Uuid, Instance>, plugins: Plugins, loops: Loops,
                   born: Option<(Uuid, ScopeId)>, dying: set<Uuid>, a: AgentId)
    requires Accounted(before, plugins, loops, a)
    requires ManagerRuns.Effect(before, after, born, dying) && !Meddles(plugins, loops, born, dying)
    ensures Living(after, a) == Living(before, a)
    ensures Recorded(plugins, loops, a) * after.Keys == Recorded(plugins, loops, a) * before.Keys
  {
    RecordedWithin(plugins, loops);
    assert IsAgentScope(AgentScope(a));
    hide Recorded, AllRecorded, RecordedOnce, IsAgentScope;
    forall u | u in Recorded(plugins, loops, a) ensures u in after <==> u in before {
      assert u in AllRecorded(plugins, loops);
    }
    forall u | u in Living(before, a) ensures u in after {
      assert u in Recorded(plugins, loops, a) * before.Keys;
    }
  }

  /** Whether a command of others may happen; one that meddles, or breaks what agrees, does not. */
  ghost predicate AllowedIn(g: Stage, c: ManagerRuns.Command, world: ManagerRuns.World) {
    && !Meddles(g.plugins, g.loops, ManagerRuns.Born(c), ManagerRuns.Dying(g.manager, c))
    && !ManagerRuns.Breaks(g.manager, c, world)
  }

  // ------------------------------------------------------------ one call

  /** The agent of which the call deletes an instance that it cannot put another one in the place of. */
  ghost function LostBy(g: Stage, c: Command, agents: seq<Agent>): set<AgentId> {
    if c.Ensure? && LosesInstance(SetupIn(g), StandingIn(g), g.plugins, c.a, c.plugin, c.properties, agents, c.building,
                                  c.starts)
    then {c.a} else {}
  }

  /** The call asks for a certain uuid, for an agent it may first have to build. */
  predicate GuessesUuid(g: Stage, c: Command) {
    c.Ensure? && Guesses(SetupIn(g), g.plugins, c.a, c.plugin, c.properties)
  }

  /** The call tears the agent down, and so puts its records right. */
  predicate Mends(c: Command, a: AgentId) {
    match c
    case Apply(b, _, _) => b == a && ValidId(b)
    case Reload(target, _) => target.None? || target.value == a
    case Remove(b) => b == a && ValidId(b)
    case _ => false
  }

  /** What the directory's stored configurations become. */
  function ConfigsAfter(configs: map<AgentId, map<string, Binding>>, c: Command): map<AgentId, map<string, Binding>> {
    match c
    case Apply(a, bindings, _) => if ValidId(a) then configs[a := bindings] else configs
    case Remove(a) => if ValidId(a) then configs - {a} else configs
    case _ => configs
  }

  /** Which scopes there are, and which agents are on record or failed, after a call that is not about one binding. */
  function StandingAfter(s: Setup, st: Standing, c: Command, agents: seq<Agent>): Standing {
    match c
    case Apply(a, _, starting) => if ValidId(a) then Restarted(s, st, agents, a, starting) else st
    case Reload(target, building) =>
      if target.None? then Swept(s, AllForgotten(st), agents, building, |agents|)
      else if ValidId(target.value) then Restarted(s, st, agents, target.value, building(0))
      else Forgotten(st, target.value)
    case MaterializeAll(building) => Swept(s, st, agents, building, |agents|)
    case Remove(a) => if ValidId(a) then ScopeDropped(Forgotten(st, a), a) else st
    case Ensure(a, _, _, building, _) =>
      if ValidId(a) && Enabled(agents, a) then Swept(s, st, agents, building, |agents|) else st
    case _ => st
  }

  /** The agents a call does not put right again. */
  function StillAstray(g: Stage, c: Command): set<AgentId> {
    set a | a in AstrayIn(g) && !Mends(c, a)
  }

  /** The wanted component could not be created. */
  predicate Unable(g: Stage, c: Command) {
    c.Ensure? && c.plugin in g.catalog.plugins &&
    var wanted := WantedProperties(SetupIn(g), c.a, c.plugin, c.properties);
    wanted.Some? && !Replaceable(SetupIn(g), c.plugin, wanted.value, c.starts)
  }

  /**
   One call leads from one stage to another.  Who is astray afterwards is known before, but for a
   call that guesses a uuid nobody knows yet.
   */
  ghost predicate Step(g: Stage, c: Command, agents: seq<Agent>, h: Stage) {
    if c.Manage? then
      && h == (if AllowedIn(g, c.command, c.world) then g.(manager := ManagerRuns.After(g.manager, c.command, c.world))
               else g)
      && AstrayIn(h) == AstrayIn(g)
    else
      var st := StandingAfter(SetupIn(h), StandingIn(g), c, agents);
      var itself := if c.Ensure? then {c.a} else {};
      && SetupIn(h) == SetupIn(g).(configs := ConfigsAfter(g.configs, c))
      && h.manager.scopes == st.scopes && h.failed == st.failed
      && st.built <= h.plugins.Keys && h.plugins.Keys - itself == st.built - itself
      && if GuessesUuid(g, c) then
           AstrayIn(h) == StillAstray(g, c) || (Unable(g, c) && AstrayIn(h) == StillAstray(g, c) + {c.a})
         else AstrayIn(h) == StillAstray(g, c) + LostBy(g, c, agents)
  }

  method Execute(d: AgentDirectory, c: Command, agents: seq<Agent>)
    requires d.Valid()
    modifies d, d.manager, d.manager.store, d.manager.tree, d.manager.tree.store
    ensures d.Valid() && Step(old(StageOf(d)), c, agents, StageOf(d))
  {
    hide *;
    match c
    case Apply(a, bindings, starting) =>
      ExecuteApply(d, c, agents);
    case Ensure(a, plugin, properties, building, starts) =>
      ExecuteEnsure(d, c, agents);
    case Reload(target, building) =>
      ExecuteReload(d, c, agents);
    case MaterializeAll(building) =>
      ExecuteMaterializeAll(d, c, agents);
    case Remove(a) =>
      ExecuteRemove(d, c, agents);
    case Manage(command, world) =>
      Manage(d, c, agents);
  }

  method ExecuteApply(d: AgentDirectory, c: Command, agents: seq<Agent>)
    requires d.Valid() && c.Apply?
    modifies d, d.manager, d.manager.store, d.manager.tree, d.manager.tree.store
    ensures d.Valid() && Step(old(StageOf(d)), c, agents, StageOf(d))
  {
    hide AgentDirectory.Valid, Clean, Keeps, Built, AllBuilt, Astray, Swept, Attempted, ValidId, Forgot;
    hide Living, HasKids, LosesInstance, Guesses, Replaceable, WantedProperties, BundlesReady, Buildable, Grown;
    var _ := d.ApplyAgentConfig(c.a, c.bindings, agents, c.starting);
  }

  method ExecuteReload(d: AgentDirectory, c: Command, agents: seq<Agent>)
    requires d.Valid() && c.Reload?
    modifies d, d.manager, d.manager.store, d.manager.tree, d.manager.tree.store
    ensures d.Valid() && Step(old(StageOf(d)), c, agents, StageOf(d))
  {
    hide AgentDirectory.Valid, Clean, Keeps, Built, AllBuilt, Astray, Swept, Attempted, ValidId, Forgot;
    hide Living, HasKids, LosesInstance, Guesses, Replaceable, WantedProperties, BundlesReady, Buildable, Grown;
    var _ := d.Reload(c.target, agents, c.building);
  }

  method ExecuteMaterializeAll(d: AgentDirectory, c: Command, agents: seq<Agent>)
    requires d.Valid() && c.MaterializeAll?
    modifies d, d.manager, d.manager.store, d.manager.tree, d.manager.tree.store
    ensures d.Valid() && Step(old(StageOf(d)), c, agents, StageOf(d))
  {
    hide AgentDirectory.Valid, Clean, Keeps, Built, AllBuilt, Astray, Swept, Attempted, ValidId, Forgot;
    hide Living, HasKids, LosesInstance, Guesses, Replaceable, WantedProperties, BundlesReady, Buildable, Grown;
    var _ := d.MaterializeAll(agents, c.building);
    KeepsClean(old(d.CurrentBooks()), d.CurrentBooks());
  }

  method ExecuteRemove(d: AgentDirectory, c: Command, agents: seq<Agent>)
    requires d.Valid() && c.Remove?
    modifies d, d.manager, d.manager.store, d.manager.tree, d.manager.tree.store
    ensures d.Valid() && Step(old(StageOf(d)), c, agents, StageOf(d))
  {
    hide AgentDirectory.Valid, Clean, Keeps, Built, AllBuilt, Astray, Swept, Attempted, ValidId, Forgot;
    hide Living, HasKids, LosesInstance, Guesses, Replaceable, WantedProperties, BundlesReady, Buildable, Grown;
    hide Without;
    var _ := d.RemoveAgent(c.a);
  }

  method ExecuteEnsure(d: AgentDirectory, c: Command, agents: seq<Agent>)
    requires d.Valid() && c.Ensure?
    modifies d, d.manager, d.manager.store, d.manager.tree, d.manager.tree.store
    ensures d.Valid() && Step(old(StageOf(d)), c, agents, StageOf(d))
  {
    hide *;
    StageIs(d);
    var error := d.EnsurePluginInstance(c.a, c.plugin, c.properties, agents, c.building, c.starts);
    StageIs(d);
    EnsureStep(old(StageOf(d)), c, agents, StageOf(d),
               error == None && WantedProperties(d.CurrentSetup(), c.a, c.plugin, c.properties).Some?);
  }

  /** What ensuring a binding promises is such a step. */
  lemma EnsureStep(g: Stage, c: Command, agents: seq<Agent>, h: Stage, entered: bool)
    requires c.Ensure? && SetupIn(h) == SetupIn(g)
    requires !(ValidId(c.a) && Enabled(agents, c.a)) ==> BooksIn(h) == BooksIn(g) && StandingIn(h) == StandingIn(g)
    requires ValidId(c.a) && Enabled(agents, c.a) ==>
               var end := Swept(SetupIn(h), StandingIn(g), agents, c.building, |agents|);
               && h.manager.scopes == end.scopes && h.failed == end.failed
               && h.plugins.Keys == end.built + (if entered then {c.a} else {})
    requires AstrayIn(h) == AstrayIn(g) || AstrayIn(h) == AstrayIn(g) + {c.a}
    requires AstrayIn(h) != AstrayIn(g) ==>
               && c.plugin in g.catalog.plugins && WantedProperties(SetupIn(h), c.a, c.plugin, c.properties).Some?
               && !Replaceable(SetupIn(h), c.plugin,
                               WantedProperties(SetupIn(h), c.a, c.plugin, c.properties).value, c.starts)
    requires !Guesses(SetupIn(h), g.plugins, c.a, c.plugin, c.properties) ==>
               AstrayIn(h) == AstrayIn(g) + (if LosesInstance(SetupIn(h), StandingIn(g), g.plugins, c.a, c.plugin,
                                                             c.properties, agents, c.building, c.starts)
                                             then {c.a} else {})
    ensures Step(g, c, agents, h)
  {
    hide *;
    EnsureIs(g, c, agents, h);
    assert h.plugins.Keys - {c.a} == StandingAfter(SetupIn(h), StandingIn(g), c, agents).built - {c.a};
  }

  /** The parts of such a step. */
  lemma EnsureIs(g: Stage, c: Command, agents: seq<Agent>, h: Stage)
    requires c.Ensure?
    ensures var st := StandingAfter(SetupIn(h), StandingIn(g), c, agents);
            && st == (if ValidId(c.a) && Enabled(agents, c.a)
                      then Swept(SetupIn(h), StandingIn(g), agents, c.building, |agents|) else StandingIn(g))
            && (&& SetupIn(h) == SetupIn(g)
                && h.manager.scopes == st.scopes && h.failed == st.failed
                && st.built <= h.plugins.Keys && h.plugins.Keys - {c.a} == st.built - {c.a}
                && (if Guesses(SetupIn(g), g.plugins, c.a, c.plugin, c.properties) then
                      AstrayIn(h) == AstrayIn(g)
                      || (&& c.plugin in g.catalog.plugins
                          && WantedProperties(SetupIn(g), c.a, c.plugin, c.properties).Some?
                          && !Replaceable(SetupIn(g), c.plugin,
                                          WantedProperties(SetupIn(g), c.a, c.plugin, c.properties).value, c.starts)
                          && AstrayIn(h) == AstrayIn(g) + {c.a})
                    else
                      AstrayIn(h)
                      == AstrayIn(g) + (if LosesInstance(SetupIn(g), StandingIn(g), g.plugins, c.a, c.plugin,
                                                         c.properties, agents, c.building, c.starts)
                                        then {c.a} else {}))
                ==> Step(g, c, agents, h))
    ensures StandingIn(h) == StandingIn(g) ==>
              h.manager.scopes == StandingIn(g).scopes && h.failed == StandingIn(g).failed
              && h.plugins.Keys == StandingIn(g).built
  {
    hide AstrayIn, LosesInstance, Swept, ValidId, Guesses, WantedProperties, Replaceable;
    assert StillAstray(g, c) == AstrayIn(g);
  }

  /** A command of others to the manager. */
  method Manage(d: AgentDirectory, c: Command, agents: seq<Agent>)
    requires d.Valid() && c.Manage?
    modifies d.manager, d.manager.store, d.manager.tree, d.manager.tree.store
    ensures d.Valid() && Step(old(StageOf(d)), c, agents, StageOf(d))
  {
    hide *;
    Managing(d, c, agents);
    StageAgain(d);
    ManagerRuns.StateIs(d.manager);
    var breaks := ManagerRuns.WillBreak(d.manager, c.command, c.world);
    var dying := ManagerRuns.WillDie(d.manager, c.command);
    if !Meddles(d.plugins, d.loops, ManagerRuns.Born(c.command), dying) && !breaks {
      ManagerRuns.Execute(d.manager, c.command, c.world);
      ManagerRuns.StateIs(d.manager);
      StageAgain(d);
    }
  }

  /** Before and after a command of others. */
  lemma Managing(d: AgentDirectory, c: Command, agents: seq<Agent>)
    requires d.Valid() && c.Manage?
    ensures d.manager.Valid()
    ensures var g := StageOf(d);
            var allowed := && !Meddles(d.plugins, d.loops, ManagerRuns.Born(c.command),
                                       ManagerRuns.Dying(ManagerRuns.StateOf(d.manager), c.command))
                           && !ManagerRuns.Breaks(ManagerRuns.StateOf(d.manager), c.command, c.world);
            var after := ManagerRuns.After(ManagerRuns.StateOf(d.manager), c.command, c.world);
            && Step(g, c, agents, if allowed then g.(manager := after) else g)
            && (allowed ==> Clean(Books(after.tables.instances, after.tables.user, d.plugins, d.loops)))
            && after.canSave && after.canWriteScopes && d.loops.Keys <= d.plugins.Keys
  {
    hide DefinitionsAgree, IndexAgrees, LiveAgrees, PropertiesDerived, IsTree, Meddles, NoLeak, Astray;
    hide ManagerRuns.After, ManagerRuns.Dying, ManagerRuns.Breaks, ManagerRuns.Effect;
    var st := ManagerRuns.StateOf(d.manager);
    ManagerRuns.EffectOf(st, c.command, c.world);
    if AllowedIn(StageOf(d), c.command, c.world) {
      OthersKeepRecords(d.manager.instances, ManagerRuns.After(st, c.command, c.world).tables.instances, d.plugins,
                        d.loops, ManagerRuns.Born(c.command), ManagerRuns.Dying(st, c.command));
    }
  }

  lemma StageAgain(d: AgentDirectory)
    ensures StageOf(d) == Stage(d.catalog, d.llmDefaults, ManagerRuns.StateOf(d.manager), d.plugins, d.loops, d.failed,
                                d.configs)
    ensures d.Valid() <==>
              && d.manager.Valid() && d.manager.CanSave() && d.manager.CanWriteScopes()
              && d.loops.Keys <= d.plugins.Keys
              && Clean(Books(d.manager.instances, d.manager.userProperties, d.plugins, d.loops))
  {
  }

  // ------------------------------------------------------------ runs

  /** Stages that follow each other by these calls. */
  ghost predicate IsRun(trace: seq<Stage>, commands: seq<Command>, agents: seq<seq<Agent>>) {
    && |trace| == |commands| + 1 && |agents| == |commands|
    && forall i :: 0 <= i < |commands| ==> Step(trace[i], commands[i], agents[i], trace[i + 1])
  }

  predicate Unmended(commands: seq<Command>, a: AgentId, from: nat, to: nat)
    requires to <= |commands|
  {
    forall j :: from <= j < to ==> !Mends(commands[j], a)
  }

  /** The agent was astray at first, or some call lost an instance of it, and no call mended that. */
  ghost predicate LeftAstray(trace: seq<Stage>, commands: seq<Command>, agents: seq<seq<Agent>>, a: AgentId, n: nat)
    requires IsRun(trace, commands, agents) && n <= |commands|
  {
    || (a in AstrayIn(trace[0]) && Unmended(commands, a, 0, n))
    || exists i :: 0 <= i < n && a in LostBy(trace[i], commands[i], agents[i]) && Unmended(commands, a, i + 1, n)
  }

  /** Exactly the agents of which a run lost an instance and that it did not tear down since are astray. */
  lemma {:induction false} AstrayIff(trace: seq<Stage>, commands: seq<Command>, agents: seq<seq<Agent>>, a: AgentId,
                                     n: nat)
    requires IsRun(trace, commands, agents) && n <= |commands|
    requires forall i :: 0 <= i < n ==> !GuessesUuid(trace[i], commands[i])
    ensures a in AstrayIn(trace[n]) <==> LeftAstray(trace, commands, agents, a, n)
  {
    hide Step, AstrayIn, LostBy, Mends, GuessesUuid;
    if n > 0 {
      AstrayIff(trace, commands, agents, a, n - 1);
      AstrayNext(trace[n - 1], commands[n - 1], agents[n - 1], trace[n], a);
      LeftNext(trace, commands, agents, a, n);
    }
  }

  lemma LeftNext(trace: seq<Stage>, commands: seq<Command>, agents: seq<seq<Agent>>, a: AgentId, n: nat)
    requires IsRun(trace, commands, agents) && 0 < n <= |commands|
    ensures LeftAstray(trace, commands, agents, a, n)
            <==> || (LeftAstray(trace, commands, agents, a, n - 1) && !Mends(commands[n - 1], a))
                 || a in LostBy(trace[n - 1], commands[n - 1], agents[n - 1])
  {
    hide Step, AstrayIn, LostBy, Mends;
    forall from: nat ensures Unmended(commands, a, from, n)
                             <==> Unmended(commands, a, from, n - 1) && (from < n ==> !Mends(commands[n - 1], a))
    {
    }
  }

  lemma AstrayNext(g: Stage, c: Command, agents: seq<Agent>, h: Stage, a: AgentId)
    requires Step(g, c, agents, h) && !GuessesUuid(g, c)
    ensures a in AstrayIn(h) <==> (a in AstrayIn(g) && !Mends(c, a)) || a in LostBy(g, c, agents)
    ensures a in LostBy(g, c, agents) ==> !Mends(c, a)
  {
    hide AstrayIn, LosesInstance, StandingAfter, ConfigsAfter, GuessesUuid, Unable, AllowedIn, ValidId;
  }

  // ------------------------------------------------------------ runs that lose nothing

  predicate NoFilters(props: Props) {
    FILTERS_PROPERTY !in props
  }

  /** Every plugin of the catalog is installed, and nothing that is stored names filters. */
  predicate Equipped(g: Stage) {
    && (forall p :: p in g.catalog.plugins ==> g.catalog.plugins[p] in g.manager.plugins)
    && NoFilters(g.llmDefaults) && (forall p :: p in g.catalog.settings ==> NoFilters(g.catalog.settings[p]))
    && (forall a, p :: a in g.configs && p in g.configs[a] ==> NoFilters(g.configs[a][p].properties))
  }

  /** Ensured components start, nobody passes filters, and nothing is uninstalled. */
  predicate Assured(c: Command) {
    match c
    case Apply(_, bindings, _) => forall p :: p in bindings ==> NoFilters(bindings[p].properties)
    case Ensure(_, _, properties, _, starts) => starts && NoFilters(properties)
    case Manage(command, _) => !command.Uninstall?
    case _ => true
  }

  lemma AssuredKeeps(g: Stage, c: Command, agents: seq<Agent>, h: Stage)
    requires Step(g, c, agents, h) && Equipped(g) && Assured(c)
    ensures Equipped(h) && AstrayIn(h) <= AstrayIn(g)
  {
    hide AstrayIn, StandingAfter, AllowedIn, LosesInstance, ValidId, ManagerRuns.After;
    match c
    case Manage(command, world) =>
      ManagerRuns.OnlyUninstallDrops(g.manager, command, world);
    case Ensure(a, plugin, properties, building, starts) =>
      EnsuresSafely(g, c, agents);
    case _ =>
  }

  lemma EnsuresSafely(g: Stage, c: Command, agents: seq<Agent>)
    requires c.Ensure? && Equipped(g) && Assured(c)
    ensures LostBy(g, c, agents) == {} && !Unable(g, c)
  {
    hide Swept, Outdated, Usable, Expected, AlreadyHas, ValidId;
    assert NoFilters(StoredProperties(SetupIn(g), c.a, c.plugin));
    assert FILTERS_PROPERTY != "plugin.agent_id";
  }

  /**
   Any sequence of calls, whatever the registry lists, whatever starts or fails to, and whatever
   others do to the manager in between.  No instance ever leaks from the records; an agent's records
   and its scope are the same unless a call lost an instance of it and none tore it down since; and
   where the catalog is installed, ensured components start and nobody names filters, none is lost.
   */
  method Run(d: AgentDirectory, commands: seq<Command>, agents: seq<seq<Agent>>) returns (ghost trace: seq<Stage>)
    requires d.Valid() && |agents| == |commands|
    modifies d, d.manager, d.manager.store, d.manager.tree, d.manager.tree.store
    ensures d.Valid()
    ensures IsRun(trace, commands, agents) && trace[0] == old(StageOf(d)) && trace[|commands|] == StageOf(d)
    ensures (forall i :: 0 <= i < |commands| ==> !GuessesUuid(trace[i], commands[i])) ==>
              forall a :: a in d.OutOfStep() <==> LeftAstray(trace, commands, agents, a, |commands|)
    ensures old(Equipped(StageOf(d))) && (forall i :: 0 <= i < |commands| ==> Assured(commands[i])) ==>
              d.OutOfStep() <= old(d.OutOfStep())
  {
    hide *;
    trace := [StageOf(d)];
    StageIs(d);
    for n := 0 to |commands|
      invariant d.Valid() && |trace| == n + 1 && trace[0] == old(StageOf(d)) && trace[n] == StageOf(d)
      invariant forall i :: 0 <= i < n ==> Step(trace[i], commands[i], agents[i], trace[i + 1])
    {
      Execute(d, commands[n], agents[n]);
      trace := trace + [StageOf(d)];
    }
    StageIs(d);
    RunComesTo(trace, commands, agents);
  }

  /** What such a sequence of stages says of its last one. */
  lemma RunComesTo(trace: seq<Stage>, commands: seq<Command>, agents: seq<seq<Agent>>)
    requires |trace| == |commands| + 1 && |agents| == |commands|
    requires forall i :: 0 <= i < |commands| ==> Step(trace[i], commands[i], agents[i], trace[i + 1])
    ensures IsRun(trace, commands, agents)
    ensures (forall i :: 0 <= i < |commands| ==> !GuessesUuid(trace[i], commands[i])) ==>
              forall a :: a in AstrayIn(trace[|commands|]) <==> LeftAstray(trace, commands, agents, a, |commands|)
    ensures Equipped(trace[0]) && (forall i :: 0 <= i < |commands| ==> Assured(commands[i])) ==>
              AstrayIn(trace[|commands|]) <= AstrayIn(trace[0])
  {
    hide Step, AstrayIn, GuessesUuid, LeftAstray, Equipped, Assured;
    if forall i :: 0 <= i < |commands| ==> !GuessesUuid(trace[i], commands[i]) {
      forall a {
        AstrayIff(trace, commands, agents, a, |commands|);
      }
    }
    if Equipped(trace[0]) && forall i :: 0 <= i < |commands| ==> Assured(commands[i]) {
      for n := 0 to |commands|
        invariant Equipped(trace[n]) && AstrayIn(trace[n]) <= AstrayIn(trace[0])
      {
        AssuredKeeps(trace[n], commands[n], agents[n], trace[n + 1]);
      }
    }
  }
}
