/** Whole runs of the plugin manager, against the state each command should lead to. */
module ManagerRuns {
  import opened Common
  import opened ScopeForest
  import opened EffectiveProperties
  import opened PluginTables
  import opened PluginManager
  import ScopeTree

  /** How the outside world answers one call. */
  datatype World = World(starts: bool, restarts: bool, killsUnknown: bool, saves: bool)

  datatype Command =
    | Install(descriptor: Descriptor)
    | Uninstall(factory: string, fromModule: Option<string>)
    | AddScope(scope: ScopeId, name: string, parent: Option<ScopeId>)
    | RemoveScope(scope: ScopeId, recursive: bool)
    | Create(factory: string, moduleName: string, scope: ScopeId, user: Props, enabled: bool, ranking: int, uuid: Uuid)
    | Update(instance: Uuid, properties: Option<Props>, newEnabled: Option<bool>, newRanking: Option<int>)
    | Delete(instance: Uuid)
    | Ensure(factory: string, moduleName: string, scope: ScopeId, user: Props, enabled: bool, uuid: Uuid, chosen: Uuid)

  /** All that later commands depend on; `scopedFields` never changes. */
  datatype State = State(
    plugins: map<DefinitionKey, Descriptor>,
    registry: map<string, Descriptor>,
    bundles: set<string>,
    scopes: Forest,
    tables: InstanceTables,
    scopedFields: string -> set<string>,
    bound: bool,
    canSave: bool,
    canWriteScopes: bool)

  ghost function StateOf(m: PluginManager): State
    reads m, m.tree, m.store, m.tree.store
  {
    State(m.plugins, m.registry, m.bundles, m.tree.scopes.at, m.Records(), m.scopedFields, m.bound, m.CanSave(),
          m.CanWriteScopes())
  }

  // ------------------------------------------------------------ where a command leads

  /** A command that reuses a uuid, or chooses an instance that does not match, never happens. */
  predicate Possible(instances: map<Uuid, Instance>, c: Command) {
    match c
    case Create(_, _, _, _, _, _, uuid) => uuid !in instances
    case Ensure(factory, moduleName, scope, _, _, uuid, chosen) =>
      var matching := MatchingIn(instances, factory, moduleName, scope);
      uuid !in instances && (matching != {} ==> chosen in matching)
    case _ => true
  }

  predicate Saved(st: State, world: World) {
    !st.bound || (world.saves && st.canSave)
  }

  /** Nothing a command changes. */
  ghost predicate Still(st: State, after: State) {
    && after.bound == st.bound && after.canSave == st.canSave && after.canWriteScopes == st.canWriteScopes
    && after.scopedFields == st.scopedFields
  }

  /** The state a command leads to, in a world that answers like this. */
  ghost function After(st: State, c: Command, world: World): (after: State)
    ensures Still(st, after)
  {
    if !Possible(st.tables.instances, c) then st
    else
      match c
      case Install(descriptor) => AfterInstall(st, descriptor, world)
      case Uninstall(factory, fromModule) => AfterUninstall(st, factory, fromModule)
      case AddScope(scope, name, parent) => AfterAddScope(st, scope, name, OrElse(parent, ROOT_SCOPE_ID))
      case RemoveScope(scope, recursive) => AfterRemoveScope(st, scope, recursive)
      case Create(factory, moduleName, scope, user, enabled, ranking, uuid) =>
        AfterCreate(st, factory, moduleName, scope, user, enabled, ranking, uuid, world)
      case Update(u, properties, enabled, ranking) =>
        AfterUpdate(st, u, MergedOver(UserIn(st.tables.user, u), properties), enabled, ranking, world)
      case Delete(u) => AfterDelete(st, u, world)
      case Ensure(factory, moduleName, scope, user, enabled, uuid, chosen) =>
        if MatchingIn(st.tables.instances, factory, moduleName, scope) == {} then
          AfterCreate(st, factory, moduleName, scope, user, enabled, 0, uuid, world)
        else if HasAlready(st.tables.instances[chosen], UserIn(st.tables.user, chosen), user, enabled) then st
        else AfterUpdate(st, chosen, UserIn(st.tables.user, chosen) + user, Some(enabled), None, world)
  }

  function AfterInstall(st: State, d: Descriptor, world: World): (after: State)
    ensures Still(st, after) && after.tables == st.tables
  {
    if ValidDescriptor(d) && KeyOf(d) !in st.plugins && d.factory !in st.registry
       && (d.moduleName in st.bundles || world.starts) && Saved(st, world)
    then
      st.(plugins := st.plugins[KeyOf(d) := d], registry := st.registry[d.factory := d],
          bundles := st.bundles + {d.moduleName})
    else st
  }

  function AfterUninstall(st: State, factory: string, fromModule: Option<string>): (after: State)
    ensures Still(st, after) && after.tables == st.tables
  {
    if factory !in st.registry then st
    else
      var key := KeyOf(st.registry[factory]);
      if fromModule.Some? && fromModule.value != key.0 then st
      else if exists u :: u in st.tables.instances && DefinitionOf(st.tables.instances[u]) == key then st
      else
        var left := st.plugins - {key};
        st.(plugins := left, registry := st.registry - {factory},
            bundles := if exists k :: k in left && k.0 == key.0 then st.bundles else st.bundles - {key.0})
  }

  function AfterAddScope(st: State, scope: ScopeId, name: string, parent: ScopeId): (after: State)
    ensures Still(st, after) && after.tables == st.tables
  {
    if scope in st.scopes || IsBlank(scope) || IsBlank(name) || parent !in st.scopes || !st.canWriteScopes then st
    else st.(scopes := WithScope(st.scopes, scope, name, parent))
  }

  function LivingIn(instances: map<Uuid, Instance>, scopes: set<ScopeId>): set<Uuid> {
    set u | u in instances && instances[u].scope in scopes
  }

  function WithoutInstances(tables: InstanceTables, gone: set<Uuid>): InstanceTables {
    InstanceTables(tables.instances - gone, tables.user - gone, tables.ipopo - gone)
  }

  ghost function AfterRemoveScope(st: State, scope: ScopeId, recursive: bool): (after: State)
    ensures Still(st, after)
  {
    if !IsTree(st.scopes) || scope !in st.scopes then st
    else
      var below := Subtree(st.scopes, scope);
      var affected := LivingIn(st.tables.instances, below);
      if !recursive && (below != {scope} || affected != {}) then st
      else
        st.(tables := WithoutInstances(st.tables, affected),
            scopes := if scope == ROOT_SCOPE_ID || !st.canWriteScopes then st.scopes else st.scopes - below)
  }

  ghost function AfterCreate(st: State, factory: string, moduleName: string, scope: ScopeId, user: Props,
                             enabled: bool, ranking: int, uuid: Uuid, world: World): (after: State)
    ensures Still(st, after)
  {
    var i := Created(st.scopes, st.scopedFields, uuid, factory, moduleName, scope, user, enabled, ranking);
    if scope in st.scopes && (moduleName, factory) in st.plugins && i.Ok? && (enabled ==> world.starts)
       && Saved(st, world)
    then
      st.(tables := InstanceTables(st.tables.instances[uuid := i.value], st.tables.user[uuid := user],
                                   if enabled then st.tables.ipopo[uuid := i.value.props] else st.tables.ipopo))
    else st
  }

  /** What an update sets out to do, with this world's answers. */
  ghost function PlanIn(st: State, u: Uuid, user: Props, enabled: Option<bool>, ranking: Option<int>, world: World)
    : Result<Plan, PropertyError>
    requires u in st.tables.instances
  {
    Planned(st.scopes, st.scopedFields, st.tables.instances[u], UserIn(st.tables.user, u), user, enabled, ranking,
            world.starts, world.killsUnknown && world.restarts, Saved(st, world))
  }

  ghost function AfterUpdate(st: State, u: Uuid, user: Props, enabled: Option<bool>, ranking: Option<int>, world: World)
    : (after: State)
    ensures Still(st, after)
  {
    if u !in st.tables.instances then st
    else
      match PlanIn(st, u, user, enabled, ranking, world)
      case Err(_) => st
      case Ok(plan) => st.(tables := MovedTo(st.tables, plan))
  }

  function AfterDelete(st: State, u: Uuid, world: World): (after: State)
    ensures Still(st, after)
  {
    if u !in st.tables.instances then st
    else if Saved(st, world) || (st.tables.instances[u].status == Active && !world.restarts) then
      st.(tables := WithoutInstances(st.tables, {u}))
    else st.(tables := st.tables.(user := st.tables.user[u := st.tables.instances[u].props]))
  }

  // ------------------------------------------------------------ commands that break the agreement

  ghost predicate IsUnwrapped(st: State, u: Uuid)
    requires u in st.tables.instances
  {
    Unwrapped(st.scopes, st.scopedFields, st.tables.instances[u], UserIn(st.tables.user, u))
  }

  ghost predicate UpdateBreaks(st: State, u: Uuid, user: Props, enabled: Option<bool>, ranking: Option<int>,
                               world: World)
    requires u in st.tables.instances
  {
    !UpdateKeeps(PlanIn(st, u, user, enabled, ranking, world), IsUnwrapped(st, u))
  }

  /** The exact condition, before the call, under which a command breaks what it found in agreement. */
  ghost predicate Breaks(st: State, c: Command, world: World) {
    match c
    case Update(u, properties, enabled, ranking) =>
      u in st.tables.instances
      && UpdateBreaks(st, u, MergedOver(UserIn(st.tables.user, u), properties), enabled, ranking, world)
    case Delete(u) =>
      && u in st.tables.instances && !Saved(st, world)
      && (st.tables.instances[u].status == Active ==> world.restarts) && !IsUnwrapped(st, u)
    case Ensure(factory, moduleName, scope, user, enabled, _, chosen) =>
      && Possible(st.tables.instances, c) && chosen in MatchingIn(st.tables.instances, factory, moduleName, scope)
      && !HasAlready(st.tables.instances[chosen], UserIn(st.tables.user, chosen), user, enabled)
      && UpdateBreaks(st, chosen, UserIn(st.tables.user, chosen) + user, Some(enabled), None, world)
    case _ => false
  }

  /** A caller can find the condition out before the call. */
  method WillBreak(m: PluginManager, c: Command, world: World) returns (breaks: bool)
    requires m.Valid()
    ensures breaks == Breaks(StateOf(m), c, world)
  {
    hide UpdateBreaks, Unwrapped, IsTree, PluginManager.Tables, PluginManager.Live, PluginManager.Derived;
    breaks := false;
    match c
    case Update(u, properties, enabled, ranking) =>
      if u in m.instances {
        breaks := WillUpdateBreak(m, u, MergedOver(UserIn(m.userProperties, u), properties), enabled, ranking, world);
      }
    case Delete(u) =>
      if u in m.instances && m.bound && !(world.saves && m.CanSave())
         && (m.instances[u].status == Active ==> world.restarts) {
        var unwrapped := CheckUnwrapped(m, u);
        breaks := !unwrapped;
      }
    case Ensure(factory, moduleName, scope, user, enabled, uuid, chosen) =>
      if uuid !in m.instances && chosen in m.Matching(factory, moduleName, scope)
         && !HasAlready(m.instances[chosen], UserIn(m.userProperties, chosen), user, enabled) {
        breaks := WillUpdateBreak(m, chosen, UserIn(m.userProperties, chosen) + user, Some(enabled), None, world);
      }
    case _ =>
  }

  method WillUpdateBreak(m: PluginManager, u: Uuid, user: Props, enabled: Option<bool>, ranking: Option<int>,
                         world: World)
    returns (breaks: bool)
    requires m.Valid() && u in m.instances
    ensures breaks == UpdateBreaks(StateOf(m), u, user, enabled, ranking, world)
  {
    hide *;
    m.Facts();
    m.Known(u);
    StateIs(m);
    PlanIs(StateOf(m), u, user, enabled, ranking, world);
    var current := m.instances[u];
    var planned := m.Prepare(current.factory, current.moduleName, current.scope, user, OrElse(enabled, current.enabled),
                             OrElse(ranking, current.ranking), u);
    var unwrapped := CheckUnwrapped(m, u);
    breaks := planned.Ok? && !UpdateKeeps(Ok(Plan(current, planned.value, user,
                                                  NeedsStart(current, planned.value,
                                                             user != UserIn(m.userProperties, u)),
                                                  world.starts, world.killsUnknown && world.restarts,
                                                  !m.bound || (world.saves && m.CanSave()))), unwrapped);
  }

  method CheckUnwrapped(m: PluginManager, u: Uuid) returns (unwrapped: bool)
    requires m.Valid() && u in m.instances
    ensures unwrapped == IsUnwrapped(StateOf(m), u)
  {
    hide DefinitionsAgree, IndexAgrees, LiveAgrees, PropertiesDerived, IsChain, NoOwnFilter;
    m.Known(u);
    TreeHasChain(m.tree.scopes.at, m.instances[u].scope);
    var visible := m.tree.Ancestors(m.instances[u].scope, true);
    unwrapped := NoOwnFilter(UserFilters(UserIn(m.userProperties, u)), m.scopedFields(m.instances[u].moduleName),
                             visible.value);
  }

  lemma StateIs(m: PluginManager)
    ensures StateOf(m)
            == State(m.plugins, m.registry, m.bundles, m.tree.scopes.at,
                     InstanceTables(m.instances, m.userProperties, m.ipopo), m.scopedFields, m.bound, m.CanSave(),
                     m.CanWriteScopes())
  {
  }

  lemma PlanIs(st: State, u: Uuid, user: Props, enabled: Option<bool>, ranking: Option<int>, world: World)
    requires u in st.tables.instances
    ensures var current := st.tables.instances[u];
            var next := Created(st.scopes, st.scopedFields, current.uuid, current.factory, current.moduleName,
                                current.scope, user, OrElse(enabled, current.enabled),
                                OrElse(ranking, current.ranking));
            UpdateBreaks(st, u, user, enabled, ranking, world)
            <==> next.Ok? && !UpdateKeeps(Ok(Plan(current, next.value, user,
                                                  NeedsStart(current, next.value, user != UserIn(st.tables.user, u)),
                                                  world.starts, world.killsUnknown && world.restarts,
                                                  !st.bound || (world.saves && st.canSave))), IsUnwrapped(st, u))
  {
    hide Created, UpdateKeeps, IsUnwrapped, NeedsStart;
    assert UpdateKeeps(PlanIn(st, u, user, enabled, ranking, world), IsUnwrapped(st, u))
           <== PlanIn(st, u, user, enabled, ranking, world).Err? by {
      NoPlanKeeps(PlanIn(st, u, user, enabled, ranking, world), IsUnwrapped(st, u));
    }
  }

  lemma NoPlanKeeps(plan: Result<Plan, PropertyError>, unwrapped: bool)
    ensures plan.Err? ==> UpdateKeeps(plan, unwrapped)
  {
  }

  // ------------------------------------------------------------ one command

  method ExecuteInstall(m: PluginManager, d: Descriptor, world: World)
    requires m.Valid()
    modifies m`plugins, m`registry, m`bundles, m`moduleRefs, m`stateVersion, m.store
    ensures m.Valid() && StateOf(m) == AfterInstall(old(StateOf(m)), d, world)
  {
    hide PluginManager.Valid, PluginManager.CanSave, PluginManager.CanWriteScopes, ValidDescriptor;
    FactoryTaken(m, d);
    var _ := m.InstallDefinition(d, world.starts, world.saves);
  }

  /** Whether a factory is taken is said by definitions and registry alike. */
  lemma FactoryTaken(m: PluginManager, d: Descriptor)
    requires m.Valid()
    ensures KeyOf(d) in m.plugins ==> d.factory in m.registry
  {
    hide InstancesAgree, IndexAgrees, LiveAgrees, PropertiesDerived, IsTree, ScopeTree.Table.Ordered;
  }

  method ExecuteUninstall(m: PluginManager, factory: string, fromModule: Option<string>, world: World)
    requires m.Valid()
    modifies m`plugins, m`registry, m`bundles, m`moduleRefs, m`stateVersion, m.store
    ensures m.Valid() && StateOf(m) == AfterUninstall(old(StateOf(m)), factory, fromModule)
  {
    hide PluginManager.Valid, PluginManager.CanSave, PluginManager.CanWriteScopes, KeyOf, DefinitionOf;
    var _ := m.UninstallPlugin(factory, fromModule, world.saves);
  }

  method ExecuteAddScope(m: PluginManager, scope: ScopeId, name: string, parent: Option<ScopeId>)
    requires m.Valid()
    modifies m.tree, m.tree.store
    ensures m.Valid() && StateOf(m) == AfterAddScope(old(StateOf(m)), scope, name, OrElse(parent, ROOT_SCOPE_ID))
  {
    hide PluginManager.Valid, PluginManager.CanSave, PluginManager.CanWriteScopes, IsBlank;
    var _ := m.AddScope(scope, name, parent);
  }

  method ExecuteRemoveScope(m: PluginManager, scope: ScopeId, recursive: bool, world: World)
    requires m.Valid()
    modifies m, m.store, m.tree, m.tree.store
    ensures m.Valid() && StateOf(m) == AfterRemoveScope(old(StateOf(m)), scope, recursive)
  {
    hide PluginManager.Valid, PluginManager.CanSave, PluginManager.CanWriteScopes, IsTree;
    m.Facts();
    LivingIs(m, scope);
    var _ := m.RemoveScope(scope, recursive, world.saves);
  }

  lemma LivingIs(m: PluginManager, scope: ScopeId)
    requires m.Valid()
    ensures m.tree.Valid() && IsTree(m.tree.scopes.at)
    ensures m.LivingIn({scope}) == LivingIn(m.instances, {scope})
    ensures scope in m.tree.scopes.at ==>
              var below := Subtree(m.tree.scopes.at, scope);
              m.LivingIn(below) == LivingIn(m.instances, below)
  {
    hide DefinitionsAgree, InstancesAgree, IndexAgrees, LiveAgrees, PropertiesDerived, IsTree, ScopeTree.Table.Ordered;
  }

  method ExecuteCreate(m: PluginManager, c: Command, world: World)
    requires m.Valid() && c.Create? && c.uuid !in m.instances
    modifies m`instances, m`userProperties, m`registrationInstances, m`ipopo, m`stateVersion, m.store
    ensures m.Valid()
    ensures StateOf(m) == AfterCreate(old(StateOf(m)), c.factory, c.moduleName, c.scope, c.user, c.enabled, c.ranking,
                                      c.uuid, world)
  {
    hide PluginManager.Valid, PluginManager.CanSave, PluginManager.CanWriteScopes, Created;
    var _ := m.CreateInstance(c.factory, c.moduleName, c.scope, c.user, c.enabled, c.ranking, c.uuid, world.starts,
                              world.saves);
  }

  method ExecuteUpdate(m: PluginManager, u: Uuid, properties: Option<Props>, enabled: Option<bool>,
                       ranking: Option<int>, world: World)
    requires m.Valid()
    modifies m`instances, m`userProperties, m`ipopo, m`stateVersion, m.store
    ensures m.Tables()
    ensures var st := old(StateOf(m));
            var user := MergedOver(UserIn(st.tables.user, u), properties);
            && StateOf(m) == AfterUpdate(st, u, user, enabled, ranking, world)
            && (m.Valid() <==> !(u in st.tables.instances && UpdateBreaks(st, u, user, enabled, ranking, world)))
  {
    hide *;
    m.Facts();
    StateIs(m);
    if u in m.instances {
      UpdateKnown(m, u, properties, enabled, ranking, world);
    } else {
      UpdateLeads(StateOf(m), u, MergedOver(UserIn(m.userProperties, u), properties), enabled, ranking, world,
                  m.Records(), Err(InstanceNotFound));
      var _ := m.UpdateInstance(u, properties, enabled, ranking, world.starts, world.restarts, world.killsUnknown,
                                world.saves);
      m.Facts();
      StateIs(m);
    }
  }

  method UpdateKnown(m: PluginManager, u: Uuid, properties: Option<Props>, enabled: Option<bool>, ranking: Option<int>,
                     world: World)
    requires m.Valid() && u in m.instances
    modifies m`instances, m`userProperties, m`ipopo, m`stateVersion, m.store
    ensures m.Tables()
    ensures var user := MergedOver(UserIn(old(m.userProperties), u), properties);
            && StateOf(m) == AfterUpdate(old(StateOf(m)), u, user, enabled, ranking, world)
            && (m.Valid() <==> !UpdateBreaks(old(StateOf(m)), u, user, enabled, ranking, world))
  {
    hide *;
    m.Facts();
    m.Known(u);
    StateIs(m);
    PlanInIs(StateOf(m), u, MergedOver(m.userProperties[u], properties), enabled, ranking, world);
    var r := m.UpdateInstance(u, properties, enabled, ranking, world.starts, world.restarts, world.killsUnknown,
                              world.saves);
    m.Facts();
    StateIs(m);
    UpdateLeads(old(StateOf(m)), u, MergedOver(old(m.userProperties)[u], properties), enabled, ranking, world,
                m.Records(), r);
    EndsWith(old(m.Records()), m.Records(),
             PlanIn(old(StateOf(m)), u, MergedOver(old(m.userProperties)[u], properties), enabled, ranking, world), r,
             IsUnwrapped(old(StateOf(m)), u));
  }

  /** What an update sets out to do, and what the agreement afterwards depends on. */
  lemma PlanInIs(st: State, u: Uuid, user: Props, enabled: Option<bool>, ranking: Option<int>, world: World)
    requires u in st.tables.instances
    ensures PlanIn(st, u, user, enabled, ranking, world)
            == Planned(st.scopes, st.scopedFields, st.tables.instances[u], UserIn(st.tables.user, u), user, enabled,
                       ranking, world.starts, world.killsUnknown && world.restarts,
                       !st.bound || (world.saves && st.canSave))
    ensures IsUnwrapped(st, u)
            == Unwrapped(st.scopes, st.scopedFields, st.tables.instances[u], UserIn(st.tables.user, u))
    ensures UpdateBreaks(st, u, user, enabled, ranking, world)
            <==> !UpdateKeeps(PlanIn(st, u, user, enabled, ranking, world), IsUnwrapped(st, u))
  {
    hide Planned, Unwrapped, UpdateKeeps;
  }

  /** What the outcome of an update means for the state it leads to. */
  lemma UpdateLeads(st: State, u: Uuid, user: Props, enabled: Option<bool>, ranking: Option<int>, world: World,
                    after: InstanceTables, r: Result<Instance, ManagerError>)
    ensures u !in st.tables.instances ==> AfterUpdate(st, u, user, enabled, ranking, world) == st
    ensures u in st.tables.instances && Outcome(st.tables, after, PlanIn(st, u, user, enabled, ranking, world), r) ==>
              AfterUpdate(st, u, user, enabled, ranking, world) == st.(tables := after)
  {
    hide PlanIn, MovedTo;
  }

  method ExecuteDelete(m: PluginManager, u: Uuid, world: World)
    requires m.Valid()
    modifies m`instances, m`userProperties, m`registrationInstances, m`ipopo, m`stateVersion, m.store
    ensures m.Tables() && StateOf(m) == AfterDelete(old(StateOf(m)), u, world)
    ensures m.Valid() <==> !Breaks(old(StateOf(m)), Delete(u), world)
  {
    hide *;
    m.Facts();
    StateIs(m);
    DeleteIs(StateOf(m), u, world);
    if u in m.instances {
      m.Known(u);
    }
    var _ := m.DeleteInstance(u, world.restarts, world.saves);
    m.Facts();
    StateIs(m);
  }

  lemma DeleteIs(st: State, u: Uuid, world: World)
    ensures var saves := !st.bound || (world.saves && st.canSave);
            && AfterDelete(st, u, world)
               == (if u !in st.tables.instances then st
                   else if saves || (st.tables.instances[u].status == Active && !world.restarts) then
                     st.(tables := InstanceTables(st.tables.instances - {u}, st.tables.user - {u},
                                                  st.tables.ipopo - {u}))
                   else st.(tables := st.tables.(user := st.tables.user[u := st.tables.instances[u].props])))
            && (Breaks(st, Delete(u), world)
                <==> && u in st.tables.instances && !saves
                     && (st.tables.instances[u].status == Active ==> world.restarts)
                     && !Unwrapped(st.scopes, st.scopedFields, st.tables.instances[u], UserIn(st.tables.user, u)))
  {
    hide Unwrapped, UserIn;
  }

  method ExecuteEnsure(m: PluginManager, c: Command, world: World)
    requires m.Valid() && c.Ensure? && Possible(m.instances, c)
    modifies m`instances, m`userProperties, m`registrationInstances, m`ipopo, m`stateVersion, m.store
    ensures m.Tables() && StateOf(m) == After(old(StateOf(m)), c, world)
    ensures m.Valid() <==> !Breaks(old(StateOf(m)), c, world)
  {
    hide *;
    m.Facts();
    StateIs(m);
    MatchingIs(m, c.factory, c.moduleName, c.scope);
    Ensures(StateOf(m), c, world);
    if m.Matching(c.factory, c.moduleName, c.scope) == {} {
      EnsureNew(m, c, world);
    } else if HasAlready(m.instances[c.chosen], UserIn(m.userProperties, c.chosen), c.user, c.enabled) {
      EnsureNothing(m, c, world);
    } else {
      EnsureKnown(m, c, world);
    }
    m.Facts();
  }

  method EnsureNew(m: PluginManager, c: Command, world: World)
    requires m.Valid() && c.Ensure? && c.uuid !in m.instances && m.Matching(c.factory, c.moduleName, c.scope) == {}
    modifies m`instances, m`userProperties, m`registrationInstances, m`ipopo, m`stateVersion, m.store
    ensures m.Valid()
    ensures StateOf(m) == AfterCreate(old(StateOf(m)), c.factory, c.moduleName, c.scope, c.user, c.enabled, 0, c.uuid,
                                      world)
  {
    hide *;
    m.Facts();
    StateIs(m);
    Creates(StateOf(m), c.factory, c.moduleName, c.scope, c.user, c.enabled, 0, c.uuid, world);
    var r := m.EnsureInstance(c.factory, c.moduleName, c.scope, c.user, c.enabled, c.uuid, c.chosen, world.starts,
                              world.restarts, world.killsUnknown, world.saves);
    m.Facts();
    StateIs(m);
  }

  method EnsureNothing(m: PluginManager, c: Command, world: World)
    requires m.Valid() && c.Ensure? && c.uuid !in m.instances
             && c.chosen in m.Matching(c.factory, c.moduleName, c.scope)
    requires c.chosen in m.instances
    requires HasAlready(m.instances[c.chosen], UserIn(m.userProperties, c.chosen), c.user, c.enabled)
    modifies m`instances, m`userProperties, m`registrationInstances, m`ipopo, m`stateVersion, m.store
    ensures m.Valid() && StateOf(m) == old(StateOf(m))
  {
    hide *;
    m.Facts();
    StateIs(m);
    var _ := m.EnsureInstance(c.factory, c.moduleName, c.scope, c.user, c.enabled, c.uuid, c.chosen, world.starts,
                              world.restarts, world.killsUnknown, world.saves);
    m.Facts();
    StateIs(m);
  }

  method EnsureKnown(m: PluginManager, c: Command, world: World)
    requires m.Valid() && c.Ensure? && c.uuid !in m.instances
             && c.chosen in m.Matching(c.factory, c.moduleName, c.scope)
    requires c.chosen in m.instances
    requires !HasAlready(m.instances[c.chosen], UserIn(m.userProperties, c.chosen), c.user, c.enabled)
    modifies m`instances, m`userProperties, m`registrationInstances, m`ipopo, m`stateVersion, m.store
    ensures m.Tables()
    ensures var user := UserIn(old(m.userProperties), c.chosen) + c.user;
            && StateOf(m) == AfterUpdate(old(StateOf(m)), c.chosen, user, Some(c.enabled), None, world)
            && (m.Valid() <==> !UpdateBreaks(old(StateOf(m)), c.chosen, user, Some(c.enabled), None, world))
  {
    hide *;
    m.Facts();
    StateIs(m);
    PlanInIs(StateOf(m), c.chosen, UserIn(m.userProperties, c.chosen) + c.user, Some(c.enabled), None, world);
    var r := m.EnsureInstance(c.factory, c.moduleName, c.scope, c.user, c.enabled, c.uuid, c.chosen, world.starts,
                              world.restarts, world.killsUnknown, world.saves);
    m.Facts();
    StateIs(m);
    UpdateLeads(old(StateOf(m)), c.chosen, UserIn(old(m.userProperties), c.chosen) + c.user, Some(c.enabled), None,
                world, m.Records(), r);
  }

  lemma MatchingIs(m: PluginManager, factory: string, moduleName: string, scope: ScopeId)
    ensures m.Matching(factory, moduleName, scope) == MatchingIn(m.instances, factory, moduleName, scope)
  {
  }

  lemma Ensures(st: State, c: Command, world: World)
    requires c.Ensure? && Possible(st.tables.instances, c)
    ensures var matching := MatchingIn(st.tables.instances, c.factory, c.moduleName, c.scope);
            c.uuid !in st.tables.instances
            && if matching == {} then
                 && !Breaks(st, c, world)
                 && After(st, c, world)
                    == AfterCreate(st, c.factory, c.moduleName, c.scope, c.user, c.enabled, 0, c.uuid, world)
               else
                 && c.chosen in matching && c.chosen in st.tables.instances
                 && if HasAlready(st.tables.instances[c.chosen], UserIn(st.tables.user, c.chosen), c.user,
                                  c.enabled) then
                      !Breaks(st, c, world) && After(st, c, world) == st
                    else
                      var user := UserIn(st.tables.user, c.chosen) + c.user;
                      && (Breaks(st, c, world) <==> UpdateBreaks(st, c.chosen, user, Some(c.enabled), None, world))
                      && After(st, c, world) == AfterUpdate(st, c.chosen, user, Some(c.enabled), None, world)
  {
    hide AfterUpdate, UpdateBreaks, AfterCreate, HasAlready, UserIn;
  }

  lemma Creates(st: State, factory: string, moduleName: string, scope: ScopeId, user: Props, enabled: bool,
                ranking: int, uuid: Uuid, world: World)
    ensures var i := Created(st.scopes, st.scopedFields, uuid, factory, moduleName, scope, user, enabled, ranking);
            AfterCreate(st, factory, moduleName, scope, user, enabled, ranking, uuid, world)
            == if scope in st.scopes && (moduleName, factory) in st.plugins && i.Ok? && (enabled ==> world.starts)
                  && (!st.bound || (world.saves && st.canSave))
               then
                 st.(tables := InstanceTables(st.tables.instances[uuid := i.value], st.tables.user[uuid := user],
                                              if enabled then st.tables.ipopo[uuid := i.value.props]
                                              else st.tables.ipopo))
               else st
  {
    hide Created;
  }

  /** One command leads where it should, and breaks the agreement exactly when the condition held before. */
  method Execute(m: PluginManager, c: Command, world: World)
    requires m.Valid()
    modifies m, m.store, m.tree, m.tree.store
    ensures m.Tables() && StateOf(m) == After(old(StateOf(m)), c, world)
    ensures m.Valid() <==> !Breaks(old(StateOf(m)), c, world)
  {
    hide PluginManager.Valid, PluginManager.Tables, PluginManager.Live, PluginManager.Derived, Possible, StateOf;
    hide AfterInstall, AfterUninstall, AfterAddScope, AfterRemoveScope, AfterCreate, AfterUpdate, AfterDelete;
    hide UpdateBreaks, IsUnwrapped, UserIn, MergedOver, Saved, HasAlready, MatchingIn;
    m.Facts();
    StateIs(m);
    if !Possible(m.instances, c) {
      NothingBreaks(StateOf(m), c, world);
      return;
    }
    PossibleCreate(m.instances, c);
    match c
    case Install(descriptor) =>
      ExecuteInstall(m, descriptor, world);
      m.Facts();
    case Uninstall(factory, fromModule) =>
      ExecuteUninstall(m, factory, fromModule, world);
      m.Facts();
    case AddScope(scope, name, parent) =>
      ExecuteAddScope(m, scope, name, parent);
      m.Facts();
    case RemoveScope(scope, recursive) =>
      ExecuteRemoveScope(m, scope, recursive, world);
      m.Facts();
    case Create(_, _, _, _, _, _, _) =>
      ExecuteCreate(m, c, world);
      m.Facts();
    case Update(u, properties, enabled, ranking) =>
      ExecuteUpdate(m, u, properties, enabled, ranking, world);
    case Delete(u) =>
      ExecuteDelete(m, u, world);
    case Ensure(_, _, _, _, _, _, _) =>
      ExecuteEnsure(m, c, world);
  }

  lemma PossibleCreate(instances: map<Uuid, Instance>, c: Command)
    ensures c.Create? && Possible(instances, c) ==> c.uuid !in instances
  {
  }

  lemma NothingBreaks(st: State, c: Command, world: World)
    requires !Possible(st.tables.instances, c)
    ensures !Breaks(st, c, world)
  {
  }

  // ------------------------------------------------------------ what a command does to the instances

  /** The instance a command may add, and the scope it lives in. */
  function Born(c: Command): Option<(Uuid, ScopeId)> {
    match c
    case Create(_, _, scope, _, _, _, uuid) => Some((uuid, scope))
    case Ensure(_, _, scope, _, _, uuid, _) => Some((uuid, scope))
    case _ => None
  }

  /** The instances a command may take away. */
  ghost function Dying(st: State, c: Command): set<Uuid> {
    match c
    case Delete(u) => {u}
    case RemoveScope(scope, recursive) =>
      if recursive && IsTree(st.scopes) && scope in st.scopes then
        LivingIn(st.tables.instances, Subtree(st.scopes, scope))
      else {}
    case _ => {}
  }

  method WillDie(m: PluginManager, c: Command) returns (dying: set<Uuid>)
    requires m.Valid()
    ensures dying == Dying(StateOf(m), c)
  {
    hide DefinitionsAgree, InstancesAgree, IndexAgrees, LiveAgrees, PropertiesDerived, ScopeTree.DepthFirst, IsTree;
    hide ScopeTree.Table.Ordered, ScopeTree.KidsOf, ScopeTree.RootsFirst, LivingIn, StateOf;
    StateIs(m);
    dying := {};
    match c
    case Delete(u) =>
      dying := {u};
    case RemoveScope(scope, recursive) =>
      if recursive && scope in m.tree.scopes.at {
        var below := m.tree.Descendants(scope);
        ChildlessIff(m.tree.scopes.at, scope);
        assert {scope} + (set k | k in below.value) == Subtree(m.tree.scopes.at, scope);
        dying := LivingIn(m.instances, {scope} + set k | k in below.value);
      }
    case _ =>
  }

  /** Only the born are new, only the dying are gone, and nobody moves. */
  predicate Effect(before: map<Uuid, Instance>, after: map<Uuid, Instance>, born: Option<(Uuid, ScopeId)>,
                   dying: set<Uuid>)
  {
    && (forall u :: u in after && u !in before ==> born == Some((u, after[u].scope)))
    && (forall u :: u in after && u in before ==> after[u].scope == before[u].scope)
    && (forall u :: u in before && u !in after ==> u in dying)
  }

  /** A command adds, takes away and moves no other instances than it should. */
  lemma EffectOf(st: State, c: Command, world: World)
    requires forall u :: u in st.tables.instances ==> st.tables.instances[u].uuid == u
    ensures Effect(st.tables.instances, After(st, c, world).tables.instances, Born(c), Dying(st, c))
  {
    hide AfterInstall, AfterUninstall, AfterAddScope, AfterCreate, AfterUpdate, AfterRemoveScope, AfterDelete, UserIn;
    hide MergedOver, HasAlready, MatchingIn, IsTree, Effect;
    NobodyMoves(st.tables.instances, Born(c), Dying(st, c));
    match c
    case Delete(u) =>
      DeletesOnly(st, u, world);
    case RemoveScope(scope, recursive) =>
      RemovesOnly(st, scope, recursive);
    case Create(factory, moduleName, scope, user, enabled, ranking, uuid) =>
      CreatesOnly(st, factory, moduleName, scope, user, enabled, ranking, uuid, world);
    case Update(u, properties, enabled, ranking) =>
      MovesNobody(st, u, MergedOver(UserIn(st.tables.user, u), properties), enabled, ranking, world);
    case Ensure(factory, moduleName, scope, user, enabled, uuid, chosen) =>
      CreatesOnly(st, factory, moduleName, scope, user, enabled, 0, uuid, world);
      MovesNobody(st, chosen, UserIn(st.tables.user, chosen) + user, Some(enabled), None, world);
    case _ =>
  }

  lemma NobodyMoves(instances: map<Uuid, Instance>, born: Option<(Uuid, ScopeId)>, dying: set<Uuid>)
    ensures Effect(instances, instances, born, dying)
  {
  }

  lemma DeletesOnly(st: State, u: Uuid, world: World)
    ensures Effect(st.tables.instances, AfterDelete(st, u, world).tables.instances, None, {u})
  {
  }

  lemma RemovesOnly(st: State, scope: ScopeId, recursive: bool)
    ensures Effect(st.tables.instances, AfterRemoveScope(st, scope, recursive).tables.instances, None,
                   Dying(st, RemoveScope(scope, recursive)))
  {
    hide IsTree;
  }

  lemma CreatesOnly(st: State, factory: string, moduleName: string, scope: ScopeId, user: Props, enabled: bool,
                    ranking: int, uuid: Uuid, world: World)
    ensures uuid !in st.tables.instances ==>
              Effect(st.tables.instances,
                     AfterCreate(st, factory, moduleName, scope, user, enabled, ranking, uuid, world).tables.instances,
                     Some((uuid, scope)), {})
  {
    hide Created;
    CreatedFacts(st.scopes, st.scopedFields, uuid, factory, moduleName, scope, user, enabled, ranking);
  }

  lemma MovesNobody(st: State, u: Uuid, user: Props, enabled: Option<bool>, ranking: Option<int>, world: World)
    requires forall u :: u in st.tables.instances ==> st.tables.instances[u].uuid == u
    ensures forall born ::
              Effect(st.tables.instances, AfterUpdate(st, u, user, enabled, ranking, world).tables.instances, born, {})
  {
    hide Created;
    if u in st.tables.instances {
      var current := st.tables.instances[u];
      CreatedFacts(st.scopes, st.scopedFields, current.uuid, current.factory, current.moduleName, current.scope, user,
                   OrElse(enabled, current.enabled), OrElse(ranking, current.ranking));
    }
  }

  // ------------------------------------------------------------ runs

  /** Commands whose failure the manager does not fully undo. */
  predicate Fragile(c: Command) {
    c.Update? || c.Delete? || c.Ensure?
  }

  lemma OnlyFragileBreak(st: State, c: Command, world: World)
    ensures Breaks(st, c, world) ==> Fragile(c)
  {
  }

  /** Only uninstalling takes a definition away. */
  lemma OnlyUninstallDrops(st: State, c: Command, world: World)
    ensures !c.Uninstall? ==> st.plugins.Keys <= After(st, c, world).plugins.Keys
  {
    hide Created, MatchingIn, HasAlready, IsTree, ValidDescriptor, MovedTo, PlanIn;
  }

  lemma ValidHasTables(m: PluginManager)
    ensures m.Valid() ==> m.Tables()
  {
  }

  lemma GoodWorldKeepsUpdate(m: PluginManager, u: Uuid, user: Props, enabled: Option<bool>, ranking: Option<int>,
                             world: World)
    requires m.Valid() && u in m.instances && m.CanSave() && world.saves && world.starts
    ensures !UpdateBreaks(StateOf(m), u, user, enabled, ranking, world)
  {
    hide *;
    m.Facts();
    m.Known(u);
    StateIs(m);
    PlanInIs(StateOf(m), u, user, enabled, ranking, world);
    PlanFacts(m.tree.scopes.at, m.scopedFields, m.plugins, m.instances[u], UserIn(m.userProperties, u), user, enabled,
              ranking, true, world.killsUnknown && world.restarts, true);
    OkInStep(m.tree.scopes.at, m.scopedFields, m.plugins, m.instances, m.userProperties, u, user, enabled, ranking,
             true, world.killsUnknown && world.restarts, true);
    InStepKeeps(PlanIn(StateOf(m), u, user, enabled, ranking, world), IsUnwrapped(StateOf(m), u));
  }

  lemma InStepKeeps(plan: Result<Plan, PropertyError>, unwrapped: bool)
    ensures (plan.Ok? ==> plan.value.canSave && InStepAfter(plan.value)) ==> UpdateKeeps(plan, unwrapped)
  {
  }

  /** As long as saving works and components start, no command breaks anything. */
  lemma GoodWorldBreaksNothing(m: PluginManager, c: Command, world: World)
    requires m.Valid() && m.CanSave() && world.saves && world.starts
    ensures !Breaks(StateOf(m), c, world)
  {
    hide UpdateBreaks, IsUnwrapped, PluginManager.Tables, PluginManager.Live, PluginManager.Derived;
    match c
    case Update(u, properties, enabled, ranking) =>
      if u in m.instances {
        GoodWorldKeepsUpdate(m, u, MergedOver(UserIn(m.userProperties, u), properties), enabled, ranking, world);
      }
    case Ensure(factory, moduleName, scope, user, enabled, _, chosen) =>
      if chosen in m.Matching(factory, moduleName, scope) {
        GoodWorldKeepsUpdate(m, chosen, UserIn(m.userProperties, chosen) + user, Some(enabled), None, world);
      }
    case _ =>
  }

  /** The state that the first `n` commands lead to. */
  ghost function Reached(st: State, commands: seq<Command>, worlds: seq<World>, n: nat): State
    requires n <= |commands| == |worlds|
  {
    if n == 0 then st else After(Reached(st, commands, worlds, n - 1), commands[n - 1], worlds[n - 1])
  }

  /**
   Any sequence of commands, each answered by the world in any way and failing in any way: every
   command leads to the state it should, and up to the first one that meets the condition, every table
   agrees with every other, the live components are exactly the active instances, and each has the
   properties that the scope tree gives it now.
   */
  method Run(m: PluginManager, commands: seq<Command>, worlds: seq<World>) returns (done: nat)
    requires m.Valid() && |worlds| == |commands|
    modifies m, m.store, m.tree, m.tree.store
    ensures done <= |commands| && m.Tables()
    ensures forall i :: 0 <= i < done ==> !Breaks(Reached(old(StateOf(m)), commands, worlds, i), commands[i], worlds[i])
    ensures done < |commands| ==>
              Breaks(Reached(old(StateOf(m)), commands, worlds, done), commands[done], worlds[done])
    ensures StateOf(m)
            == Reached(old(StateOf(m)), commands, worlds, if done < |commands| then done + 1 else done)
    ensures m.Valid() <==> done == |commands|
    ensures (forall i :: 0 <= i < |commands| ==> !Fragile(commands[i])) ==> m.Valid()
    ensures old(m.CanSave()) && (forall i :: 0 <= i < |worlds| ==> worlds[i].saves && worlds[i].starts) ==> m.Valid()
  {
    hide *;
    ValidHasTables(m);
    done := 0;
    ReachedNone(StateOf(m), commands, worlds);
    while done < |commands|
      invariant done <= |commands| && m.Valid() && m.Tables()
      invariant StateOf(m) == Reached(old(StateOf(m)), commands, worlds, done)
      invariant forall i :: 0 <= i < done ==>
                  !Breaks(Reached(old(StateOf(m)), commands, worlds, i), commands[i], worlds[i])
      invariant m.CanSave() == old(m.CanSave())
    {
      StateIs(m);
      StillCanSave(StateOf(m), commands[done], worlds[done]);
      OnlyFragileBreak(StateOf(m), commands[done], worlds[done]);
      if m.CanSave() && worlds[done].saves && worlds[done].starts {
        GoodWorldBreaksNothing(m, commands[done], worlds[done]);
      }
      ReachedNext(old(StateOf(m)), commands, worlds, done);
      var breaks := WillBreak(m, commands[done], worlds[done]);
      Execute(m, commands[done], worlds[done]);
      StateIs(m);
      if breaks {
        return;
      }
      done := done + 1;
    }
  }

  lemma StillCanSave(st: State, c: Command, world: World)
    ensures After(st, c, world).canSave == st.canSave
  {
    hide After;
  }

  lemma ReachedNone(st: State, commands: seq<Command>, worlds: seq<World>)
    requires |commands| == |worlds|
    ensures Reached(st, commands, worlds, 0) == st
  {
  }

  lemma ReachedNext(st: State, commands: seq<Command>, worlds: seq<World>, n: nat)
    requires n < |commands| == |worlds|
    ensures Reached(st, commands, worlds, n + 1) == After(Reached(st, commands, worlds, n), commands[n], worlds[n])
  {
    hide After;
  }
}
