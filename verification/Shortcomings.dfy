/** Short runs from a fresh start in which the code falls short of what one would expect. */
module Shortcomings {
  import opened Common
  import opened ScopeForest
  import opened LdapFilter
  import opened EffectiveProperties
  import opened PluginTables
  import opened PluginManager
  import opened AgentRecords
  import opened AgentSetup
  import opened AgentDirectory
  import ManagerRestore
  import ScopeTree

  const OWN_FILTER: Props := map[FILTERS_PROPERTY := Dict(map["f" := Text("(a=b)")])]

  const OWN_KEY: Props := map["k" := Number(1)]

  const DESCRIPTOR := Descriptor("name", "1", "mod", "factory", "spec", "text", "hot")

  const OTHER_KEY: Props := map["k" := Number(2)]

  // ------------------------------------------------------------ properties

  lemma OwnItem()
    ensures IsItemText("a=b")
  {
    EqualsSignAt("a", "b");
    assert "a" + "=" + "b" == "a=b" && "a=b"[2..] == "b";
    EscapeRoundTrip("b");
    assert Escape("b") == "b" + Escape("") == "b";
  }

  lemma OwnFilterIsValid()
    ensures ValidFilter(Text("(a=b)")) && Acceptable(OWN_FILTER, {"f"})
  {
    hide IsItemText, ParseList, PlainPrefix;
    OwnItem();
    ItemParses("a=b", "");
    assert "(" + "a=b" + ")" + "" == "(a=b)";
    hide Parse;
    assert !IsSpace("(a=b)"[0]);
  }

  lemma OwnFilterIsNotTheScopes(visible: seq<ScopeId>)
    ensures !NoOwnFilter(UserFilters(OWN_FILTER), {"f"}, visible)
  {
    assert VisibilityFilter(visible)[1] == '|' && "(a=b)"[1] == 'a';
    assert UserFilters(OWN_FILTER)["f"] == Text("(a=b)");
  }

  /** A filter of the user's own on a scoped field does not survive rehydration. */
  lemma RehydrationWraps()
    ensures var at := Placement(["root"], 0, "factory", 0, 0, {"f"});
            && Effective(OWN_FILTER, at).Ok?
            && Effective(Strip(Effective(OWN_FILTER, at).value), at) != Effective(OWN_FILTER, at)
  {
    var at := Placement(["root"], 0, "factory", 0, 0, {"f"});
    OwnFilterIsValid();
    OwnFilterIsNotTheScopes(["root"]);
    EffectiveIff(OWN_FILTER, at);
    RehydrateStableIff(OWN_FILTER, at);
  }

  /** What a user gives is injected, and what is injected tells the ranking. */
  lemma Injected(user: Props, at: Placement)
    requires at.visible != [] && Effective(user, at).Ok?
    ensures var props := Effective(user, at).value;
            && ("k" in props <==> "k" in user)
            && ("k" in user ==> props["k"] == user["k"])
            && PLUGIN_RANKING in props && props[PLUGIN_RANKING] == Number(at.ranking)
  {
  }

  // ------------------------------------------------------------ a manager with one instance

  /** A manager on fresh stores, with one definition whose components have the scoped field `f`. */
  method FreshManager() returns (m: PluginManager)
    ensures fresh(m) && fresh(m.tree) && fresh(m.store) && fresh(m.tree.store)
    ensures m.Valid() && m.bound && m.CanSave() && m.CanWriteScopes() && m.instances == map[]
    ensures m.tree.scopes.at == ScopeTree.ROOT_TABLE.at && m.plugins.Keys == {("mod", "factory")}
    ensures m.scopedFields("mod") == {"f"} && "mod" in m.bundles && m.registry == map["factory" := DESCRIPTOR]
  {
    hide *;
    var scopes := new ScopeTree.InMemoryScopeStore();
    var tree := ScopeTree.ScopeTree.Open(scopes);
    ViewIs(tree.value);
    var store := new RuntimeStateStore();
    m := new PluginManager(tree.value, store, _ => {"f"});
    m.Facts();
    m.BindState();
    m.Facts();
    DescriptorIsValid();
    MayWrite(m);
    OneKey(("mod", "factory"), DESCRIPTOR);
    OneKey("factory", DESCRIPTOR);
    var installed := m.InstallDefinition(DESCRIPTOR, true, true);
    MayWrite(m);
  }

  lemma ViewIs(tree: ScopeTree.ScopeTree)
    ensures tree.View().state == tree.scopes && tree.View().version == tree.version
    ensures ScopeTree.StoredVersion(Some(ScopeTree.Snapshot(1, ScopeTree.ROOT_TABLE.Values()))) == 1
  {
  }

  lemma MayWrite(m: PluginManager)
    ensures m.CanWriteScopes() <==> ScopeTree.StoredVersion(m.tree.store.saved) == m.tree.version
  {
  }

  lemma OneKey<K, V>(key: K, value: V)
    ensures var none: map<K, V> := map[];
            key !in none && none[key := value].Keys == {key} && none[key := value] == map[key := value]
  {
  }

  lemma DescriptorIsValid()
    ensures ValidDescriptor(DESCRIPTOR) && KeyOf(DESCRIPTOR) == ("mod", "factory") && DESCRIPTOR.factory == "factory"
    ensures DESCRIPTOR.moduleName == "mod"
  {
    assert !IsSpace("name"[0]) && !IsSpace("1"[0]) && !IsSpace("mod"[0]) && !IsSpace("factory"[0]);
    assert !IsSpace("spec"[0]) && !IsSpace("text"[0]);
  }

  /** An enabled instance with uuid 0 in the root scope. */
  method OneInstance(user: Props) returns (m: PluginManager)
    requires Acceptable(user, {"f"})
    ensures fresh(m) && fresh(m.tree) && fresh(m.store) && fresh(m.tree.store)
    ensures m.Valid() && m.bound && m.CanSave() && m.instances.Keys == {0} && m.userProperties == map[0 := user]
    ensures m.scopedFields("mod") == {"f"} && m.tree.scopes.at == ScopeTree.ROOT_TABLE.at
    ensures m.registry == map["factory" := DESCRIPTOR]
    ensures var i := m.instances[0];
            && RegistrationOf(i) == ("mod", "factory", ROOT_SCOPE_ID) && i.scope == ROOT_SCOPE_ID
            && i.enabled && i.status == Active && i.ranking == 0
            && InstanceDerived(m.tree.scopes.at, m.scopedFields, i, user)
  {
    hide DefinitionsAgree, InstancesAgree, IndexAgrees, LiveAgrees, PropertiesDerived, IsTree, Acceptable, Effective;
    m := FreshManager();
    RootHasChain(m);
    CreatedIff(m.tree.scopes.at, m.scopedFields, 0, "factory", "mod", ROOT_SCOPE_ID, user, true, 0);
    var r := m.CreateInstance("factory", "mod", ROOT_SCOPE_ID, user, true, 0, 0, true, true);
    NobodyElse(m, user);
  }

  lemma RootHasChain(m: PluginManager)
    requires m.Valid()
    ensures HasChain(m.tree.scopes.at, ROOT_SCOPE_ID)
  {
    hide DefinitionsAgree, InstancesAgree, IndexAgrees, LiveAgrees, PropertiesDerived;
    TreeHasChain(m.tree.scopes.at, ROOT_SCOPE_ID);
  }

  lemma NobodyElse(m: PluginManager, user: Props)
    requires m.Valid() && m.instances.Keys == {0} && 0 in m.userProperties && m.userProperties[0] == user
    ensures m.userProperties == map[0 := user]
    ensures m.instances[0].uuid == 0 && m.instances[0].status == (if m.instances[0].enabled then Active else Disabled)
    ensures InstanceDerived(m.tree.scopes.at, m.scopedFields, m.instances[0], user)
  {
    hide *;
    m.Facts();
    m.Known(0);
    SameKeys(m);
    OnlyKey(m.userProperties, 0);
    StatusAndDerived(m);
  }

  lemma SameKeys(m: PluginManager)
    requires m.Tables()
    ensures m.userProperties.Keys == m.instances.Keys
  {
  }

  lemma OnlyKey<K, V>(table: map<K, V>, key: K)
    requires table.Keys == {key}
    ensures key in table && table == map[key := table[key]]
  {
  }

  lemma StatusAndDerived(m: PluginManager)
    requires m.Valid() && 0 in m.instances && 0 in m.userProperties
    ensures m.instances[0].status == if m.instances[0].enabled then Active else Disabled
    ensures InstanceDerived(m.tree.scopes.at, m.scopedFields, m.instances[0], m.userProperties[0])
  {
    hide DefinitionsAgree, IndexAgrees, LiveAgrees, IsTree, InstanceDerived;
    assert InstanceAgrees(0, m.instances[0], m.plugins, m.tree.scopes.at);
  }

  // ------------------------------------------------------------ the manager falls short

  /** Deleting an instance with a filter of its own: a failed save leaves it with other user properties. */
  method FailedDelete() returns (m: PluginManager)
    ensures fresh(m) && m.Tables() && m.Live() && !m.Derived()
  {
    hide DefinitionsAgree, InstancesAgree, IndexAgrees, LiveAgrees, PropertiesDerived, IsTree, NoOwnFilter, Acceptable;
    OwnFilterIsValid();
    m := OneInstance(OWN_FILTER);
    RootHasChain(m);
    OwnFilterIsNotTheScopes(Chain(m.tree.scopes.at, ROOT_SCOPE_ID));
    var r := m.DeleteInstance(0, true, false);
  }

  /** Giving an instance another ranking builds its component anew with other properties. */
  lemma NewRankingPlan(f: Forest, scopedFields: string -> set<string>, i: Instance, user: Props)
    requires InstanceDerived(f, scopedFields, i, user) && i.enabled && i.status == Active && i.ranking == 0
    ensures var plan := Planned(f, scopedFields, i, user, MergedOver(user, None), None, Some(5), true, true, false);
            plan.Ok? && !plan.value.canSave && plan.value.starts && !InStepAfter(plan.value)
  {
    hide Effective;
    EffectiveIff(user, PlacementOf(f, scopedFields, i));
    CreatedIff(f, scopedFields, i.uuid, i.factory, i.moduleName, i.scope, user, true, 5);
    var next := Created(f, scopedFields, i.uuid, i.factory, i.moduleName, i.scope, user, true, 5).value;
    Injected(user, PlacementOf(f, scopedFields, i));
    Injected(user, PlacementOf(f, scopedFields, next));
  }

  /** Updating a ranking: a failed save leaves another component alive, and other user properties. */
  method FailedUpdate() returns (m: PluginManager)
    ensures fresh(m) && m.Tables() && !m.Live() && !m.Derived()
  {
    hide *;
    OwnFilterIsValid();
    m := OneInstance(OWN_FILTER);
    m.Facts();
    m.Known(0);
    NewRankingPlan(m.tree.scopes.at, m.scopedFields, m.instances[0], OWN_FILTER);
    OwnFilterIsWrapped(m);
    label Before:
    ghost var current := m.instances[0];
    var r := m.UpdateInstance(0, None, None, Some(5), true, true, true, false);
    NothingSaved(old@Before(m.Records()), m.Records(),
                 Planned(m.tree.scopes.at, m.scopedFields, current, OWN_FILTER, MergedOver(OWN_FILTER, None), None,
                         Some(5), true, true, false), r);
  }

  lemma OwnFilterIsWrapped(m: PluginManager)
    requires m.Valid() && 0 in m.instances && m.scopedFields(m.instances[0].moduleName) == {"f"}
    ensures !Unwrapped(m.tree.scopes.at, m.scopedFields, m.instances[0], OWN_FILTER)
  {
    hide DefinitionsAgree, IndexAgrees, LiveAgrees, PropertiesDerived, NoOwnFilter;
    m.Known(0);
    TreeHasChain(m.tree.scopes.at, m.instances[0].scope);
    OwnFilterIsNotTheScopes(Chain(m.tree.scopes.at, m.instances[0].scope));
  }

  lemma NothingSaved(before: InstanceTables, after: InstanceTables, plan: Result<Plan, PropertyError>,
                     r: Result<Instance, ManagerError>)
    requires Outcome(before, after, plan, r) && plan.Ok? && !plan.value.canSave && plan.value.starts
    ensures r == Err(StoreFailed)
  {
  }

  /** An override whose new component does not start: the user's properties are gone, and not only its own. */
  method LostProperties() returns (m: PluginManager)
    ensures fresh(m) && m.Tables() && m.Live() && !m.Derived() && 0 in m.userProperties && m.userProperties[0] == map[]
  {
    hide *;
    EmptyIsAcceptable();
    m := OneInstance(OWN_KEY);
    m.Facts();
    m.Known(0);
    label Before:
    OtherKeyPlan(m.tree.scopes.at, m.scopedFields, m.instances[0]);
    ghost var current := m.instances[0];
    var r := m.ApplyConfigTo(0, OTHER_KEY, true, false, true, true, true);
    NothingStartedThen(old@Before(m.Records()).(user := old@Before(m.userProperties)[0 := map[]]), m.Records(),
                       Planned(m.tree.scopes.at, m.scopedFields, current, map[], OTHER_KEY, Some(true), None, false,
                               true, true), r);
    m.Facts();
  }

  /** An override with another value builds the component anew. */
  lemma OtherKeyPlan(f: Forest, scopedFields: string -> set<string>, i: Instance)
    requires InstanceDerived(f, scopedFields, i, OWN_KEY) && i.enabled && i.status == Active
    ensures var plan := Planned(f, scopedFields, i, map[], OTHER_KEY, Some(true), None, false, true, true);
            && plan.Ok? && plan.value.start && !plan.value.starts && plan.value.recovers
            && InStepAfter(plan.value)
    ensures !InstanceDerived(f, scopedFields, i, map[])
  {
    hide Effective;
    EmptyIsAcceptable();
    assert "k" in OTHER_KEY;
    EffectiveIff(map[], PlacementOf(f, scopedFields, i));
    CreatedIff(f, scopedFields, i.uuid, i.factory, i.moduleName, i.scope, OTHER_KEY, true, i.ranking);
    Injected(OWN_KEY, PlacementOf(f, scopedFields, i));
    Injected(map[], PlacementOf(f, scopedFields, i));
  }

  lemma NothingStartedThen(before: InstanceTables, after: InstanceTables, plan: Result<Plan, PropertyError>,
                           r: Result<Instance, ManagerError>)
    requires Outcome(before, after, plan, r) && plan.Ok? && plan.value.start && !plan.value.starts
    ensures r == Err(ComponentFailed) && after.user == before.user
  {
  }

  /** An override without properties changes the record of an instance but not its component. */
  lemma EmptyOverridePlan(f: Forest, scopedFields: string -> set<string>, i: Instance)
    requires InstanceDerived(f, scopedFields, i, OWN_KEY) && i.enabled && i.status == Active
    ensures var plan := Planned(f, scopedFields, i, map[], map[], Some(true), None, true, true, true);
            && plan.Ok? && plan.value.next.props != i.props && !plan.value.start && plan.value.canSave
            && plan.value.next.enabled
  {
    hide Effective;
    EmptyIsAcceptable();
    EffectiveIff(map[], PlacementOf(f, scopedFields, i));
    CreatedIff(f, scopedFields, i.uuid, i.factory, i.moduleName, i.scope, map[], true, i.ranking);
    var next := Created(f, scopedFields, i.uuid, i.factory, i.moduleName, i.scope, map[], true, i.ranking).value;
    Injected(OWN_KEY, PlacementOf(f, scopedFields, i));
    Injected(map[], PlacementOf(f, scopedFields, next));
  }

  lemma NothingStarted(before: InstanceTables, after: InstanceTables, plan: Result<Plan, PropertyError>,
                       r: Result<Instance, ManagerError>)
    requires Outcome(before, after, plan, r) && plan.Ok? && plan.value.canSave && !plan.value.start
    requires plan.value.next.enabled
    ensures r.Ok? && after.ipopo == before.ipopo
  {
  }

  /** Overriding with no properties: the live component keeps the properties it had. */
  method StaleOverride() returns (m: PluginManager)
    ensures fresh(m) && m.Tables() && m.Derived() && !m.Live()
  {
    hide *;
    EmptyIsAcceptable();
    m := OneInstance(OWN_KEY);
    m.Facts();
    m.Known(0);
    label Before:
    EmptyOverridePlan(m.tree.scopes.at, m.scopedFields, m.instances[0]);
    ghost var current := m.instances[0];
    var r := m.ApplyConfigTo(0, map[], true, true, true, true, true);
    NothingStarted(old@Before(m.Records()).(user := old@Before(m.userProperties)[0 := map[]]), m.Records(),
                   Planned(m.tree.scopes.at, m.scopedFields, current, map[], map[], Some(true), None, true, true, true),
                   r);
    m.Facts();
  }

  /** Ensuring an instance with no properties: the one there keeps what it had. */
  method NeverTakenAway() returns (m: PluginManager)
    ensures fresh(m) && m.Valid() && 0 in m.userProperties && m.userProperties[0] == OWN_KEY
  {
    hide *;
    EmptyIsAcceptable();
    m := OneInstance(OWN_KEY);
    m.Facts();
    m.Known(0);
    m.MatchingIs("factory", "mod", ROOT_SCOPE_ID);
    assert 0 in m.Matching("factory", "mod", ROOT_SCOPE_ID);
    label Before:
    ReconcileFacts(m.instances[0], OWN_KEY, map[], true);
    SamePlan(m.tree.scopes.at, m.scopedFields, m.instances[0]);
    ghost var current := m.instances[0];
    var r := m.EnsureInstance("factory", "mod", ROOT_SCOPE_ID, map[], true, 1, 0, true, true, true, true);
    NothingLost(old@Before(m.Records()), m.Records(),
                Planned(m.tree.scopes.at, m.scopedFields, current, OWN_KEY, OWN_KEY + map[], Some(true), None, true,
                        true, true), r);
    m.Facts();
  }

  /** Asking for no properties plans to keep the ones there are. */
  lemma SamePlan(f: Forest, scopedFields: string -> set<string>, i: Instance)
    requires InstanceDerived(f, scopedFields, i, OWN_KEY) && i.enabled && i.status == Active
    ensures OWN_KEY + map[] == OWN_KEY && OWN_KEY != map[]
    ensures var plan := Planned(f, scopedFields, i, OWN_KEY, OWN_KEY + map[], Some(true), None, true, true, true);
            plan.Ok? && plan.value.canSave && plan.value.starts && plan.value.user == OWN_KEY && plan.value.current == i
  {
    hide Effective;
    EmptyIsAcceptable();
    assert OWN_KEY + map[] == OWN_KEY;
    assert "k" in OWN_KEY;
    CreatedIff(f, scopedFields, i.uuid, i.factory, i.moduleName, i.scope, OWN_KEY, true, i.ranking);
  }

  lemma NothingLost(before: InstanceTables, after: InstanceTables, plan: Result<Plan, PropertyError>,
                    r: Result<Instance, ManagerError>)
    requires Outcome(before, after, plan, r) && plan.Ok? && plan.value.canSave && plan.value.starts
    ensures r.Ok? && after.user == before.user[plan.value.current.uuid := plan.value.user]
  {
  }

  lemma EmptyIsAcceptable()
    ensures forall fields :: Acceptable(map[], fields) && Acceptable(OWN_KEY, fields) && Acceptable(OTHER_KEY, fields)
  {
  }

  /** Restarting with a disabled instance: it is there, but what its user had set is not. */
  method ForgottenProperties() returns (n: PluginManager)
    ensures fresh(n) && 0 in n.instances && 0 !in n.userProperties && n.Live() && n.Derived() && !n.Tables()
  {
    hide *;
    var m := OneDisabled();
    DescriptorIsValid();
    var scopes := new ScopeTree.InMemoryScopeStore();
    var tree := ScopeTree.ScopeTree.Open(scopes);
    ViewIs(tree.value);
    n := new PluginManager(tree.value, m.store, m.scopedFields);
    n.BindState();
    n.Facts();
    MayWrite(n);
    Restartable(m, n);
    var r := ManagerRestore.Restart(m, n, _ => true, _ => true);
    n.Facts();
  }

  method OneDisabled() returns (m: PluginManager)
    ensures fresh(m) && fresh(m.tree) && fresh(m.store) && fresh(m.tree.store)
    ensures m.Valid() && m.bound && m.Mirrored() && m.instances.Keys == {0} && !m.instances[0].enabled
    ensures m.instances[0].scope == ROOT_SCOPE_ID
    ensures m.tree.scopes.at == ScopeTree.ROOT_TABLE.at && m.registry == map["factory" := DESCRIPTOR]
  {
    hide *;
    EmptyIsAcceptable();
    m := OneInstance(OWN_KEY);
    m.Facts();
    m.Known(0);
    label Before:
    DisablingPlan(m.tree.scopes.at, m.scopedFields, m.instances[0]);
    ghost var current := m.instances[0];
    var r := m.UpdateInstance(0, None, Some(false), None, true, true, true, true);
    SavedAsPlanned(old@Before(m.Records()), m.Records(),
              Planned(m.tree.scopes.at, m.scopedFields, current, OWN_KEY, MergedOver(OWN_KEY, None), Some(false), None,
                      true, true, true), r);
    m.Facts();
  }

  lemma DisablingPlan(f: Forest, scopedFields: string -> set<string>, i: Instance)
    requires InstanceDerived(f, scopedFields, i, OWN_KEY)
    ensures var plan := Planned(f, scopedFields, i, OWN_KEY, MergedOver(OWN_KEY, None), Some(false), None, true, true,
                                true);
            && plan.Ok? && plan.value.canSave && !plan.value.start && !plan.value.next.enabled
            && plan.value.next.scope == i.scope
  {
    hide Effective;
    EmptyIsAcceptable();
    CreatedIff(f, scopedFields, i.uuid, i.factory, i.moduleName, i.scope, OWN_KEY, false, i.ranking);
  }

  lemma SavedAsPlanned(before: InstanceTables, after: InstanceTables, plan: Result<Plan, PropertyError>,
                  r: Result<Instance, ManagerError>)
    requires Outcome(before, after, plan, r) && plan.Ok? && plan.value.canSave && !plan.value.start
    ensures r == Ok(plan.value.next)
  {
  }

  lemma Restartable(m: PluginManager, n: PluginManager)
    requires n != m && n.tree != m.tree && n.store == m.store && n.scopedFields == m.scopedFields
    requires n.bound && n.CanWriteScopes() && n.instances == map[] && n.plugins == map[]
    requires m.tree.scopes.at == ScopeTree.ROOT_TABLE.at == n.tree.scopes.at
    requires m.instances.Keys == {0} && m.instances[0].scope == ROOT_SCOPE_ID
    ensures ManagerRestore.StartedAgain(m, n) && ManagerRestore.Savable(m.tree.scopes.at)
    ensures ManagerRestore.Kept(m.instances) == {0}
  {
    assert !IsSpace("root"[0]);
    assert !("agent:" <= ROOT_SCOPE_ID);
  }

  // ------------------------------------------------------------ the directory falls short

  const CATALOG := Catalog(map["p" := ("mod", "factory")], map[], {"p"}, ("mod", "factory"), {}, {"mod"}, "none")

  const AGENT := Agent("x", "x", true)

  /** Replacing a binding whose new component does not start: the record names a deleted instance. */
  method LostInstance() returns (d: AgentDirectory)
    ensures fresh(d) && d.Valid() && d.OutOfStep() == {"x"}
  {
    hide *;
    var m := FreshManager();
    RootIs(m);
    ScopeTextIsText();
    var added := m.AddScope(AGENT_SCOPE_ID, "agent", None);
    NobodyLives(m.instances);
    d := new AgentDirectory(m, CATALOG, map[]);
    var starts := Starts(_ => true, true, false);
    AgentScopeIsNew(m);
    CanBeBuilt(d, starts);
    d.Currently();
    label Made:
    var failure := d.Materialize(AGENT, starts);
    d.Currently();
    KeepsClean(old@Made(d.CurrentBooks()), d.CurrentBooks());
    RecordLacksKey(d);
    var error := d.EnsureBinding("x", "p", OWN_KEY, false);
  }

  lemma RootIs(m: PluginManager)
    requires m.tree.scopes.at == ScopeTree.ROOT_TABLE.at
    ensures AGENT_SCOPE_ID !in m.tree.scopes.at && ROOT_SCOPE_ID in m.tree.scopes.at
    ensures OrElse(None, ROOT_SCOPE_ID) == ROOT_SCOPE_ID
  {
  }

  lemma ScopeTextIsText()
    ensures !IsBlank(AGENT_SCOPE_ID) && !IsBlank("agent") && !IsBlank("x")
  {
    assert !IsSpace("agent"[0]) && !IsSpace("x"[0]);
  }

  lemma AgentScopeIsNew(m: PluginManager)
    requires m.tree.scopes.at == WithScope(ScopeTree.ROOT_TABLE.at, AGENT_SCOPE_ID, "agent", ROOT_SCOPE_ID)
    ensures AGENT_SCOPE_ID in m.tree.scopes.at && AgentScope("x") !in m.tree.scopes.at
  {
    assert |AgentScope("x")| == 7 && |AGENT_SCOPE_ID| == 5 && |ROOT_SCOPE_ID| == 4;
  }

  /** The bundle is loaded, and the one plugin and the loop are installed and start. */
  lemma CanBeBuilt(d: AgentDirectory, starts: Starts)
    requires d.catalog == CATALOG && d.configs == map[] && d.llmDefaults == map[]
    requires "mod" in d.manager.bundles && d.manager.plugins.Keys == {("mod", "factory")}
    requires AGENT_SCOPE_ID in d.manager.tree.scopes.at && AgentScope("x") !in d.manager.tree.scopes.at
    requires starts.bindings("p") && starts.loop
    ensures AGENT.id == "x" && BundlesReady(d.CurrentSetup(), "x")
    ensures Buildable(d.CurrentSetup(), d.manager.tree.scopes.at, AGENT, starts)
  {
    ScopeTextIsText();
    assert Bindings(d.CurrentSetup(), "x") == {"p"};
    assert ("mod", "factory") in d.manager.plugins.Keys;
  }

  /** What was built for the agent lacks a property that is asked for now. */
  lemma RecordLacksKey(d: AgentDirectory)
    requires d.Valid() && Built(d.CurrentSetup(), d.manager.tree.scopes.at, d.CurrentBooks(), AGENT)
    requires d.catalog == CATALOG && d.configs == map[] && d.llmDefaults == map[]
    ensures LosesBinding(d.CurrentSetup(), d.plugins, "x", "p", OWN_KEY, false)
  {
    hide DefinitionsAgree, IndexAgrees, LiveAgrees, IsTree, Effective, NoLeak, Acceptable;
    var s := d.CurrentSetup();
    assert Bindings(s, "x") == {"p"};
    var user := BindingProperties(s, AGENT, "p");
    assert "p" in d.plugins["x"].Keys;
    var i := d.plugins["x"]["p"];
    DerivedOf(d.manager.tree.scopes.at, d.manager.scopedFields, d.manager.instances, d.manager.userProperties, i.uuid);
    Injected(user.value, PlacementOf(d.manager.tree.scopes.at, d.manager.scopedFields, i));
    var wanted := WantedProperties(s, "x", "p", OWN_KEY).value;
    assert "k" in wanted && wanted["k"] == Number(1);
  }

  lemma NobodyLives(instances: map<Uuid, Instance>)
    requires instances == map[]
    ensures forall a :: Living(instances, a) == {}
  {
  }
}
