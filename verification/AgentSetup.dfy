/**
 What the agent directory is set up to build: which plugins an agent binds, with which properties,
 and what one sweep over a list of agents comes to.  All of it is a matter of values.
 */
module AgentSetup {
  import opened Common
  import opened ScopeForest
  import opened EffectiveProperties
  import opened LdapFilter
  import opened PluginTables
  import opened PluginManager
  import opened AgentRecords
  import opened Ids

  datatype Agent = Agent(id: AgentId, name: string, enabled: bool)

  /** One stored binding; properties that are not a mapping count as none. */
  datatype Binding = Binding(enabled: bool, properties: Props)

  /** Which components start when an agent is built. */
  datatype Starts = Starts(bindings: string -> bool, loop: bool, defaultLlm: bool)

  /** The static tables of the agent plugin catalog. */
  datatype Catalog = Catalog(
    plugins: map<string, DefinitionKey>,
    settings: map<string, Props>,
    defaults: set<string>,
    loop: DefinitionKey,
    loopFields: set<string>,
    requiredModules: set<string>,
    llmModule: string)

  /** All that decides what is built for an agent; the llm defaults are empty when there is no provider. */
  datatype Setup = Setup(
    catalog: Catalog,
    llmDefaults: Props,
    scopedFields: string -> set<string>,
    configs: map<AgentId, map<string, Binding>>,
    definitions: set<DefinitionKey>,
    bundles: set<string>)

  predicate Truthy(props: Props, key: string) {
    key in props && props[key] != Null && props[key] != Text("") && props[key] != Number(0)
    && props[key] != TextList([]) && props[key] != Dict(map[])
  }

  function FindAgent(agents: seq<Agent>, id: AgentId): (r: Option<Agent>)
    ensures r.None? <==> forall i :: 0 <= i < |agents| ==> agents[i].id != id
    ensures r.Some? ==> exists i :: 0 <= i < |agents| && agents[i] == r.value && agents[i].id == id
                                    && forall j :: 0 <= j < i ==> agents[j].id != id
  {
    if agents == [] then None
    else if agents[0].id == id then Some(agents[0])
    else FindAgent(agents[1..], id)
  }

  /** The first enabled entry of an agent, if there is one. */
  function FirstEnabled(agents: seq<Agent>, id: AgentId): (i: nat)
    ensures i <= |agents|
    ensures i < |agents| ==> agents[i].id == id && agents[i].enabled
    ensures forall j :: 0 <= j < i ==> agents[j].id != id || !agents[j].enabled
  {
    if agents == [] || (agents[0].id == id && agents[0].enabled) then 0 else 1 + FirstEnabled(agents[1..], id)
  }

  /** An agent the registry lists as enabled is its own first enabled entry. */
  lemma {:induction false} FoundFirst(agents: seq<Agent>, id: AgentId)
    ensures FindAgent(agents, id).Some? ==> FindAgent(agents, id).value.id == id
    ensures FindAgent(agents, id).Some? && FindAgent(agents, id).value.enabled ==>
              FirstEnabled(agents, id) < |agents| && agents[FirstEnabled(agents, id)] == FindAgent(agents, id).value
  {
    if agents != [] && agents[0].id != id {
      FoundFirst(agents[1..], id);
    }
  }

  // ------------------------------------------------------------ bindings

  /** The names an agent binds: the defaults, or the enabled ones of its stored configuration. */
  function Bindings(s: Setup, a: AgentId): set<string> {
    if a !in s.configs then s.catalog.defaults else set p | p in s.configs[a] && s.configs[a][p].enabled
  }

  function StoredProperties(s: Setup, a: AgentId, plugin: string): Props {
    if a in s.configs && plugin in s.configs[a] then s.configs[a][plugin].properties else map[]
  }

  /** `agent_binding_properties` */
  function AgentProperties(s: Setup, a: AgentId, plugin: string, props: Props): Props {
    ((if plugin in s.catalog.settings then s.catalog.settings[plugin] else map[]) + props)["plugin.agent_id" := Text(a)]
  }

  predicate UsableLlm(props: Props) {
    Truthy(props, "plugin.model.name") || Truthy(props, "plugin.model.instance")
  }

  /** The user properties of one binding; an llm binding without a model is skipped. */
  function BindingProperties(s: Setup, agent: Agent, plugin: string): Option<Props> {
    var stored := StoredProperties(s, agent.id, plugin);
    var props := if plugin == "llm" then s.llmDefaults + stored else stored;
    if plugin == "llm" && !UsableLlm(props) then None
    else if plugin == "name" && "plugin.agent_name" !in props then
      Some(AgentProperties(s, agent.id, plugin,
                           props["plugin.agent_name" := Text(if agent.name != "" then agent.name else agent.id)]))
    else Some(AgentProperties(s, agent.id, plugin, props))
  }

  /** What is there to be built for a binding; one that is unknown or unusable is left out. */
  predicate Usable(s: Setup, agent: Agent, plugin: string) {
    plugin in s.catalog.plugins && BindingProperties(s, agent, plugin).Some?
  }

  function UsableOf(s: Setup, agent: Agent, plugins: set<string>): set<string> {
    set p | p in plugins && Usable(s, agent, p)
  }

  function LoopProperties(s: Setup, a: AgentId, visibilityFilter: string): Props {
    map["plugin.agent_id" := Text(a),
        FILTERS_PROPERTY := Dict(map f | f in s.catalog.loopFields :: Text(visibilityFilter))]
  }

  // ------------------------------------------------------------ where a property comes from

  /** Every key has the value of the first of four layers that knows it; the agent's id stands above them all. */
  ghost predicate Layered(p: Props, a: AgentId, first: Props, second: Props, third: Props, last: Props) {
    && "plugin.agent_id" in p && p["plugin.agent_id"] == Text(a)
    && forall k :: k != "plugin.agent_id" ==>
      SameAt(p, if k in first then first else if k in second then second else if k in third then third else last, k)
  }

  /** What is stored for a binding, whatever was stored besides it. */
  ghost function Stored(configs: map<AgentId, map<string, Binding>>, a: AgentId, plugin: string): Props {
    if a in configs && plugin in configs[a] then configs[a][plugin].properties else map[]
  }

  ghost function Settings(c: Catalog, plugin: string): Props {
    if plugin in c.settings then c.settings[plugin] else map[]
  }

  /** The first layer that knows the key gives it a value that is not an empty one. */
  predicate Gives(first: Props, second: Props, third: Props, k: string) {
    var layer := if k in first then first else if k in second then second else third;
    k in layer && layer[k] !in [Null, Text(""), Number(0), TextList([]), Dict(map[])]
  }

  predicate GivesModel(first: Props, second: Props, third: Props) {
    Gives(first, second, third, "plugin.model.name") || Gives(first, second, third, "plugin.model.instance")
  }

  /**
   The properties of a binding: what is stored for it, else the provider's defaults for an llm and
   the agent's name for the name plugin, else the settings of the catalog.
   */
  ghost predicate BoundAs(s: Setup, agent: Agent, plugin: string, p: Props) {
    Layered(p, agent.id, Stored(s.configs, agent.id, plugin), if plugin == "llm" then s.llmDefaults else map[],
            if plugin == "name" then map["plugin.agent_name" := Text(if agent.name != "" then agent.name else agent.id)]
            else map[],
            Settings(s.catalog, plugin))
  }

  /** A binding without properties is an llm for which nothing names a model. */
  lemma BoundIff(s: Setup, agent: Agent, plugin: string)
    ensures BindingProperties(s, agent, plugin).None?
            <==> plugin == "llm" && !GivesModel(Stored(s.configs, agent.id, plugin), s.llmDefaults, map[])
    ensures BindingProperties(s, agent, plugin).Some? ==>
              BoundAs(s, agent, plugin, BindingProperties(s, agent, plugin).value)
  {
    var stored := StoredProperties(s, agent.id, plugin);
    hide UsableLlm, GivesModel, AgentProperties, Layered;
    if plugin == "llm" {
      UsableIff(stored, s.llmDefaults, map[]);
      assert map[] + s.llmDefaults + stored == s.llmDefaults + stored;
      MergedLayers(s, agent.id, plugin, s.llmDefaults + stored, stored, s.llmDefaults, map[]);
    } else if plugin == "name" {
      var name := map["plugin.agent_name" := Text(if agent.name != "" then agent.name else agent.id)];
      MergedLayers(s, agent.id, plugin, if "plugin.agent_name" in stored then stored
                                        else stored["plugin.agent_name" := name["plugin.agent_name"]],
                   stored, map[], name);
    } else {
      MergedLayers(s, agent.id, plugin, stored, stored, map[], map[]);
    }
  }

  /** Merging over the catalog's settings adds a last layer. */
  lemma MergedLayers(s: Setup, a: AgentId, plugin: string, props: Props, first: Props, second: Props, third: Props)
    requires forall k :: SameAt(props, if k in first then first else if k in second then second else third, k)
    ensures Layered(AgentProperties(s, a, plugin, props), a, first, second, third, Settings(s.catalog, plugin))
  {
    var settings, all := Settings(s.catalog, plugin), AgentProperties(s, a, plugin, props);
    forall k | k != "plugin.agent_id"
      ensures SameAt(all, if k in first then first else if k in second then second else if k in third then third
                          else settings, k)
    {
      assert SameAt(props, if k in first then first else if k in second then second else third, k);
    }
  }

  /** An ensured binding: the caller's properties come before the stored ones. */
  lemma WantedIff(s: Setup, a: AgentId, plugin: string, properties: Props)
    ensures var stored := Stored(s.configs, a, plugin);
            var wanted := WantedProperties(s, a, plugin, properties);
            && (wanted.None? <==> plugin == "llm" && !GivesModel(properties, stored, s.llmDefaults))
            && (wanted.Some? ==> Layered(wanted.value, a, properties, stored,
                                         if plugin == "llm" then s.llmDefaults else map[], Settings(s.catalog, plugin)))
  {
    var stored := StoredProperties(s, a, plugin);
    var defaults := if plugin == "llm" then s.llmDefaults else map[];
    hide UsableLlm, GivesModel, AgentProperties, Layered;
    UsableIff(properties, stored, defaults);
    MergedLayers(s, a, plugin, defaults + stored + properties, properties, stored, defaults);
  }

  lemma UsableIff(first: Props, second: Props, third: Props)
    ensures UsableLlm(third + second + first) <==> GivesModel(first, second, third)
  {
    TruthyIff(first, second, third, "plugin.model.name");
    TruthyIff(first, second, third, "plugin.model.instance");
    hide Truthy, Gives;
  }

  lemma TruthyIff(first: Props, second: Props, third: Props, k: string)
    ensures Truthy(third + second + first, k) <==> Gives(first, second, third, k)
  {
  }

  // ------------------------------------------------------------ when it can be built

  /** What a creation needs, as far as a caller can know. */
  predicate Spawnable(s: Setup, f: Forest, key: DefinitionKey, scope: ScopeId, user: Props, starts: bool) {
    starts && scope in f && key in s.definitions && Acceptable(user, s.scopedFields(key.0))
  }

  /** A binding that is left out needs nothing; any other needs its component to start. */
  predicate BindingStarts(s: Setup, f: Forest, agent: Agent, p: string, starts: bool) {
    Usable(s, agent, p) ==>
      Spawnable(s, f, s.catalog.plugins[p], AgentScope(agent.id), BindingProperties(s, agent, p).value, starts)
  }

  predicate LoopStarts(s: Setup, f: Forest, a: AgentId, starts: bool) {
    starts && AgentScope(a) in f && s.catalog.loop in s.definitions
  }

  /** All bundles the agent's plugins come from are loaded. */
  predicate BundlesReady(s: Setup, a: AgentId) {
    s.catalog.requiredModules + (if "llm" in Bindings(s, a) then {s.catalog.llmModule} else {}) <= s.bundles
  }

  /** The llm bundle is needed only by agents that bind an llm. */
  lemma BundlesReadyIff(s: Setup, a: AgentId)
    ensures BundlesReady(s, a)
            <==> && (forall m :: m in s.catalog.requiredModules ==> m in s.bundles)
                 && (s.catalog.llmModule in s.bundles
                     || if a in s.configs then "llm" !in s.configs[a] || !s.configs[a]["llm"].enabled
                        else "llm" !in s.catalog.defaults)
  {
  }

  function ScopeName(agent: Agent): string {
    if agent.name != "" then agent.name else agent.id
  }

  /** The agent's scope is there under the agents' scope, or can be created there. */
  predicate ScopeAvailable(f: Forest, agent: Agent) {
    var scope := AgentScope(agent.id);
    if scope in f then f[scope].parent == Some(AGENT_SCOPE_ID)
    else AGENT_SCOPE_ID in f && !IsBlank(ScopeName(agent))
  }

  /** Every usable binding and the loop are installed, acceptable and start. */
  predicate ComponentsStart(s: Setup, agent: Agent, starts: Starts) {
    && (forall p :: p in Bindings(s, agent.id) && Usable(s, agent, p) ==>
          && starts.bindings(p) && s.catalog.plugins[p] in s.definitions
          && Acceptable(BindingProperties(s, agent, p).value, s.scopedFields(s.catalog.plugins[p].0)))
    && starts.loop && s.catalog.loop in s.definitions
  }

  /** What building an agent needs, as far as a caller can know. */
  predicate Buildable(s: Setup, f: Forest, agent: Agent, starts: Starts) {
    ScopeAvailable(f, agent) && ComponentsStart(s, agent, starts)
  }

  function WithAgentScope(f: Forest, agent: Agent): Forest {
    if AgentScope(agent.id) in f then f else WithScope(f, AgentScope(agent.id), ScopeName(agent), AGENT_SCOPE_ID)
  }

  /** The scope of an agent hangs below the agents' scope and has its name, or its id if it has none. */
  lemma AgentScopeAdded(f: Forest, agent: Agent)
    ensures "agent:" + agent.id in f ==> WithAgentScope(f, agent) == f
    ensures "agent:" + agent.id !in f ==>
              WithAgentScope(f, agent)
              == f["agent:" + agent.id := Scope("agent:" + agent.id, Some("agent"),
                                                if agent.name == "" then agent.id else agent.name)]
  {
  }

  /** With its scope in place, what is left is that bindings and loop can be created. */
  lemma BuildableIff(s: Setup, f: Forest, agent: Agent, starts: Starts)
    ensures AgentScope(agent.id) in f ==>
              (ComponentsStart(s, agent, starts)
               <==> && (forall p :: p in Bindings(s, agent.id) ==> BindingStarts(s, f, agent, p, starts.bindings(p)))
                    && LoopStarts(s, f, agent.id, starts.loop))
  {
    hide Bindings, BindingProperties, Acceptable;
  }

  // ------------------------------------------------------------ what was built

  /** Each of these plugins is a running instance of its catalog entry with the properties bound to it. */
  ghost predicate RunAsBound(s: Setup, instances: map<Uuid, Instance>, user: map<Uuid, Props>, agent: Agent,
                             created: map<string, Instance>)
  {
    forall p :: p in created ==>
      && Usable(s, agent, p)
      && Running(instances, user, created[p], s.catalog.plugins[p], AgentScope(agent.id),
                 BindingProperties(s, agent, p).value)
      && BoundAs(s, agent, p, user[created[p].uuid])
  }

  /** What is configured for an agent is what is on record for it, and runs. */
  ghost predicate AsConfigured(s: Setup, f: Forest, b: Books, agent: Agent) {
    && agent.id in b.plugins && agent.id in b.loops && HasChain(f, AgentScope(agent.id))
    && (forall p :: p in b.plugins[agent.id] <==>
          && p in s.catalog.plugins
          && (if agent.id in s.configs then p in s.configs[agent.id] && s.configs[agent.id][p].enabled
              else p in s.catalog.defaults)
          && (p == "llm" ==> GivesModel(Stored(s.configs, agent.id, p), s.llmDefaults, map[])))
    && (forall p :: p in b.plugins[agent.id] ==>
          && b.plugins[agent.id][p].uuid in b.user
          && BoundAs(s, agent, p, b.user[b.plugins[agent.id][p].uuid]))
    && b.loops[agent.id].uuid in b.user
    && LoopAs(s.catalog, agent.id, VisibilityFilter(Chain(f, AgentScope(agent.id))), b.user[b.loops[agent.id].uuid])
  }

  /** The loop knows its agent, and looks for each of its plugins among what its scope may see. */
  ghost predicate LoopAs(c: Catalog, a: AgentId, visible: string, own: Props) {
    && own.Keys == {"plugin.agent_id", "requires.filters"}
    && own["plugin.agent_id"] == Text(a)
    && own["requires.filters"].Dict?
    && own["requires.filters"].items.Keys == c.loopFields
    && forall field :: field in c.loopFields ==> own["requires.filters"].items[field] == Text(visible)
  }

  /** The agent is on record with exactly its usable bindings and its loop, all of them as they should be. */
  ghost predicate Built(s: Setup, f: Forest, b: Books, agent: Agent) {
    && agent.id in b.plugins && agent.id in b.loops
    && b.plugins[agent.id].Keys == UsableOf(s, agent, Bindings(s, agent.id))
    && RunAsBound(s, b.instances, b.user, agent, b.plugins[agent.id])
    && HasChain(f, AgentScope(agent.id))
    && Running(b.instances, b.user, b.loops[agent.id], s.catalog.loop, AgentScope(agent.id),
               LoopProperties(s, agent.id, VisibilityFilter(Chain(f, AgentScope(agent.id)))))
    && AsConfigured(s, f, b, agent)
  }

  lemma ConfiguredWhenRunning(s: Setup, f: Forest, b: Books, agent: Agent)
    requires agent.id in b.plugins && agent.id in b.loops && HasChain(f, AgentScope(agent.id))
    requires b.plugins[agent.id].Keys == UsableOf(s, agent, Bindings(s, agent.id))
    requires RunAsBound(s, b.instances, b.user, agent, b.plugins[agent.id])
    requires Running(b.instances, b.user, b.loops[agent.id], s.catalog.loop, AgentScope(agent.id),
                     LoopProperties(s, agent.id, VisibilityFilter(Chain(f, AgentScope(agent.id)))))
    ensures AsConfigured(s, f, b, agent)
  {
    hide BindingProperties, BoundAs, GivesModel, HasChain, VisibilityFilter, Stored;
    forall p
      ensures p in b.plugins[agent.id] <==>
                && p in s.catalog.plugins
                && (if agent.id in s.configs then p in s.configs[agent.id] && s.configs[agent.id][p].enabled
                    else p in s.catalog.defaults)
                && (p == "llm" ==> GivesModel(Stored(s.configs, agent.id, p), s.llmDefaults, map[]))
    {
      BoundIff(s, agent, p);
    }
  }

  lemma RunningOneMore(s: Setup, now: Books, agent: Agent, created: map<string, Instance>, p: string, i: Instance)
    requires RunAsBound(s, now.instances, now.user, agent, created) && New(now, i) && Usable(s, agent, p)
    requires DefinitionOf(i) == s.catalog.plugins[p] && i.scope == AgentScope(agent.id) && i.enabled && i.ranking == 0
    ensures var after := Added(now, i, BindingProperties(s, agent, p).value);
            RunAsBound(s, after.instances, after.user, agent, created[p := i])
  {
    BoundIff(s, agent, p);
    hide BindingProperties, BoundAs;
  }

  /** Bindings and loop are there; entering them makes the agent one that was built. */
  lemma BuiltNow(s: Setup, f: Forest, now: Books, agent: Agent, created: map<string, Instance>, loop: Instance)
    requires RunAsBound(s, now.instances, now.user, agent, created) && loop.uuid !in now.instances
    requires created.Keys == UsableOf(s, agent, Bindings(s, agent.id)) && HasChain(f, AgentScope(agent.id))
    requires DefinitionOf(loop) == s.catalog.loop && loop.scope == AgentScope(agent.id)
    requires loop.enabled && loop.ranking == 0
    ensures var own := LoopProperties(s, agent.id, VisibilityFilter(Chain(f, AgentScope(agent.id))));
            Built(s, f, Added(now, loop, own).(plugins := now.plugins[agent.id := created],
                                               loops := now.loops[agent.id := loop]), agent)
  {
    hide Usable, BindingProperties, UsableOf, Bindings, LoopProperties, HasChain, VisibilityFilter, AsConfigured;
    var own := LoopProperties(s, agent.id, VisibilityFilter(Chain(f, AgentScope(agent.id))));
    ConfiguredWhenRunning(s, f, Added(now, loop, own).(plugins := now.plugins[agent.id := created],
                                                       loops := now.loops[agent.id := loop]), agent);
  }

  /** Bindings and loop going on record together. */
  lemma OnRecord(s: Setup, f: Forest, before: Books, now: Books, entered: Books, agent: Agent,
                 created: map<string, Instance>, loop: Instance)
    requires Underway(before, now, agent.id, created) && New(now, loop)
    requires RunAsBound(s, now.instances, now.user, agent, created)
    requires created.Keys == UsableOf(s, agent, Bindings(s, agent.id)) && HasChain(f, AgentScope(agent.id))
    requires entered == Added(now, loop, LoopProperties(s, agent.id, VisibilityFilter(Chain(f, AgentScope(agent.id)))))
    requires DefinitionOf(loop) == s.catalog.loop && loop.scope == AgentScope(agent.id)
    requires loop.enabled && loop.ranking == 0
    ensures entered.plugins == before.plugins && entered.loops == before.loops
    ensures var after := entered.(plugins := entered.plugins[agent.id := created],
                                  loops := entered.loops[agent.id := loop]);
            Keeps(before, after) && Clean(after) && Built(s, f, after, agent)
  {
    hide RunAsBound, UsableOf, Bindings, LoopProperties, HasChain, VisibilityFilter, Running, AllRecorded,
      CreatedExactly;
    hide NoLeakElsewhere, StrayIn, Grown, NoLeak, UuidsOf;
    BuiltNow(s, f, now, agent, created, loop);
    Recording(before, now, agent.id, created, loop,
              LoopProperties(s, agent.id, VisibilityFilter(Chain(f, AgentScope(agent.id)))));
  }

  lemma LoopAcceptable(s: Setup, a: AgentId, visible: seq<ScopeId>, fields: set<string>)
    requires visible != []
    ensures Acceptable(LoopProperties(s, a, VisibilityFilter(visible)), fields)
  {
    VisibilityFilterParses(visible);
    ValidText(VisibilityFilter(visible));
  }

  /** Other instances that come, and scopes that come or go elsewhere, leave what was built as it was. */
  lemma BuiltStays(s: Setup, f: Forest, g: Forest, before: Books, after: Books, agent: Agent)
    requires Built(s, f, before, agent) && Grown(before.instances, after.instances) && Grown(before.user, after.user)
    requires agent.id in after.plugins && after.plugins[agent.id] == before.plugins[agent.id]
    requires agent.id in after.loops && after.loops[agent.id] == before.loops[agent.id]
    requires HasChain(g, AgentScope(agent.id)) && (Grown(f, g) || Grown(g, f))
    ensures Built(s, g, after, agent)
  {
    SameChain(f, g, AgentScope(agent.id));
    hide Usable, BindingProperties, UsableOf, Bindings, LoopProperties, HasChain, VisibilityFilter, AsConfigured;
    ConfiguredWhenRunning(s, g, after, agent);
  }

  lemma SameChain(f: Forest, g: Forest, id: ScopeId)
    requires HasChain(f, id) && HasChain(g, id) && (Grown(f, g) || Grown(g, f))
    ensures Chain(f, id) == Chain(g, id)
  {
    if Grown(f, g) {
      ChainIs(g, id, Chain(f, id));
    } else {
      ChainIs(f, id, Chain(g, id));
    }
  }

  /** Each of these agents is what its first enabled entry says. */
  ghost predicate AllBuilt(s: Setup, f: Forest, b: Books, who: set<AgentId>, agents: seq<Agent>) {
    forall a :: a in who ==>
      FirstEnabled(agents, a) < |agents| && Built(s, f, b, agents[FirstEnabled(agents, a)])
  }

  lemma NoneBuilt(s: Setup, f: Forest, b: Books, agents: seq<Agent>)
    ensures AllBuilt(s, f, b, {}, agents)
  {
  }

  lemma NothingBound(s: Setup, instances: map<Uuid, Instance>, user: map<Uuid, Props>, agent: Agent)
    ensures RunAsBound(s, instances, user, agent, map[]) && UsableOf(s, agent, {}) == {}
  {
  }

  lemma UsableOneMore(s: Setup, agent: Agent, done: set<string>, p: string)
    ensures UsableOf(s, agent, done + {p}) == UsableOf(s, agent, done) + (if Usable(s, agent, p) then {p} else {})
    ensures UsableOf(s, agent, done) <= done
  {
    hide Usable;
  }

  lemma UsableWithin(s: Setup, agent: Agent, some: set<string>, all: set<string>)
    requires some <= all
    ensures UsableOf(s, agent, some) <= UsableOf(s, agent, all)
  {
    hide Usable;
  }

  // ------------------------------------------------------------ one sweep over the agents

  /** What a sweep changes: the scopes, the agents on record and the failed ones; a stuck sweep ends. */
  datatype Standing = Standing(scopes: Forest, built: set<AgentId>, failed: set<AgentId>, stuck: bool)

  predicate HasKids(f: Forest, scope: ScopeId) {
    scope in f && exists k :: k in f && f[k].parent == Some(scope)
  }

  predicate Eligible(st: Standing, agent: Agent) {
    agent.enabled && agent.id !in st.built && agent.id !in st.failed
  }

  /**
   One attempt to build an agent.  It succeeds or takes the agent's scope away again; only where
   that scope has child scopes it cannot be taken away, and the whole sweep is stuck.
   */
  function Attempted(s: Setup, st: Standing, agent: Agent, starts: Starts): Standing {
    if !BundlesReady(s, agent.id) then st
    else if Buildable(s, st.scopes, agent, starts) then Finished(st, agent)
    else TakenBack(st, agent.id)
  }

  function Finished(st: Standing, agent: Agent): Standing {
    Standing(WithAgentScope(st.scopes, agent), st.built + {agent.id}, st.failed - {agent.id}, false)
  }

  function TakenBack(st: Standing, a: AgentId): Standing {
    if HasKids(st.scopes, AgentScope(a)) then st.(stuck := true)
    else st.(scopes := st.scopes - {AgentScope(a)}, failed := st.failed + {a})
  }

  /** Taking a scope back that the attempt itself created leaves what there was before. */
  lemma TakenBackSame(st: Standing, agent: Agent)
    requires IsTree(st.scopes)
    ensures TakenBack(st.(scopes := WithAgentScope(st.scopes, agent)), agent.id) == TakenBack(st, agent.id)
  {
    var f, scope := st.scopes, AgentScope(agent.id);
    if scope !in f {
      AgentScopesApart(agent.id, agent.id);
      ChainOfRoot(f);
      forall k | k in f && f[k].parent == Some(scope) ensures false {
        ChainStep(f, k);
      }
      PutThenDrop(f, scope, Scope(scope, Some(AGENT_SCOPE_ID), ScopeName(agent)));
      DropThenPut(f, scope);
    }
  }

  /** An agent torn down, and what is left to it of a failed attempt. */
  function Forgotten(st: Standing, a: AgentId): Standing {
    st.(built := st.built - {a}, failed := st.failed - {a})
  }

  /** All agents on record torn down. */
  function AllForgotten(st: Standing): Standing {
    st.(built := {}, failed := st.failed - st.built)
  }

  /** What the removal of an agent does to its scope. */
  function ScopeDropped(st: Standing, a: AgentId): Standing {
    if HasKids(st.scopes, AgentScope(a)) then st.(stuck := true) else st.(scopes := st.scopes - {AgentScope(a)})
  }

  /** An agent torn down and, if the registry lists it as enabled, built anew. */
  function Restarted(s: Setup, st: Standing, agents: seq<Agent>, a: AgentId, starts: Starts): Standing {
    if Enabled(agents, a) then Attempted(s, Forgotten(st, a), FindAgent(agents, a).value, starts) else Forgotten(st, a)
  }

  predicate Enabled(agents: seq<Agent>, a: AgentId) {
    FindAgent(agents, a).Some? && FindAgent(agents, a).value.enabled
  }

  /** The first `n` agents of the list, each one that is neither on record nor failed attempted once. */
  function Swept(s: Setup, st: Standing, agents: seq<Agent>, starts: nat -> Starts, n: nat): Standing
    requires n <= |agents|
  {
    if n == 0 then st
    else
      var before := Swept(s, st, agents, starts, n - 1);
      if before.stuck || !Eligible(before, agents[n - 1]) then before
      else Attempted(s, before, agents[n - 1], starts(n - 1))
  }

  lemma SweptNone(s: Setup, st: Standing, agents: seq<Agent>, starts: nat -> Starts)
    ensures Swept(s, st, agents, starts, 0) == st
  {
  }

  lemma AttemptKeeps(s: Setup, st: Standing, agent: Agent, starts: Starts)
    ensures var end := Attempted(s, st, agent, starts);
            && Same(st.scopes, end.scopes, AGENT_SCOPE_ID)
            && (Grown(st.scopes, end.scopes) || Grown(end.scopes, st.scopes))
            && (forall b :: b != agent.id ==>
                  && (b in end.built <==> b in st.built) && (b in end.failed <==> b in st.failed)
                  && Same(st.scopes, end.scopes, AgentScope(b)))
            && st.built <= end.built
            && (forall k :: k in end.scopes ==> (k in st.scopes && end.scopes[k] == st.scopes[k])
                                                || end.scopes[k].parent == Some(AGENT_SCOPE_ID))
  {
    hide BundlesReady, Buildable;
    AgentScopesApart(agent.id, agent.id);
    forall b ensures AgentScope(b) == AgentScope(agent.id) <==> b == agent.id {
      AgentScopesApart(agent.id, b);
    }
  }

  /** A scope is in both forests, as the same, or in neither. */
  predicate Same(f: Forest, g: Forest, k: ScopeId) {
    (k in f <==> k in g) && (k in f ==> f[k] == g[k])
  }

  /** What a sweep leaves alone: the agents' own scope, agents on record, failed ones and those not listed. */
  lemma {:induction false} SweepKeeps(s: Setup, st: Standing, agents: seq<Agent>, starts: nat -> Starts, n: nat,
                                      a: AgentId)
    requires n <= |agents|
    ensures var end := Swept(s, st, agents, starts, n);
            && Same(st.scopes, end.scopes, AGENT_SCOPE_ID)
            && st.built <= end.built && st.failed <= end.failed
            && ((forall i :: 0 <= i < n ==> agents[i].id != a || !Eligible(st, agents[i])) ==>
                  && (a in end.built <==> a in st.built) && (a in end.failed <==> a in st.failed)
                  && Same(st.scopes, end.scopes, AgentScope(a)))
            && (forall k :: k in end.scopes ==> (k in st.scopes && end.scopes[k] == st.scopes[k])
                                                || end.scopes[k].parent == Some(AGENT_SCOPE_ID))
  {
    hide Attempted;
    if n > 0 {
      SweepKeeps(s, st, agents, starts, n - 1, a);
      var before, agent := Swept(s, st, agents, starts, n - 1), agents[n - 1];
      AttemptKeeps(s, before, agent, starts(n - 1));
      if !before.stuck && Eligible(before, agent) {
        FailedStay(s, before, agent, starts(n - 1));
      }
    }
  }

  lemma FailedStay(s: Setup, st: Standing, agent: Agent, starts: Starts)
    requires agent.id !in st.failed
    ensures st.failed <= Attempted(s, st, agent, starts).failed
  {
  }

  /** Whether an agent can be built is a matter of its own scope and the agents' scope. */
  lemma BuildableSame(s: Setup, f: Forest, g: Forest, agent: Agent, starts: Starts)
    requires Same(f, g, AGENT_SCOPE_ID) && Same(f, g, AgentScope(agent.id))
    ensures Buildable(s, f, agent, starts) <==> Buildable(s, g, agent, starts)
  {
    hide ComponentsStart;
  }

  /**
   A sweep that ends builds every listed agent that it can, whatever else is on the list: an agent
   neither on record nor failed is on record afterwards exactly when its first enabled entry could be
   built before, it has failed exactly when its bundles were there and it could not, and else it waits.
   */
  lemma {:induction false} SweepBuilds(s: Setup, st: Standing, agents: seq<Agent>, starts: nat -> Starts, n: nat,
                                       i: nat)
    requires i < n <= |agents| && Eligible(st, agents[i])
    requires forall j :: 0 <= j < i ==> agents[j].id != agents[i].id || !agents[j].enabled
    requires !Swept(s, st, agents, starts, n).stuck
    ensures var end, a := Swept(s, st, agents, starts, n), agents[i].id;
            && (a in end.built <==> BundlesReady(s, a) && Buildable(s, st.scopes, agents[i], starts(i)))
            && (a in end.failed <==> BundlesReady(s, a) && !Buildable(s, st.scopes, agents[i], starts(i)))
  {
    hide BundlesReady, Buildable;
    var before, a := Swept(s, st, agents, starts, n - 1), agents[i].id;
    if i == n - 1 {
      SweepKeeps(s, st, agents, starts, i, a);
      BuildableSame(s, st.scopes, before.scopes, agents[i], starts(i));
    } else {
      SweepBuilds(s, st, agents, starts, n - 1, i);
      AttemptKeeps(s, before, agents[n - 1], starts(n - 1));
    }
  }

  lemma {:induction false} StuckStays(s: Setup, st: Standing, agents: seq<Agent>, starts: nat -> Starts, n: nat, m: nat)
    requires n <= m <= |agents| && Swept(s, st, agents, starts, n).stuck
    ensures Swept(s, st, agents, starts, m) == Swept(s, st, agents, starts, n)
  {
    if n < m {
      StuckStays(s, st, agents, starts, n, m - 1);
    }
  }

  /** Whoever is built in a sweep is built at its first enabled entry. */
  lemma BuiltAtFirst(s: Setup, st: Standing, agents: seq<Agent>, starts: nat -> Starts, n: nat)
    requires n < |agents| && !Swept(s, st, agents, starts, n).stuck
    requires Eligible(Swept(s, st, agents, starts, n), agents[n]) && BundlesReady(s, agents[n].id)
    ensures FirstEnabled(agents, agents[n].id) == n
  {
    hide BundlesReady, Buildable, Swept;
    var a := agents[n].id;
    var i := FirstEnabled(agents, a);
    SweepKeeps(s, st, agents, starts, n, a);
    if i < n {
      SweepBuilds(s, st, agents, starts, n, i);
    }
  }

  /** A sweep gets stuck only at an agent whose scope has child scopes and that cannot be built there. */
  lemma {:induction false} StuckOnlyWithKids(s: Setup, st: Standing, agents: seq<Agent>, starts: nat -> Starts, n: nat)
    requires n <= |agents| && !st.stuck && Swept(s, st, agents, starts, n).stuck
    ensures exists i :: 0 <= i < n && Eligible(st, agents[i]) && BundlesReady(s, agents[i].id)
                        && !Buildable(s, st.scopes, agents[i], starts(i))
                        && HasKids(st.scopes, AgentScope(agents[i].id))
  {
    hide BundlesReady, Buildable;
    var before := Swept(s, st, agents, starts, n - 1);
    if before.stuck {
      StuckOnlyWithKids(s, st, agents, starts, n - 1);
    } else {
      var agent := agents[n - 1];
      SweepKeeps(s, st, agents, starts, n - 1, agent.id);
      NoEarlierAttempt(s, st, agents, starts, n - 1, agent.id);
      BuildableSame(s, st.scopes, before.scopes, agent, starts(n - 1));
      KidsBefore(st.scopes, before.scopes, AgentScope(agent.id));
      AgentScopesApart(agent.id, agent.id);
      assert Eligible(st, agents[n - 1]) && HasKids(st.scopes, AgentScope(agents[n - 1].id));
    }
  }

  lemma KidsBefore(f: Forest, g: Forest, scope: ScopeId)
    requires scope != AGENT_SCOPE_ID && Same(f, g, scope)
    requires forall k :: k in g ==> (k in f && g[k] == f[k]) || g[k].parent == Some(AGENT_SCOPE_ID)
    ensures HasKids(g, scope) ==> HasKids(f, scope)
  {
  }

  /** An agent with loaded bundles that is still eligible was not attempted before. */
  lemma {:induction false} NoEarlierAttempt(s: Setup, st: Standing, agents: seq<Agent>, starts: nat -> Starts, n: nat,
                                            a: AgentId)
    requires n <= |agents| && BundlesReady(s, a)
    ensures var end := Swept(s, st, agents, starts, n);
            !end.stuck && a !in end.built && a !in end.failed ==> Same(st.scopes, end.scopes, AgentScope(a))
  {
    hide BundlesReady, Buildable;
    if n > 0 {
      NoEarlierAttempt(s, st, agents, starts, n - 1, a);
      AttemptKeeps(s, Swept(s, st, agents, starts, n - 1), agents[n - 1], starts(n - 1));
    }
  }

  // ------------------------------------------------------------ ensuring one binding

  /** The properties an ensured binding should have; an llm without a model is left to its scope. */
  function WantedProperties(s: Setup, a: AgentId, plugin: string, properties: Props): Option<Props> {
    var merged := (if plugin == "llm" then s.llmDefaults else map[]) + StoredProperties(s, a, plugin) + properties;
    if plugin == "llm" && !UsableLlm(merged) then None else Some(AgentProperties(s, a, plugin, merged))
  }

  predicate AlreadyHas(current: Instance, a: AgentId, wanted: Props) {
    current.scope == AgentScope(a)
    && forall k :: k in wanted ==> if k in current.props then current.props[k] == wanted[k] else wanted[k] == Null
  }

  /** An instance in the agent's scope holds all that an ensured binding asks for, or was created with exactly that. */
  ghost predicate Ensured(s: Setup, i: Instance, user: map<Uuid, Props>, a: AgentId, plugin: string, properties: Props)
  {
    var stored := Stored(s.configs, a, plugin);
    var defaults := if plugin == "llm" then s.llmDefaults else map[];
    && i.scope == AgentScope(a)
    && (|| (i.uuid in user && Layered(user[i.uuid], a, properties, stored, defaults, Settings(s.catalog, plugin)))
        || exists wanted ::
             && Layered(wanted, a, properties, stored, defaults, Settings(s.catalog, plugin))
             && forall k :: k in wanted ==> wanted[k] == if k in i.props then i.props[k] else Null)
  }

  lemma EnsuredWhen(s: Setup, i: Instance, user: map<Uuid, Props>, a: AgentId, plugin: string, properties: Props)
    requires WantedProperties(s, a, plugin, properties).Some?
    requires var wanted := WantedProperties(s, a, plugin, properties).value;
             || AlreadyHas(i, a, wanted)
             || (i.scope == AgentScope(a) && i.uuid in user && user[i.uuid] == wanted)
    ensures Ensured(s, i, user, a, plugin, properties)
  {
    WantedIff(s, a, plugin, properties);
    hide WantedProperties, Layered;
  }

  lemma EnsuredIs(s: Setup, b: Books, a: AgentId, plugin: string, properties: Props)
    ensures var wanted := WantedProperties(s, a, plugin, properties);
            && (wanted.None?
                <==> plugin == "llm" && !GivesModel(properties, Stored(s.configs, a, plugin), s.llmDefaults))
            && (wanted.Some? && plugin in s.catalog.plugins && plugin in PluginsOf(b.plugins, a)
                && (AlreadyHas(b.plugins[a][plugin], a, wanted.value)
                    || Running(b.instances, b.user, b.plugins[a][plugin], s.catalog.plugins[plugin], AgentScope(a),
                               wanted.value)) ==>
                  Ensured(s, b.plugins[a][plugin], b.user, a, plugin, properties))
  {
    WantedIff(s, a, plugin, properties);
    var wanted := WantedProperties(s, a, plugin, properties);
    hide WantedProperties, AlreadyHas, Ensured, GivesModel, Stored;
    if wanted.Some? && plugin in PluginsOf(b.plugins, a) {
      var i := b.plugins[a][plugin];
      if AlreadyHas(i, a, wanted.value)
         || (i.scope == AgentScope(a) && i.uuid in b.user && b.user[i.uuid] == wanted.value)
      {
        EnsuredWhen(s, i, b.user, a, plugin, properties);
      }
    }
  }

  /**
   Ensuring a binding settles: its new instance is as wanted, so that the same call has nothing to do
   the next time, exactly when the properties name no value of the component itself but the right one,
   and name filters only with the scope filter on every scoped field.
   */
  lemma SettlesIff(f: Forest, scopedFields: string -> set<string>, i: Instance, a: AgentId, wanted: Props)
    requires InstanceDerived(f, scopedFields, i, wanted) && i.scope == AgentScope(a)
    ensures AlreadyHas(i, a, wanted)
            <==> && (forall k :: k in RUNTIME_KEYS && k in wanted ==> SameAt(i.props, wanted, k))
                 && (FILTERS_PROPERTY in wanted ==>
                       forall field :: field in scopedFields(i.moduleName) ==>
                         && field in UserFilters(wanted)
                         && UserFilters(wanted)[field] == Text(VisibilityFilter(Chain(f, i.scope))))
  {
    var at := PlacementOf(f, scopedFields, i);
    EffectiveInjects(wanted, at);
    if FILTERS_PROPERTY in wanted {
      FiltersKeptIff(wanted, at);
    }
    hide VisibilityFilter, UserFilters, Effective, SameFilters;
    assert AlreadyHas(i, a, wanted) <==> forall k :: k in wanted ==> SameAt(i.props, wanted, k);
  }

  /** The plugin is on record with other properties than it should have. */
  predicate Outdated(plugins: Plugins, a: AgentId, plugin: string, wanted: Props) {
    plugin in PluginsOf(plugins, a) && !AlreadyHas(plugins[a][plugin], a, wanted)
  }

  /** A new component of the plugin could be created, its scope being there. */
  predicate Replaceable(s: Setup, plugin: string, wanted: Props, starts: bool) {
    && plugin in s.catalog.plugins && s.catalog.plugins[plugin] in s.definitions
    && Acceptable(wanted, s.scopedFields(s.catalog.plugins[plugin].0)) && starts
  }

  /** A binding is unknown, as it should be, recorded but gone, or to be put there with these properties. */
  datatype Ensuring = Unknown | Nothing | Dangling | Put(wanted: Props)

  /** What ensuring a binding comes to. */
  function WhatToDo(s: Setup, plugins: Plugins, instances: map<Uuid, Instance>, a: AgentId, plugin: string,
                    properties: Props): Ensuring
  {
    if plugin !in s.catalog.plugins then Unknown
    else
      var wanted := WantedProperties(s, a, plugin, properties);
      if wanted.None? then Nothing
      else if plugin !in PluginsOf(plugins, a) then Put(wanted.value)
      else if AlreadyHas(plugins[a][plugin], a, wanted.value) then Nothing
      else if plugins[a][plugin].uuid !in instances then Dangling
      else Put(wanted.value)
  }

  /** Ensuring this binding deletes an instance and cannot create the one to take its place. */
  predicate LosesBinding(s: Setup, plugins: Plugins, a: AgentId, plugin: string, properties: Props, starts: bool) {
    && plugin in s.catalog.plugins
    && var wanted := WantedProperties(s, a, plugin, properties);
       wanted.Some? && Outdated(plugins, a, plugin, wanted.value) && !Replaceable(s, plugin, wanted.value, starts)
  }

  /** What a plugin of an agent would be built as, but for the uuid, which nobody knows before. */
  ghost function Expected(s: Setup, f: Forest, agent: Agent, plugin: string): Result<Instance, PropertyError>
    requires Usable(s, agent, plugin)
  {
    var key := s.catalog.plugins[plugin];
    Created(f, s.scopedFields, 0, key.1, key.0, AgentScope(agent.id), BindingProperties(s, agent, plugin).value,
            true, 0)
  }

  /**
   Whether ensuring a plugin of an agent loses an instance: it does, if the sweep before it ends, when
   the plugin, on record already or built by that sweep, is not as wanted and cannot be created anew.
   */
  ghost predicate LosesInstance(s: Setup, st: Standing, plugins: Plugins, a: AgentId, plugin: string, properties: Props,
                                agents: seq<Agent>, building: nat -> Starts, starts: bool)
  {
    && ValidId(a) && Enabled(agents, a) && plugin in s.catalog.plugins
    && var end := Swept(s, st, agents, building, |agents|);
       var agent := FindAgent(agents, a).value;
       var wanted := WantedProperties(s, a, plugin, properties);
       && !end.stuck && wanted.Some? && !Replaceable(s, plugin, wanted.value, starts)
       && if a in plugins then Outdated(plugins, a, plugin, wanted.value)
          else
            && a in end.built && plugin in Bindings(s, a) && Usable(s, agent, plugin)
            && var i := Expected(s, end.scopes, agent, plugin);
               i.Ok? && !AlreadyHas(i.value, a, wanted.value)
  }

  lemma LosesOnlyIf(s: Setup, a: AgentId, plugin: string, properties: Props, starts: bool)
    ensures forall plugins :: LosesBinding(s, plugins, a, plugin, properties, starts) ==>
              && plugin in s.catalog.plugins && WantedProperties(s, a, plugin, properties).Some?
              && !Replaceable(s, plugin, WantedProperties(s, a, plugin, properties).value, starts)
  {
    hide WantedProperties, Replaceable;
  }

  lemma LosesOnlyThen(s: Setup, st: Standing, plugins: Plugins, a: AgentId, plugin: string, properties: Props,
                      agents: seq<Agent>, building: nat -> Starts, starts: bool)
    ensures LosesInstance(s, st, plugins, a, plugin, properties, agents, building, starts) ==>
              && ValidId(a) && Enabled(agents, a) && plugin in s.catalog.plugins
              && !Swept(s, st, agents, building, |agents|).stuck
    ensures Enabled(agents, a) <==> FindAgent(agents, a).Some? && FindAgent(agents, a).value.enabled
  {
    hide ValidId;
  }

  /** The caller asks for a certain uuid, for an agent that may first have to be built. */
  predicate Guesses(s: Setup, plugins: Plugins, a: AgentId, plugin: string, properties: Props) {
    var wanted := WantedProperties(s, a, plugin, properties);
    a !in plugins && wanted.Some? && PLUGIN_INSTANCE_ID in wanted.value
  }

  /** What was built is what was expected, but for the uuid. */
  lemma ExpectedIs(s: Setup, f: Forest, agent: Agent, plugin: string, i: Instance, a: AgentId, wanted: Props)
    requires Usable(s, agent, plugin) && PLUGIN_INSTANCE_ID !in wanted
    requires DefinitionOf(i) == s.catalog.plugins[plugin] && i.scope == AgentScope(agent.id) && i.ranking == 0
    requires InstanceDerived(f, s.scopedFields, i, BindingProperties(s, agent, plugin).value)
    ensures var e := Expected(s, f, agent, plugin);
            e.Ok? && (AlreadyHas(e.value, a, wanted) <==> AlreadyHas(i, a, wanted))
  {
    hide BindingProperties, Effective;
    EffectiveButUuid(BindingProperties(s, agent, plugin).value, PlacementOf(f, s.scopedFields, i), 0);
  }

  /** Properties computed under another uuid differ in that uuid alone. */
  lemma EffectiveButUuid(user: Props, at: Placement, uuid: Uuid)
    requires at.visible != []
    ensures var one, other := Effective(user, at), Effective(user, at.(instance := uuid));
            && (one.Ok? <==> other.Ok?)
            && (one.Ok? ==> forall k :: k != PLUGIN_INSTANCE_ID ==>
                  && (k in one.value <==> k in other.value)
                  && (k in one.value ==> one.value[k] == other.value[k]))
  {
    EffectiveIff(user, at);
    EffectiveIff(user, at.(instance := uuid));
  }

  /** Whether an instance is lost can be told before the sweep. */
  lemma LosesAsExpected(s: Setup, st: Standing, plugins: Plugins, end: Standing, after: Books, a: AgentId,
                        plugin: string, properties: Props, agents: seq<Agent>, building: nat -> Starts, starts: bool)
    requires ValidId(a) && Enabled(agents, a) && st.built == plugins.Keys
    requires end == Swept(s, st, agents, building, |agents|) && !end.stuck && after.plugins.Keys == end.built
    requires Grown(plugins, after.plugins) && !Guesses(s, plugins, a, plugin, properties)
    requires a in after.plugins && a !in plugins ==>
               && Built(s, end.scopes, after, FindAgent(agents, a).value)
               && PropertiesDerived(end.scopes, s.scopedFields, after.instances, after.user)
    ensures LosesInstance(s, st, plugins, a, plugin, properties, agents, building, starts)
            <==> LosesBinding(s, after.plugins, a, plugin, properties, starts)
  {
    hide Usable, BindingProperties, PropertiesDerived, WantedProperties, AlreadyHas, Replaceable, Expected, Swept;
    FoundFirst(agents, a);
    if a !in plugins && a in after.plugins && plugin in after.plugins[a] {
      var agent, i := FindAgent(agents, a).value, after.plugins[a][plugin];
      DerivedOf(end.scopes, s.scopedFields, after.instances, after.user, i.uuid);
      var wanted := WantedProperties(s, a, plugin, properties);
      if wanted.Some? {
        ExpectedIs(s, end.scopes, agent, plugin, i, a, wanted.value);
      }
    }
  }
}
