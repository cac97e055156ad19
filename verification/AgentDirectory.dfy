/**
 The agent directory: it creates and destroys one set of plugin instances per agent.

 The agents are those the registry lists at the time of a call; nobody else creates instances in
 the scopes `agent:<id>`, and saving the state works.  Whether a component starts is up to the world.
 */
module AgentDirectory {
  import opened Common
  import opened ScopeForest
  import opened EffectiveProperties
  import opened LdapFilter
  import opened PluginTables
  import opened PluginManager
  import opened AgentRecords
  import opened Ids
  import opened AgentSetup
  import ScopeTree

  datatype DirectoryError =
    | InvalidId
    | UnknownAgent
    | AgentDisabled
    | UnknownPlugin
    | Manager(error: ManagerError)

  /** A number no instance and no record uses. */
  method FreshUuid(taken: set<Uuid>) returns (u: Uuid)
    ensures u !in taken
  {
    u := 0;
    ghost var below := {};
    while u in taken
      invariant below <= taken && forall k :: k in below ==> k < u
      decreases taken - below
    {
      below := below + {u};
      u := u + 1;
    }
  }

  class AgentDirectory {
    const manager: PluginManager
    const catalog: Catalog
    /** the default provider mapped to llm properties; empty when there is none */
    const llmDefaults: Props
    var plugins: Plugins
    var loops: Loops
    var failed: set<AgentId>
    var configs: map<AgentId, map<string, Binding>>
    var defaultLlm: Option<Instance>

    /** The manager is consistent and can save, and no agent's scope holds an unrecorded instance. */
    ghost predicate Valid()
      reads this, manager, manager.tree, manager.store, manager.tree.store
    {
      Ready() && loops.Keys <= plugins.Keys && Clean(CurrentBooks())
    }

    ghost predicate Ready()
      reads manager, manager.tree, manager.store, manager.tree.store
    {
      manager.Valid() && manager.CanSave() && manager.CanWriteScopes()
    }

    function CurrentSetup(): Setup
      reads this`configs, manager`plugins, manager`bundles
    {
      Setup(catalog, llmDefaults, manager.scopedFields, configs, manager.plugins.Keys, manager.bundles)
    }

    function CurrentStanding(): Standing
      reads this`plugins, this`failed, manager.tree
    {
      Standing(manager.tree.scopes.at, plugins.Keys, failed, false)
    }

    function CurrentBooks(): Books
      reads this`plugins, this`loops, manager`instances, manager`userProperties
    {
      Books(manager.instances, manager.userProperties, plugins, loops)
    }

    /**
     The agents with a record of an instance that is gone.  For every other agent, what lives in its
     scope is exactly what is on record, each instance once (`AgentRecords.AstrayIff`).
     */
    function OutOfStep(): set<AgentId>
      reads this`plugins, this`loops, manager`instances, manager`userProperties
    {
      StrayIn(CurrentBooks())
    }

    lemma Facts()
      ensures manager.Valid() ==> manager.userProperties.Keys == manager.instances.Keys
      ensures manager.Valid() ==> manager.tree.Valid() && IsTree(manager.tree.scopes.at)
    {
      hide DefinitionsAgree, IndexAgrees, LiveAgrees, PropertiesDerived, IsTree, ScopeTree.Table.Ordered;
    }

    constructor (manager: PluginManager, catalog: Catalog, llmDefaults: Props)
      requires manager.Valid() && manager.CanSave() && manager.CanWriteScopes()
      requires forall a :: Living(manager.instances, a) == {}
      ensures this.manager == manager && Valid() && OutOfStep() == {}
      ensures this.catalog == catalog && this.llmDefaults == llmDefaults
      ensures plugins == map[] && loops == map[] && failed == {} && configs == map[] && defaultLlm == None
    {
      this.manager, this.catalog, this.llmDefaults := manager, catalog, llmDefaults;
      plugins, loops, failed, configs, defaultLlm := map[], map[], {}, map[], None;
    }

    // ---------------------------------------------------------- calls into the manager

    /** `create_instance` with a new uuid. */
    method Spawn(key: DefinitionKey, scope: ScopeId, user: Props, starts: bool)
      returns (r: Result<Instance, ManagerError>)
      requires Ready()
      modifies manager`instances, manager`userProperties, manager`registrationInstances, manager`ipopo
      modifies manager`stateVersion, manager.store
      ensures Ready()
      ensures r.Ok? <==> Spawnable(CurrentSetup(), manager.tree.scopes.at, key, scope, user, starts)
      ensures r.Ok? ==>
                && New(old(CurrentBooks()), r.value)
                && CurrentBooks() == Added(old(CurrentBooks()), r.value, user)
                && DefinitionOf(r.value) == key && r.value.scope == scope && r.value.enabled && r.value.ranking == 0
      ensures r.Err? ==>
                && CurrentBooks() == old(CurrentBooks())
                && (r.error.ScopeFailed? || r.error.PluginNotFound? || r.error.BadProperties?
                    || r.error.ComponentFailed?)
    {
      hide PluginManager.Tables, PluginManager.Live, PluginManager.Derived;
      hide Created, Spawnable, AllRecorded, Clean;
      var uuid := FreshUuid(manager.instances.Keys + AllRecorded(plugins, loops));
      SpawnableIff(key, scope, user, uuid, starts);
      CreatedFacts(manager.tree.scopes.at, manager.scopedFields, uuid, key.1, key.0, scope, user, true, 0);
      r := manager.CreateInstance(key.1, key.0, scope, user, true, 0, uuid, starts, true);
    }

    lemma SpawnableIff(key: DefinitionKey, scope: ScopeId, user: Props, uuid: Uuid, starts: bool)
      requires Ready()
      ensures Spawnable(CurrentSetup(), manager.tree.scopes.at, key, scope, user, starts)
              <==> && scope in manager.tree.scopes.at && key in manager.plugins && starts
                   && Created(manager.tree.scopes.at, manager.scopedFields, uuid, key.1, key.0, scope, user,
                              true, 0).Ok?
    {
      hide DefinitionsAgree, InstancesAgree, IndexAgrees, LiveAgrees, PropertiesDerived, Acceptable, Created;
      if scope in manager.tree.scopes.at {
        TreeHasChain(manager.tree.scopes.at, scope);
        CreatedIff(manager.tree.scopes.at, manager.scopedFields, uuid, key.1, key.0, scope, user, true, 0);
      }
    }

    /** `_safe_kill`: a missing instance is ignored. */
    method SafeKill(uuid: Uuid)
      requires Ready()
      modifies manager`instances, manager`userProperties, manager`registrationInstances, manager`ipopo
      modifies manager`stateVersion, manager.store
      ensures Ready()
      ensures CurrentBooks() == Without(old(CurrentBooks()), {uuid})
    {
      hide PluginManager.Tables, PluginManager.Live, PluginManager.Derived;
      Facts();
      DropThenPut(manager.instances, uuid);
      DropThenPut(manager.userProperties, uuid);
      var _ := manager.DeleteInstance(uuid, true, true);
    }

    method KillAll(uuids: set<Uuid>)
      requires Ready()
      modifies manager`instances, manager`userProperties, manager`registrationInstances, manager`ipopo
      modifies manager`stateVersion, manager.store
      ensures Ready()
      ensures CurrentBooks() == Without(old(CurrentBooks()), uuids)
    {
      hide PluginManager.Tables, PluginManager.Live, PluginManager.Derived;
      var todo := uuids;
      assert uuids - todo == {};
      DropNone(manager.instances);
      DropNone(manager.userProperties);
      while todo != {}
        invariant Ready() && todo <= uuids
        invariant CurrentBooks() == Without(old(CurrentBooks()), uuids - todo)
        decreases todo
      {
        var u :| u in todo;
        DropOneMore(old(manager.instances), uuids - todo, u);
        DropOneMore(old(manager.userProperties), uuids - todo, u);
        assert uuids - (todo - {u}) == (uuids - todo) + {u};
        SafeKill(u);
        todo := todo - {u};
      }
      assert uuids - {} == uuids;
    }

    /** `_teardown`: forgets an agent and deletes everything on record for it, which mends its records. */
    method Teardown(a: AgentId)
      requires Valid()
      modifies this`plugins, this`loops
      modifies manager`instances, manager`userProperties, manager`registrationInstances, manager`ipopo
      modifies manager`stateVersion, manager.store
      ensures Valid()
      ensures CurrentBooks() == Forgot(old(CurrentBooks()), a)
      ensures a !in plugins && a !in loops && Living(manager.instances, a) == {}
      ensures OutOfStep() == old(OutOfStep()) - {a}
    {
      hide PluginManager.Tables, PluginManager.Live, PluginManager.Derived;
      hide NoLeak, Astray;
      TornDown(manager.instances, plugins, loops, a);
      var loop := if a in loops then {loops[a].uuid} else {};
      loops := loops - {a};
      KillAll(loop);
      var others := if a in plugins then UuidsOf(plugins[a]) else {};
      DropTwice(old(manager.instances), loop, others);
      DropTwice(old(manager.userProperties), loop, others);
      plugins := plugins - {a};
      KillAll(others);
      assert Recorded(old(plugins), old(loops), a) == loop + others;
    }

    // ---------------------------------------------------------- materializing

    /** The directory stands as a sweep would end, and says so. */
    ghost predicate EndsAs(end: Standing, error: Option<ManagerError>)
      reads this`plugins, this`failed, manager.tree
    {
      && CurrentStanding() == end.(stuck := false)
      && error == if end.stuck then Some(ScopeHasChildren) else None
    }

    /** `_ensure_default_llm`: one fallback instance in the shared agent scope. */
    method EnsureDefaultLlm(starts: bool)
      requires Valid()
      modifies this`defaultLlm
      modifies manager`instances, manager`userProperties, manager`registrationInstances, manager`ipopo
      modifies manager`stateVersion, manager.store
      ensures Valid() && Keeps(old(CurrentBooks()), CurrentBooks())
      ensures defaultLlm != old(defaultLlm) <==>
                && old(defaultLlm).None? && catalog.llmModule in manager.bundles && llmDefaults != map[]
                && "llm" in catalog.plugins
                && Spawnable(CurrentSetup(), manager.tree.scopes.at, catalog.plugins["llm"], AGENT_SCOPE_ID,
                             llmDefaults, starts)
      ensures if defaultLlm == old(defaultLlm) then manager.instances == old(manager.instances)
              else && old(defaultLlm).None? && defaultLlm.Some? && "llm" in catalog.plugins
                   && Running(manager.instances, manager.userProperties, defaultLlm.value, catalog.plugins["llm"],
                              AGENT_SCOPE_ID, llmDefaults)
    {
      hide PluginManager.Tables, PluginManager.Live, PluginManager.Derived;
      hide NoLeak, Astray, Spawnable, AllRecorded;
      Facts();
      if defaultLlm.Some? || catalog.llmModule !in manager.bundles || llmDefaults == map[]
         || "llm" !in catalog.plugins {
        return;
      }
      var created := Spawn(catalog.plugins["llm"], AGENT_SCOPE_ID, llmDefaults, starts);
      if created.Err? {
        return;
      }
      AddedOutside(old(CurrentBooks()), created.value, llmDefaults);
      defaultLlm := Some(created.value);
    }

    /** One binding of an agent; one that is unknown or unusable is left out. */
    method CreateBinding(agent: Agent, plugin: string, starts: bool, created: map<string, Instance>,
                         ghost before: Books)
      returns (more: map<string, Instance>, ok: bool)
      requires Ready() && Underway(before, CurrentBooks(), agent.id, created) && plugin !in created
      requires RunAsBound(CurrentSetup(), manager.instances, manager.userProperties, agent, created)
      modifies manager`instances, manager`userProperties, manager`registrationInstances, manager`ipopo
      modifies manager`stateVersion, manager.store
      ensures Ready() && Underway(before, CurrentBooks(), agent.id, more)
      ensures RunAsBound(CurrentSetup(), manager.instances, manager.userProperties, agent, more)
      ensures ok <==> BindingStarts(CurrentSetup(), manager.tree.scopes.at, agent, plugin, starts)
      ensures more.Keys == created.Keys + (if ok && Usable(CurrentSetup(), agent, plugin) then {plugin} else {})
    {
      hide PluginManager.Tables, PluginManager.Live, PluginManager.Derived;
      hide Underway, RunAsBound, BindingProperties, Spawnable, New, Added, Ready;
      if plugin !in catalog.plugins {
        return created, true;
      }
      var props := BindingProperties(CurrentSetup(), agent, plugin);
      if props.None? {
        return created, true;
      }
      var spawned := Spawn(catalog.plugins[plugin], AgentScope(agent.id), props.value, starts);
      if spawned.Err? {
        return created, false;
      }
      OneMore(before, old(CurrentBooks()), agent.id, created, plugin, spawned.value, props.value);
      RunningOneMore(CurrentSetup(), old(CurrentBooks()), agent, created, plugin, spawned.value);
      more, ok := created[plugin := spawned.value], true;
    }

    /** Creates an agent's bound plugins one by one, in whatever order; stops at the first failure. */
    method CreateBindings(agent: Agent, bindings: set<string>, starts: string -> bool)
      returns (created: map<string, Instance>, ok: bool)
      requires Valid() && agent.id !in plugins
      modifies manager`instances, manager`userProperties, manager`registrationInstances, manager`ipopo
      modifies manager`stateVersion, manager.store
      ensures Ready() && Underway(old(CurrentBooks()), CurrentBooks(), agent.id, created)
      ensures RunAsBound(CurrentSetup(), manager.instances, manager.userProperties, agent, created)
      ensures ok <==>
              forall p :: p in bindings ==> BindingStarts(CurrentSetup(), manager.tree.scopes.at, agent, p, starts(p))
      ensures created.Keys <= UsableOf(CurrentSetup(), agent, bindings)
      ensures ok ==> created.Keys == UsableOf(CurrentSetup(), agent, bindings)
    {
      hide PluginManager.Tables, PluginManager.Live, PluginManager.Derived;
      hide Clean, Underway, RunAsBound, BindingStarts, UsableOf, Usable;
      Facts();
      created, ok := map[], true;
      Begun(CurrentBooks(), agent.id);
      NothingBound(CurrentSetup(), manager.instances, manager.userProperties, agent);
      var todo := bindings;
      assert bindings - todo == {};
      while todo != {} && ok
        invariant Ready() && todo <= bindings
        invariant Underway(old(CurrentBooks()), CurrentBooks(), agent.id, created)
        invariant RunAsBound(CurrentSetup(), manager.instances, manager.userProperties, agent, created)
        invariant ok <==> forall p :: p in bindings - todo ==>
                    BindingStarts(CurrentSetup(), manager.tree.scopes.at, agent, p, starts(p))
        invariant created.Keys <= UsableOf(CurrentSetup(), agent, bindings - todo)
        invariant ok ==> created.Keys == UsableOf(CurrentSetup(), agent, bindings - todo)
        decreases todo
      {
        var plugin :| plugin in todo;
        UsableOneMore(CurrentSetup(), agent, bindings - todo, plugin);
        assert bindings - (todo - {plugin}) == (bindings - todo) + {plugin};
        todo := todo - {plugin};
        created, ok := CreateBinding(agent, plugin, starts(plugin), created, old(CurrentBooks()));
      }
      UsableWithin(CurrentSetup(), agent, bindings - todo, bindings);
      assert ok ==> bindings - todo == bindings;
    }

    /**
     Undoes a failed materialization.  Nothing is left in the agent's scope by then, so removing it
     can only fail for child scopes; that failure alone escapes.
     */
    method Rollback(a: AgentId, created: map<string, Instance>, ghost before: Books)
      returns (error: Option<ManagerError>)
      requires Ready() && loops.Keys <= plugins.Keys && Underway(before, CurrentBooks(), a, created)
      modifies this`failed
      modifies manager`instances, manager`userProperties, manager`registrationInstances, manager`ipopo
      modifies manager`stateVersion, manager.store, manager.tree, manager.tree.store
      ensures Valid() && EndsAs(TakenBack(old(CurrentStanding()), a), error)
      ensures Keeps(before, CurrentBooks()) && Living(manager.instances, a) == {}
    {
      hide PluginManager.Tables, PluginManager.Live, PluginManager.Derived;
      hide Clean, Astray, CreatedExactly, NoLeakElsewhere, Living, HasKids, UuidsOf, Ready, Grown;
      Undone(before, CurrentBooks(), a, created);
      KillAll(UuidsOf(created));
      error := RemoveAgentScope(a);
      if error.None? {
        failed := failed + {a};
      }
    }

    /** `remove_scope` on an agent's empty scope, with the errors callers swallow swallowed. */
    method RemoveAgentScope(a: AgentId) returns (error: Option<ManagerError>)
      requires Ready() && Living(manager.instances, a) == {}
      modifies manager`instances, manager`userProperties, manager`registrationInstances, manager`ipopo
      modifies manager`stateVersion, manager.store, manager.tree, manager.tree.store
      ensures Ready() && CurrentBooks() == old(CurrentBooks())
      ensures if HasKids(old(manager.tree.scopes.at), AgentScope(a)) then
                error == Some(ScopeHasChildren) && manager.tree.scopes.at == old(manager.tree.scopes.at)
              else
                error == None && manager.tree.scopes.at == old(manager.tree.scopes.at) - {AgentScope(a)}
    {
      hide PluginManager.Tables, PluginManager.Live, PluginManager.Derived;
      hide Living, HasKids, IsTree;
      var scope := AgentScope(a);
      AgentScopesApart(a, a);
      NobodyThere(a);
      DropNone(manager.instances);
      DropNone(manager.userProperties);
      DropThenPut(manager.tree.scopes.at, scope);
      var removed := manager.RemoveScope(scope, false, true);
      if removed.Err? && !removed.error.ScopeFailed? {
        return Some(removed.error);
      }
      error := None;
    }

    /** An agent's scope in which nothing lives is removed unless it has child scopes. */
    lemma NobodyThere(a: AgentId)
      requires Ready() && Living(manager.instances, a) == {}
      ensures manager.tree.Valid() && IsTree(manager.tree.scopes.at)
      ensures manager.LivingIn({AgentScope(a)}) == {}
      ensures HasKids(manager.tree.scopes.at, AgentScope(a))
              <==> && AgentScope(a) in manager.tree.scopes.at
                   && Subtree(manager.tree.scopes.at, AgentScope(a)) != {AgentScope(a)}
      ensures manager.CanWriteScopes() && manager.CanSave() && manager.Valid()
    {
      hide DefinitionsAgree, InstancesAgree, IndexAgrees, LiveAgrees, PropertiesDerived, IsTree,
        ScopeTree.Table.Ordered;
      assert Living(manager.instances, a) == manager.LivingIn({AgentScope(a)});
      if AgentScope(a) in manager.tree.scopes.at {
        ChildlessIff(manager.tree.scopes.at, AgentScope(a));
      }
    }

    /** The loop instance, filtered to what the agent's scope may see. */
    method CreateLoop(a: AgentId, starts: bool) returns (r: Result<Instance, ManagerError>)
      requires Ready()
      modifies manager`instances, manager`userProperties, manager`registrationInstances, manager`ipopo
      modifies manager`stateVersion, manager.store
      ensures Ready()
      ensures r.Ok? <==> LoopStarts(CurrentSetup(), manager.tree.scopes.at, a, starts)
      ensures r.Ok? ==>
                && HasChain(manager.tree.scopes.at, AgentScope(a))
                && New(old(CurrentBooks()), r.value)
                && CurrentBooks()
                   == Added(old(CurrentBooks()), r.value,
                            LoopProperties(CurrentSetup(), a,
                                           VisibilityFilter(Chain(manager.tree.scopes.at, AgentScope(a)))))
                && DefinitionOf(r.value) == catalog.loop && r.value.scope == AgentScope(a)
                && r.value.enabled && r.value.ranking == 0
      ensures r.Err? ==> CurrentBooks() == old(CurrentBooks())
    {
      hide PluginManager.Tables, PluginManager.Live, PluginManager.Derived;
      hide LoopStarts, Spawnable, LoopProperties, VisibilityFilter, HasChain, New, Added, CurrentSetup, CurrentBooks;
      Facts();
      var filter := manager.ScopeFilter(AgentScope(a));
      LoopStartsIff(a, starts);
      if filter.Err? {
        return Err(filter.error);
      }
      r := Spawn(catalog.loop, AgentScope(a), LoopProperties(CurrentSetup(), a, filter.value), starts);
    }

    /** The loop's own properties are always acceptable. */
    lemma LoopStartsIff(a: AgentId, starts: bool)
      requires Ready()
      ensures AgentScope(a) !in manager.tree.scopes.at ==>
                !LoopStarts(CurrentSetup(), manager.tree.scopes.at, a, starts)
      ensures AgentScope(a) in manager.tree.scopes.at ==>
                && HasChain(manager.tree.scopes.at, AgentScope(a))
                && var own := LoopProperties(CurrentSetup(), a,
                                             VisibilityFilter(Chain(manager.tree.scopes.at, AgentScope(a))));
                   (LoopStarts(CurrentSetup(), manager.tree.scopes.at, a, starts)
                    <==> Spawnable(CurrentSetup(), manager.tree.scopes.at, catalog.loop, AgentScope(a), own, starts))
    {
      hide DefinitionsAgree, InstancesAgree, IndexAgrees, LiveAgrees, PropertiesDerived, Acceptable, VisibilityFilter;
      hide LoopProperties;
      if AgentScope(a) in manager.tree.scopes.at {
        TreeHasChain(manager.tree.scopes.at, AgentScope(a));
        LoopAcceptable(CurrentSetup(), a, Chain(manager.tree.scopes.at, AgentScope(a)),
                       manager.scopedFields(catalog.loop.0));
      }
    }

    /** The loop on top of an agent's plugins, and the entry into the records; or nothing of them. */
    method Complete(agent: Agent, created: map<string, Instance>, starts: bool, ghost before: Books)
      returns (error: Option<ManagerError>)
      requires Ready() && loops.Keys <= plugins.Keys && Underway(before, CurrentBooks(), agent.id, created)
      requires RunAsBound(CurrentSetup(), manager.instances, manager.userProperties, agent, created)
      requires created.Keys == UsableOf(CurrentSetup(), agent, Bindings(CurrentSetup(), agent.id))
      modifies this`plugins, this`loops, this`failed
      modifies manager`instances, manager`userProperties, manager`registrationInstances, manager`ipopo
      modifies manager`stateVersion, manager.store, manager.tree, manager.tree.store
      ensures Valid() && Keeps(before, CurrentBooks())
      ensures if LoopStarts(CurrentSetup(), old(manager.tree.scopes.at), agent.id, starts) then
                && error == None && manager.tree.scopes.at == old(manager.tree.scopes.at)
                && plugins.Keys == old(plugins).Keys + {agent.id} && failed == old(failed) - {agent.id}
                && Built(CurrentSetup(), manager.tree.scopes.at, CurrentBooks(), agent)
              else
                EndsAs(TakenBack(old(CurrentStanding()), agent.id), error)
    {
      hide *;
      Currently();
      var a := agent.id;
      UnderwayOf(before, CurrentBooks(), a, created);
      var loop := CreateLoop(a, starts);
      Currently();
      if loop.Err? {
        error := Rollback(a, created, before);
        return;
      }
      OnRecord(CurrentSetup(), manager.tree.scopes.at, before, old(CurrentBooks()), CurrentBooks(), agent, created,
               loop.value);
      failed := failed - {a};
      loops := loops[a := loop.value];
      plugins := plugins[a := created];
      error := None;
      Currently();
    }

    /** Plugins and loop of an agent whose scope is there, or nothing of them and of the scope. */
    method Furnish(agent: Agent, starts: Starts) returns (error: Option<ManagerError>)
      requires Valid() && agent.id !in plugins && AgentScope(agent.id) in manager.tree.scopes.at
      modifies this`plugins, this`loops, this`failed
      modifies manager`instances, manager`userProperties, manager`registrationInstances, manager`ipopo
      modifies manager`stateVersion, manager.store, manager.tree, manager.tree.store
      ensures Valid() && Keeps(old(CurrentBooks()), CurrentBooks())
      ensures EndsAs(if ComponentsStart(CurrentSetup(), agent, starts) then Finished(old(CurrentStanding()), agent)
                     else TakenBack(old(CurrentStanding()), agent.id), error)
      ensures agent.id in plugins ==> Built(CurrentSetup(), manager.tree.scopes.at, CurrentBooks(), agent)
    {
      hide PluginManager.Tables, PluginManager.Live, PluginManager.Derived;
      hide Clean, Underway, RunAsBound, UsableOf, Bindings, Built, Keeps, LoopStarts, BindingStarts, ComponentsStart;
      hide HasKids, Ready;
      BuildableIff(CurrentSetup(), manager.tree.scopes.at, agent, starts);
      var created, ok := CreateBindings(agent, Bindings(CurrentSetup(), agent.id), starts.bindings);
      if ok {
        error := Complete(agent, created, starts.loop, old(CurrentBooks()));
      } else {
        error := Rollback(agent.id, created, old(CurrentBooks()));
      }
    }

    /** Scope, plugins and loop of an agent whose bundles are there, or nothing of them. */
    method Build(agent: Agent, starts: Starts) returns (error: Option<ManagerError>)
      requires Valid() && agent.id !in plugins && BundlesReady(CurrentSetup(), agent.id)
      modifies this`plugins, this`loops, this`failed
      modifies manager`instances, manager`userProperties, manager`registrationInstances, manager`ipopo
      modifies manager`stateVersion, manager.store, manager.tree, manager.tree.store
      ensures Valid() && Keeps(old(CurrentBooks()), CurrentBooks())
      ensures EndsAs(Attempted(CurrentSetup(), old(CurrentStanding()), agent, starts), error)
      ensures agent.id in plugins ==> Built(CurrentSetup(), manager.tree.scopes.at, CurrentBooks(), agent)
    {
      hide PluginManager.Tables, PluginManager.Live, PluginManager.Derived;
      hide Clean, Underway, Built, Keeps, ComponentsStart, BundlesReady, TakenBack, IsTree;
      Facts();
      Begun(CurrentBooks(), agent.id);
      AgentScopeIsText(agent.id);
      TakenBackSame(CurrentStanding(), agent);
      var added := manager.AddScope(AgentScope(agent.id), ScopeName(agent), Some(AGENT_SCOPE_ID));
      if added.Ok? {
        error := Furnish(agent, starts);
      } else {
        error := Rollback(agent.id, map[], old(CurrentBooks()));
      }
    }

    /**
     `_materialize` for an agent without instances.  Afterwards either its instances and its loop are
     on record, run as configured and are exactly what lives in its scope, or nothing lives there.
     */
    method Materialize(agent: Agent, starts: Starts) returns (error: Option<ManagerError>)
      requires Valid() && agent.id !in plugins
      modifies this`plugins, this`loops, this`failed, this`defaultLlm
      modifies manager`instances, manager`userProperties, manager`registrationInstances, manager`ipopo
      modifies manager`stateVersion, manager.store, manager.tree, manager.tree.store
      ensures Valid() && Keeps(old(CurrentBooks()), CurrentBooks())
      ensures EndsAs(Attempted(CurrentSetup(), old(CurrentStanding()), agent, starts), error)
      ensures agent.id in plugins <==>
                && BundlesReady(CurrentSetup(), agent.id)
                && Buildable(CurrentSetup(), old(manager.tree.scopes.at), agent, starts)
      ensures agent.id in plugins ==> Built(CurrentSetup(), manager.tree.scopes.at, CurrentBooks(), agent)
      ensures agent.id !in plugins ==> Living(manager.instances, agent.id) == {}
    {
      hide PluginManager.Tables, PluginManager.Live, PluginManager.Derived;
      hide Clean, Built, Keeps, BundlesReady, Buildable, HasKids, Living, Ready;
      EnsureDefaultLlm(starts.defaultLlm);
      error := None;
      label Ensured:
      if BundlesReady(CurrentSetup(), agent.id) {
        error := Build(agent, starts);
        KeepsOn(old(CurrentBooks()), old@Ensured(CurrentBooks()), CurrentBooks());
      }
      if agent.id !in plugins {
        NobodyWithoutRecord(CurrentBooks(), agent.id);
      }
    }

    /**
     `_materialize_all`: every enabled agent that neither has instances nor has failed; `starts` gives
     the world's answers for each position of the list, and for the fallback before the loop.
     */
    method MaterializeAll(agents: seq<Agent>, starts: nat -> Starts) returns (error: Option<ManagerError>)
      requires Valid()
      modifies this`plugins, this`loops, this`failed, this`defaultLlm
      modifies manager`instances, manager`userProperties, manager`registrationInstances, manager`ipopo
      modifies manager`stateVersion, manager.store, manager.tree, manager.tree.store
      ensures Valid() && Keeps(old(CurrentBooks()), CurrentBooks())
      ensures EndsAs(Swept(CurrentSetup(), old(CurrentStanding()), agents, starts, |agents|), error)
      ensures AllBuilt(CurrentSetup(), manager.tree.scopes.at, CurrentBooks(), plugins.Keys - old(plugins).Keys, agents)
    {
      hide *;
      Currently();
      EnsureDefaultLlm(starts(|agents|).defaultLlm);
      Currently();
      error := None;
      NoneBuilt(CurrentSetup(), manager.tree.scopes.at, CurrentBooks(), agents);
      assert plugins.Keys - old(plugins).Keys == {};
      SweptNone(CurrentSetup(), CurrentStanding(), agents, starts);
      for n := 0 to |agents|
        invariant Valid() && Keeps(old(CurrentBooks()), CurrentBooks()) && error == None
        invariant CurrentStanding() == Swept(CurrentSetup(), old(CurrentStanding()), agents, starts, n)
        invariant AllBuilt(CurrentSetup(), manager.tree.scopes.at, CurrentBooks(), plugins.Keys - old(plugins).Keys,
                           agents)
      {
        error := MaterializeNext(agents, n, starts, old(CurrentStanding()), old(CurrentBooks()));
        if error.Some? {
          return;
        }
        Currently();
      }
      Currently();
    }

    /** The body of that loop. */
    method MaterializeNext(agents: seq<Agent>, n: nat, starts: nat -> Starts, ghost st: Standing, ghost before: Books)
      returns (error: Option<ManagerError>)
      requires Valid() && Keeps(before, CurrentBooks()) && n < |agents|
      requires CurrentStanding() == Swept(CurrentSetup(), st, agents, starts, n)
      requires AllBuilt(CurrentSetup(), manager.tree.scopes.at, CurrentBooks(), plugins.Keys - before.plugins.Keys,
                        agents)
      modifies this`plugins, this`loops, this`failed, this`defaultLlm
      modifies manager`instances, manager`userProperties, manager`registrationInstances, manager`ipopo
      modifies manager`stateVersion, manager.store, manager.tree, manager.tree.store
      ensures Valid() && Keeps(before, CurrentBooks())
      ensures EndsAs(Swept(CurrentSetup(), st, agents, starts, n + 1), error)
      ensures error.Some? ==> EndsAs(Swept(CurrentSetup(), st, agents, starts, |agents|), error)
      ensures AllBuilt(CurrentSetup(), manager.tree.scopes.at, CurrentBooks(), plugins.Keys - before.plugins.Keys,
                       agents)
    {
      hide PluginManager.Tables, PluginManager.Live, PluginManager.Derived;
      hide Clean, Built, Keeps, BundlesReady, Buildable, Living, Ready, AllBuilt, Attempted;
      var agent := agents[n];
      error := None;
      if agent.enabled && agent.id !in plugins && agent.id !in failed {
        error := Materialize(agent, starts(n));
        KeepsOn(before, old(CurrentBooks()), CurrentBooks());
        SweepOn(CurrentSetup(), st, agents, starts, n, old(manager.tree.scopes.at), old(CurrentBooks()),
                before.plugins.Keys);
        if error.Some? {
          StuckStays(CurrentSetup(), st, agents, starts, n + 1, |agents|);
        }
      }
    }

    lemma Currently()
      ensures CurrentStanding() == Standing(manager.tree.scopes.at, plugins.Keys, failed, false)
      ensures CurrentBooks() == Books(manager.instances, manager.userProperties, plugins, loops)
      ensures CurrentSetup().catalog == catalog && CurrentSetup().configs == configs
      ensures CurrentBooks().plugins == plugins && OutOfStep() == StrayIn(CurrentBooks())
      ensures Valid() <==> Ready() && loops.Keys <= plugins.Keys && Clean(CurrentBooks())
      ensures forall end, error ::
                EndsAs(end, error) <==> CurrentStanding() == end.(stuck := false)
                                        && error == if end.stuck then Some(ScopeHasChildren) else None
    {
    }

    /** One step of a sweep: whoever is built stays built. */
    lemma SweepOn(s: Setup, st: Standing, agents: seq<Agent>, starts: nat -> Starts, n: nat, f: Forest, before: Books,
                  were: set<AgentId>)
      requires Valid() && s == CurrentSetup() && n < |agents|
      requires var now := Swept(s, st, agents, starts, n);
               !now.stuck && now.scopes == f && now.built == before.plugins.Keys && Eligible(now, agents[n])
      requires CurrentStanding() == Swept(s, st, agents, starts, n + 1).(stuck := false)
      requires Keeps(before, CurrentBooks()) && before.loops.Keys <= before.plugins.Keys
      requires AllBuilt(s, f, before, before.plugins.Keys - were, agents)
      requires agents[n].id in plugins ==> Built(s, manager.tree.scopes.at, CurrentBooks(), agents[n])
      ensures AllBuilt(s, manager.tree.scopes.at, CurrentBooks(), plugins.Keys - were, agents)
    {
      hide PluginManager.Tables, PluginManager.Live, PluginManager.Derived;
      hide Clean, Built, BundlesReady, Buildable, HasKids, Living, Ready, StrayIn;
      var now := Swept(s, st, agents, starts, n);
      AttemptKeeps(s, now, agents[n], starts(n));
      forall a | a in plugins.Keys - were
        ensures FirstEnabled(agents, a) < |agents|
        ensures Built(s, manager.tree.scopes.at, CurrentBooks(), agents[FirstEnabled(agents, a)])
      {
        if a == agents[n].id {
          BuiltAtFirst(s, st, agents, starts, n);
        } else {
          assert a in before.plugins.Keys - were;
          StaysBuilt(s, f, before, agents[FirstEnabled(agents, a)]);
        }
      }
    }

    /** An agent whose instances and records are untouched stays built, as scopes in use do not go. */
    lemma StaysBuilt(s: Setup, f: Forest, before: Books, agent: Agent)
      requires Valid() && Keeps(before, CurrentBooks()) && Built(s, f, before, agent)
      requires Grown(f, manager.tree.scopes.at) || Grown(manager.tree.scopes.at, f)
      ensures Built(s, manager.tree.scopes.at, CurrentBooks(), agent)
    {
      hide DefinitionsAgree, IndexAgrees, LiveAgrees, PropertiesDerived, IsTree, ScopeTree.Table.Ordered, Clean,
        StrayIn;
      hide RunAsBound, UsableOf, Bindings, LoopProperties, VisibilityFilter, HasChain;
      var loop := before.loops[agent.id];
      assert loop.uuid in manager.instances && manager.instances[loop.uuid] == loop;
      ScopesInUse(manager.instances, manager.userProperties, manager.plugins, manager.tree.scopes.at);
      TreeHasChain(manager.tree.scopes.at, AgentScope(agent.id));
      hide Running;
      BuiltStays(s, f, manager.tree.scopes.at, before, CurrentBooks(), agent);
    }

    // ---------------------------------------------------------- the public operations

    /** The directory stands as a sweep or an attempt would end, and the caller is told if that got stuck. */
    ghost predicate Reports(end: Standing, error: Option<DirectoryError>)
      reads this`plugins, this`failed, manager.tree
    {
      && CurrentStanding() == end.(stuck := false)
      && error == if end.stuck then Some(Manager(ScopeHasChildren)) else None
    }

    /** Builds an agent that has no instances, if the registry lists it as enabled. */
    method MaterializeOne(a: AgentId, agents: seq<Agent>, starts: Starts) returns (error: Option<DirectoryError>)
      requires Valid() && a !in plugins
      modifies this`plugins, this`loops, this`failed, this`defaultLlm
      modifies manager`instances, manager`userProperties, manager`registrationInstances, manager`ipopo
      modifies manager`stateVersion, manager.store, manager.tree, manager.tree.store
      ensures Valid() && Keeps(old(CurrentBooks()), CurrentBooks())
      ensures Reports(if Enabled(agents, a)
                      then Attempted(CurrentSetup(), old(CurrentStanding()), FindAgent(agents, a).value, starts)
                      else old(CurrentStanding()), error)
      ensures a in plugins <==>
                && Enabled(agents, a) && BundlesReady(CurrentSetup(), a)
                && Buildable(CurrentSetup(), old(manager.tree.scopes.at), FindAgent(agents, a).value, starts)
      ensures a in plugins ==> Built(CurrentSetup(), manager.tree.scopes.at, CurrentBooks(), FindAgent(agents, a).value)
      ensures a !in plugins ==> Living(manager.instances, a) == {}
    {
      hide PluginManager.Tables, PluginManager.Live, PluginManager.Derived;
      hide Built, BundlesReady, Buildable, Living, Ready, Attempted, NoLeak, Astray;
      FoundFirst(agents, a);
      NobodyWithoutRecord(CurrentBooks(), a);
      var agent := FindAgent(agents, a);
      error := None;
      if agent.Some? && agent.value.enabled {
        var failure := Materialize(agent.value, starts);
        error := if failure.Some? then Some(Manager(failure.value)) else None;
      }
    }

    /** Replaces an agent's configuration and builds its instances anew. */
    method ApplyAgentConfig(a: AgentId, bindings: map<string, Binding>, agents: seq<Agent>, starts: Starts)
      returns (error: Option<DirectoryError>)
      requires Valid()
      modifies this
      modifies manager`instances, manager`userProperties, manager`registrationInstances, manager`ipopo
      modifies manager`stateVersion, manager.store, manager.tree, manager.tree.store
      ensures Valid()
      ensures error == Some(InvalidId) <==> !ValidId(a)
      ensures !ValidId(a) ==>
                && configs == old(configs) && CurrentStanding() == old(CurrentStanding())
                && CurrentBooks() == old(CurrentBooks())
      ensures ValidId(a) ==>
                && configs == old(configs)[a := bindings]
                && Reports(Restarted(CurrentSetup(), old(CurrentStanding()), agents, a, starts), error)
                && Keeps(Forgot(old(CurrentBooks()), a), CurrentBooks()) && OutOfStep() == old(OutOfStep()) - {a}
      ensures ValidId(a) ==>
                (a in plugins <==>
                   && Enabled(agents, a) && BundlesReady(CurrentSetup(), a)
                   && Buildable(CurrentSetup(), old(manager.tree.scopes.at), FindAgent(agents, a).value, starts))
      ensures ValidId(a) ==>
                if a in plugins then
                  Built(CurrentSetup(), manager.tree.scopes.at, CurrentBooks(), FindAgent(agents, a).value)
                else Living(manager.instances, a) == {}
    {
      hide PluginManager.Tables, PluginManager.Live, PluginManager.Derived;
      hide Built, BundlesReady, Buildable, Living, Ready, Attempted, Clean, Keeps, Without, Astray, ValidId;
      if !ValidId(a) {
        return Some(InvalidId);
      }
      configs := configs[a := bindings];
      failed := failed - {a};
      Teardown(a);
      label Down:
      error := MaterializeOne(a, agents, starts);
      KeepsClean(old@Down(CurrentBooks()), CurrentBooks());
    }

    /** Tears an agent's instances down and builds them again; or all of them, for no agent in particular. */
    method Reload(target: Option<AgentId>, agents: seq<Agent>, starts: nat -> Starts)
      returns (error: Option<DirectoryError>)
      requires Valid()
      modifies this`plugins, this`loops, this`failed, this`defaultLlm
      modifies manager`instances, manager`userProperties, manager`registrationInstances, manager`ipopo
      modifies manager`stateVersion, manager.store, manager.tree, manager.tree.store
      ensures Valid()
      ensures target.Some? ==>
                var a := target.value;
                && Reports(if ValidId(a) then Restarted(CurrentSetup(), old(CurrentStanding()), agents, a, starts(0))
                           else Forgotten(old(CurrentStanding()), a), error)
                && Keeps(Forgot(old(CurrentBooks()), a), CurrentBooks()) && OutOfStep() == old(OutOfStep()) - {a}
                && (a in plugins <==>
                      && ValidId(a) && Enabled(agents, a) && BundlesReady(CurrentSetup(), a)
                      && Buildable(CurrentSetup(), old(manager.tree.scopes.at), FindAgent(agents, a).value, starts(0)))
                && if a in plugins then
                     Built(CurrentSetup(), manager.tree.scopes.at, CurrentBooks(), FindAgent(agents, a).value)
                   else Living(manager.instances, a) == {}
      ensures target.None? ==>
                && Reports(Swept(CurrentSetup(), AllForgotten(old(CurrentStanding())), agents, starts, |agents|), error)
                && Grown(old(manager.instances) - AllRecorded(old(plugins), old(loops)), manager.instances)
                && OutOfStep() == {}
                && AllBuilt(CurrentSetup(), manager.tree.scopes.at, CurrentBooks(), plugins.Keys, agents)
    {
      hide PluginManager.Tables, PluginManager.Live, PluginManager.Derived;
      hide Built, BundlesReady, Buildable, Living, Ready, Clean, Keeps, Without, Astray, ValidId, Attempted, Swept;
      hide AllBuilt, AllRecorded, Grown;
      if target.Some? {
        failed := failed - {target.value};
        Teardown(target.value);
        label Down:
        KeepsItself(CurrentBooks());
        if ValidId(target.value) {
          error := MaterializeOne(target.value, agents, starts(0));
          KeepsClean(old@Down(CurrentBooks()), CurrentBooks());
          return;
        }
        return None;
      }
      TeardownAll();
      label AllDown:
      var failure := MaterializeAll(agents, starts);
      error := if failure.Some? then Some(Manager(failure.value)) else None;
      KeepsClean(old@AllDown(CurrentBooks()), CurrentBooks());
      KeepsGrown(old@AllDown(CurrentBooks()), CurrentBooks(),
                 old(manager.instances) - AllRecorded(old(plugins), old(loops)));
      assert plugins.Keys - {} == plugins.Keys;
    }

    /** The loop of `reload` over all agents on record. */
    method TeardownAll()
      requires Valid()
      modifies this`plugins, this`loops, this`failed
      modifies manager`instances, manager`userProperties, manager`registrationInstances, manager`ipopo
      modifies manager`stateVersion, manager.store
      ensures Valid() && CurrentStanding() == AllForgotten(old(CurrentStanding())) && OutOfStep() == {}
      ensures Grown(old(manager.instances) - AllRecorded(old(plugins), old(loops)), manager.instances)
    {
      hide PluginManager.Tables, PluginManager.Live, PluginManager.Derived;
      hide Clean, Living, Without, Astray, AllRecorded;
      var todo := plugins.Keys;
      while todo != {}
        invariant Valid() && todo == plugins.Keys <= old(plugins).Keys
        invariant failed == old(failed) - (old(plugins).Keys - todo)
        invariant Grown(plugins, old(plugins)) && Grown(loops, old(loops))
        invariant Grown(old(manager.instances) - AllRecorded(old(plugins), old(loops)), manager.instances)
        decreases todo
      {
        var a :| a in todo;
        ForgotKeeps(old(CurrentBooks()), CurrentBooks(), a);
        todo := todo - {a};
        failed := failed - {a};
        Teardown(a);
      }
      NobodyAstray(CurrentBooks());
    }

    /**
     Tears an agent down, forgets it and removes its scope.  The scope never holds an instance by
     then, so the removal can fail only for child scopes, whatever happened before.
     */
    method RemoveAgent(a: AgentId) returns (error: Option<DirectoryError>)
      requires Valid()
      modifies this
      modifies manager`instances, manager`userProperties, manager`registrationInstances, manager`ipopo
      modifies manager`stateVersion, manager.store, manager.tree, manager.tree.store
      ensures Valid()
      ensures error == Some(InvalidId) <==> !ValidId(a)
      ensures !ValidId(a) ==>
                && configs == old(configs) && CurrentStanding() == old(CurrentStanding())
                && CurrentBooks() == old(CurrentBooks())
      ensures ValidId(a) ==>
                && configs == old(configs) - {a} && CurrentBooks() == Forgot(old(CurrentBooks()), a)
                && Reports(ScopeDropped(Forgotten(old(CurrentStanding()), a), a), error)
                && OutOfStep() == old(OutOfStep()) - {a} && Living(manager.instances, a) == {}
    {
      hide PluginManager.Tables, PluginManager.Live, PluginManager.Derived;
      hide Living, Clean, Without, Astray, HasKids, ValidId;
      if !ValidId(a) {
        return Some(InvalidId);
      }
      configs := configs - {a};
      failed := failed - {a};
      Teardown(a);
      var failure := RemoveAgentScope(a);
      error := if failure.Some? then Some(Manager(failure.value)) else None;
    }

    /**
     The part of `ensure_plugin_instance` after the lookups: an instance with other properties is
     deleted and a new one created.  If that creation fails the record of the deleted instance stays,
     so the agent is out of step exactly under a condition known before the call; with such a dangling
     record nothing is ever created again for that plugin.
     */
    method EnsureBinding(a: AgentId, plugin: string, properties: Props, starts: bool)
      returns (error: Option<DirectoryError>)
      requires Valid()
      modifies this`plugins
      modifies manager`instances, manager`userProperties, manager`registrationInstances, manager`ipopo
      modifies manager`stateVersion, manager.store
      ensures Valid()
      ensures error == Some(UnknownPlugin) <==> plugin !in catalog.plugins
      ensures var wanted := WantedProperties(CurrentSetup(), a, plugin, properties);
              && (error == None && wanted.Some? ==>
                    && plugin in PluginsOf(plugins, a)
                    && (AlreadyHas(plugins[a][plugin], a, wanted.value)
                        || Running(manager.instances, manager.userProperties, plugins[a][plugin],
                                   catalog.plugins[plugin], AgentScope(a), wanted.value)))
              && (error.Some? && error != Some(UnknownPlugin) ==>
                    && error.value.Manager? && error != Some(Manager(ScopeHasChildren)) && wanted.Some?
                    && (a in OutOfStep() || AgentScope(a) !in manager.tree.scopes.at
                        || !Replaceable(CurrentSetup(), plugin, wanted.value, starts)))
              && plugins.Keys == old(plugins).Keys + (if error == None && wanted.Some? then {a} else {})
      ensures OutOfStep() == old(OutOfStep())
                             + (if LosesBinding(CurrentSetup(), old(plugins), a, plugin, properties, starts)
                                then {a} else {})
      ensures match WhatToDo(CurrentSetup(), old(plugins), old(manager.instances), a, plugin, properties)
              case Unknown => error == Some(UnknownPlugin) && CurrentBooks() == old(CurrentBooks())
              case Nothing => error == None && CurrentBooks() == old(CurrentBooks())
              case Dangling =>
                error == Some(Manager(InstanceNotFound)) && CurrentBooks() == old(CurrentBooks()) && a in OutOfStep()
              case Put(wanted) =>
                if AgentScope(a) in manager.tree.scopes.at && Replaceable(CurrentSetup(), plugin, wanted, starts) then
                  && error == None && plugin in PluginsOf(plugins, a)
                  && plugins == WithPlugin(old(plugins), a, plugin, plugins[a][plugin])
                  && Running(manager.instances, manager.userProperties, plugins[a][plugin], catalog.plugins[plugin],
                             AgentScope(a), wanted)
                else
                  && error.Some? && error.value.Manager? && error != Some(Manager(ScopeHasChildren))
                  && CurrentBooks() == Without(old(CurrentBooks()), CurrentUuid(old(plugins), a, plugin))
    {
      hide PluginManager.Tables, PluginManager.Live, PluginManager.Derived;
      hide NoLeak, Astray, Acceptable, Running, WantedProperties, AlreadyHas, Ready, Replaceable;
      if plugin !in catalog.plugins {
        return Some(UnknownPlugin);
      }
      var wanted := WantedProperties(CurrentSetup(), a, plugin, properties);
      if wanted.None? || (plugin in PluginsOf(plugins, a) && AlreadyHas(plugins[a][plugin], a, wanted.value)) {
        return None;
      }
      var failure := PutBinding(a, plugin, wanted.value, starts);
      error := if failure.Some? then Some(Manager(failure.value)) else None;
    }

    /** Deletes the recorded instance, if there is one, and creates and records the wanted one. */
    method PutBinding(a: AgentId, plugin: string, wanted: Props, starts: bool) returns (error: Option<ManagerError>)
      requires Valid() && plugin in catalog.plugins
      modifies this`plugins
      modifies manager`instances, manager`userProperties, manager`registrationInstances, manager`ipopo
      modifies manager`stateVersion, manager.store
      ensures Valid()
      ensures var lost := plugin in PluginsOf(old(plugins), a) && !Replaceable(CurrentSetup(), plugin, wanted, starts);
              OutOfStep() == old(OutOfStep()) + (if lost then {a} else {})
      ensures if plugin in PluginsOf(old(plugins), a) && old(plugins)[a][plugin].uuid !in old(manager.instances) then
                error == Some(InstanceNotFound) && CurrentBooks() == old(CurrentBooks()) && a in OutOfStep()
              else if AgentScope(a) in manager.tree.scopes.at
                      && Replaceable(CurrentSetup(), plugin, wanted, starts) then
                && error == None && plugin in PluginsOf(plugins, a)
                && plugins == WithPlugin(old(plugins), a, plugin, plugins[a][plugin])
                && Running(manager.instances, manager.userProperties, plugins[a][plugin], catalog.plugins[plugin],
                           AgentScope(a), wanted)
              else
                && error.Some? && error != Some(ScopeHasChildren)
                && CurrentBooks() == Without(old(CurrentBooks()), CurrentUuid(old(plugins), a, plugin))
    {
      hide PluginManager.Tables, PluginManager.Live, PluginManager.Derived;
      hide NoLeak, Astray, Acceptable, AllRecorded;
      RecordDangles(manager.instances, plugins, loops, a, plugin);
      DropNone(manager.instances);
      DropNone(manager.userProperties);
      if plugin in PluginsOf(plugins, a) {
        ScopeOfRecord(a, plugin);
        var deleted := manager.DeleteInstance(plugins[a][plugin].uuid, true, true);
        if deleted.Err? {
          return Some(deleted.error);
        }
      }
      error := Replace(a, plugin, wanted, starts, old(CurrentBooks()));
    }

    /** The second half: the old instance is deleted, if there was one. */
    method Replace(a: AgentId, plugin: string, wanted: Props, starts: bool, ghost before: Books)
      returns (error: Option<ManagerError>)
      requires Ready() && loops.Keys <= plugins.Keys && plugin in catalog.plugins && Clean(before)
      requires plugins == before.plugins && loops == before.loops
      requires CurrentUuid(before.plugins, a, plugin) <= before.instances.Keys
      requires CurrentBooks() == Without(before, CurrentUuid(before.plugins, a, plugin)) && Clean(CurrentBooks())
      modifies this`plugins
      modifies manager`instances, manager`userProperties, manager`registrationInstances, manager`ipopo
      modifies manager`stateVersion, manager.store
      ensures Valid()
      ensures if AgentScope(a) in manager.tree.scopes.at && Replaceable(CurrentSetup(), plugin, wanted, starts) then
                && error == None && plugin in PluginsOf(plugins, a) && OutOfStep() == StrayIn(before)
                && plugins == WithPlugin(old(plugins), a, plugin, plugins[a][plugin])
                && Running(manager.instances, manager.userProperties, plugins[a][plugin], catalog.plugins[plugin],
                           AgentScope(a), wanted)
              else
                && error.Some? && error != Some(ScopeHasChildren) && CurrentBooks() == old(CurrentBooks())
    {
      hide PluginManager.Tables, PluginManager.Live, PluginManager.Derived;
      hide Clean, StrayIn, Acceptable, Ready, Added, Without, WithPlugin, Running, CurrentUuid, New;
      var created := Spawn(catalog.plugins[plugin], AgentScope(a), wanted, starts);
      if created.Err? {
        return Some(created.error);
      }
      Replaced(before, old(CurrentBooks()), CurrentBooks(), a, plugin, created.value, wanted);
      plugins := WithPlugin(plugins, a, plugin, created.value);
      error := None;
    }

    /** Where a recorded instance lives is a scope of the tree. */
    lemma ScopeOfRecord(a: AgentId, plugin: string)
      requires Valid() && plugin in PluginsOf(plugins, a)
      ensures plugins[a][plugin].uuid in manager.instances ==> AgentScope(a) in manager.tree.scopes.at
    {
      hide DefinitionsAgree, IndexAgrees, LiveAgrees, PropertiesDerived, IsTree, ScopeTree.Table.Ordered;
      assert plugins[a][plugin].uuid in Recorded(plugins, loops, a);
      assert Accounted(manager.instances, plugins, loops, a);
      assert plugins[a][plugin].uuid in manager.instances ==> plugins[a][plugin].uuid in Living(manager.instances, a);
    }

    /** After a sweep that ends, what the binding loses is what could be told before. */
    lemma LosesNow(st: Standing, before: Books, a: AgentId, plugin: string, properties: Props, agents: seq<Agent>,
                   building: nat -> Starts, starts: bool)
      requires Valid() && ValidId(a) && Enabled(agents, a) && st.built == before.plugins.Keys
      requires CurrentStanding() == Swept(CurrentSetup(), st, agents, building, |agents|)
      requires Keeps(before, CurrentBooks())
      requires AllBuilt(CurrentSetup(), manager.tree.scopes.at, CurrentBooks(), plugins.Keys - before.plugins.Keys,
                        agents)
      ensures !Guesses(CurrentSetup(), before.plugins, a, plugin, properties) ==>
                (LosesInstance(CurrentSetup(), st, before.plugins, a, plugin, properties, agents, building, starts)
                 <==> LosesBinding(CurrentSetup(), plugins, a, plugin, properties, starts))
    {
      hide DefinitionsAgree, InstancesAgree, IndexAgrees, LiveAgrees, PropertiesDerived, IsTree,
        ScopeTree.Table.Ordered;
      hide Clean, Built, StrayIn, Swept, LosesInstance, LosesBinding, Guesses, ValidId;
      FoundFirst(agents, a);
      if !Guesses(CurrentSetup(), before.plugins, a, plugin, properties) {
        LosesAsExpected(CurrentSetup(), st, before.plugins, CurrentStanding(), CurrentBooks(), a, plugin, properties,
                        agents, building, starts);
      }
    }

    /**
     `ensure_plugin_instance`; `building` and `starts` are the world's answers for the sweep and for
     the binding itself.  A refused call changes nothing.  Any other makes the sweep first, and then
     the plugin either is as wanted or the caller is told why not.  The agent gets out of step exactly
     if the call loses an instance, which a caller can know before.
     */
    method EnsurePluginInstance(a: AgentId, plugin: string, properties: Props, agents: seq<Agent>,
                                building: nat -> Starts, starts: bool)
      returns (error: Option<DirectoryError>)
      requires Valid()
      modifies this`plugins, this`loops, this`failed, this`defaultLlm
      modifies manager`instances, manager`userProperties, manager`registrationInstances, manager`ipopo
      modifies manager`stateVersion, manager.store, manager.tree, manager.tree.store
      ensures Valid()
      ensures error == Some(InvalidId) <==> !ValidId(a)
      ensures error == Some(UnknownAgent) <==> ValidId(a) && FindAgent(agents, a).None?
      ensures error == Some(AgentDisabled) <==> ValidId(a) && FindAgent(agents, a).Some? && !Enabled(agents, a)
      ensures !(ValidId(a) && Enabled(agents, a)) ==>
                CurrentBooks() == old(CurrentBooks()) && CurrentStanding() == old(CurrentStanding())
      ensures ValidId(a) && Enabled(agents, a) ==>
                var end := Swept(CurrentSetup(), old(CurrentStanding()), agents, building, |agents|);
                var wanted := WantedProperties(CurrentSetup(), a, plugin, properties);
                && (error == Some(Manager(ScopeHasChildren)) <==> end.stuck)
                && (error == Some(UnknownPlugin) <==> !end.stuck && plugin !in catalog.plugins)
                && (error == None && wanted.Some? ==>
                      && plugin in catalog.plugins && plugin in PluginsOf(plugins, a)
                      && (AlreadyHas(plugins[a][plugin], a, wanted.value)
                          || Running(manager.instances, manager.userProperties, plugins[a][plugin],
                                     catalog.plugins[plugin], AgentScope(a), wanted.value)))
                && (error.Some? && error != Some(Manager(ScopeHasChildren)) && error != Some(UnknownPlugin) ==>
                      && wanted.Some?
                      && (a in OutOfStep() || AgentScope(a) !in end.scopes
                          || !Replaceable(CurrentSetup(), plugin, wanted.value, starts)))
                && manager.tree.scopes.at == end.scopes && failed == end.failed
                && plugins.Keys == end.built
                   + (if error == None && wanted.Some? then {a} else {})
      ensures error == None && (plugin == "llm" ==> GivesModel(properties, Stored(configs, a, plugin),
                                                               CurrentSetup().llmDefaults)) ==>
                && plugin in PluginsOf(plugins, a)
                && Ensured(CurrentSetup(), plugins[a][plugin], manager.userProperties, a, plugin, properties)
      ensures OutOfStep() == old(OutOfStep()) || OutOfStep() == old(OutOfStep()) + {a}
      ensures OutOfStep() != old(OutOfStep()) ==>
                && plugin in catalog.plugins && WantedProperties(CurrentSetup(), a, plugin, properties).Some?
                && !Replaceable(CurrentSetup(), plugin,
                                WantedProperties(CurrentSetup(), a, plugin, properties).value, starts)
      ensures !Guesses(CurrentSetup(), old(plugins), a, plugin, properties) ==>
                OutOfStep() == old(OutOfStep())
                               + (if LosesInstance(CurrentSetup(), old(CurrentStanding()), old(plugins), a, plugin,
                                                   properties, agents, building, starts) then {a} else {})
    {
      hide *;
      Currently();
      LosesOnlyIf(CurrentSetup(), a, plugin, properties, starts);
      LosesOnlyThen(CurrentSetup(), CurrentStanding(), plugins, a, plugin, properties, agents, building, starts);
      if !ValidId(a) {
        return Some(InvalidId);
      }
      var agent := FindAgent(agents, a);
      if agent.None? {
        return Some(UnknownAgent);
      }
      if !agent.value.enabled {
        return Some(AgentDisabled);
      }
      var failure := MaterializeAll(agents, building);
      Currently();
      KeepsClean(old(CurrentBooks()), CurrentBooks());
      if failure.Some? {
        return Some(Manager(failure.value));
      }
      LosesNow(old(CurrentStanding()), old(CurrentBooks()), a, plugin, properties, agents, building, starts);
      error := EnsureBinding(a, plugin, properties, starts);
      Currently();
      EnsuredIs(CurrentSetup(), CurrentBooks(), a, plugin, properties);
    }
  }
}
