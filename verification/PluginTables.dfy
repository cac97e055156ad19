/** The records the plugin manager keeps, and what it means for its tables to agree. */
module PluginTables {
  import opened Common
  import opened ScopeForest
  import opened EffectiveProperties
  import opened ServiceRanking

  /** A uuid, as the number its hexadecimal digits stand for. */
  type Uuid = nat

  /** (module, factory) */
  type DefinitionKey = (string, string)

  /** (module, factory, scope) */
  type RegistrationKey = (string, string, ScopeId)

  datatype Descriptor = Descriptor(
    name: string,
    version: string,
    moduleName: string,
    factory: string,
    specification: string,
    description: string,
    swapPolicy: string)

  datatype Status = Active | Disabled | Failed | Missing

  datatype Instance = Instance(
    uuid: Uuid,
    factory: string,
    moduleName: string,
    scope: ScopeId,
    props: Props,
    enabled: bool,
    ranking: int,
    status: Status)

  predicate ValidDescriptor(d: Descriptor) {
    && !IsBlank(d.name) && !IsBlank(d.version) && !IsBlank(d.moduleName) && !IsBlank(d.factory)
    && !IsBlank(d.specification) && !IsBlank(d.description)
    && (d.swapPolicy == "hot" || d.swapPolicy == "restart")
  }

  /** Six texts with something in them, and one of two ways to be swapped. */
  lemma ValidDescriptorIff(d: Descriptor)
    ensures ValidDescriptor(d)
            <==> "" !in [Stripped(d.name), Stripped(d.version), Stripped(d.moduleName), Stripped(d.factory),
                         Stripped(d.specification), Stripped(d.description)]
                 && d.swapPolicy in ["hot", "restart"]
  {
    BlankIff(d.name);
    BlankIff(d.version);
    BlankIff(d.moduleName);
    BlankIff(d.factory);
    BlankIff(d.specification);
    BlankIff(d.description);
    hide IsBlank, Stripped;
  }

  function KeyOf(d: Descriptor): DefinitionKey {
    (d.moduleName, d.factory)
  }

  function DefinitionOf(i: Instance): DefinitionKey {
    (i.moduleName, i.factory)
  }

  function RegistrationOf(i: Instance): RegistrationKey {
    (i.moduleName, i.factory, i.scope)
  }

  /** `dict.get(key, set())` */
  function Lookup<K, V>(table: map<K, set<V>>, key: K): set<V> {
    if key in table then table[key] else {}
  }

  // ------------------------------------------------------------ agreement

  /** The registry mirrors the definitions, and a bundle is loaded iff one of its module is installed. */
  ghost predicate DefinitionsAgree(
    plugins: map<DefinitionKey, Descriptor>,
    registry: map<string, Descriptor>,
    bundles: set<string>,
    moduleRefs: map<string, set<DefinitionKey>>)
  {
    && (forall k :: k in plugins ==> KeyOf(plugins[k]) == k && k.1 in registry && registry[k.1] == plugins[k])
    && (forall f :: f in registry ==> registry[f].factory == f && KeyOf(registry[f]) in plugins)
    && (forall m, k :: k in Lookup(moduleRefs, m) <==> k in plugins && k.0 == m)
    && (forall m :: m in bundles <==> Lookup(moduleRefs, m) != {})
  }

  /** The index from registrations to instances holds every instance once, under its own key. */
  ghost predicate IndexAgrees(index: map<RegistrationKey, set<Uuid>>, instances: map<Uuid, Instance>) {
    forall k, u :: u in Lookup(index, k) <==> u in instances && RegistrationOf(instances[u]) == k
  }

  /** Every instance belongs to an installed definition and an existing scope. */
  ghost predicate InstanceAgrees(u: Uuid, i: Instance, plugins: map<DefinitionKey, Descriptor>, f: Forest) {
    && i.uuid == u
    && DefinitionOf(i) in plugins
    && i.scope in f
    && i.status == if i.enabled then Active else Disabled
  }

  ghost predicate InstancesAgree(
    instances: map<Uuid, Instance>,
    user: map<Uuid, Props>,
    plugins: map<DefinitionKey, Descriptor>,
    f: Forest)
  {
    && instances.Keys == user.Keys
    && (forall u :: u in instances ==> InstanceAgrees(u, instances[u], plugins, f))
  }

  /** The live components are exactly the active instances, with the properties on record. */
  ghost predicate LiveAgrees(ipopo: map<Uuid, Props>, instances: map<Uuid, Instance>) {
    forall u ::
      && (u in ipopo <==> u in instances && instances[u].status == Active)
      && (u in ipopo ==> ipopo[u] == instances[u].props)
  }

  /** Where and as what an instance is created. */
  ghost function PlacementOf(f: Forest, scopedFields: string -> set<string>, i: Instance): (at: Placement)
    requires HasChain(f, i.scope)
    ensures at.visible != []
  {
    Placement(Chain(f, i.scope), Depth(f, i.scope) * SCOPE_RANKING_STRIDE + i.ranking, i.factory, i.uuid, i.ranking,
              scopedFields(i.moduleName))
  }

  /** The recorded properties are what the user's properties and the scope tree give right now. */
  ghost predicate InstanceDerived(f: Forest, scopedFields: string -> set<string>, i: Instance, user: Props) {
    HasChain(f, i.scope) && Effective(user, PlacementOf(f, scopedFields, i)) == Ok(i.props)
  }

  ghost predicate PropertiesDerived(
    f: Forest,
    scopedFields: string -> set<string>,
    instances: map<Uuid, Instance>,
    user: map<Uuid, Props>)
  {
    forall u :: u in instances && u in user ==> InstanceDerived(f, scopedFields, instances[u], user[u])
  }

  /** Changing the tree without touching the chain of a scope in use keeps everything derived. */
  lemma DerivedSurvives(f: Forest, g: Forest, scopedFields: string -> set<string>,
                        instances: map<Uuid, Instance>, user: map<Uuid, Props>)
    requires PropertiesDerived(f, scopedFields, instances, user)
    requires forall u :: u in instances ==>
               HasChain(g, instances[u].scope) && HasChain(f, instances[u].scope)
               && Chain(g, instances[u].scope) == Chain(f, instances[u].scope)
    ensures PropertiesDerived(g, scopedFields, instances, user)
  {
    forall u | u in instances && u in user ensures InstanceDerived(g, scopedFields, instances[u], user[u]) {
      assert InstanceDerived(f, scopedFields, instances[u], user[u]);
      assert PlacementOf(g, scopedFields, instances[u]) == PlacementOf(f, scopedFields, instances[u]);
    }
  }

  /**
   The recorded properties say where the instance lives, and as what, in the tree of today; all else in
   them, but for the filters of scoped fields, is what the user gave.
   */
  ghost predicate Injected(f: Forest, scopedFields: string -> set<string>, i: Instance, user: Props) {
    && HasChain(f, i.scope)
    && "plugin.scope_id" in i.props && i.props["plugin.scope_id"] == Text(i.scope)
    && Injects(i.props, user, Placement(Chain(f, i.scope), Depth(f, i.scope) * 1_000_000 + i.ranking, i.factory, i.uuid,
                                        i.ranking, scopedFields(i.moduleName)))
  }

  /**
   What an agreed table says of one live component: everything injected when it was created is still
   what its record and its scope say today.
   */
  lemma InjectedMetadataIsCurrent(f: Forest, scopedFields: string -> set<string>, i: Instance, user: Props)
    requires InstanceDerived(f, scopedFields, i, user)
    ensures Injected(f, scopedFields, i, user)
  {
    EffectiveInjects(user, PlacementOf(f, scopedFields, i));
    assert Chain(f, i.scope)[0] == i.scope;
  }

  /** No scoped field of the instance has a filter the user gave it, other than the scope filter. */
  ghost predicate Unwrapped(f: Forest, scopedFields: string -> set<string>, i: Instance, user: Props) {
    HasChain(f, i.scope) ==> NoOwnFilter(UserFilters(user), scopedFields(i.moduleName), Chain(f, i.scope))
  }

  /** Recording effective properties as the user's: nothing changes exactly when no field is wrapped. */
  lemma DerivedFromEffectiveIff(f: Forest, scopedFields: string -> set<string>, i: Instance, user: Props)
    requires InstanceDerived(f, scopedFields, i, user)
    ensures InstanceDerived(f, scopedFields, i, i.props) <==> Unwrapped(f, scopedFields, i, user)
  {
    var at := PlacementOf(f, scopedFields, i);
    StrippedIs(user, at);
    RehydrateStableIff(user, at);
    hide Effective;
  }

  // ------------------------------------------------------------ one change to the tables

  lemma DropThenPut<K, V>(table: map<K, V>, key: K)
    ensures key in table ==> (table - {key})[key := table[key]] == table
    ensures key !in table ==> table - {key} == table
  {
  }

  lemma DropThenPutOther<K, V>(table: map<K, V>, key: K, value: V)
    ensures (table - {key})[key := value] == table[key := value]
  {
  }

  lemma PutThenDrop<K, V>(table: map<K, V>, key: K, value: V)
    requires key !in table
    ensures table[key := value] - {key} == table
  {
  }

  lemma DefinitionAdded(
    plugins: map<DefinitionKey, Descriptor>, registry: map<string, Descriptor>, bundles: set<string>,
    moduleRefs: map<string, set<DefinitionKey>>, d: Descriptor)
    requires DefinitionsAgree(plugins, registry, bundles, moduleRefs)
    requires KeyOf(d) !in plugins && d.factory !in registry
    ensures DefinitionsAgree(
              plugins[KeyOf(d) := d], registry[d.factory := d], bundles + {d.moduleName},
              moduleRefs[d.moduleName := Lookup(moduleRefs, d.moduleName) + {KeyOf(d)}])
  {
    var key, m0 := KeyOf(d), d.moduleName;
    var refs := moduleRefs[m0 := Lookup(moduleRefs, m0) + {key}];
    forall m ensures m in bundles + {m0} <==> Lookup(refs, m) != {} {
      if m == m0 {
        assert key in Lookup(refs, m);
      }
    }
  }

  lemma DefinitionDropped(
    plugins: map<DefinitionKey, Descriptor>, registry: map<string, Descriptor>, bundles: set<string>,
    moduleRefs: map<string, set<DefinitionKey>>, key: DefinitionKey)
    requires DefinitionsAgree(plugins, registry, bundles, moduleRefs) && key in plugins
    ensures var left := Lookup(moduleRefs, key.0) - {key};
            && (left == {} <==> forall k :: k in plugins && k.0 == key.0 ==> k == key)
            && DefinitionsAgree(plugins - {key}, registry - {key.1},
                                if left == {} then bundles - {key.0} else bundles, moduleRefs[key.0 := left])
  {
    var left := Lookup(moduleRefs, key.0) - {key};
    var refs := moduleRefs[key.0 := left];
    forall k | k in plugins && k.0 == key.0 && k != key ensures k in left {
      assert k in Lookup(moduleRefs, k.0);
    }
    assert left != {} ==> exists k :: k in left && k in Lookup(moduleRefs, key.0);
    forall m, k ensures k in Lookup(refs, m) <==> k in plugins - {key} && k.0 == m {
      assert k in Lookup(moduleRefs, m) <==> k in plugins && k.0 == m;
    }
    forall k | k in plugins - {key} ensures k.1 != key.1 {
      assert registry[k.1] == plugins[k];
    }
  }

  lemma DefinitionKeyInRegistry(
    plugins: map<DefinitionKey, Descriptor>, registry: map<string, Descriptor>, bundles: set<string>,
    moduleRefs: map<string, set<DefinitionKey>>, factory: string)
    requires DefinitionsAgree(plugins, registry, bundles, moduleRefs) && factory in registry
    ensures KeyOf(registry[factory]) in plugins && KeyOf(registry[factory]).1 == factory
  {
  }

  lemma FreeFactory(
    plugins: map<DefinitionKey, Descriptor>, registry: map<string, Descriptor>, bundles: set<string>,
    moduleRefs: map<string, set<DefinitionKey>>, d: Descriptor)
    requires DefinitionsAgree(plugins, registry, bundles, moduleRefs) && KeyOf(d) !in plugins
    ensures d.factory in registry ==> registry[d.factory].moduleName != d.moduleName
  {
  }

  /** Taking a new definition out again gives back the tables there were. */
  lemma NewDefinitionUndone(
    plugins: map<DefinitionKey, Descriptor>, registry: map<string, Descriptor>, bundles: set<string>,
    moduleRefs: map<string, set<DefinitionKey>>, d: Descriptor)
    requires DefinitionsAgree(plugins, registry, bundles, moduleRefs)
    requires KeyOf(d) !in plugins && d.factory !in registry
    ensures plugins[KeyOf(d) := d] - {KeyOf(d)} == plugins && registry[d.factory := d] - {d.factory} == registry
    ensures d.moduleName in bundles <==> exists k :: k in plugins && k.0 == d.moduleName
    ensures (if d.moduleName in bundles then bundles + {d.moduleName} else bundles + {d.moduleName} - {d.moduleName})
            == bundles
  {
    if d.moduleName in bundles {
      var k :| k in Lookup(moduleRefs, d.moduleName);
      assert k in plugins && k.0 == d.moduleName;
    }
    forall k | k in plugins && k.0 == d.moduleName ensures d.moduleName in bundles {
      assert k in Lookup(moduleRefs, d.moduleName);
    }
  }

  lemma OtherInstancesAgree(instances: map<Uuid, Instance>, user: map<Uuid, Props>,
                            plugins: map<DefinitionKey, Descriptor>, f: Forest, d: Descriptor)
    requires InstancesAgree(instances, user, plugins, f)
    ensures InstancesAgree(instances, user, plugins[KeyOf(d) := d], f)
  {
  }

  lemma InstancesWithout(instances: map<Uuid, Instance>, user: map<Uuid, Props>,
                         plugins: map<DefinitionKey, Descriptor>, f: Forest, key: DefinitionKey)
    requires InstancesAgree(instances, user, plugins, f)
    requires forall u :: u in instances ==> DefinitionOf(instances[u]) != key
    ensures InstancesAgree(instances, user, plugins - {key}, f)
  {
  }

  lemma IndexAdded(index: map<RegistrationKey, set<Uuid>>, instances: map<Uuid, Instance>, i: Instance)
    requires IndexAgrees(index, instances) && i.uuid !in instances
    ensures var key := RegistrationOf(i);
            var more := index[key := Lookup(index, key) + {i.uuid}];
            && IndexAgrees(more, instances[i.uuid := i])
            && IndexAgrees(more[key := Lookup(more, key) - {i.uuid}], instances)
  {
    var key := RegistrationOf(i);
    var more := index[key := Lookup(index, key) + {i.uuid}];
    forall k, u
      ensures u in Lookup(more, k)
              <==> u in instances[i.uuid := i] && RegistrationOf(instances[i.uuid := i][u]) == k
    {
      assert u in Lookup(index, k) <==> u in instances && RegistrationOf(instances[u]) == k;
    }
    var less := more[key := Lookup(more, key) - {i.uuid}];
    forall k, u ensures u in Lookup(less, k) <==> u in instances && RegistrationOf(instances[u]) == k {
      assert u in Lookup(index, k) <==> u in instances && RegistrationOf(instances[u]) == k;
    }
  }

  lemma IndexDropped(index: map<RegistrationKey, set<Uuid>>, instances: map<Uuid, Instance>, u: Uuid)
    requires IndexAgrees(index, instances) && u in instances
    ensures var key := RegistrationOf(instances[u]);
            IndexAgrees(index[key := Lookup(index, key) - {u}], instances - {u})
  {
    var key := RegistrationOf(instances[u]);
    var less := index[key := Lookup(index, key) - {u}];
    forall k, v ensures v in Lookup(less, k) <==> v in instances - {u} && RegistrationOf(instances[v]) == k {
      assert v in Lookup(index, k) <==> v in instances && RegistrationOf(instances[v]) == k;
    }
  }

  lemma InstanceAdded(instances: map<Uuid, Instance>, user: map<Uuid, Props>, ipopo: map<Uuid, Props>,
                      plugins: map<DefinitionKey, Descriptor>, f: Forest, i: Instance, own: Props)
    requires InstancesAgree(instances, user, plugins, f) && LiveAgrees(ipopo, instances)
    requires i.uuid !in instances && InstanceAgrees(i.uuid, i, plugins, f)
    ensures i.uuid !in ipopo && i.uuid !in user && (i.enabled <==> i.status == Active)
    ensures InstancesAgree(instances[i.uuid := i], user[i.uuid := own], plugins, f)
    ensures LiveAgrees(if i.enabled then ipopo[i.uuid := i.props] else ipopo, instances[i.uuid := i])
  {
  }

  lemma InstanceDropped(instances: map<Uuid, Instance>, user: map<Uuid, Props>, ipopo: map<Uuid, Props>,
                        plugins: map<DefinitionKey, Descriptor>, f: Forest, scopedFields: string -> set<string>,
                        u: Uuid)
    requires InstancesAgree(instances, user, plugins, f) && LiveAgrees(ipopo, instances)
    requires PropertiesDerived(f, scopedFields, instances, user)
    requires u in instances
    ensures u in user && InstanceAgrees(u, instances[u], plugins, f)
    ensures u in ipopo <==> instances[u].status == Active
    ensures u in ipopo ==> ipopo[u] == instances[u].props
    ensures InstancesAgree(instances - {u}, user - {u}, plugins, f)
    ensures LiveAgrees(ipopo - {u}, instances - {u})
    ensures PropertiesDerived(f, scopedFields, instances - {u}, user - {u})
  {
    hide InstanceDerived;
  }

  lemma InstanceReplaced(instances: map<Uuid, Instance>, user: map<Uuid, Props>,
                         plugins: map<DefinitionKey, Descriptor>,
                         index: map<RegistrationKey, set<Uuid>>, f: Forest, i: Instance, own: Props)
    requires InstancesAgree(instances, user, plugins, f) && IndexAgrees(index, instances)
    requires i.uuid in instances && InstanceAgrees(i.uuid, i, plugins, f)
    requires RegistrationOf(i) == RegistrationOf(instances[i.uuid])
    ensures InstancesAgree(instances[i.uuid := i], user[i.uuid := own], plugins, f)
    ensures IndexAgrees(index, instances[i.uuid := i])
  {
    hide InstanceAgrees;
    forall k, u
      ensures u in Lookup(index, k)
              <==> u in instances[i.uuid := i] && RegistrationOf(instances[i.uuid := i][u]) == k
    {
      assert u in Lookup(index, k) <==> u in instances && RegistrationOf(instances[u]) == k;
    }
  }

  lemma InstanceKnown(instances: map<Uuid, Instance>, user: map<Uuid, Props>, plugins: map<DefinitionKey, Descriptor>,
                      ipopo: map<Uuid, Props>, f: Forest, u: Uuid)
    requires InstancesAgree(instances, user, plugins, f) && LiveAgrees(ipopo, instances) && u in instances
    ensures u in user && InstanceAgrees(u, instances[u], plugins, f)
    ensures u in ipopo <==> instances[u].status == Active
    ensures u in ipopo ==> ipopo[u] == instances[u].props
  {
  }

  /** Changing one name on both sides keeps the two in step exactly when they agree on that name. */
  lemma LiveChanged(ipopo: map<Uuid, Props>, instances: map<Uuid, Instance>, i: Instance, component: Option<Props>)
    requires LiveAgrees(ipopo, instances) && i.uuid in instances
    ensures LiveAgrees(if component.Some? then ipopo[i.uuid := component.value] else ipopo - {i.uuid},
                       instances[i.uuid := i])
            <==> component == if i.status == Active then Some(i.props) else None
  {
    var u := i.uuid;
    var live := if component.Some? then ipopo[u := component.value] else ipopo - {u};
    var after := instances[u := i];
    if LiveAgrees(live, after) {
      assert u in live <==> u in after && after[u].status == Active;
    }
  }

  /** The live components after an update whose new record is kept. */
  lemma UpdatedComponent(ipopo: map<Uuid, Props>, instances: map<Uuid, Instance>, current: Instance, next: Instance,
                         start: bool, live: map<Uuid, Props>, after: map<Uuid, Instance>)
    requires LiveAgrees(ipopo, instances) && current.uuid in instances && instances[current.uuid] == current
    requires next.uuid == current.uuid && next.status == (if next.enabled then Active else Disabled)
    requires next.enabled && !start ==> current.status == Active
    requires live == if !next.enabled then ipopo - {current.uuid}
                     else if start then ipopo[current.uuid := next.props] else ipopo
    requires after == instances[current.uuid := next]
    ensures LiveAgrees(live, after) <==> !next.enabled || start || next.props == current.props
  {
    var u := current.uuid;
    DropThenPut(ipopo, u);
    assert u in ipopo ==> ipopo[u] == current.props;
    LiveChanged(ipopo, instances, next,
                if !next.enabled then None else if start then Some(next.props) else Some(ipopo[u]));
  }

  /** The live components after an update whose old record comes back. */
  lemma RevertedComponent(ipopo: map<Uuid, Props>, instances: map<Uuid, Instance>, current: Instance, next: Instance,
                          start: bool, live: map<Uuid, Props>)
    requires LiveAgrees(ipopo, instances) && current.uuid in instances && instances[current.uuid] == current
    requires next.uuid == current.uuid && current.status == (if current.enabled then Active else Disabled)
    requires next.enabled && !start ==> current.status == Active
    requires live == if !next.enabled then ipopo - {current.uuid}
                     else if start then ipopo[current.uuid := next.props] else ipopo
    ensures LiveAgrees(live, instances)
            <==> next.enabled == current.enabled && (next.enabled && start ==> next.props == current.props)
  {
    var u := current.uuid;
    UpdateNothing(instances, u);
    DropThenPut(ipopo, u);
    assert u in ipopo <==> current.status == Active;
    assert u in ipopo ==> ipopo[u] == current.props;
    LiveChanged(ipopo, instances, current,
                if !next.enabled then None else if start then Some(next.props) else Some(ipopo[u]));
  }

  /** The live components after an update whose component did not start. */
  lemma KilledComponent(ipopo: map<Uuid, Props>, instances: map<Uuid, Instance>, current: Instance,
                        recovers: bool, live: map<Uuid, Props>)
    requires LiveAgrees(ipopo, instances) && current.uuid in instances && instances[current.uuid] == current
    requires current.status == (if current.enabled then Active else Disabled)
    requires live == if current.status == Active && !recovers then ipopo - {current.uuid} else ipopo
    ensures LiveAgrees(live, instances) <==> current.status == Disabled || recovers
  {
    UpdateNothing(instances, current.uuid);
    LiveChanged(ipopo, instances, current, None);
  }

  /** A replaced instance that is derived keeps everything derived that was. */
  lemma DerivedWhenReplaced(f: Forest, scopedFields: string -> set<string>, instances: map<Uuid, Instance>,
                            user: map<Uuid, Props>, next: Instance, own: Props)
    requires InstanceDerived(f, scopedFields, next, own) && next.uuid in instances && next.uuid in user
    ensures PropertiesDerived(f, scopedFields, instances, user) ==>
              && PropertiesDerived(f, scopedFields, instances[next.uuid := next], user[next.uuid := own])
              && InstanceDerived(f, scopedFields, instances[next.uuid], user[next.uuid])
  {
    hide InstanceDerived;
    if PropertiesDerived(f, scopedFields, instances, user) {
      DerivedChanged(f, scopedFields, instances, user, next, own);
    }
  }

  lemma SameInputsSameProps(f: Forest, scopedFields: string -> set<string>, current: Instance, next: Instance,
                            user: Props, own: Props)
    requires RegistrationOf(next) == RegistrationOf(current) && next.uuid == current.uuid
    ensures InstanceDerived(f, scopedFields, current, user) && InstanceDerived(f, scopedFields, next, own)
            && own == user && next.ranking == current.ranking
            ==> next.props == current.props
  {
    if InstanceDerived(f, scopedFields, current, user) && InstanceDerived(f, scopedFields, next, own)
       && next.ranking == current.ranking {
      assert PlacementOf(f, scopedFields, next) == PlacementOf(f, scopedFields, current);
    }
  }

  lemma UserReplaced(instances: map<Uuid, Instance>, user: map<Uuid, Props>, plugins: map<DefinitionKey, Descriptor>,
                     f: Forest, u: Uuid, own: Props)
    requires InstancesAgree(instances, user, plugins, f) && u in instances
    ensures InstancesAgree(instances, user[u := own], plugins, f)
  {
  }

  lemma AddsOnly(user: Props, properties: Props)
    ensures user + properties == properties <==> user.Keys <= properties.Keys
    ensures user == properties ==> user.Keys <= properties.Keys
    ensures properties == map[] ==> user + properties == user
  {
    if user + properties == properties {
      assert (user + properties).Keys == properties.Keys;
    }
  }

  lemma ScopesInUse(instances: map<Uuid, Instance>, user: map<Uuid, Props>, plugins: map<DefinitionKey, Descriptor>,
                    f: Forest)
    requires InstancesAgree(instances, user, plugins, f)
    ensures forall u :: u in instances ==> instances[u].scope in f
  {
  }

  lemma DerivedOf(f: Forest, scopedFields: string -> set<string>, instances: map<Uuid, Instance>,
                  user: map<Uuid, Props>, u: Uuid)
    requires PropertiesDerived(f, scopedFields, instances, user) && u in instances && u in user
    ensures InstanceDerived(f, scopedFields, instances[u], user[u])
  {
  }

  lemma DerivedChanged(f: Forest, scopedFields: string -> set<string>, instances: map<Uuid, Instance>,
                       user: map<Uuid, Props>, i: Instance, own: Props)
    requires PropertiesDerived(f, scopedFields, instances, user)
    ensures PropertiesDerived(f, scopedFields, instances[i.uuid := i], user[i.uuid := own])
            <==> InstanceDerived(f, scopedFields, i, own)
  {
    hide InstanceDerived;
    var after, own' := instances[i.uuid := i], user[i.uuid := own];
    if PropertiesDerived(f, scopedFields, after, own') {
      assert i.uuid in after && i.uuid in own';
    }
  }

  /** Recording an instance's effective properties as the user's, among tables that were derived. */
  lemma DerivedWhenReverted(f: Forest, scopedFields: string -> set<string>, instances: map<Uuid, Instance>,
                            user: map<Uuid, Props>, u: Uuid)
    requires PropertiesDerived(f, scopedFields, instances, user)
    requires u in instances && u in user && instances[u].uuid == u
    ensures PropertiesDerived(f, scopedFields, instances, user[u := instances[u].props])
            <==> Unwrapped(f, scopedFields, instances[u], user[u])
  {
    hide Effective;
    DerivedOf(f, scopedFields, instances, user, u);
    DerivedFromEffectiveIff(f, scopedFields, instances[u], user[u]);
    DerivedChanged(f, scopedFields, instances, user, instances[u], instances[u].props);
    UpdateNothing(instances, u);
  }

  lemma DropNone<K, V>(table: map<K, V>)
    ensures table - {} == table
  {
  }

  lemma DropOneMore<K, V>(table: map<K, V>, gone: set<K>, key: K)
    ensures table - gone - {key} == table - (gone + {key})
    ensures key in table && key !in gone ==> key in table - gone
  {
  }

  lemma DropTwice<K, V>(table: map<K, V>, first: set<K>, second: set<K>)
    ensures table - first - second == table - (first + second)
  {
  }

  lemma PutTwice<K, V>(table: map<K, V>, key: K, first: V, second: V)
    ensures table[key := first][key := second] == table[key := second]
    ensures key in table && second == table[key] ==> table[key := first][key := second] == table
  {
  }

  lemma UpdateNothing<K, V>(table: map<K, V>, key: K)
    requires key in table
    ensures table[key := table[key]] == table
  {
  }

  lemma InstancesOutside(instances: map<Uuid, Instance>, user: map<Uuid, Props>,
                         plugins: map<DefinitionKey, Descriptor>, f: Forest, g: Forest)
    requires InstancesAgree(instances, user, plugins, f)
    requires forall u :: u in instances && instances[u].scope in f ==> instances[u].scope in g
    ensures InstancesAgree(instances, user, plugins, g)
  {
  }
}
