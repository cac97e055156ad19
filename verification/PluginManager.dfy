/**
 The plugin manager: definitions, bundles and instances, and the components that are alive.

 iPOPO is the map `ipopo` from component names to injected properties.  What the outside world
 decides is a parameter of each call: whether a component starts and honours its contract, whether
 a bundle installs, and whether writing the state file works.
 */
module PluginManager {
  import opened Common
  import opened ScopeForest
  import opened EffectiveProperties
  import opened LdapFilter
  import opened PluginTables
  import ScopeTree
  import ServiceRanking

  datatype ManagerError =
    | InvalidDescriptor
    | AlreadyInstalled
    | IdentityConflict
    | BundleFailed
    | PluginNotFound
    | HasInstances
    | ScopeFailed(error: ScopeTree.ScopeError)
    | ScopeHasChildren
    | ScopeHasInstances
    | DifferentParent
    | InstanceNotFound
    | BadProperties(problem: PropertyError)
    | ComponentFailed
    | StoreFailed

  /** What is written to the runtime state store. */
  datatype Image = Image(
    scopes: seq<Scope>,
    descriptors: map<string, Descriptor>,
    instances: map<Uuid, Instance>)

  datatype RuntimeSnapshot = RuntimeSnapshot(version: nat, image: Image)

  /** One update: the record there is and the one to come, and what the world will answer. */
  datatype Plan = Plan(
    current: Instance,
    next: Instance,
    user: Props,
    start: bool,
    starts: bool,
    recovers: bool,
    canSave: bool)

  datatype InstanceTables = InstanceTables(
    instances: map<Uuid, Instance>,
    user: map<Uuid, Props>,
    ipopo: map<Uuid, Props>)

  class RuntimeStateStore {
    var saved: Option<RuntimeSnapshot>

    constructor ()
      ensures saved == None
    {
      saved := None;
    }

    function Version(): nat
      reads this
    {
      if saved.Some? then saved.value.version else 0
    }

    /** Compare and swap; `works` is whether the write itself goes through. */
    method Save(image: Image, expectedVersion: nat, works: bool) returns (r: Option<nat>)
      modifies this
      ensures r.Some? <==> works && old(Version()) == expectedVersion
      ensures r.Some? ==> r.value == expectedVersion + 1 && saved == Some(RuntimeSnapshot(r.value, image))
      ensures r.None? ==> saved == old(saved)
    {
      var current := Version();
      if current != expectedVersion || !works {
        return None;
      }
      saved := Some(RuntimeSnapshot(current + 1, image));
      r := Some(current + 1);
    }
  }

  class PluginManager {
    const tree: ScopeTree.ScopeTree
    const store: RuntimeStateStore
    /** `scoped_fields_from_module` */
    const scopedFields: string -> set<string>
    /** whether a state store has been bound */
    var bound: bool
    var stateVersion: nat
    var plugins: map<DefinitionKey, Descriptor>
    var registry: map<string, Descriptor>
    var bundles: set<string>
    var moduleRefs: map<string, set<DefinitionKey>>
    var instances: map<Uuid, Instance>
    var userProperties: map<Uuid, Props>
    var registrationInstances: map<RegistrationKey, set<Uuid>>
    var ipopo: map<Uuid, Props>

    /** All bookkeeping tables agree with each other and with the scope tree. */
    ghost predicate Tables()
      reads this`plugins, this`registry, this`bundles, this`moduleRefs, this`instances, this`userProperties
      reads this`registrationInstances, tree
    {
      && tree.Valid()
      && DefinitionsAgree(plugins, registry, bundles, moduleRefs)
      && InstancesAgree(instances, userProperties, plugins, tree.scopes.at)
      && IndexAgrees(registrationInstances, instances)
    }

    ghost predicate Live()
      reads this`instances, this`ipopo
    {
      LiveAgrees(ipopo, instances)
    }

    ghost predicate Derived()
      reads this`instances, this`userProperties, tree
    {
      PropertiesDerived(tree.scopes.at, scopedFields, instances, userProperties)
    }

    ghost predicate Valid()
      reads this, tree
    {
      Tables() && Live() && Derived()
    }

    /** The instance tables as one value. */
    ghost function Records(): InstanceTables
      reads this`instances, this`userProperties, this`ipopo
    {
      InstanceTables(instances, userProperties, ipopo)
    }

    ghost function CurrentImage(): Image
      reads this`registry, this`instances, tree
      requires tree.Valid()
    {
      Image(tree.scopes.Values(), registry, instances)
    }

    /** Writing the state can succeed: no store is bound, or nobody else wrote to it. */
    predicate CanSave()
      reads this`bound, this`stateVersion, store
    {
      !bound || store.Version() == stateVersion
    }

    /** Updates of the scope tree can be committed: no other tree wrote to its store. */
    predicate CanWriteScopes()
      reads tree, tree.store
    {
      ScopeTree.StoredVersion(tree.store.saved) == tree.version
    }

    /** What the store holds is what memory holds. */
    ghost predicate Mirrored()
      reads this`bound, this`stateVersion, this`registry, this`instances, tree, store
      requires tree.Valid()
    {
      bound ==> store.saved == Some(RuntimeSnapshot(stateVersion, CurrentImage()))
    }

    constructor (tree: ScopeTree.ScopeTree, store: RuntimeStateStore, scopedFields: string -> set<string>)
      requires tree.Valid()
      ensures Valid() && this.tree == tree && this.store == store && this.scopedFields == scopedFields
      ensures plugins == map[] && registry == map[] && bundles == {} && !bound
      ensures instances == map[] && userProperties == map[] && ipopo == map[]
    {
      this.tree, this.store, this.scopedFields := tree, store, scopedFields;
      bound, stateVersion := false, 0;
      plugins, registry, bundles, moduleRefs := map[], map[], {}, map[];
      instances, userProperties, registrationInstances, ipopo := map[], map[], map[], map[];
    }

    method BindState()
      modifies this`bound, this`stateVersion
      ensures bound && CanSave()
    {
      bound := true;
      stateVersion := store.Version();
    }

    method PersistState(works: bool) returns (ok: bool)
      requires tree.Valid()
      modifies this`stateVersion, store
      ensures ok <==> !old(bound) || (works && old(CanSave()))
      ensures ok ==> Mirrored() && CanSave() && (bound ==> store.saved != old(store.saved))
      ensures !ok ==> stateVersion == old(stateVersion) && store.saved == old(store.saved)
      ensures CanSave() == old(CanSave())
    {
      if !bound {
        return true;
      }
      var saved := store.Save(Image(tree.scopes.Values(), registry, instances), stateVersion, works);
      if saved.None? {
        return false;
      }
      stateVersion := saved.value;
      ok := true;
    }

    // ---------------------------------------------------------- definitions

    /** Installs a definition; a refused or failed install leaves every table as it was. */
    method InstallDefinition(descriptor: Descriptor, bundleWorks: bool, saveWorks: bool)
      returns (r: Result<Descriptor, ManagerError>)
      requires Valid()
      modifies this`plugins, this`registry, this`bundles, this`moduleRefs, this`stateVersion, store
      ensures Valid()
      ensures var key := KeyOf(descriptor);
              && (r.Ok? <==>
                    && ValidDescriptor(descriptor)
                    && (if key in old(plugins) then old(plugins)[key] == descriptor
                        else
                          && descriptor.factory !in old(registry)
                          && (descriptor.moduleName in old(bundles) || bundleWorks)
                          && (!bound || (saveWorks && old(CanSave())))))
              && (r.Ok? ==> r.value == descriptor)
              && (r.Ok? && key !in old(plugins) ==>
                    && plugins == old(plugins)[key := descriptor]
                    && registry == old(registry)[descriptor.factory := descriptor]
                    && bundles == old(bundles) + {descriptor.moduleName}
                    && Mirrored())
              && (r.Err? || key in old(plugins) ==>
                    && plugins == old(plugins) && registry == old(registry) && bundles == old(bundles)
                    && stateVersion == old(stateVersion) && store.saved == old(store.saved))
      ensures CanSave() == old(CanSave())
    {
      hide Valid, Tables, Live, Derived, DefinitionsAgree, InstancesAgree, IndexAgrees, LiveAgrees, PropertiesDerived;
      hide Mirrored, CanSave, ValidDescriptor, Records;
      Facts();
      TablesAre();
      if !ValidDescriptor(descriptor) {
        return Err(InvalidDescriptor);
      }
      var key := KeyOf(descriptor);
      if key in plugins {
        return if plugins[key] == descriptor then Ok(descriptor) else Err(AlreadyInstalled);
      }
      if descriptor.factory in registry && registry[descriptor.factory].moduleName != descriptor.moduleName {
        return Err(IdentityConflict);
      }
      FreeFactory(plugins, registry, bundles, moduleRefs, descriptor);
      if descriptor.moduleName !in bundles && !bundleWorks {
        return Err(BundleFailed);
      }
      NewDefinitionUndone(plugins, registry, bundles, moduleRefs, descriptor);
      OtherInstancesAgree(instances, userProperties, plugins, tree.scopes.at, descriptor);
      AddDefinition(descriptor);
      var saved := PersistState(saveWorks);
      if saved {
        r := Ok(descriptor);
      } else {
        RollbackDefinition(key);
        r := Err(StoreFailed);
      }
      Facts();
      TablesAre();
    }

    /** Loads the bundle if no definition of its module did, and enters the definition. */
    method AddDefinition(descriptor: Descriptor)
      requires DefinitionsAgree(plugins, registry, bundles, moduleRefs)
      requires KeyOf(descriptor) !in plugins && descriptor.factory !in registry
      modifies this`plugins, this`registry, this`bundles, this`moduleRefs
      ensures DefinitionsAgree(plugins, registry, bundles, moduleRefs)
      ensures plugins == old(plugins)[KeyOf(descriptor) := descriptor]
      ensures registry == old(registry)[descriptor.factory := descriptor]
      ensures bundles == old(bundles) + {descriptor.moduleName}
    {
      hide DefinitionsAgree;
      DefinitionAdded(plugins, registry, bundles, moduleRefs, descriptor);
      var key := KeyOf(descriptor);
      bundles := bundles + {descriptor.moduleName};
      moduleRefs := moduleRefs[descriptor.moduleName := Lookup(moduleRefs, descriptor.moduleName) + {key}];
      registry := registry[descriptor.factory := descriptor];
      plugins := plugins[key := descriptor];
    }

    method RollbackDefinition(key: DefinitionKey)
      requires DefinitionsAgree(plugins, registry, bundles, moduleRefs) && key in plugins
      modifies this`plugins, this`registry, this`bundles, this`moduleRefs
      ensures DefinitionsAgree(plugins, registry, bundles, moduleRefs)
      ensures plugins == old(plugins) - {key} && registry == old(registry) - {key.1}
      ensures bundles == if exists k :: k in plugins && k.0 == key.0 then old(bundles) else old(bundles) - {key.0}
    {
      DefinitionDropped(plugins, registry, bundles, moduleRefs, key);
      plugins := plugins - {key};
      registry := registry - {key.1};
      moduleRefs := moduleRefs[key.0 := Lookup(moduleRefs, key.0) - {key}];
      if Lookup(moduleRefs, key.0) == {} {
        bundles := bundles - {key.0};
      }
    }

    /** Uninstalling needs the definition to have no instances; it is not undone if saving fails. */
    method UninstallPlugin(factory: string, moduleName: Option<string>, saveWorks: bool)
      returns (r: Result<(), ManagerError>)
      requires Valid()
      modifies this`plugins, this`registry, this`bundles, this`moduleRefs, this`stateVersion, store
      ensures Valid()
      ensures factory !in old(registry) ==> r == Err(PluginNotFound)
      ensures factory in old(registry) ==>
                var key := KeyOf(old(registry)[factory]);
                if moduleName.Some? && moduleName.value != key.0 then r == Err(IdentityConflict)
                else if exists u :: u in instances && DefinitionOf(instances[u]) == key then r == Err(HasInstances)
                else
                  && r == (if !bound || (saveWorks && old(CanSave())) then Ok(()) else Err(StoreFailed))
                  && plugins == old(plugins) - {key} && registry == old(registry) - {factory}
                  && bundles
                     == (if exists k :: k in plugins && k.0 == key.0 then old(bundles) else old(bundles) - {key.0})
      ensures r.Ok? ==> Mirrored()
      ensures r.Err? && r.error != StoreFailed ==>
                && plugins == old(plugins) && registry == old(registry) && bundles == old(bundles)
      ensures r.Err? ==> stateVersion == old(stateVersion) && store.saved == old(store.saved)
      ensures CanSave() == old(CanSave())
    {
      hide *;
      Facts();
      TablesAre();
      if factory !in registry {
        return Err(PluginNotFound);
      }
      UninstallFacts(factory);
      var key := KeyOf(registry[factory]);
      if moduleName.Some? && moduleName.value != key.0 {
        return Err(IdentityConflict);
      }
      if exists u :: u in instances && DefinitionOf(instances[u]) == key {
        return Err(HasInstances);
      }
      RollbackDefinition(key);
      TablesAre();
      var saved := PersistState(saveWorks);
      r := if saved then Ok(()) else Err(StoreFailed);
      Facts();
      TablesAre();
    }

    /** A definition nobody is an instance of can go. */
    lemma UninstallFacts(factory: string)
      requires Tables() && factory in registry
      ensures var key := KeyOf(registry[factory]);
              && key in plugins && key.1 == factory
              && ((forall u :: u in instances ==> DefinitionOf(instances[u]) != key) ==>
                    InstancesAgree(instances, userProperties, plugins - {key}, tree.scopes.at))
    {
      hide DefinitionsAgree, IsTree, ScopeTree.Table.Ordered, InstancesAgree, IndexAgrees;
      DefinitionKeyInRegistry(plugins, registry, bundles, moduleRefs, factory);
      var key := KeyOf(registry[factory]);
      if forall u :: u in instances ==> DefinitionOf(instances[u]) != key {
        InstancesWithout(instances, userProperties, plugins, tree.scopes.at, key);
      }
    }

    // ---------------------------------------------------------- instances

    method CurrentPlacement(scope: ScopeId, factory: string, moduleName: string, uuid: Uuid, ranking: int)
      returns (at: Placement)
      requires tree.Valid() && scope in tree.scopes.at
      ensures at == PlacementOf(tree.scopes.at, scopedFields,
                                Instance(uuid, factory, moduleName, scope, map[], true, ranking, Active))
    {
      var visible := tree.Ancestors(scope, true);
      var depth := tree.DepthOf(scope);
      at := Placement(visible.value, depth.value * ServiceRanking.SCOPE_RANKING_STRIDE + ranking, factory, uuid,
                      ranking, scopedFields(moduleName));
    }

    /** `_ipopo.instantiate` under a free name, then the contract check; a violation kills it again. */
    method Instantiate(uuid: Uuid, props: Props, starts: bool) returns (ok: bool)
      modifies this`ipopo
      ensures ok <==> uuid !in old(ipopo) && starts
      ensures ipopo == if ok then old(ipopo)[uuid := props] else old(ipopo)
    {
      if uuid in ipopo || !starts {
        return false;
      }
      ipopo := ipopo[uuid := props];
      ok := true;
    }

    /** `_ipopo.kill`: refuses a name it does not know. */
    method Kill(uuid: Uuid) returns (ok: bool)
      modifies this`ipopo
      ensures ok <==> uuid in old(ipopo)
      ensures ipopo == old(ipopo) - {uuid}
    {
      ok := uuid in ipopo;
      ipopo := ipopo - {uuid};
    }

    /** Enters a new instance into the three instance tables. */
    method Record(i: Instance, user: Props)
      requires IndexAgrees(registrationInstances, instances) && i.uuid !in instances
      modifies this`instances, this`userProperties, this`registrationInstances
      ensures IndexAgrees(registrationInstances, instances)
      ensures instances == old(instances)[i.uuid := i] && userProperties == old(userProperties)[i.uuid := user]
    {
      hide IndexAgrees;
      IndexAdded(registrationInstances, instances, i);
      var key := RegistrationOf(i);
      instances := instances[i.uuid := i];
      userProperties := userProperties[i.uuid := user];
      registrationInstances := registrationInstances[key := Lookup(registrationInstances, key) + {i.uuid}];
    }

    /** Takes an instance out of the three instance tables again. */
    method Unrecord(i: Instance)
      requires IndexAgrees(registrationInstances, instances) && i.uuid in instances && instances[i.uuid] == i
      modifies this`instances, this`userProperties, this`registrationInstances
      ensures IndexAgrees(registrationInstances, instances)
      ensures instances == old(instances) - {i.uuid} && userProperties == old(userProperties) - {i.uuid}
    {
      hide IndexAgrees;
      IndexDropped(registrationInstances, instances, i.uuid);
      var key := RegistrationOf(i);
      instances := instances - {i.uuid};
      userProperties := userProperties - {i.uuid};
      registrationInstances := registrationInstances[key := Lookup(registrationInstances, key) - {i.uuid}];
    }

    /**
     Creates an instance under a fresh uuid.  It succeeds exactly when scope and definition exist,
     the properties are acceptable, the component starts and the state can be saved; otherwise
     everything, the live components included, is as before.
     */
    method CreateInstance(factory: string, moduleName: string, scope: ScopeId, user: Props, enabled: bool,
                          ranking: int, uuid: Uuid, starts: bool, saveWorks: bool)
      returns (r: Result<Instance, ManagerError>)
      requires Valid() && uuid !in instances
      modifies this`instances, this`userProperties, this`registrationInstances, this`ipopo, this`stateVersion, store
      ensures Valid()
      ensures r.Ok? <==>
                && scope in tree.scopes.at && (moduleName, factory) in plugins
                && Created(tree.scopes.at, scopedFields, uuid, factory, moduleName, scope, user, enabled, ranking).Ok?
                && (enabled ==> starts)
                && (!bound || (saveWorks && old(CanSave())))
      ensures r.Ok? ==>
                && r.value == Created(tree.scopes.at, scopedFields, uuid, factory, moduleName, scope, user, enabled,
                                      ranking).value
                && instances == old(instances)[uuid := r.value]
                && userProperties == old(userProperties)[uuid := user]
                && ipopo == (if enabled then old(ipopo)[uuid := r.value.props] else old(ipopo))
                && Mirrored() && CanSave()
      ensures r.Ok? ==>
                && r.value == Instance(uuid, factory, moduleName, scope, r.value.props, enabled, ranking,
                                       if enabled then Active else Disabled)
                && Injected(tree.scopes.at, scopedFields, r.value, user)
      ensures r.Err? ==>
                && r.error == (if scope !in tree.scopes.at then ScopeFailed(ScopeTree.NotFound(scope))
                               else if (moduleName, factory) !in plugins then PluginNotFound
                               else
                                 var planned := Created(tree.scopes.at, scopedFields, uuid, factory, moduleName, scope,
                                                        user, enabled, ranking);
                                 if planned.Err? then BadProperties(planned.error)
                                 else if enabled && !starts then ComponentFailed else StoreFailed)
                && instances == old(instances) && userProperties == old(userProperties) && ipopo == old(ipopo)
                && stateVersion == old(stateVersion) && store.saved == old(store.saved)
      ensures CanSave() == old(CanSave())
    {
      hide DefinitionsAgree, IsTree, ScopeTree.Table.Ordered, InstancesAgree, IndexAgrees, LiveAgrees;
      hide PropertiesDerived, InstanceDerived, Effective, Injected;
      var prepared := Prepare(factory, moduleName, scope, user, enabled, ranking, uuid);
      if prepared.Err? {
        return prepared;
      }
      var error := Enter(prepared.value, user, starts, saveWorks);
      r := if error.Some? then Err(error.value) else prepared;
    }

    /** The checks of a creation and the record it would enter. */
    method Prepare(factory: string, moduleName: string, scope: ScopeId, user: Props, enabled: bool, ranking: int,
                   uuid: Uuid)
      returns (r: Result<Instance, ManagerError>)
      requires Tables()
      ensures r.Ok? <==>
                && scope in tree.scopes.at && (moduleName, factory) in plugins
                && Created(tree.scopes.at, scopedFields, uuid, factory, moduleName, scope, user, enabled, ranking).Ok?
      ensures r.Err? ==>
                r.error == (if scope !in tree.scopes.at then ScopeFailed(ScopeTree.NotFound(scope))
                            else if (moduleName, factory) !in plugins then PluginNotFound
                            else BadProperties(Created(tree.scopes.at, scopedFields, uuid, factory, moduleName, scope,
                                                       user, enabled, ranking).error))
      ensures r.Ok? ==>
                && r.value == Created(tree.scopes.at, scopedFields, uuid, factory, moduleName, scope, user, enabled,
                                      ranking).value
                && r.value.uuid == uuid && r.value.enabled == enabled && r.value.ranking == ranking
                && RegistrationOf(r.value) == (moduleName, factory, scope)
                && InstanceAgrees(uuid, r.value, plugins, tree.scopes.at)
                && InstanceDerived(tree.scopes.at, scopedFields, r.value, user)
                && r.value == Instance(uuid, factory, moduleName, scope, r.value.props, enabled, ranking,
                                       if enabled then Active else Disabled)
                && Injected(tree.scopes.at, scopedFields, r.value, user)
    {
      hide Effective, Injected;
      if scope !in tree.scopes.at {
        return Err(ScopeFailed(ScopeTree.NotFound(scope)));
      }
      if (moduleName, factory) !in plugins {
        return Err(PluginNotFound);
      }
      var at := CurrentPlacement(scope, factory, moduleName, uuid, ranking);
      var effective := ComputeEffective(user, at);
      if effective.Err? {
        return Err(BadProperties(effective.error));
      }
      r := Ok(Instance(uuid, factory, moduleName, scope, effective.value, enabled, ranking,
                       if enabled then Active else Disabled));
      InjectedMetadataIsCurrent(tree.scopes.at, scopedFields, r.value, user);
    }

    /** Starts the component, enters the record and saves; undoes both when saving fails. */
    method Enter(i: Instance, user: Props, starts: bool, saveWorks: bool) returns (error: Option<ManagerError>)
      requires Valid() && i.uuid !in instances
      requires InstanceAgrees(i.uuid, i, plugins, tree.scopes.at)
      requires InstanceDerived(tree.scopes.at, scopedFields, i, user)
      modifies this`instances, this`userProperties, this`registrationInstances, this`ipopo, this`stateVersion, store
      ensures Valid()
      ensures error == if i.enabled && !starts then Some(ComponentFailed)
                       else if !bound || (saveWorks && old(CanSave())) then None else Some(StoreFailed)
      ensures error.None? ==>
                && instances == old(instances)[i.uuid := i]
                && userProperties == old(userProperties)[i.uuid := user]
                && ipopo == (if i.enabled then old(ipopo)[i.uuid := i.props] else old(ipopo))
                && Mirrored() && CanSave()
      ensures error.Some? ==>
                && instances == old(instances) && userProperties == old(userProperties) && ipopo == old(ipopo)
                && stateVersion == old(stateVersion) && store.saved == old(store.saved)
      ensures CanSave() == old(CanSave())
    {
      hide *;
      Facts();
      TablesAre();
      InstanceAdded(instances, userProperties, ipopo, plugins, tree.scopes.at, i, user);
      DerivedChanged(tree.scopes.at, scopedFields, instances, userProperties, i, user);
      if i.enabled {
        var started := Instantiate(i.uuid, i.props, starts);
        if !started {
          return Some(ComponentFailed);
        }
      }
      Record(i, user);
      Facts();
      TablesAre();
      var saved := PersistState(saveWorks);
      Facts();
      TablesAre();
      if !saved {
        PutThenDrop(old(instances), i.uuid, i);
        PutThenDrop(old(userProperties), i.uuid, user);
        PutThenDrop(old(ipopo), i.uuid, i.props);
        Unrecord(i);
        if i.enabled {
          var _ := Kill(i.uuid);
        }
        Facts();
        TablesAre();
        return Some(StoreFailed);
      }
      error := None;
    }

    /** `_remove_instance_record` for an instance that exists. */
    method RemoveRecord(u: Uuid)
      requires Valid() && u in instances
      modifies this`instances, this`userProperties, this`registrationInstances, this`ipopo
      ensures Valid()
      ensures instances == old(instances) - {u} && userProperties == old(userProperties) - {u}
      ensures ipopo == old(ipopo) - {u}
    {
      hide DefinitionsAgree, IsTree, ScopeTree.Table.Ordered, InstancesAgree, IndexAgrees, LiveAgrees;
      hide PropertiesDerived, InstanceDerived;
      InstanceDropped(instances, userProperties, ipopo, plugins, tree.scopes.at, scopedFields, u);
      if instances[u].status == Active {
        var _ := Kill(u);
      } else {
        assert ipopo - {u} == ipopo;
      }
      Unrecord(instances[u]);
    }

    /**
     Deletes an instance.  If saving fails the record and the component come back, but with the
     effective properties recorded as the user's: the tables still agree, and the properties are
     still those the user's give exactly when no scoped field had a filter of its own.
     */
    method DeleteInstance(u: Uuid, restarts: bool, saveWorks: bool) returns (r: Result<(), ManagerError>)
      requires Valid()
      modifies this`instances, this`userProperties, this`registrationInstances, this`ipopo, this`stateVersion, store
      ensures Tables() && Live()
      ensures r == (if u !in old(instances) then Err(InstanceNotFound)
                    else if !bound || (saveWorks && old(CanSave())) then Ok(())
                    else if old(instances)[u].status == Active && !restarts then Err(ComponentFailed)
                    else Err(StoreFailed))
      ensures r.Ok? || r == Err(ComponentFailed) ==>
                && instances == old(instances) - {u} && userProperties == old(userProperties) - {u}
                && ipopo == old(ipopo) - {u}
      ensures r.Ok? ==> Mirrored() && CanSave()
      ensures r == Err(InstanceNotFound) || r == Err(StoreFailed) ==>
                && instances == old(instances) && ipopo == old(ipopo)
                && userProperties == (if r.error == StoreFailed then old(userProperties)[u := instances[u].props]
                                      else old(userProperties))
      ensures r.Err? ==> stateVersion == old(stateVersion) && store.saved == old(store.saved)
      ensures Derived() <==>
                || r != Err(StoreFailed)
                || Unwrapped(tree.scopes.at, scopedFields, old(instances)[u], old(userProperties)[u])
      ensures CanSave() == old(CanSave())
    {
      hide *;
      Facts();
      if u !in instances {
        return Err(InstanceNotFound);
      }
      Known(u);
      var snapshot := instances[u];
      DerivedOf(tree.scopes.at, scopedFields, instances, userProperties, u);
      DropThenPut(instances, u);
      DropThenPut(ipopo, u);
      DropThenPutOther(userProperties, u, snapshot.props);
      RemoveRecord(u);
      Facts();
      var saved := PersistState(saveWorks);
      Facts();
      if saved {
        return Ok(());
      }
      var back := PutBack(snapshot, old(userProperties)[u], restarts);
      Facts();
      r := if back then Err(StoreFailed) else Err(ComponentFailed);
    }

    /** Brings a deleted instance back, its effective properties standing in for the user's. */
    method PutBack(i: Instance, ghost user: Props, restarts: bool) returns (ok: bool)
      requires Valid() && i.uuid !in instances
      requires InstanceAgrees(i.uuid, i, plugins, tree.scopes.at)
      requires InstanceDerived(tree.scopes.at, scopedFields, i, user)
      modifies this`instances, this`userProperties, this`registrationInstances, this`ipopo
      ensures Tables() && Live()
      ensures ok <==> (i.status == Active ==> restarts)
      ensures !ok ==>
                && Valid()
                && instances == old(instances) && userProperties == old(userProperties) && ipopo == old(ipopo)
      ensures ok ==>
                && instances == old(instances)[i.uuid := i]
                && userProperties == old(userProperties)[i.uuid := i.props]
                && ipopo == (if i.status == Active then old(ipopo)[i.uuid := i.props] else old(ipopo))
                && (Derived() <==> Unwrapped(tree.scopes.at, scopedFields, i, user))
    {
      hide DefinitionsAgree, IsTree, ScopeTree.Table.Ordered, InstancesAgree, IndexAgrees, LiveAgrees;
      hide PropertiesDerived, InstanceAgrees, Effective;
      InstanceAdded(instances, userProperties, ipopo, plugins, tree.scopes.at, i, i.props);
      DerivedChanged(tree.scopes.at, scopedFields, instances, userProperties, i, i.props);
      DerivedFromEffectiveIff(tree.scopes.at, scopedFields, i, user);
      if i.status == Active {
        var started := Instantiate(i.uuid, i.props, restarts);
        if !started {
          return false;
        }
      }
      Record(i, i.props);
      ok := true;
    }

    // ---------------------------------------------------------- updates

    /**
     The component part of an update: kill, start, or kill and start under the same name.  If the
     new component does not start, the old one is started again only where killing an unknown name
     is tolerated: the failure handler kills once more before it rebuilds.
     */
    method SwapComponent(current: Instance, next: Instance, userChanged: bool, starts: bool, restarts: bool,
                         killsUnknown: bool)
      returns (ok: bool)
      requires next.uuid == current.uuid && (current.status == Active || current.status == Disabled)
      requires current.uuid in ipopo <==> current.status == Active
      requires current.uuid in ipopo ==> ipopo[current.uuid] == current.props
      modifies this`ipopo
      ensures ok <==> NeedsStart(current, next, userChanged) ==> starts
      ensures ok ==> ipopo == if !next.enabled then old(ipopo) - {current.uuid}
                              else if NeedsStart(current, next, userChanged) then old(ipopo)[current.uuid := next.props]
                              else old(ipopo)
      ensures !ok ==> ipopo == if current.status == Active && !(killsUnknown && restarts)
                               then old(ipopo) - {current.uuid} else old(ipopo)
    {
      var u := current.uuid;
      DropThenPut(ipopo, u);
      ok := true;
      if !next.enabled {
        if current.status == Active {
          var _ := Kill(u);
        }
      } else if current.status == Disabled {
        ok := Instantiate(u, next.props, starts);
      } else if next.enabled != current.enabled || next.ranking != current.ranking || userChanged {
        var _ := Kill(u);
        ok := Instantiate(u, next.props, starts);
        assert (old(ipopo) - {u})[u := next.props] == old(ipopo)[u := next.props];
        if !ok {
          var known := Kill(u);
          if known || killsUnknown {
            var _ := Instantiate(u, current.props, restarts);
          }
        }
      }
    }

    /**
     Updates an instance in place.  The plan, which a caller knows before the call, decides what the
     tables and the live components are afterwards, and whether they agree.
     */
    method UpdateInstance(u: Uuid, properties: Option<Props>, enabled: Option<bool>, ranking: Option<int>,
                          starts: bool, restarts: bool, killsUnknown: bool, saveWorks: bool)
      returns (r: Result<Instance, ManagerError>)
      requires Tables() && Live()
      modifies this`instances, this`userProperties, this`ipopo, this`stateVersion, store
      ensures Tables()
      ensures u !in old(instances) ==> r == Err(InstanceNotFound) && Records() == old(Records()) && Live()
      ensures u in old(instances) ==>
                var plan := Planned(tree.scopes.at, scopedFields, old(instances)[u], UserIn(old(userProperties), u),
                                    MergedOver(UserIn(old(userProperties), u), properties), enabled, ranking, starts,
                                    killsUnknown && restarts, !bound || (saveWorks && old(CanSave())));
                Outcome(old(Records()), Records(), plan, r) && (Live() <==> plan.Err? || InStepAfter(plan.value))
      ensures r.Ok? ==>
                && Mirrored() && CanSave()
                && u in userProperties && InstanceDerived(tree.scopes.at, scopedFields, r.value, userProperties[u])
                && Injected(tree.scopes.at, scopedFields, r.value, userProperties[u])
      ensures r.Ok? ==>
                && r.value.uuid == u && instances == old(instances)[u := r.value]
                && userProperties == old(userProperties)[u := MergedOver(UserIn(old(userProperties), u), properties)]
      ensures r.Ok? ==> Revised(old(instances)[u], enabled, ranking, r.value)
      ensures r == Err(StoreFailed) ==>
                && u in old(instances) && instances == old(instances)
                && userProperties == old(userProperties)[u := old(instances)[u].props]
      ensures r.Err? && r.error != StoreFailed ==> instances == old(instances) && userProperties == old(userProperties)
      ensures r.Err? ==> stateVersion == old(stateVersion) && store.saved == old(store.saved)
      ensures r.Ok? && old(Derived()) ==> Live()
      ensures old(Derived()) ==>
                (Derived() <==> r != Err(StoreFailed)
                                || Unwrapped(tree.scopes.at, scopedFields, old(instances)[u], old(userProperties)[u]))
      ensures CanSave() == old(CanSave())
    {
      hide *;
      if u !in instances {
        return Err(InstanceNotFound);
      }
      Facts();
      Known(u);
      ghost var plan := Planned(tree.scopes.at, scopedFields, instances[u], UserIn(userProperties, u),
                                MergedOver(UserIn(userProperties, u), properties), enabled, ranking, starts,
                                killsUnknown && restarts, !bound || (saveWorks && CanSave()));
      if Derived() {
        OkInStep(tree.scopes.at, scopedFields, plugins, instances, userProperties, u,
                 MergedOver(UserIn(userProperties, u), properties), enabled, ranking, starts, killsUnknown && restarts,
                 !bound || (saveWorks && CanSave()));
      }
      NextIs(tree.scopes.at, scopedFields, instances[u], UserIn(userProperties, u),
             MergedOver(UserIn(userProperties, u), properties), enabled, ranking, starts, killsUnknown && restarts,
             !bound || (saveWorks && CanSave()));
      r := CarryOut(plan, u, properties, enabled, ranking, starts, restarts, killsUnknown, saveWorks);
      if r.Ok? {
        InjectedMetadataIsCurrent(tree.scopes.at, scopedFields, r.value, userProperties[u]);
      }
    }

    /** An update of an instance that is there, along the plan made for it. */
    method CarryOut(ghost plan: Result<Plan, PropertyError>, u: Uuid, properties: Option<Props>, enabled: Option<bool>,
                    ranking: Option<int>, starts: bool, restarts: bool, killsUnknown: bool, saveWorks: bool)
      returns (r: Result<Instance, ManagerError>)
      requires Tables() && Live() && u in instances
      requires plan == Planned(tree.scopes.at, scopedFields, instances[u], UserIn(userProperties, u),
                               MergedOver(UserIn(userProperties, u), properties), enabled, ranking, starts,
                               killsUnknown && restarts, !bound || (saveWorks && CanSave()))
      modifies this`instances, this`userProperties, this`ipopo, this`stateVersion, store
      ensures Tables()
      ensures Outcome(old(Records()), Records(), plan, r) && (Live() <==> plan.Err? || InStepAfter(plan.value))
      ensures r.Ok? ==>
                && Mirrored() && CanSave()
                && u in userProperties && InstanceDerived(tree.scopes.at, scopedFields, r.value, userProperties[u])
      ensures r.Ok? ==>
                && r.value.uuid == u && instances == old(instances)[u := r.value]
                && userProperties == old(userProperties)[u := MergedOver(UserIn(old(userProperties), u), properties)]
      ensures r == Err(StoreFailed) ==>
                && u in old(instances) && instances == old(instances)
                && userProperties == old(userProperties)[u := old(instances)[u].props]
      ensures r.Err? && r.error != StoreFailed ==> instances == old(instances) && userProperties == old(userProperties)
      ensures r.Err? ==> stateVersion == old(stateVersion) && store.saved == old(store.saved)
      ensures old(Derived()) ==>
                (Derived() <==> r != Err(StoreFailed)
                                || Unwrapped(tree.scopes.at, scopedFields, old(instances)[u], old(userProperties)[u]))
      ensures CanSave() == old(CanSave())
    {
      hide *;
      Facts();
      Known(u);
      var current := instances[u];
      var user := MergedOver(UserIn(userProperties, u), properties);
      var prepared := Prepare(current.factory, current.moduleName, current.scope, user,
                              OrElse(enabled, current.enabled), OrElse(ranking, current.ranking), u);
      PlannedIs(tree.scopes.at, scopedFields, current, userProperties[u], user, enabled, ranking, starts,
                killsUnknown && restarts, !bound || (saveWorks && CanSave()));
      if prepared.Err? {
        OutcomeIs(Records(), Records(), plan, prepared);
        return prepared;
      }
      StartFacts(current, prepared.value, user != userProperties[u], plugins, tree.scopes.at);
      r := Replace(plan.value, current, prepared.value, user, starts, restarts, killsUnknown, saveWorks);
      OutcomeIs(old(Records()), Records(), plan, r);
    }

    lemma Facts()
      ensures Tables() ==> tree.Valid()
      ensures Records() == InstanceTables(instances, userProperties, ipopo)
      ensures Derived() <==> PropertiesDerived(tree.scopes.at, scopedFields, instances, userProperties)
      ensures Live() <==> LiveAgrees(ipopo, instances)
      ensures Valid() <==> Tables() && Live() && Derived()
    {
    }

    lemma TablesAre()
      ensures Tables() <==>
                && tree.Valid() && DefinitionsAgree(plugins, registry, bundles, moduleRefs)
                && InstancesAgree(instances, userProperties, plugins, tree.scopes.at)
                && IndexAgrees(registrationInstances, instances)
    {
    }

    lemma Known(u: Uuid)
      requires Tables() && u in instances
      ensures Live() ==>
                (u in ipopo <==> instances[u].status == Active) && (u in ipopo ==> ipopo[u] == instances[u].props)
      ensures u in userProperties && UserIn(userProperties, u) == userProperties[u] && instances[u].uuid == u
      ensures InstanceAgrees(u, instances[u], plugins, tree.scopes.at)
      ensures tree.Valid() && instances[u].scope in tree.scopes.at
      ensures DefinitionOf(instances[u]) == (instances[u].moduleName, instances[u].factory)
      ensures DefinitionOf(instances[u]) in plugins
      ensures RegistrationOf(instances[u]) == (instances[u].moduleName, instances[u].factory, instances[u].scope)
    {
    }

    /** Replaces an instance's component and record, given the record that is to come. */
    method Replace(ghost plan: Plan, current: Instance, next: Instance, user: Props, starts: bool, restarts: bool,
                   killsUnknown: bool, saveWorks: bool)
      returns (r: Result<Instance, ManagerError>)
      requires Tables() && Live()
      requires current.uuid in instances && current.uuid in userProperties && instances[current.uuid] == current
      requires plan
               == Plan(current, next, user, NeedsStart(current, next, user != userProperties[current.uuid]), starts,
                       killsUnknown && restarts, !bound || (saveWorks && CanSave()))
      requires InstanceAgrees(current.uuid, next, plugins, tree.scopes.at)
      requires InstanceAgrees(current.uuid, current, plugins, tree.scopes.at)
      requires InstanceDerived(tree.scopes.at, scopedFields, next, user)
      requires RegistrationOf(next) == RegistrationOf(current)
      modifies this`instances, this`userProperties, this`ipopo, this`stateVersion, store
      ensures Tables()
      ensures Moved(old(Records()), Records(), plan, r) && (Live() <==> InStepAfter(plan))
      ensures r.Ok? ==>
                && r.value == next && instances == old(instances)[current.uuid := next]
                && userProperties == old(userProperties)[current.uuid := user]
      ensures r == Err(StoreFailed) ==>
                && instances == old(instances)
                && userProperties == old(userProperties)[current.uuid := current.props]
      ensures r.Err? && r.error != StoreFailed ==> instances == old(instances) && userProperties == old(userProperties)
      ensures r.Err? ==> stateVersion == old(stateVersion) && store.saved == old(store.saved)
      ensures r.Ok? ==> Mirrored() && CanSave()
      ensures r.Ok? ==>
                && current.uuid in userProperties
                && InstanceDerived(tree.scopes.at, scopedFields, r.value, userProperties[current.uuid])
      ensures old(Derived()) ==>
                (Derived() <==> r != Err(StoreFailed)
                                || Unwrapped(tree.scopes.at, scopedFields, current, old(userProperties)[current.uuid]))
      ensures CanSave() == old(CanSave())
    {
      hide DefinitionsAgree, IsTree, ScopeTree.Table.Ordered, InstancesAgree, IndexAgrees, LiveAgrees;
      hide PropertiesDerived, InstanceDerived, InstanceAgrees, NeedsStart, InStepAfter, Mirrored, CanSave;
      hide Unwrapped;
      InstanceKnown(instances, userProperties, plugins, ipopo, tree.scopes.at, current.uuid);
      StartFacts(current, next, user != userProperties[current.uuid], plugins, tree.scopes.at);
      var swapped := SwapComponent(current, next, user != userProperties[current.uuid], starts, restarts, killsUnknown);
      if !swapped {
        r := Err(ComponentFailed);
      } else {
        r := FinishUpdate(current, next, user, saveWorks);
      }
      LiveAfterMove(old(Records()), Records(), plan, r);
    }

    /** Enters the updated record and saves; if saving fails the old record comes back. */
    method FinishUpdate(current: Instance, next: Instance, user: Props, saveWorks: bool)
      returns (r: Result<Instance, ManagerError>)
      requires Tables()
      requires current.uuid in instances && instances[current.uuid] == current && current.uuid in userProperties
      requires InstanceAgrees(current.uuid, next, plugins, tree.scopes.at)
      requires InstanceDerived(tree.scopes.at, scopedFields, next, user)
      requires RegistrationOf(next) == RegistrationOf(current)
      modifies this`instances, this`userProperties, this`stateVersion, store
      ensures Tables()
      ensures r == if !bound || (saveWorks && old(CanSave())) then Ok(next) else Err(StoreFailed)
      ensures r.Ok? ==>
                && instances == old(instances)[current.uuid := next]
                && userProperties == old(userProperties)[current.uuid := user]
                && Mirrored() && CanSave()
      ensures r.Err? ==>
                && instances == old(instances)
                && userProperties == old(userProperties)[current.uuid := current.props]
                && stateVersion == old(stateVersion) && store.saved == old(store.saved)
      ensures old(Derived()) ==>
                (Derived()
                 <==> r.Ok? || Unwrapped(tree.scopes.at, scopedFields, current, old(userProperties)[current.uuid]))
      ensures CanSave() == old(CanSave())
    {
      hide *;
      Facts();
      TablesAre();
      UpdateFacts(current, next, user);
      instances := instances[current.uuid := next];
      userProperties := userProperties[current.uuid := user];
      var saved := PersistState(saveWorks);
      if saved {
        r := Ok(next);
      } else {
        instances := instances[current.uuid := current];
        userProperties := userProperties[current.uuid := current.props];
        r := Err(StoreFailed);
      }
      Facts();
      TablesAre();
    }

    /** What the tables are with the new record, and with the old one back. */
    lemma UpdateFacts(current: Instance, next: Instance, user: Props)
      requires Tables()
      requires current.uuid in instances && instances[current.uuid] == current && current.uuid in userProperties
      requires InstanceAgrees(current.uuid, next, plugins, tree.scopes.at)
      requires InstanceDerived(tree.scopes.at, scopedFields, next, user)
      requires RegistrationOf(next) == RegistrationOf(current)
      ensures InstancesAgree(instances[current.uuid := next], userProperties[current.uuid := user], plugins,
                             tree.scopes.at)
      ensures IndexAgrees(registrationInstances, instances[current.uuid := next])
      ensures InstancesAgree(instances, userProperties[current.uuid := current.props], plugins, tree.scopes.at)
      ensures instances[current.uuid := next][current.uuid := current] == instances
      ensures userProperties[current.uuid := user][current.uuid := current.props]
              == userProperties[current.uuid := current.props]
      ensures PropertiesDerived(tree.scopes.at, scopedFields, instances, userProperties) ==>
                && PropertiesDerived(tree.scopes.at, scopedFields, instances[current.uuid := next],
                                     userProperties[current.uuid := user])
                && (PropertiesDerived(tree.scopes.at, scopedFields, instances,
                                      userProperties[current.uuid := current.props])
                    <==> Unwrapped(tree.scopes.at, scopedFields, current, userProperties[current.uuid]))
    {
      hide DefinitionsAgree, IsTree, ScopeTree.Table.Ordered, InstancesAgree, IndexAgrees, PropertiesDerived;
      hide InstanceDerived, Unwrapped;
      Known(current.uuid);
      if PropertiesDerived(tree.scopes.at, scopedFields, instances, userProperties) {
        DerivedWhenReverted(tree.scopes.at, scopedFields, instances, userProperties, current.uuid);
      }
      InstanceReplaced(instances, userProperties, plugins, registrationInstances, tree.scopes.at, next, user);
      UserReplaced(instances, userProperties, plugins, tree.scopes.at, current.uuid, current.props);
      DerivedWhenReplaced(tree.scopes.at, scopedFields, instances, userProperties, next, user);
      PutTwice(instances, current.uuid, next, current);
      PutTwice(userProperties, current.uuid, user, current.props);
    }

    /**
     The body of `apply_config` for one instance: the user's properties are cleared before the
     update compares against them, and stay cleared when the update fails early.  After a normal
     return the live component still has its old properties exactly when an enabled instance stays
     enabled, the override names no properties, and the record changes.
     */
    method ApplyConfigTo(u: Uuid, properties: Props, enabled: bool, starts: bool, restarts: bool, killsUnknown: bool,
                         saveWorks: bool)
      returns (r: Result<Instance, ManagerError>)
      requires Valid() && u in instances
      modifies this`instances, this`userProperties, this`ipopo, this`stateVersion, store
      ensures Tables()
      ensures var cleared := old(Records()).(user := old(userProperties)[u := map[]]);
              var plan := Planned(tree.scopes.at, scopedFields, old(instances)[u], map[], properties, Some(enabled),
                                  None, starts, killsUnknown && restarts, !bound || (saveWorks && old(CanSave())));
              && Outcome(cleared, Records(), plan, r)
              && (Live() <==> plan.Err? || InStepAfter(plan.value))
              && (r.Ok? ==>
                    && plan.Ok?
                    && (Valid() <==> !(enabled && old(instances)[u].enabled && properties == map[]
                                       && plan.value.next.props != old(instances)[u].props)))
      ensures Derived() <==> match r
                             case Ok(_) => true
                             case Err(StoreFailed) =>
                               Unwrapped(tree.scopes.at, scopedFields, old(instances)[u], old(userProperties)[u])
                             case Err(_) => InstanceDerived(tree.scopes.at, scopedFields, old(instances)[u], map[])
    {
      hide *;
      Facts();
      Known(u);
      ghost var current := instances[u];
      DerivedWhenReverted(tree.scopes.at, scopedFields, instances, userProperties, u);
      ClearedDerived(tree.scopes.at, scopedFields, instances, userProperties, u);
      ReconcileFacts(current, map[], properties, enabled);
      PutTwice(userProperties, u, map[], properties);
      PutTwice(userProperties, u, map[], current.props);
      ClearUser(u);
      r := UpdateInstance(u, Some(properties), Some(enabled), None, starts, restarts, killsUnknown, saveWorks);
      Facts();
      if r.Ok? {
        UserPut(old(userProperties), u, properties);
        DerivedChanged(tree.scopes.at, scopedFields, old(instances), old(userProperties), r.value, properties);
      }
      AppliedInStepIff(tree.scopes.at, scopedFields, plugins, current, properties, enabled, starts,
                       killsUnknown && restarts, !bound || (saveWorks && old(CanSave())),
                       old(Records()).(user := old(userProperties)[u := map[]]), Records(), r);
    }

    /** The first half of `apply_config`. */
    method ClearUser(u: Uuid)
      requires Tables() && Live() && u in instances
      modifies this`userProperties
      ensures Tables() && Live()
      ensures userProperties == old(userProperties)[u := map[]] && UserIn(userProperties, u) == map[]
      ensures Records() == old(Records()).(user := userProperties)
    {
      UserReplaced(instances, userProperties, plugins, tree.scopes.at, u, map[]);
      userProperties := userProperties[u := map[]];
    }

    /** The instances of one definition in one scope. */
    function Matching(factory: string, moduleName: string, scope: ScopeId): set<Uuid>
      reads this`instances
    {
      MatchingIn(instances, factory, moduleName, scope)
    }

    /**
     Reconcile or create; `chosen` is the matching instance the dictionary yields first, if there is
     one.  Its user properties become the wanted ones exactly when it had no property the caller does
     not name, because an update only adds and replaces.
     */
    method EnsureInstance(factory: string, moduleName: string, scope: ScopeId, properties: Props, enabled: bool,
                          uuid: Uuid, chosen: Uuid, starts: bool, restarts: bool, killsUnknown: bool, saveWorks: bool)
      returns (r: Result<Instance, ManagerError>)
      requires Valid() && uuid !in instances
      requires Matching(factory, moduleName, scope) != {} ==> chosen in Matching(factory, moduleName, scope)
      modifies this`instances, this`userProperties, this`registrationInstances, this`ipopo, this`stateVersion, store
      ensures Tables()
      ensures old(Matching(factory, moduleName, scope)) == {} ==>
                && Valid()
                && (r.Ok? <==>
                      && scope in tree.scopes.at && (moduleName, factory) in plugins
                      && Created(tree.scopes.at, scopedFields, uuid, factory, moduleName, scope, properties, enabled,
                                 0).Ok?
                      && (enabled ==> starts) && (!bound || (saveWorks && old(CanSave()))))
                && (r.Ok? ==>
                      && r.value == Created(tree.scopes.at, scopedFields, uuid, factory, moduleName, scope, properties,
                                            enabled, 0).value
                      && instances == old(instances)[uuid := r.value]
                      && userProperties == old(userProperties)[uuid := properties]
                      && ipopo == (if enabled then old(ipopo)[uuid := r.value.props] else old(ipopo)))
                && (r.Err? ==> Records() == old(Records()) && store.saved == old(store.saved))
      ensures old(Matching(factory, moduleName, scope)) != {} ==>
                if HasAlready(old(instances)[chosen], UserIn(old(userProperties), chosen), properties, enabled) then
                  r == Ok(old(instances)[chosen]) && Valid() && Records() == old(Records())
                else
                  var plan := Planned(tree.scopes.at, scopedFields, old(instances)[chosen],
                                      UserIn(old(userProperties), chosen),
                                      UserIn(old(userProperties), chosen) + properties, Some(enabled), None, starts,
                                      killsUnknown && restarts, !bound || (saveWorks && old(CanSave())));
                  && Outcome(old(Records()), Records(), plan, r)
                  && (Valid() <==> UpdateKeeps(plan, Unwrapped(tree.scopes.at, scopedFields, old(instances)[chosen],
                                                               UserIn(old(userProperties), chosen))))
      ensures r.Ok? ==>
                && Valid()
                && r.value.uuid in instances && instances[r.value.uuid] == r.value
                && r.value.uuid == (if old(Matching(factory, moduleName, scope)) == {} then uuid else chosen)
                && RegistrationOf(r.value) == (moduleName, factory, scope) && r.value.scope == scope
                && r.value.enabled == enabled && instances == old(instances)[r.value.uuid := r.value]
                && r.value.uuid in userProperties
                && Injected(tree.scopes.at, scopedFields, r.value, userProperties[r.value.uuid])
                && (userProperties[r.value.uuid] == properties
                    <==> r.value.uuid !in old(userProperties)
                         || old(userProperties)[r.value.uuid].Keys <= properties.Keys)
      ensures r.Err? ==> instances == old(instances)
      ensures CanSave() == old(CanSave())
    {
      hide *;
      Facts();
      MatchingIs(factory, moduleName, scope);
      if Matching(factory, moduleName, scope) == {} {
        Unnamed(uuid);
        r := CreateInstance(factory, moduleName, scope, properties, enabled, 0, uuid, starts, saveWorks);
        Facts();
        CreatedFacts(tree.scopes.at, scopedFields, uuid, factory, moduleName, scope, properties, enabled, 0);
        return;
      }
      Known(chosen);
      ReconcileFacts(instances[chosen], UserIn(userProperties, chosen), properties, enabled);
      AddsOnly(UserIn(userProperties, chosen), properties);
      if HasAlready(instances[chosen], UserIn(userProperties, chosen), properties, enabled) {
        UpdateNothing(instances, chosen);
        DerivedOf(tree.scopes.at, scopedFields, instances, userProperties, chosen);
        InjectedMetadataIsCurrent(tree.scopes.at, scopedFields, instances[chosen], userProperties[chosen]);
        return Ok(instances[chosen]);
      }
      r := Reconcile(Planned(tree.scopes.at, scopedFields, instances[chosen], UserIn(userProperties, chosen),
                             UserIn(userProperties, chosen) + properties, Some(enabled), None, starts,
                             killsUnknown && restarts, !bound || (saveWorks && CanSave())),
                     chosen, properties, enabled, starts, restarts, killsUnknown, saveWorks);
    }

    lemma MatchingIs(factory: string, moduleName: string, scope: ScopeId)
      ensures forall u :: u in Matching(factory, moduleName, scope)
                          <==> u in instances && RegistrationOf(instances[u]) == (moduleName, factory, scope)
      ensures forall u :: u in Matching(factory, moduleName, scope) ==> instances[u].scope == scope
    {
    }

    lemma Unnamed(u: Uuid)
      requires Valid() && u !in instances
      ensures u !in userProperties
    {
    }

    /** The part of `ensure_instance` for an instance that is there and has other properties. */
    method Reconcile(ghost plan: Result<Plan, PropertyError>, u: Uuid, properties: Props, enabled: bool, starts: bool,
                     restarts: bool, killsUnknown: bool, saveWorks: bool)
      returns (r: Result<Instance, ManagerError>)
      requires Valid() && u in instances
      requires plan == Planned(tree.scopes.at, scopedFields, instances[u], UserIn(userProperties, u),
                               UserIn(userProperties, u) + properties, Some(enabled), None, starts,
                               killsUnknown && restarts, !bound || (saveWorks && CanSave()))
      modifies this`instances, this`userProperties, this`ipopo, this`stateVersion, store
      ensures Tables() && Outcome(old(Records()), Records(), plan, r)
      ensures Valid() <==> UpdateKeeps(plan, Unwrapped(tree.scopes.at, scopedFields, old(instances)[u],
                                                       UserIn(old(userProperties), u)))
      ensures r.Ok? ==>
                && Valid()
                && RegistrationOf(r.value) == RegistrationOf(old(instances)[u]) && r.value.uuid == u
                && r.value.scope == old(instances)[u].scope
                && r.value.enabled == enabled && instances == old(instances)[u := r.value]
                && u in userProperties && Injected(tree.scopes.at, scopedFields, r.value, userProperties[u])
                && userProperties == old(userProperties)[u := UserIn(old(userProperties), u) + properties]
      ensures r.Err? ==> instances == old(instances)
      ensures CanSave() == old(CanSave())
    {
      hide *;
      Facts();
      Known(u);
      ReconcileFacts(instances[u], UserIn(userProperties, u), properties, enabled);
      PlanFacts(tree.scopes.at, scopedFields, plugins, instances[u], UserIn(userProperties, u),
                UserIn(userProperties, u) + properties, Some(enabled), None, starts, killsUnknown && restarts,
                !bound || (saveWorks && CanSave()));
      r := UpdateInstance(u, if properties == map[] then None else Some(properties), Some(enabled), None,
                          starts, restarts, killsUnknown, saveWorks);
      Facts();
      EndsWith(old(Records()), Records(), plan, r,
               Unwrapped(tree.scopes.at, scopedFields, old(instances)[u], UserIn(old(userProperties), u)));
    }

    // ---------------------------------------------------------- scopes

    /** Creates a scope, or accepts one that is already there under the same parent. */
    method AddScope(scope: ScopeId, name: string, parent: Option<ScopeId>) returns (r: Result<(), ManagerError>)
      requires Valid()
      modifies tree, tree.store
      ensures Valid()
      ensures var wanted := OrElse(parent, ROOT_SCOPE_ID);
              && r == (if scope in old(tree.scopes.at) then
                         if old(tree.scopes.at)[scope].parent == Some(wanted) then Ok(()) else Err(DifferentParent)
                       else if IsBlank(scope) || IsBlank(name) then Err(ScopeFailed(ScopeTree.BlankText))
                       else if wanted !in old(tree.scopes.at) then Err(ScopeFailed(ScopeTree.NotFound(wanted)))
                       else if !old(CanWriteScopes()) then Err(ScopeFailed(ScopeTree.StaleVersion))
                       else Ok(()))
              && (r.Ok? ==> scope in tree.scopes.at && tree.scopes.at[scope].parent == Some(wanted))
              && (r.Err? ==> tree.View() == old(tree.View()) && tree.store.saved == old(tree.store.saved))
              && (scope in old(tree.scopes.at) ==> tree.View() == old(tree.View()))
              && (scope !in old(tree.scopes.at) && r.Ok? ==>
                    tree.scopes.at == WithScope(old(tree.scopes.at), scope, name, wanted))
      ensures CanWriteScopes() == old(CanWriteScopes())
    {
      hide DefinitionsAgree, InstancesAgree, IndexAgrees, LiveAgrees, PropertiesDerived;
      var wanted := OrElse(parent, ROOT_SCOPE_ID);
      if scope in tree.scopes.at {
        return if tree.scopes.at[scope].parent == Some(wanted) then Ok(()) else Err(DifferentParent);
      }
      ghost var before := tree.scopes.at;
      ScopeTree.StepOfCreate(tree.View(), tree.store.saved, scope, name, wanted);
      hide IsTree, ScopeTree.Step;
      var created := tree.Create(scope, name, wanted);
      if created.Err? {
        return Err(ScopeFailed(created.error));
      }
      ScopeAdded(instances, userProperties, plugins, before, scopedFields, scope, name, wanted);
      r := Ok(());
    }

    /** The filter selecting what a consumer in this scope may see. */
    method ScopeFilter(scope: ScopeId) returns (r: Result<string, ManagerError>)
      requires tree.Valid()
      ensures r == if scope in tree.scopes.at then Ok(VisibilityFilter(Chain(tree.scopes.at, scope)))
                   else Err(ScopeFailed(ScopeTree.NotFound(scope)))
    {
      var visible := tree.Ancestors(scope, true);
      r := if visible.Ok? then Ok(VisibilityFilter(visible.value)) else Err(ScopeFailed(visible.error));
    }

    /** Deletes a set of instances without saving. */
    method RemoveRecords(gone: set<Uuid>)
      requires Valid() && gone <= instances.Keys
      modifies this`instances, this`userProperties, this`registrationInstances, this`ipopo
      ensures Valid()
      ensures instances == old(instances) - gone && userProperties == old(userProperties) - gone
      ensures ipopo == old(ipopo) - gone
    {
      hide DefinitionsAgree, IsTree, ScopeTree.Table.Ordered, InstancesAgree, IndexAgrees, LiveAgrees;
      hide PropertiesDerived;
      var todo := gone;
      assert gone - todo == {};
      DropNone(instances);
      DropNone(userProperties);
      DropNone(ipopo);
      while todo != {}
        invariant Valid() && todo <= instances.Keys && todo <= gone
        invariant instances == old(instances) - (gone - todo) && userProperties == old(userProperties) - (gone - todo)
        invariant ipopo == old(ipopo) - (gone - todo)
        decreases todo
      {
        var u :| u in todo;
        DropOneMore(old(instances), gone - todo, u);
        DropOneMore(old(userProperties), gone - todo, u);
        DropOneMore(old(ipopo), gone - todo, u);
        assert gone - (todo - {u}) == (gone - todo) + {u};
        RemoveRecord(u);
        todo := todo - {u};
      }
      assert gone - {} == gone;
    }

    /** Removes scopes no instance lives in. */
    method DropScope(scope: ScopeId, recursive: bool) returns (error: Option<ScopeTree.ScopeError>)
      requires Valid()
      requires scope in tree.scopes.at ==>
                 forall u :: u in instances ==> instances[u].scope !in Subtree(tree.scopes.at, scope)
      modifies tree, tree.store
      ensures Valid()
      ensures error == if scope == ROOT_SCOPE_ID then Some(ScopeTree.RootRemoval)
                       else if scope !in old(tree.scopes.at) then Some(ScopeTree.NotFound(scope))
                       else if !recursive && Subtree(old(tree.scopes.at), scope) != {scope}
                       then Some(ScopeTree.NotEmpty(scope))
                       else if !old(CanWriteScopes()) then Some(ScopeTree.StaleVersion) else None
      ensures error.Some? ==> tree.View() == old(tree.View())
      ensures error.None? ==> tree.scopes.at == old(tree.scopes.at) - Subtree(old(tree.scopes.at), scope)
      ensures CanWriteScopes() == old(CanWriteScopes())
    {
      hide DefinitionsAgree, InstancesAgree, IndexAgrees, LiveAgrees, PropertiesDerived;
      ghost var f := tree.scopes.at;
      ScopesInUse(instances, userProperties, plugins, f);
      var removed := tree.Remove(scope, recursive);
      if removed.Err? {
        return Some(removed.error);
      }
      WithoutSubtreeKeepsChains(f, scope);
      InstancesOutside(instances, userProperties, plugins, f, tree.scopes.at);
      DerivedSurvives(f, tree.scopes.at, scopedFields, instances, userProperties);
      error := None;
    }

    /** The instances living in some of the given scopes. */
    function LivingIn(scopes: set<ScopeId>): set<Uuid>
      reads this`instances
    {
      set u | u in instances && instances[u].scope in scopes
    }

    /** The instances a removal would delete, or why it is refused. */
    method CheckRemoval(scope: ScopeId, recursive: bool) returns (r: Result<set<Uuid>, ManagerError>)
      requires tree.Valid()
      ensures scope !in tree.scopes.at ==> r == Err(ScopeFailed(ScopeTree.NotFound(scope)))
      ensures scope in tree.scopes.at ==>
                var below := Subtree(tree.scopes.at, scope);
                r == if !recursive && below != {scope} then Err(ScopeHasChildren)
                     else if !recursive && LivingIn({scope}) != {} then Err(ScopeHasInstances)
                     else Ok(LivingIn(below))
    {
      hide IsTree, ScopeTree.Table.Ordered, ScopeTree.DepthFirst, ScopeTree.KidsOf, ScopeTree.RootsFirst, LivingIn;
      var targets := {scope};
      if recursive {
        var below := tree.Descendants(scope);
        if below.Err? {
          return Err(ScopeFailed(below.error));
        }
        targets := targets + (set k | k in below.value);
      }
      var affected := LivingIn(targets);
      if !recursive {
        var kids := tree.Children(scope);
        if kids.Err? {
          return Err(ScopeFailed(kids.error));
        }
        ChildlessIff(tree.scopes.at, scope);
        if kids.value != [] {
          assert kids.value[0] in kids.value;
          return Err(ScopeHasChildren);
        }
        if affected != {} {
          return Err(ScopeHasInstances);
        }
      }
      ChildlessIff(tree.scopes.at, scope);
      assert targets == Subtree(tree.scopes.at, scope);
      r := Ok(affected);
    }

    /**
     Removes a scope.  Alone, it must have no child scopes and no instances; recursively, all that
     lives below it goes first.  The tables agree afterwards in every case.
     */
    method RemoveScope(scope: ScopeId, recursive: bool, saveWorks: bool) returns (r: Result<(), ManagerError>)
      requires Valid()
      modifies this`instances, this`userProperties, this`registrationInstances, this`ipopo, this`stateVersion, store
      modifies tree, tree.store
      ensures Valid()
      ensures scope !in old(tree.scopes.at) ==> r == Err(ScopeFailed(ScopeTree.NotFound(scope)))
      ensures scope in old(tree.scopes.at) ==>
                var below := Subtree(old(tree.scopes.at), scope);
                if !recursive && below != {scope} then r == Err(ScopeHasChildren)
                else if !recursive && old(LivingIn({scope})) != {} then r == Err(ScopeHasInstances)
                else
                  && instances == old(instances) - old(LivingIn(below)) && LivingIn(below) == {}
                  && userProperties == old(userProperties) - old(LivingIn(below))
                  && ipopo == old(ipopo) - old(LivingIn(below))
                  && (if scope == ROOT_SCOPE_ID || !old(CanWriteScopes()) then
                        && r == Err(ScopeFailed(if scope == ROOT_SCOPE_ID then ScopeTree.RootRemoval
                                                else ScopeTree.StaleVersion))
                        && tree.View() == old(tree.View())
                      else
                        && tree.scopes.at == old(tree.scopes.at) - below
                        && r == if !bound || (saveWorks && old(CanSave())) then Ok(()) else Err(StoreFailed))
      ensures scope !in old(tree.scopes.at) || r == Err(ScopeHasChildren) || r == Err(ScopeHasInstances) ==>
                && instances == old(instances) && userProperties == old(userProperties) && ipopo == old(ipopo)
                && tree.View() == old(tree.View()) && tree.store.saved == old(tree.store.saved)
                && store.saved == old(store.saved)
      ensures scope in old(tree.scopes.at) && r != Err(ScopeHasChildren) && r != Err(ScopeHasInstances) ==>
                forall u :: u in instances <==>
                  u in old(instances) && old(instances)[u].scope !in Subtree(old(tree.scopes.at), scope)
      ensures r == Err(ScopeHasInstances) ==> exists u :: u in instances && instances[u].scope == scope
      ensures r.Ok? ==> Mirrored() && CanSave()
      ensures CanWriteScopes() == old(CanWriteScopes())
      ensures CanSave() == old(CanSave())
    {
      hide *;
      Facts();
      LivingAre({scope});
      LivingAre(Subtree(tree.scopes.at, scope));
      var affected := CheckRemoval(scope, recursive);
      if affected.Err? {
        return Err(affected.error);
      }
      NobodyLeft(scope);
      RemoveRecords(affected.value);
      NobodyIn(Subtree(tree.scopes.at, scope));
      Facts();
      var error := DropScope(scope, recursive);
      Facts();
      if error.Some? {
        return Err(ScopeFailed(error.value));
      }
      var saved := PersistState(saveWorks);
      Facts();
      r := if saved then Ok(()) else Err(StoreFailed);
    }

    lemma LivingAre(scopes: set<ScopeId>)
      ensures forall u :: u in LivingIn(scopes) <==> u in instances && instances[u].scope in scopes
      ensures LivingIn(scopes) != {} ==> exists u :: u in instances && instances[u].scope in scopes
    {
      if LivingIn(scopes) != {} {
        var u :| u in LivingIn(scopes);
        assert instances[u].scope in scopes;
      }
    }

    lemma NobodyIn(scopes: set<ScopeId>)
      ensures (forall u :: u in instances ==> instances[u].scope !in scopes) ==> LivingIn(scopes) == {}
    {
    }

    /** Where nobody lives in a subtree any more once those that did are gone. */
    lemma NobodyLeft(scope: ScopeId)
      requires tree.Valid()
      ensures scope in tree.scopes.at ==>
                var affected := LivingIn(Subtree(tree.scopes.at, scope));
                && affected <= instances.Keys
                && (forall u :: u in instances - affected ==> instances[u].scope !in Subtree(tree.scopes.at, scope))
      ensures scope in tree.scopes.at && Subtree(tree.scopes.at, scope) == {scope} ==>
                LivingIn({scope}) == LivingIn(Subtree(tree.scopes.at, scope))
    {
    }
  }

  /** A new leaf of the tree disturbs no instance. */
  lemma ScopeAdded(instances: map<Uuid, Instance>, user: map<Uuid, Props>, plugins: map<DefinitionKey, Descriptor>,
                   f: Forest, scopedFields: string -> set<string>, scope: ScopeId, name: string, parent: ScopeId)
    requires IsTree(f) && scope !in f && parent in f
    requires InstancesAgree(instances, user, plugins, f) && PropertiesDerived(f, scopedFields, instances, user)
    ensures InstancesAgree(instances, user, plugins, WithScope(f, scope, name, parent))
    ensures PropertiesDerived(WithScope(f, scope, name, parent), scopedFields, instances, user)
  {
    var g := WithScope(f, scope, name, parent);
    WithScopeKeepsChains(f, scope, name, parent);
    InstancesOutside(instances, user, plugins, f, g);
    ScopesInUse(instances, user, plugins, f);
    hide InstancesAgree, PropertiesDerived;
    DerivedSurvives(f, g, scopedFields, instances, user);
  }

  function MatchingIn(instances: map<Uuid, Instance>, factory: string, moduleName: string, scope: ScopeId): set<Uuid> {
    set u | u in instances && RegistrationOf(instances[u]) == (moduleName, factory, scope)
  }

  /** The recorded and the live result of a successful creation. */
  ghost function Created(f: Forest, scopedFields: string -> set<string>, uuid: Uuid, factory: string,
                         moduleName: string, scope: ScopeId, user: Props, enabled: bool, ranking: int)
    : Result<Instance, PropertyError>
  {
    var bare := Instance(uuid, factory, moduleName, scope, map[], enabled, ranking,
                         if enabled then Active else Disabled);
    if !HasChain(f, scope) then Err(InvalidFilters)
    else
      match Effective(user, PlacementOf(f, scopedFields, bare))
      case Err(e) => Err(e)
      case Ok(props) => Ok(bare.(props := props))
  }

  /** What an update of an instance sets out to do; `was` is what its user properties are compared with. */
  ghost function Planned(f: Forest, scopedFields: string -> set<string>, current: Instance, was: Props, user: Props,
                         enabled: Option<bool>, ranking: Option<int>, starts: bool, recovers: bool, canSave: bool)
    : Result<Plan, PropertyError>
  {
    match Created(f, scopedFields, current.uuid, current.factory, current.moduleName, current.scope, user,
                  OrElse(enabled, current.enabled), OrElse(ranking, current.ranking))
    case Err(e) => Err(e)
    case Ok(next) => Ok(Plan(current, next, user, NeedsStart(current, next, user != was), starts, recovers, canSave))
  }

  /** Whether an update has to build the component anew. */
  predicate NeedsStart(current: Instance, next: Instance, userChanged: bool) {
    next.enabled
    && (current.status == Disabled || next.enabled != current.enabled || next.ranking != current.ranking || userChanged)
  }

  lemma StartFacts(current: Instance, next: Instance, userChanged: bool,
                          plugins: map<DefinitionKey, Descriptor>, f: Forest)
    requires InstanceAgrees(current.uuid, current, plugins, f) && InstanceAgrees(current.uuid, next, plugins, f)
    ensures next.uuid == current.uuid
    ensures current.status == (if current.enabled then Active else Disabled)
    ensures next.status == (if next.enabled then Active else Disabled)
    ensures NeedsStart(current, next, userChanged) ==> next.enabled
    ensures next.enabled && !current.enabled ==> NeedsStart(current, next, userChanged)
    ensures next.enabled && !NeedsStart(current, next, userChanged) ==> !userChanged && next.ranking == current.ranking
  {
  }

  lemma SamePropsWithoutStart(f: Forest, scopedFields: string -> set<string>, instances: map<Uuid, Instance>,
                                     user: map<Uuid, Props>, current: Instance, next: Instance, own: Props)
    requires current.uuid in instances && current.uuid in user && instances[current.uuid] == current
    requires RegistrationOf(next) == RegistrationOf(current) && next.uuid == current.uuid
    requires InstanceDerived(f, scopedFields, next, own)
    requires next.enabled && !NeedsStart(current, next, own != user[current.uuid]) ==> next.ranking == current.ranking
    ensures PropertiesDerived(f, scopedFields, instances, user) && next.enabled
            && !NeedsStart(current, next, own != user[current.uuid])
            ==> next.props == current.props
  {
    hide InstanceDerived;
    SameInputsSameProps(f, scopedFields, current, next, user[current.uuid], own);
  }

  /** What an update leaves in the tables and among the live components. */
  function MovedTo(before: InstanceTables, plan: Plan): InstanceTables {
    var u := plan.current.uuid;
    if plan.start && !plan.starts then
      before.(ipopo := if plan.current.status == Active && !plan.recovers then before.ipopo - {u} else before.ipopo)
    else
      var live := if !plan.next.enabled then before.ipopo - {u}
                  else if plan.start then before.ipopo[u := plan.next.props] else before.ipopo;
      if plan.canSave then InstanceTables(before.instances[u := plan.next], before.user[u := plan.user], live)
      else InstanceTables(before.instances, before.user[u := plan.current.props], live)
  }

  function ResultOf(plan: Plan): Result<Instance, ManagerError> {
    if plan.start && !plan.starts then Err(ComponentFailed)
    else if plan.canSave then Ok(plan.next) else Err(StoreFailed)
  }

  predicate Moved(before: InstanceTables, after: InstanceTables, plan: Plan, r: Result<Instance, ManagerError>) {
    r == ResultOf(plan) && after == MovedTo(before, plan)
  }

  /**
   Whether the live components match the records after an update: not when the new component did
   not start and the old one was not started again, nor when saving failed after the component had
   changed, nor when the record changed without the component being built anew.
   */
  predicate InStepAfter(plan: Plan) {
    if plan.start && !plan.starts then plan.current.status == Disabled || plan.recovers
    else if plan.canSave then !plan.next.enabled || plan.start || plan.next.props == plan.current.props
    else plan.next.enabled == plan.current.enabled && (plan.start ==> plan.next.props == plan.current.props)
  }

  /** An update either has no plan, and changes nothing, or follows it. */
  predicate Outcome(before: InstanceTables, after: InstanceTables, plan: Result<Plan, PropertyError>,
                    r: Result<Instance, ManagerError>)
  {
    match plan
    case Err(problem) => r == Err(BadProperties(problem)) && after == before
    case Ok(p) => Moved(before, after, p, r)
  }

  /** Whether tables that all agreed do so again after an update; `unwrapped` is about the old record. */
  predicate UpdateKeeps(plan: Result<Plan, PropertyError>, unwrapped: bool) {
    plan.Ok? ==>
      InStepAfter(plan.value) && (plan.value.canSave || (plan.value.start && !plan.value.starts) || unwrapped)
  }

  lemma LiveAfterMove(before: InstanceTables, after: InstanceTables, plan: Plan, r: Result<Instance, ManagerError>)
    requires LiveAgrees(before.ipopo, before.instances)
    requires plan.current.uuid in before.instances && before.instances[plan.current.uuid] == plan.current
    requires plan.next.uuid == plan.current.uuid
    requires plan.current.status == (if plan.current.enabled then Active else Disabled)
    requires plan.next.status == (if plan.next.enabled then Active else Disabled)
    requires plan.next.enabled && !plan.start ==> plan.current.status == Active
    requires plan.start ==> plan.next.enabled
    requires Moved(before, after, plan, r)
    ensures LiveAgrees(after.ipopo, after.instances) <==> InStepAfter(plan)
  {
    hide LiveAgrees;
    if plan.start && !plan.starts {
      KilledComponent(before.ipopo, before.instances, plan.current, plan.recovers, after.ipopo);
    } else if plan.canSave {
      UpdatedComponent(before.ipopo, before.instances, plan.current, plan.next, plan.start, after.ipopo,
                       after.instances);
    } else {
      RevertedComponent(before.ipopo, before.instances, plan.current, plan.next, plan.start, after.ipopo);
    }
  }

  /** What is not built anew has the same properties, so a normal return leaves the live components in step. */
  lemma OkInStep(f: Forest, scopedFields: string -> set<string>, plugins: map<DefinitionKey, Descriptor>,
                 instances: map<Uuid, Instance>, user: map<Uuid, Props>, u: Uuid, own: Props, enabled: Option<bool>,
                 ranking: Option<int>, starts: bool, recovers: bool, canSave: bool)
    requires PropertiesDerived(f, scopedFields, instances, user) && u in instances && u in user
    requires instances[u].uuid == u && InstanceAgrees(u, instances[u], plugins, f)
    ensures var plan := Planned(f, scopedFields, instances[u], user[u], own, enabled, ranking, starts, recovers,
                                canSave);
            && (plan.Ok? && starts && canSave ==> InStepAfter(plan.value))
            && forall before, after, r {:trigger Outcome(before, after, plan, r)} ::
              Outcome(before, after, plan, r) && r.Ok? ==> plan.Ok? && InStepAfter(plan.value)
  {
    hide PropertiesDerived, Effective;
    var plan := Planned(f, scopedFields, instances[u], user[u], own, enabled, ranking, starts, recovers, canSave);
    PlanFacts(f, scopedFields, plugins, instances[u], user[u], own, enabled, ranking, starts, recovers, canSave);
    if plan.Ok? {
      StartFacts(instances[u], plan.value.next, own != user[u], plugins, f);
      SamePropsWithoutStart(f, scopedFields, instances, user, instances[u], plan.value.next, own);
    }
  }

  /** How an update ends is known from its plan. */
  lemma EndsWith(before: InstanceTables, after: InstanceTables, plan: Result<Plan, PropertyError>,
                 r: Result<Instance, ManagerError>, unwrapped: bool)
    requires Outcome(before, after, plan, r)
    ensures r.Ok? ==>
              && plan.Ok? && r.value == plan.value.next
              && after.instances == before.instances[plan.value.current.uuid := plan.value.next]
              && after.user == before.user[plan.value.current.uuid := plan.value.user]
    ensures r.Err? ==> after.instances == before.instances
    ensures UpdateKeeps(plan, unwrapped)
            <==> (plan.Err? || InStepAfter(plan.value)) && (r != Err(StoreFailed) || unwrapped)
  {
  }

  lemma ReconcileFacts(i: Instance, user: Props, properties: Props, enabled: bool)
    ensures HasAlready(i, user, properties, enabled) <==> i.enabled == enabled && user == properties
    ensures MergedOver(user, if properties == map[] then None else Some(properties)) == user + properties
    ensures MergedOver(map[], Some(properties)) == properties
  {
    assert map[] + properties == properties;
    assert user + map[] == user;
  }

  /** A caller can tell from the user's properties alone whether a creation accepts them. */
  lemma CreatedIff(f: Forest, scopedFields: string -> set<string>, uuid: Uuid, factory: string, moduleName: string,
                   scope: ScopeId, user: Props, enabled: bool, ranking: int)
    requires HasChain(f, scope)
    ensures Created(f, scopedFields, uuid, factory, moduleName, scope, user, enabled, ranking).Ok?
            <==> Acceptable(user, scopedFields(moduleName))
  {
    var bare := Instance(uuid, factory, moduleName, scope, map[], enabled, ranking,
                         if enabled then Active else Disabled);
    EffectiveIff(user, PlacementOf(f, scopedFields, bare));
  }

  lemma CreatedFacts(f: Forest, scopedFields: string -> set<string>, uuid: Uuid, factory: string, moduleName: string,
                     scope: ScopeId, user: Props, enabled: bool, ranking: int)
    ensures var i := Created(f, scopedFields, uuid, factory, moduleName, scope, user, enabled, ranking);
            i.Ok? ==>
              && i.value.uuid == uuid && i.value.enabled == enabled && i.value.scope == scope
              && i.value.ranking == ranking
              && RegistrationOf(i.value) == (moduleName, factory, scope)
  {
  }

  lemma PlannedIs(f: Forest, scopedFields: string -> set<string>, current: Instance, was: Props, user: Props,
                  enabled: Option<bool>, ranking: Option<int>, starts: bool, recovers: bool, canSave: bool)
    ensures var next := Created(f, scopedFields, current.uuid, current.factory, current.moduleName, current.scope, user,
                                OrElse(enabled, current.enabled), OrElse(ranking, current.ranking));
            Planned(f, scopedFields, current, was, user, enabled, ranking, starts, recovers, canSave)
            == match next
               case Err(e) => Err(e)
               case Ok(n) => Ok(Plan(current, n, user, NeedsStart(current, n, user != was), starts, recovers, canSave))
  {
  }

  lemma OutcomeIs(before: InstanceTables, after: InstanceTables, plan: Result<Plan, PropertyError>,
                  r: Result<Instance, ManagerError>)
    ensures Outcome(before, after, plan, r)
            <==> match plan
                 case Err(problem) => r == Err(BadProperties(problem)) && after == before
                 case Ok(p) => Moved(before, after, p, r)
  {
  }

  /** What a plan says about the instance that is to come. */
  lemma PlanFacts(f: Forest, scopedFields: string -> set<string>, plugins: map<DefinitionKey, Descriptor>,
                  current: Instance, was: Props, user: Props, enabled: Option<bool>, ranking: Option<int>, starts: bool,
                  recovers: bool, canSave: bool)
    requires InstanceAgrees(current.uuid, current, plugins, f)
    ensures var plan := Planned(f, scopedFields, current, was, user, enabled, ranking, starts, recovers, canSave);
            plan.Ok? ==>
              && plan.value.current == current && plan.value.user == user && plan.value.canSave == canSave
              && plan.value.next.uuid == current.uuid && plan.value.next.enabled == OrElse(enabled, current.enabled)
              && (enabled.Some? ==> plan.value.next.enabled == enabled.value)
              && plan.value.next.scope == current.scope && RegistrationOf(plan.value.next) == RegistrationOf(current)
              && InstanceDerived(f, scopedFields, plan.value.next, user)
              && (ranking == None && plan.value.next.enabled ==>
                  (plan.value.start <==> !current.enabled || user != was))
  {
    hide Effective;
  }

  /** The record to come: as it was, but for what the caller names and what is computed from that. */
  predicate Revised(current: Instance, enabled: Option<bool>, ranking: Option<int>, next: Instance) {
    next == current.(props := next.props,
                     enabled := if enabled.Some? then enabled.value else current.enabled,
                     ranking := if ranking.Some? then ranking.value else current.ranking,
                     status := if next.enabled then Active else Disabled)
  }

  lemma NextIs(f: Forest, scopedFields: string -> set<string>, current: Instance, was: Props, user: Props,
               enabled: Option<bool>, ranking: Option<int>, starts: bool, recovers: bool, canSave: bool)
    ensures var plan := Planned(f, scopedFields, current, was, user, enabled, ranking, starts, recovers, canSave);
            forall before, after, r {:trigger Outcome(before, after, plan, r)} ::
              Outcome(before, after, plan, r) && r.Ok? ==> Revised(current, enabled, ranking, r.value)
  {
    hide Effective;
  }

  lemma ClearedDerived(f: Forest, scopedFields: string -> set<string>, instances: map<Uuid, Instance>,
                       user: map<Uuid, Props>, u: Uuid)
    requires PropertiesDerived(f, scopedFields, instances, user) && u in instances && instances[u].uuid == u
    ensures PropertiesDerived(f, scopedFields, instances, user[u := map[]])
            <==> InstanceDerived(f, scopedFields, instances[u], map[])
  {
    hide InstanceDerived;
    DerivedChanged(f, scopedFields, instances, user, instances[u], map[]);
    UpdateNothing(instances, u);
  }

  lemma UserPut(user: map<Uuid, Props>, u: Uuid, own: Props)
    ensures u in user[u := own] && user[u := own][u] == own
  {
  }

  /** When a normal return leaves live components in step although the user's properties were cleared. */
  lemma AppliedInStepIff(f: Forest, scopedFields: string -> set<string>, plugins: map<DefinitionKey, Descriptor>,
                         current: Instance, properties: Props, enabled: bool, starts: bool, recovers: bool,
                         canSave: bool,
                         before: InstanceTables, after: InstanceTables, r: Result<Instance, ManagerError>)
    requires InstanceAgrees(current.uuid, current, plugins, f)
    ensures var plan := Planned(f, scopedFields, current, map[], properties, Some(enabled), None, starts, recovers,
                                canSave);
            Outcome(before, after, plan, r) && r.Ok? ==>
              && plan.Ok?
              && (InStepAfter(plan.value)
                  <==> !(enabled && current.enabled && properties == map[] && plan.value.next.props != current.props))
  {
    hide Planned;
    PlanFacts(f, scopedFields, plugins, current, map[], properties, Some(enabled), None, starts, recovers, canSave);
  }

  function UserIn(user: map<Uuid, Props>, u: Uuid): Props {
    if u in user then user[u] else map[]
  }

  /** Nothing is left to reconcile. */
  predicate HasAlready(i: Instance, user: Props, properties: Props, enabled: bool) {
    i.enabled == enabled && user == properties
  }

  function OrElse<T>(value: Option<T>, default: T): T {
    if value.Some? then value.value else default
  }

  function MergedOver(user: Props, properties: Option<Props>): Props {
    if properties.Some? then user + properties.value else user
  }
}
