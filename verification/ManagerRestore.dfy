/** Rebuilding a manager after a restart from the image it saved. */
module ManagerRestore {
  import opened Common
  import opened ScopeForest
  import opened EffectiveProperties
  import opened PluginTables
  import opened PluginManager
  import AgentRecords
  import ScopeRestore
  import ScopeTree

  datatype RestoreError =
    | ScopesFailed(reason: ScopeRestore.RestoreError)
    | DefinitionFailed(error: ManagerError)
    | NotSaved

  // ------------------------------------------------------------ instances

  /** Instances in agents' scopes are left to the agent directory. */
  function Kept(saved: map<Uuid, Instance>): set<Uuid> {
    set u | u in saved && !("agent:" <= saved[u].scope)
  }

  /** The instance lives in the scope of some agent. */
  ghost predicate AtAgent(i: Instance) {
    exists a: string :: i.scope == "agent:" + a
  }

  ghost predicate NoneAtAgents(saved: map<Uuid, Instance>) {
    forall u :: u in saved ==> !AtAgent(saved[u])
  }

  /** Who is left out is who lives in the scope of some agent. */
  lemma KeptIff(saved: map<Uuid, Instance>)
    ensures forall u :: u in Kept(saved) <==> u in saved && !AtAgent(saved[u])
    ensures Kept(saved) == saved.Keys <==> NoneAtAgents(saved)
  {
    forall u | u in saved ensures u in Kept(saved) <==> !AtAgent(saved[u]) {
      var scope := saved[u].scope;
      if "agent:" <= scope {
        assert scope == "agent:" + scope[6..];
      }
      forall a: string | scope == "agent:" + a ensures "agent:" <= scope {
        assert ("agent:" + a)[..6] == "agent:";
      }
    }
  }

  lemma KeptAll(saved: map<Uuid, Instance>)
    ensures Kept(saved) == saved.Keys <==> NoneAtAgents(saved)
  {
    KeptIff(saved);
  }

  /** Nobody is left in the scope of any agent. */
  lemma NobodyKept(saved: map<Uuid, Instance>, again: map<Uuid, Instance>)
    requires again.Keys == Kept(saved) && forall u :: u in again ==> again[u].scope == saved[u].scope
    ensures forall a :: AgentRecords.Living(again, a) == {}
    ensures forall u :: u in again <==> u in saved && forall a: string :: saved[u].scope != "agent:" + a
  {
    KeptIff(saved);
    forall a ensures AgentRecords.Living(again, a) == {} {
      forall u | u in again ensures again[u].scope != AgentRecords.AgentScope(a) {
        assert !AtAgent(saved[u]);
      }
    }
  }

  /** The restored record of a saved instance; `starts` is whether its component does, under a free name. */
  ghost function RestoredAs(f: Forest, scopedFields: string -> set<string>, plugins: map<DefinitionKey, Descriptor>,
                            i: Instance, starts: bool): Instance
  {
    if DefinitionOf(i) !in plugins then i.(status := Missing)
    else if !i.enabled then i.(status := Disabled)
    else
      match Created(f, scopedFields, i.uuid, i.factory, i.moduleName, i.scope, Strip(i.props), true, i.ranking)
      case Ok(again) => if starts then again else i.(status := Failed)
      case Err(_) => i.(status := Failed)
  }

  /** Only instances whose component was to be started get user properties and a place in the index. */
  predicate Tracked(i: Instance) {
    i.status == Active || i.status == Failed
  }

  ghost function RestoredAll(f: Forest, scopedFields: string -> set<string>, plugins: map<DefinitionKey, Descriptor>,
                             saved: map<Uuid, Instance>, some: set<Uuid>, taken: set<Uuid>, starts: Uuid -> bool)
    : map<Uuid, Instance>
  {
    map u | u in some && u in saved :: RestoredAs(f, scopedFields, plugins, saved[u], starts(u) && u !in taken)
  }

  function UserOf(saved: map<Uuid, Instance>, again: map<Uuid, Instance>): map<Uuid, Props> {
    map u | u in again && u in saved && Tracked(again[u]) :: Strip(saved[u].props)
  }

  function LiveOf(again: map<Uuid, Instance>): map<Uuid, Props> {
    map u | u in again && again[u].status == Active :: again[u].props
  }

  /** The tables with these restored instances on top. */
  function OnTop(before: InstanceTables, saved: map<Uuid, Instance>, again: map<Uuid, Instance>): InstanceTables {
    InstanceTables(before.instances + again, before.user + UserOf(saved, again), before.ipopo + LiveOf(again))
  }

  /** The index holds the tracked ones of the restored instances besides what it held. */
  ghost predicate IndexRestored(before: map<RegistrationKey, set<Uuid>>, after: map<RegistrationKey, set<Uuid>>,
                                instances: map<Uuid, Instance>, some: set<Uuid>)
  {
    forall k, u :: u in Lookup(after, k) <==>
      || u in Lookup(before, k)
      || (u in some && u in instances && Tracked(instances[u]) && RegistrationOf(instances[u]) == k)
  }

  lemma RestoredNone(before: InstanceTables, saved: map<Uuid, Instance>)
    ensures OnTop(before, saved, map[]) == before
  {
    assert UserOf(saved, map[]) == map[] && LiveOf(map[]) == map[];
  }

  lemma OnTopOneMore(before: InstanceTables, saved: map<Uuid, Instance>, again: map<Uuid, Instance>, u: Uuid,
                     i: Instance)
    requires u in saved && u !in again
    ensures var now := OnTop(before, saved, again);
            && OnTop(before, saved, again[u := i])
               == InstanceTables(now.instances[u := i],
                                 if Tracked(i) then now.user[u := Strip(saved[u].props)] else now.user,
                                 if i.status == Active then now.ipopo[u := i.props] else now.ipopo)
            && (u in now.ipopo <==> u in before.ipopo)
  {
    UserOneMore(saved, again, u, i);
    LiveOneMore(again, u, i);
    assert u !in LiveOf(again);
    hide UserOf, LiveOf, Tracked, Strip;
    PlusPut(before.instances, again, u, i);
    PlusPut(before.user, UserOf(saved, again), u, Strip(saved[u].props));
    PlusPut(before.ipopo, LiveOf(again), u, i.props);
  }

  lemma PlusPut<K, V>(table: map<K, V>, more: map<K, V>, key: K, value: V)
    ensures table + more[key := value] == (table + more)[key := value]
  {
  }

  lemma UserOneMore(saved: map<Uuid, Instance>, again: map<Uuid, Instance>, u: Uuid, i: Instance)
    requires u in saved && u !in again
    ensures UserOf(saved, again[u := i])
            == if Tracked(i) then UserOf(saved, again)[u := Strip(saved[u].props)] else UserOf(saved, again)
  {
  }

  lemma LiveOneMore(again: map<Uuid, Instance>, u: Uuid, i: Instance)
    requires u !in again
    ensures LiveOf(again[u := i]) == if i.status == Active then LiveOf(again)[u := i.props] else LiveOf(again)
  {
  }

  lemma RestoredAsFacts(f: Forest, scopedFields: string -> set<string>, plugins: map<DefinitionKey, Descriptor>,
                        i: Instance, starts: bool)
    ensures var again := RestoredAs(f, scopedFields, plugins, i, starts);
            again.uuid == i.uuid && RegistrationOf(again) == RegistrationOf(i)
  {
    CreatedFacts(f, scopedFields, i.uuid, i.factory, i.moduleName, i.scope, Strip(i.props), true, i.ranking);
    hide Created;
  }

  /** One saved instance; one that fails to come back is recorded all the same. */
  method RestoreInstance(m: PluginManager, i: Instance, starts: bool)
    requires m.tree.Valid()
    modifies m`instances, m`userProperties, m`registrationInstances, m`ipopo
    ensures var again := RestoredAs(m.tree.scopes.at, m.scopedFields, m.plugins, i, starts && i.uuid !in old(m.ipopo));
            && m.instances == old(m.instances)[i.uuid := again]
            && m.userProperties == (if Tracked(again) then old(m.userProperties)[i.uuid := Strip(i.props)]
                                    else old(m.userProperties))
            && m.ipopo == (if again.status == Active then old(m.ipopo)[i.uuid := again.props] else old(m.ipopo))
            && m.registrationInstances
               == (if Tracked(again) then
                     old(m.registrationInstances)[RegistrationOf(i) := Lookup(old(m.registrationInstances),
                                                                             RegistrationOf(i)) + {i.uuid}]
                   else old(m.registrationInstances))
  {
    hide IsTree, ScopeTree.Table.Ordered, Effective;
    if DefinitionOf(i) !in m.plugins {
      m.instances := m.instances[i.uuid := i.(status := Missing)];
      return;
    }
    if !i.enabled {
      m.instances := m.instances[i.uuid := i.(status := Disabled)];
      return;
    }
    var again := i.(status := Failed);
    if i.scope in m.tree.scopes.at {
      TreeHasChain(m.tree.scopes.at, i.scope);
      var at := m.CurrentPlacement(i.scope, i.factory, i.moduleName, i.uuid, i.ranking);
      var effective := ComputeEffective(Strip(i.props), at);
      if effective.Ok? {
        var started := m.Instantiate(i.uuid, effective.value, starts);
        if started {
          again := i.(props := effective.value, status := Active);
        }
      }
    }
    m.instances := m.instances[i.uuid := again];
    m.userProperties := m.userProperties[i.uuid := Strip(i.props)];
    m.registrationInstances :=
      m.registrationInstances[RegistrationOf(i) := Lookup(m.registrationInstances, RegistrationOf(i)) + {i.uuid}];
  }

  /** The loop over the saved instances, in whatever order. */
  method RestoreInstances(m: PluginManager, saved: map<Uuid, Instance>, starts: Uuid -> bool)
    requires m.tree.Valid() && forall u :: u in saved ==> saved[u].uuid == u
    modifies m`instances, m`userProperties, m`registrationInstances, m`ipopo
    ensures var again := RestoredAll(m.tree.scopes.at, m.scopedFields, m.plugins, saved, Kept(saved), old(m.ipopo).Keys,
                                     starts);
            m.Records() == OnTop(old(m.Records()), saved, again)
    ensures IndexRestored(old(m.registrationInstances), m.registrationInstances, m.instances, Kept(saved))
    ensures forall u :: u in m.instances <==> u in old(m.instances) || (u in saved && !AtAgent(saved[u]))
  {
    hide *;
    KeptIff(saved);
    OnTopHas(old(m.Records()), m.tree.scopes.at, m.scopedFields, m.plugins, saved, m.ipopo.Keys, starts);
    var todo := Kept(saved);
    m.Facts();
    KeptSaved(saved);
    RestoredNone(m.Records(), saved);
    AllNone(m.tree.scopes.at, m.scopedFields, m.plugins, saved, m.ipopo.Keys, starts);
    IndexNone(m.registrationInstances, m.instances);
    assert Kept(saved) - todo == {};
    while todo != {}
      invariant todo <= Kept(saved)
      invariant m.Records()
                == OnTop(old(m.Records()), saved,
                         RestoredAll(m.tree.scopes.at, m.scopedFields, m.plugins, saved, Kept(saved) - todo,
                                     old(m.ipopo).Keys, starts))
      invariant IndexRestored(old(m.registrationInstances), m.registrationInstances, m.instances, Kept(saved) - todo)
      decreases todo
    {
      var u :| u in todo;
      m.Facts();
      RestoredAsFacts(m.tree.scopes.at, m.scopedFields, m.plugins, saved[u], starts(u) && u !in old(m.ipopo).Keys);
      RestoredOneMore(old(m.Records()), m.tree.scopes.at, m.scopedFields, m.plugins, saved, Kept(saved) - todo,
                      old(m.ipopo).Keys, starts, u);
      IndexOneMore(old(m.registrationInstances), m.registrationInstances, m.instances, Kept(saved) - todo, saved[u],
                   RestoredAs(m.tree.scopes.at, m.scopedFields, m.plugins, saved[u],
                              starts(u) && u !in old(m.ipopo).Keys));
      assert Kept(saved) - (todo - {u}) == (Kept(saved) - todo) + {u};
      RestoreInstance(m, saved[u], starts(u));
      m.Facts();
      todo := todo - {u};
    }
    assert Kept(saved) - {} == Kept(saved);
    m.Facts();
  }

  lemma OnTopHas(before: InstanceTables, f: Forest, scopedFields: string -> set<string>,
                 plugins: map<DefinitionKey, Descriptor>, saved: map<Uuid, Instance>, taken: set<Uuid>,
                 starts: Uuid -> bool)
    ensures OnTop(before, saved,
                  RestoredAll(f, scopedFields, plugins, saved, Kept(saved), taken, starts)).instances.Keys
            == before.instances.Keys + Kept(saved)
  {
    hide RestoredAs, UserOf, LiveOf;
  }

  lemma KeptSaved(saved: map<Uuid, Instance>)
    ensures Kept(saved) <= saved.Keys
  {
  }

  lemma AllNone(f: Forest, scopedFields: string -> set<string>, plugins: map<DefinitionKey, Descriptor>,
                saved: map<Uuid, Instance>, taken: set<Uuid>, starts: Uuid -> bool)
    ensures RestoredAll(f, scopedFields, plugins, saved, {}, taken, starts) == map[]
  {
  }

  lemma RestoredOneMore(before: InstanceTables, f: Forest, scopedFields: string -> set<string>,
                        plugins: map<DefinitionKey, Descriptor>, saved: map<Uuid, Instance>, some: set<Uuid>,
                        taken: set<Uuid>, starts: Uuid -> bool, u: Uuid)
    requires u in saved && u !in some && taken == before.ipopo.Keys
    ensures var now := OnTop(before, saved, RestoredAll(f, scopedFields, plugins, saved, some, taken, starts));
            var i := RestoredAs(f, scopedFields, plugins, saved[u], starts(u) && u !in taken);
            && OnTop(before, saved, RestoredAll(f, scopedFields, plugins, saved, some + {u}, taken, starts))
               == InstanceTables(now.instances[u := i],
                                 if Tracked(i) then now.user[u := Strip(saved[u].props)] else now.user,
                                 if i.status == Active then now.ipopo[u := i.props] else now.ipopo)
            && (u in now.ipopo <==> u in taken)
  {
    hide RestoredAs, OnTop;
    var again := RestoredAll(f, scopedFields, plugins, saved, some, taken, starts);
    var i := RestoredAs(f, scopedFields, plugins, saved[u], starts(u) && u !in taken);
    assert RestoredAll(f, scopedFields, plugins, saved, some + {u}, taken, starts) == again[u := i];
    OnTopOneMore(before, saved, again, u, i);
  }

  lemma IndexNone(index: map<RegistrationKey, set<Uuid>>, instances: map<Uuid, Instance>)
    ensures IndexRestored(index, index, instances, {})
  {
  }

  lemma IndexOneMore(before: map<RegistrationKey, set<Uuid>>, now: map<RegistrationKey, set<Uuid>>,
                     instances: map<Uuid, Instance>, some: set<Uuid>, i: Instance, again: Instance)
    requires IndexRestored(before, now, instances, some) && i.uuid !in some
             && RegistrationOf(again) == RegistrationOf(i)
    ensures var key := RegistrationOf(i);
            IndexRestored(before, if Tracked(again) then now[key := Lookup(now, key) + {i.uuid}] else now,
                          instances[i.uuid := again], some + {i.uuid})
  {
    var key := RegistrationOf(i);
    var after := if Tracked(again) then now[key := Lookup(now, key) + {i.uuid}] else now;
    forall k, u
      ensures u in Lookup(after, k) <==>
                || u in Lookup(now, k)
                || (u == i.uuid && Tracked(again) && k == key)
    {
    }
    hide Tracked, RegistrationOf, Lookup;
  }

  // ------------------------------------------------------------ definitions

  /** `_install_definition` without saving, for a definition that is not installed. */
  method InstallQuietly(m: PluginManager, d: Descriptor, works: bool) returns (error: Option<ManagerError>)
    requires DefinitionsAgree(m.plugins, m.registry, m.bundles, m.moduleRefs) && KeyOf(d) !in m.plugins
    modifies m`plugins, m`registry, m`bundles, m`moduleRefs
    ensures DefinitionsAgree(m.plugins, m.registry, m.bundles, m.moduleRefs)
    ensures error.None? <==>
              ValidDescriptor(d) && d.factory !in old(m.registry) && (d.moduleName in old(m.bundles) || works)
    ensures error.None? ==>
              && m.plugins == old(m.plugins)[KeyOf(d) := d] && m.registry == old(m.registry)[d.factory := d]
              && m.bundles == old(m.bundles) + {d.moduleName}
    ensures error.Some? ==>
              && m.plugins == old(m.plugins) && m.registry == old(m.registry) && m.bundles == old(m.bundles)
  {
    hide DefinitionsAgree;
    if !ValidDescriptor(d) {
      return Some(InvalidDescriptor);
    }
    FreeFactory(m.plugins, m.registry, m.bundles, m.moduleRefs, d);
    if d.factory in m.registry && m.registry[d.factory].moduleName != d.moduleName {
      return Some(IdentityConflict);
    }
    if d.moduleName !in m.bundles && !works {
      return Some(BundleFailed);
    }
    m.AddDefinition(d);
    error := None;
  }

  /** The saved definitions that are not installed. */
  function NotInstalled(descriptors: map<string, Descriptor>, plugins: map<DefinitionKey, Descriptor>)
    : map<string, Descriptor>
  {
    map f | f in descriptors && KeyOf(descriptors[f]) !in plugins :: descriptors[f]
  }

  predicate Installable(d: Descriptor, registry: map<string, Descriptor>, bundles: set<string>, works: string -> bool) {
    ValidDescriptor(d) && d.factory !in registry && (d.moduleName in bundles || works(d.moduleName))
  }

  /** Installs the saved definitions that are not there yet, in whatever order; stops at the first failure. */
  method RestoreDefinitions(m: PluginManager, descriptors: map<string, Descriptor>, works: string -> bool)
    returns (error: Option<ManagerError>)
    requires DefinitionsAgree(m.plugins, m.registry, m.bundles, m.moduleRefs)
    requires forall f :: f in descriptors ==> descriptors[f].factory == f
    modifies m`plugins, m`registry, m`bundles, m`moduleRefs
    ensures DefinitionsAgree(m.plugins, m.registry, m.bundles, m.moduleRefs)
    ensures var missing := NotInstalled(descriptors, old(m.plugins));
            && (error.None? <==>
                  forall f :: f in missing ==> Installable(missing[f], old(m.registry), old(m.bundles), works))
            && (error.None? ==> m.registry == old(m.registry) + missing)
  {
    hide *;
    var missing := NotInstalled(descriptors, m.plugins);
    NotInstalledIs(m, descriptors);
    InstallingNone(missing, m.registry, m.bundles, works);
    var todo := missing.Keys;
    assert missing.Keys - todo == {};
    while todo != {}
      invariant DefinitionsAgree(m.plugins, m.registry, m.bundles, m.moduleRefs) && todo <= missing.Keys
      invariant Installing(missing, old(m.registry), old(m.bundles), works, m.registry, m.bundles, missing.Keys - todo)
      decreases todo
    {
      var f :| f in todo;
      InstallingOneMore(missing, old(m.registry), old(m.bundles), works, m.registry, m.bundles, missing.Keys - todo, f);
      StillNotInstalled(m, missing, old(m.registry), old(m.bundles), works, missing.Keys - todo, f);
      assert missing.Keys - (todo - {f}) == (missing.Keys - todo) + {f};
      error := InstallQuietly(m, missing[f], works(missing[f].moduleName));
      if error.Some? {
        return;
      }
      todo := todo - {f};
    }
    assert missing.Keys - {} == missing.Keys;
    InstallingDone(missing, old(m.registry), old(m.bundles), works, m.registry, m.bundles);
    error := None;
  }

  lemma NotInstalledIs(m: PluginManager, descriptors: map<string, Descriptor>)
    requires DefinitionsAgree(m.plugins, m.registry, m.bundles, m.moduleRefs)
    ensures var missing := NotInstalled(descriptors, m.plugins);
            && (forall f :: f in missing ==> f in descriptors && missing[f] == descriptors[f])
            && (forall f :: f in missing && f in m.registry ==> KeyOf(m.registry[f]) != KeyOf(missing[f]))
  {
  }

  /** Some of the missing definitions have been installed, and nothing else. */
  ghost predicate Installing(missing: map<string, Descriptor>, registry: map<string, Descriptor>, bundles: set<string>,
                             works: string -> bool, registry': map<string, Descriptor>, bundles': set<string>,
                             done: set<string>)
  {
    && done <= missing.Keys && registry'.Keys == registry.Keys + done
    && (forall f :: f in done ==> Installable(missing[f], registry, bundles, works) && registry'[f] == missing[f])
    && (forall f :: f in registry && f !in done ==> registry'[f] == registry[f])
    && (forall b :: b in bundles' ==> b in bundles || works(b)) && bundles <= bundles'
  }

  lemma InstallingNone(missing: map<string, Descriptor>, registry: map<string, Descriptor>, bundles: set<string>,
                       works: string -> bool)
    ensures Installing(missing, registry, bundles, works, registry, bundles, {})
  {
  }

  lemma InstallingOneMore(missing: map<string, Descriptor>, registry: map<string, Descriptor>, bundles: set<string>,
                          works: string -> bool, registry': map<string, Descriptor>, bundles': set<string>,
                          done: set<string>, f: string)
    requires Installing(missing, registry, bundles, works, registry', bundles', done)
    requires f in missing && f !in done && missing[f].factory == f
    ensures var d := missing[f];
            && (Installable(d, registry, bundles, works)
                <==> ValidDescriptor(d) && f !in registry' && (d.moduleName in bundles' || works(d.moduleName)))
            && (Installable(d, registry, bundles, works) ==>
                  Installing(missing, registry, bundles, works, registry'[f := d], bundles' + {d.moduleName},
                             done + {f}))
  {
    hide ValidDescriptor;
  }

  lemma InstallingDone(missing: map<string, Descriptor>, registry: map<string, Descriptor>, bundles: set<string>,
                       works: string -> bool, registry': map<string, Descriptor>, bundles': set<string>)
    requires Installing(missing, registry, bundles, works, registry', bundles', missing.Keys)
    ensures registry' == registry + missing
    ensures forall f :: f in missing ==> Installable(missing[f], registry, bundles, works)
  {
    hide Installable;
  }

  /** What was missing and was not installed since is still missing. */
  lemma StillNotInstalled(m: PluginManager, missing: map<string, Descriptor>, registry: map<string, Descriptor>,
                          bundles: set<string>, works: string -> bool, done: set<string>, f: string)
    requires DefinitionsAgree(m.plugins, m.registry, m.bundles, m.moduleRefs)
    requires Installing(missing, registry, bundles, works, m.registry, m.bundles, done)
    requires f in missing && f !in done && missing[f].factory == f
    requires f in registry ==> KeyOf(registry[f]) != KeyOf(missing[f])
    ensures KeyOf(missing[f]) !in m.plugins
  {
    hide Installable;
  }

  // ------------------------------------------------------------ the whole restart

  /** The saved rows of a list of scopes. */
  function RowsOf(scopes: seq<Scope>): seq<ScopeRestore.SavedScope> {
    seq(|scopes|, i requires 0 <= i < |scopes| =>
      ScopeRestore.SavedScope(scopes[i].id, scopes[i].parent, scopes[i].name))
  }

  /** Records are saved under their own names. */
  predicate Named(image: Image) {
    && (forall f :: f in image.descriptors ==> image.descriptors[f].factory == f)
    && (forall u :: u in image.instances ==> image.instances[u].uuid == u)
  }

  /** The saved scopes can be rebuilt on top of those that are there. */
  ghost predicate ScopesRebuild(image: Image, f: Forest, writable: bool) {
    var want := ScopeRestore.Wanted(RowsOf(image.scopes), f);
    want == map[] || (writable && IsTree(f + want) && ScopeRestore.NoBlank(want))
  }

  ghost predicate DefinitionsInstall(image: Image, plugins: map<DefinitionKey, Descriptor>,
                                     registry: map<string, Descriptor>, bundles: set<string>, works: string -> bool)
  {
    var missing := NotInstalled(image.descriptors, plugins);
    forall f :: f in missing ==> Installable(missing[f], registry, bundles, works)
  }

  /**
   `restore`.  It succeeds exactly when the scopes can be rebuilt,
   the missing definitions can be installed and, where instances are dropped, the state can be saved
   again; instances themselves never make it fail.
   */
  method Restore(m: PluginManager, works: string -> bool, starts: Uuid -> bool, saveWorks: bool)
    returns (r: Result<(), RestoreError>)
    requires m.Valid()
    requires m.store.saved.Some? ==> Named(m.store.saved.value.image)
    modifies m`plugins, m`registry, m`bundles, m`moduleRefs, m`stateVersion, m.store, m.tree, m.tree.store
    modifies m`instances, m`userProperties, m`registrationInstances, m`ipopo
    ensures m.tree.Valid() && DefinitionsAgree(m.plugins, m.registry, m.bundles, m.moduleRefs)
    ensures !(m.bound && old(m.store.saved).Some?) ==> r == Ok(()) && m.Valid() && m.Records() == old(m.Records())
    ensures m.bound && old(m.store.saved).Some? ==>
              var image := old(m.store.saved).value.image;
              var all := image.instances;
              && (r.Ok? <==>
                    && ScopesRebuild(image, old(m.tree.scopes.at), old(m.CanWriteScopes()))
                    && DefinitionsInstall(image, old(m.plugins), old(m.registry), old(m.bundles), works)
                    && (saveWorks || NoneAtAgents(all)))
              && (r.Ok? ==> (m.store.saved == old(m.store.saved) <==> NoneAtAgents(all)))
              && (r.Ok? ==>
                    forall u :: u in m.instances <==> u in old(m.instances) || (u in all && !AtAgent(all[u])))
              && (r.Ok? ==>
                    && m.CanSave()
                    && m.tree.scopes.at
                       == old(m.tree.scopes.at) + ScopeRestore.Wanted(RowsOf(image.scopes), old(m.tree.scopes.at))
                    && m.registry == old(m.registry) + NotInstalled(image.descriptors, old(m.plugins))
                    && m.Records() == OnTop(old(m.Records()), all,
                                            RestoredAll(m.tree.scopes.at, m.scopedFields, m.plugins, all, Kept(all),
                                                        old(m.ipopo).Keys, starts))
                    && IndexRestored(old(m.registrationInstances), m.registrationInstances, m.instances, Kept(all)))
  {
    hide *;
    m.Facts();
    m.TablesAre();
    if !m.bound || m.store.saved.None? {
      return Ok(());
    }
    var image := m.store.saved.value.image;
    m.stateVersion := m.store.saved.value.version;
    RestoreIs(m, image);
    var rebuilt := ScopeRestore.RestoreScopes(m.tree, RowsOf(image.scopes));
    if rebuilt.Err? {
      return Err(ScopesFailed(rebuilt.error));
    }
    r := RestoreRecords(m, image, works, starts, saveWorks);
  }

  /** Definitions and instances, once the scopes are there; saved again only if an instance was dropped. */
  method RestoreRecords(m: PluginManager, image: Image, works: string -> bool, starts: Uuid -> bool, saveWorks: bool)
    returns (r: Result<(), RestoreError>)
    requires m.tree.Valid() && DefinitionsAgree(m.plugins, m.registry, m.bundles, m.moduleRefs)
    requires Named(image) && m.bound && m.CanSave()
    modifies m`plugins, m`registry, m`bundles, m`moduleRefs, m`stateVersion, m.store
    modifies m`instances, m`userProperties, m`registrationInstances, m`ipopo
    ensures m.tree.Valid() && DefinitionsAgree(m.plugins, m.registry, m.bundles, m.moduleRefs)
    ensures var all := image.instances;
            && (r.Ok? <==>
                  && DefinitionsInstall(image, old(m.plugins), old(m.registry), old(m.bundles), works)
                  && (saveWorks || NoneAtAgents(all)))
            && (r.Ok? ==>
                  && m.CanSave()
                  && (m.store.saved == old(m.store.saved) <==> NoneAtAgents(all))
                  && m.registry == old(m.registry) + NotInstalled(image.descriptors, old(m.plugins))
                  && m.Records() == OnTop(old(m.Records()), all,
                                          RestoredAll(m.tree.scopes.at, m.scopedFields, m.plugins, all, Kept(all),
                                                      old(m.ipopo).Keys, starts))
                  && IndexRestored(old(m.registrationInstances), m.registrationInstances, m.instances, Kept(all))
                  && forall u :: u in m.instances <==> u in old(m.instances) || (u in all && !AtAgent(all[u])))
  {
    hide *;
    m.Facts();
    RestoreIs(m, image);
    KeptAll(image.instances);
    var error := RestoreDefinitions(m, image.descriptors, works);
    if error.Some? {
      return Err(DefinitionFailed(error.value));
    }
    RestoreInstances(m, image.instances, starts);
    m.Facts();
    if Kept(image.instances) != image.instances.Keys {
      var saved := m.PersistState(saveWorks);
      m.Facts();
      if !saved {
        return Err(NotSaved);
      }
    }
    r := Ok(());
  }

  lemma RestoreIs(m: PluginManager, image: Image)
    ensures Named(image) <==>
              && (forall f :: f in image.descriptors ==> image.descriptors[f].factory == f)
              && (forall u :: u in image.instances ==> image.instances[u].uuid == u)
    ensures var want := ScopeRestore.Wanted(RowsOf(image.scopes), m.tree.scopes.at);
            ScopesRebuild(image, m.tree.scopes.at, m.CanWriteScopes())
            <==> want == map[]
                 || (ScopeRestore.CanWrite(m.tree) && IsTree(m.tree.scopes.at + want) && ScopeRestore.NoBlank(want))
    ensures forall works :: DefinitionsInstall(image, m.plugins, m.registry, m.bundles, works) <==>
              var missing := NotInstalled(image.descriptors, m.plugins);
              forall f :: f in missing ==> Installable(missing[f], m.registry, m.bundles, works)
    ensures m.CanSave() <==>
              !m.bound || m.stateVersion == if m.store.saved.Some? then m.store.saved.value.version else 0
  {
    hide IsTree, ScopeRestore.NoBlank, Installable;
  }

  // ------------------------------------------------------------ what a restart keeps

  /** An instance as it was, but for properties that may be computed anew. */
  ghost predicate ComesBack(f: Forest, scopedFields: string -> set<string>, plugins: map<DefinitionKey, Descriptor>,
                            i: Instance, user: Props, again: Instance)
  {
    && again.(props := i.props) == i
    && (Tracked(again) <==> i.enabled) && (again.status == Active <==> i.enabled)
    && (i.enabled ==> InstanceDerived(f, scopedFields, again, Strip(i.props)))
    && (again == i <==> !i.enabled || Unwrapped(f, scopedFields, i, user))
  }

  /**
   An instance whose component starts again comes back with the properties its saved ones give; they
   are the very same exactly when no scoped field had a filter of its own.  A disabled one comes back
   as it was.
   */
  lemma InstanceComesBack(f: Forest, scopedFields: string -> set<string>, plugins: map<DefinitionKey, Descriptor>,
                          i: Instance, user: Props)
    requires InstanceAgrees(i.uuid, i, plugins, f) && InstanceDerived(f, scopedFields, i, user)
    ensures ComesBack(f, scopedFields, plugins, i, user, RestoredAs(f, scopedFields, plugins, i, true))
  {
    hide Effective, Unwrapped, Created, NoOwnFilter;
    if i.enabled {
      RestoredEnabled(f, scopedFields, plugins, i);
      var at := PlacementOf(f, scopedFields, i);
      RehydrateSucceeds(user, at);
      RehydrateStableIff(user, at);
      UnwrappedIs(f, scopedFields, i, user);
      hide RestoredAs;
      var again := RestoredAs(f, scopedFields, plugins, i, true);
      assert PlacementOf(f, scopedFields, again) == at;
    }
  }

  lemma RestoredEnabled(f: Forest, scopedFields: string -> set<string>, plugins: map<DefinitionKey, Descriptor>,
                        i: Instance)
    requires i.enabled && DefinitionOf(i) in plugins && HasChain(f, i.scope)
    ensures RestoredAs(f, scopedFields, plugins, i, true)
            == match Effective(Strip(i.props), PlacementOf(f, scopedFields, i))
               case Ok(props) => i.(props := props, status := Active)
               case Err(_) => i.(status := Failed)
  {
    hide Effective, Strip;
    assert PlacementOf(f, scopedFields, i.(props := map[], status := Active)) == PlacementOf(f, scopedFields, i);
  }

  lemma UnwrappedIs(f: Forest, scopedFields: string -> set<string>, i: Instance, user: Props)
    requires HasChain(f, i.scope)
    ensures Unwrapped(f, scopedFields, i, user)
            <==> NoOwnFilter(UserFilters(user), PlacementOf(f, scopedFields, i).fields,
                             PlacementOf(f, scopedFields, i).visible)
  {
  }

  /** What the tables are after a restart in which every component starts. */
  lemma TablesComeBack(f: Forest, scopedFields: string -> set<string>, plugins: map<DefinitionKey, Descriptor>,
                       saved: map<Uuid, Instance>, user: map<Uuid, Props>, starts: Uuid -> bool)
    requires InstancesAgree(saved, user, plugins, f) && PropertiesDerived(f, scopedFields, saved, user)
    requires forall u :: u in Kept(saved) ==> starts(u)
    ensures var again := RestoredAll(f, scopedFields, plugins, saved, Kept(saved), {}, starts);
            && again.Keys == Kept(saved)
            && (forall u :: u in again ==>
                  && again[u].(props := saved[u].props) == saved[u]
                  && RegistrationOf(again[u]) == RegistrationOf(saved[u])
                  && (Tracked(again[u]) <==> saved[u].enabled)
                  && (u in UserOf(saved, again) <==> saved[u].enabled)
                  && (u in UserOf(saved, again) ==> UserOf(saved, again)[u] == Strip(saved[u].props))
                  && (again[u] == saved[u]
                      <==> !saved[u].enabled || Unwrapped(f, scopedFields, saved[u], user[u])))
            && LiveAgrees(LiveOf(again), again) && PropertiesDerived(f, scopedFields, again, UserOf(saved, again))
            && (InstancesAgree(again, UserOf(saved, again), plugins, f)
                <==> forall u :: u in again ==> saved[u].enabled)
  {
    hide InstanceDerived, Unwrapped, RestoredAs, Tracked, InstanceAgrees;
    var again := RestoredAll(f, scopedFields, plugins, saved, Kept(saved), {}, starts);
    forall u | u in Kept(saved)
      ensures u in user && ComesBack(f, scopedFields, plugins, saved[u], user[u], again[u])
    {
      assert InstanceDerived(f, scopedFields, saved[u], user[u]);
      assert InstanceAgrees(u, saved[u], plugins, f) && saved[u].uuid == u by {
        UuidIs(saved, user, plugins, f, u);
      }
      InstanceComesBack(f, scopedFields, plugins, saved[u], user[u]);
    }
    TablesAgree(f, scopedFields, plugins, saved, user, again);
  }

  lemma UuidIs(instances: map<Uuid, Instance>, user: map<Uuid, Props>, plugins: map<DefinitionKey, Descriptor>,
               f: Forest, u: Uuid)
    requires InstancesAgree(instances, user, plugins, f) && u in instances
    ensures instances[u].uuid == u && InstanceAgrees(u, instances[u], plugins, f)
  {
  }

  lemma TablesAgree(f: Forest, scopedFields: string -> set<string>, plugins: map<DefinitionKey, Descriptor>,
                    saved: map<Uuid, Instance>, user: map<Uuid, Props>, again: map<Uuid, Instance>)
    requires InstancesAgree(saved, user, plugins, f) && again.Keys <= saved.Keys
    requires forall u :: u in again ==> u in user && ComesBack(f, scopedFields, plugins, saved[u], user[u], again[u])
    ensures forall u :: u in again ==>
              && again[u].(props := saved[u].props) == saved[u] && RegistrationOf(again[u]) == RegistrationOf(saved[u])
              && (Tracked(again[u]) <==> saved[u].enabled)
              && (u in UserOf(saved, again) <==> saved[u].enabled)
              && (u in UserOf(saved, again) ==> UserOf(saved, again)[u] == Strip(saved[u].props))
              && (again[u] == saved[u] <==> !saved[u].enabled || Unwrapped(f, scopedFields, saved[u], user[u]))
    ensures LiveAgrees(LiveOf(again), again) && PropertiesDerived(f, scopedFields, again, UserOf(saved, again))
    ensures InstancesAgree(again, UserOf(saved, again), plugins, f) <==> forall u :: u in again ==> saved[u].enabled
  {
    hide InstanceDerived, Unwrapped, Strip;
    var own := UserOf(saved, again);
    assert forall u :: u in own <==> u in again && saved[u].enabled;
    hide Tracked;
    forall u | u in again ensures InstanceAgrees(u, again[u], plugins, f) {
      assert InstanceAgrees(u, saved[u], plugins, f);
    }
  }

  /** The registry says which definitions and bundles there are. */
  lemma RegistryDecides(registry: map<string, Descriptor>, plugins: map<DefinitionKey, Descriptor>,
                        bundles: set<string>,
                        moduleRefs: map<string, set<DefinitionKey>>, plugins': map<DefinitionKey, Descriptor>,
                        bundles': set<string>, moduleRefs': map<string, set<DefinitionKey>>)
    requires DefinitionsAgree(plugins, registry, bundles, moduleRefs)
    requires DefinitionsAgree(plugins', registry, bundles', moduleRefs')
    ensures plugins == plugins' && bundles == bundles'
  {
    forall k ensures k in plugins <==> k in plugins' {
    }
    forall b ensures b in bundles <==> b in bundles' {
      assert forall k :: k in Lookup(moduleRefs, b) <==> k in plugins && k.0 == b;
      assert forall k :: k in Lookup(moduleRefs', b) <==> k in plugins' && k.0 == b;
      assert b in bundles <==> exists k :: k in Lookup(moduleRefs, b);
      assert b in bundles' <==> exists k :: k in Lookup(moduleRefs', b);
    }
  }

  // ------------------------------------------------------------ restarting

  /** Every text of the tree would be accepted anew, and no scope has the id that stands for a missing parent. */
  ghost predicate Savable(f: Forest) {
    "" !in f && forall k :: k in f ==> !IsBlank(k) && !IsBlank(f[k].name)
  }

  /** A manager that was started on the same store, with part of the scopes and nothing else. */
  ghost predicate StartedAgain(m: PluginManager, n: PluginManager)
    reads m, m.tree, n, n.tree, n.tree.store
  {
    && n != m && n.tree != m.tree && n.store == m.store && n.scopedFields == m.scopedFields
    && n.bound && n.CanWriteScopes() && n.instances == map[] && n.plugins == map[]
    && (forall k :: k in n.tree.scopes.at ==> k in m.tree.scopes.at && n.tree.scopes.at[k] == m.tree.scopes.at[k])
  }

  /** What is in the store is the image of the other manager. */
  lemma SavedImage(m: PluginManager, n: PluginManager)
    requires m.Valid() && m.bound && m.Mirrored() && n.store == m.store
    ensures n.store.saved.Some?
    ensures var image := n.store.saved.value.image;
            && m.tree.Valid() && Named(image)
            && image.scopes == m.tree.scopes.Values() && image.descriptors == m.registry
            && image.instances == m.instances
  {
    hide IndexAgrees, LiveAgrees, PropertiesDerived, IsTree;
  }

  lemma ScopesComeBack(m: PluginManager, n: PluginManager, image: Image)
    requires m.tree.Valid() && n.tree.Valid() && StartedAgain(m, n) && Savable(m.tree.scopes.at)
    requires image.scopes == m.tree.scopes.Values()
    ensures ScopesRebuild(image, n.tree.scopes.at, n.CanWriteScopes())
    ensures n.tree.scopes.at + ScopeRestore.Wanted(RowsOf(image.scopes), n.tree.scopes.at) == m.tree.scopes.at
  {
    hide ScopeRestore.Wanted, ScopeRestore.Rows;
    var t, f := m.tree.scopes, n.tree.scopes.at;
    SameRows(t.order, t.at);
    ScopeRestore.RestoreRebuilds(t, f);
    var want := ScopeRestore.Wanted(RowsOf(image.scopes), f);
    forall k | k in want ensures k in t.at && want[k] == t.at[k] {
      assert k in f + want;
    }
  }

  lemma {:induction false} SameRows(order: seq<ScopeId>, at: Forest)
    requires forall i :: 0 <= i < |order| ==> order[i] in at
    ensures RowsOf(ScopeTree.ValuesOf(order, at)) == ScopeRestore.Rows(order, at)
  {
    if order != [] {
      var rest := order[..|order| - 1];
      SameRows(rest, at);
      var values, before := ScopeTree.ValuesOf(order, at), ScopeTree.ValuesOf(rest, at);
      assert |RowsOf(before)| == |before| == |rest|;
      forall i | 0 <= i < |order| ensures RowsOf(values)[i] == ScopeRestore.Rows(order, at)[i] {
        if i < |rest| {
          assert RowsOf(before)[i] == ScopeRestore.Rows(rest, at)[i];
        }
      }
    }
  }

  lemma DefinitionsComeBack(m: PluginManager, n: PluginManager, image: Image, works: string -> bool)
    requires m.Valid() && n.Valid() && n.plugins == map[] && image.descriptors == m.registry
    requires forall f :: f in m.registry ==> ValidDescriptor(m.registry[f]) && works(m.registry[f].moduleName)
    ensures DefinitionsInstall(image, n.plugins, n.registry, n.bundles, works)
    ensures n.registry + NotInstalled(image.descriptors, n.plugins) == m.registry
  {
    hide InstancesAgree, IndexAgrees, LiveAgrees, PropertiesDerived, IsTree, ValidDescriptor;
    assert n.registry == map[];
    assert NotInstalled(image.descriptors, n.plugins) == m.registry;
  }

  lemma NothingThere(n: PluginManager)
    requires n.Valid() && n.instances == map[]
    ensures n.Records() == InstanceTables(map[], map[], map[]) && n.ipopo.Keys == {}
    ensures forall k :: Lookup(n.registrationInstances, k) == {}
  {
    hide DefinitionsAgree, PropertiesDerived, IsTree, IndexAgrees;
    assert n.userProperties.Keys == {} && n.ipopo.Keys == {};
    EmptyIndex(n.registrationInstances, n.instances);
  }

  lemma EmptyIndex(index: map<RegistrationKey, set<Uuid>>, nobody: map<Uuid, Instance>)
    requires IndexAgrees(index, nobody) && nobody == map[]
    ensures forall k :: Lookup(index, k) == {}
  {
    forall k ensures Lookup(index, k) == {} {
      forall u ensures u !in Lookup(index, k) {
        assert u !in nobody;
      }
    }
  }

  lemma OnNothing(saved: map<Uuid, Instance>, again: map<Uuid, Instance>)
    ensures OnTop(InstanceTables(map[], map[], map[]), saved, again)
            == InstanceTables(again, UserOf(saved, again), LiveOf(again))
  {
    hide UserOf, LiveOf;
    var none: map<Uuid, Props> := map[];
    assert none + UserOf(saved, again) == UserOf(saved, again) && none + LiveOf(again) == LiveOf(again);
    var nobody: map<Uuid, Instance> := map[];
    assert nobody + again == again;
  }

  lemma IndexComesBack(before: map<RegistrationKey, set<Uuid>>, after: map<RegistrationKey, set<Uuid>>,
                       again: map<Uuid, Instance>)
    requires forall k :: Lookup(before, k) == {}
    requires IndexRestored(before, after, again, again.Keys) && forall u :: u in again ==> Tracked(again[u])
    ensures IndexAgrees(after, again)
  {
    hide Lookup, Tracked;
  }

  /**
   Restarting a manager whose state was saved, in a world where bundles install and components start:
   scopes and definitions are those there were, and the instances outside agents' scopes come back, with
   the very same properties exactly when no scoped field had a filter of its own.  Components match
   records and records match the tree; but the tables agree exactly if no instance was disabled, since
   a disabled one comes back without user properties and without a place in the index.
   */
  method Restart(m: PluginManager, n: PluginManager, works: string -> bool, starts: Uuid -> bool)
    returns (r: Result<(), RestoreError>)
    requires m.Valid() && m.bound && m.Mirrored() && Savable(m.tree.scopes.at)
    requires forall f :: f in m.registry ==> ValidDescriptor(m.registry[f]) && works(m.registry[f].moduleName)
    requires n.Valid() && StartedAgain(m, n) && forall u :: u in m.instances ==> starts(u)
    modifies n`plugins, n`registry, n`bundles, n`moduleRefs, n`stateVersion, n.store, n.tree, n.tree.store
    modifies n`instances, n`userProperties, n`registrationInstances, n`ipopo
    ensures r.Ok?
    ensures n.tree.scopes.at == m.tree.scopes.at
    ensures n.plugins == m.plugins && n.registry == m.registry && n.bundles == m.bundles
    ensures n.instances.Keys == Kept(m.instances)
    ensures forall u :: u in n.instances ==>
              && u in m.instances && u in m.userProperties
              && n.instances[u].(props := m.instances[u].props) == m.instances[u]
              && (u in n.userProperties <==> m.instances[u].enabled)
              && (u in n.userProperties ==> n.userProperties[u] == Strip(m.instances[u].props))
              && (n.instances[u] == m.instances[u]
                  <==> !m.instances[u].enabled
                       || Unwrapped(m.tree.scopes.at, m.scopedFields, m.instances[u], m.userProperties[u]))
    ensures forall u :: u in n.instances
                        <==> u in m.instances && forall a: string :: m.instances[u].scope != "agent:" + a
    ensures forall a :: AgentRecords.Living(n.instances, a) == {}
    ensures n.Live() && n.Derived()
    ensures n.Valid() <==> forall u :: u in n.instances ==> m.instances[u].enabled
  {
    hide *;
    m.Facts();
    m.TablesAre();
    n.Facts();
    n.TablesAre();
    StartedIs(m, n);
    SavedImage(m, n);
    ScopesComeBack(m, n, n.store.saved.value.image);
    DefinitionsComeBack(m, n, n.store.saved.value.image, works);
    NothingThere(n);
    r := Restore(n, works, starts, true);
    CameBack(m, n, old(n.registrationInstances), starts);
    NobodyKept(m.instances, n.instances);
  }

  /** What the second manager is, if it has the same scopes and definitions and restored the other's instances. */
  lemma CameBack(m: PluginManager, n: PluginManager, before: map<RegistrationKey, set<Uuid>>, starts: Uuid -> bool)
    requires m.Valid() && n.tree.Valid() && DefinitionsAgree(n.plugins, n.registry, n.bundles, n.moduleRefs)
    requires n.registry == m.registry && n.tree.scopes.at == m.tree.scopes.at && n.scopedFields == m.scopedFields
    requires forall u :: u in m.instances ==> starts(u)
    requires n.Records() == OnTop(InstanceTables(map[], map[], map[]), m.instances,
                                  RestoredAll(n.tree.scopes.at, n.scopedFields, n.plugins, m.instances,
                                              Kept(m.instances), {}, starts))
    requires (forall k :: Lookup(before, k) == {})
             && IndexRestored(before, n.registrationInstances, n.instances, Kept(m.instances))
    ensures n.plugins == m.plugins && n.bundles == m.bundles
    ensures n.instances.Keys == Kept(m.instances)
    ensures forall u :: u in n.instances ==>
              && u in m.instances && u in m.userProperties
              && n.instances[u].(props := m.instances[u].props) == m.instances[u]
              && (u in n.userProperties <==> m.instances[u].enabled)
              && (u in n.userProperties ==> n.userProperties[u] == Strip(m.instances[u].props))
              && (n.instances[u] == m.instances[u]
                  <==> !m.instances[u].enabled
                       || Unwrapped(m.tree.scopes.at, m.scopedFields, m.instances[u], m.userProperties[u]))
    ensures n.Live() && n.Derived()
    ensures n.Valid() <==> forall u :: u in n.instances ==> m.instances[u].enabled
  {
    hide *;
    m.Facts();
    m.TablesAre();
    n.Facts();
    n.TablesAre();
    KeptSaved(m.instances);
    KnownUsers(m);
    RegistryDecides(m.registry, m.plugins, m.bundles, m.moduleRefs, n.plugins, n.bundles, n.moduleRefs);
    TablesComeBack(m.tree.scopes.at, m.scopedFields, m.plugins, m.instances, m.userProperties, starts);
    OnNothing(m.instances, RestoredAll(m.tree.scopes.at, m.scopedFields, m.plugins, m.instances, Kept(m.instances), {},
                                       starts));
    if forall u :: u in n.instances ==> m.instances[u].enabled {
      IndexComesBack(before, n.registrationInstances, n.instances);
    }
  }

  lemma KnownUsers(m: PluginManager)
    requires m.Valid()
    ensures m.userProperties.Keys == m.instances.Keys
  {
    hide DefinitionsAgree, IndexAgrees, LiveAgrees, PropertiesDerived, IsTree;
  }

  lemma StartedIs(m: PluginManager, n: PluginManager)
    requires StartedAgain(m, n)
    ensures n != m && n.tree != m.tree && n.store == m.store && n.scopedFields == m.scopedFields
    ensures n.bound && n.instances == map[] && n.plugins == map[]
  {
  }
}
