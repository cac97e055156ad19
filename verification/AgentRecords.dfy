/** What the agent directory remembers of each agent, against the instances living in its scope. */
module AgentRecords {
  import opened Common
  import opened ScopeForest
  import opened EffectiveProperties
  import opened PluginTables

  type AgentId = string

  const AGENT_SCOPE_ID: ScopeId := "agent"

  /** `agent_instance_scope_id` */
  function AgentScope(a: AgentId): ScopeId {
    "agent:" + a
  }

  lemma AgentScopesApart(a: AgentId, b: AgentId)
    ensures AgentScope(a) == AgentScope(b) <==> a == b
    ensures AgentScope(a) != AGENT_SCOPE_ID && AgentScope(a) != ROOT_SCOPE_ID
  {
    assert AgentScope(a)[6..] == a && AgentScope(b)[6..] == b;
    assert AgentScope(a)[0] == 'a' && ROOT_SCOPE_ID[0] == 'r';
  }

  lemma AgentScopeIsText(a: AgentId)
    ensures !IsBlank(AgentScope(a))
  {
    assert !IsSpace(AgentScope(a)[0]);
  }

  function UuidsOf(plugins: map<string, Instance>): set<Uuid> {
    set p | p in plugins :: plugins[p].uuid
  }

  type Plugins = map<AgentId, map<string, Instance>>

  type Loops = map<AgentId, Instance>

  /** The uuids the directory has on record for one agent. */
  function Recorded(plugins: Plugins, loops: Loops, a: AgentId): set<Uuid> {
    (if a in plugins then UuidsOf(plugins[a]) else {}) + (if a in loops then {loops[a].uuid} else {})
  }

  /** The instances living in one agent's scope. */
  function Living(instances: map<Uuid, Instance>, a: AgentId): set<Uuid> {
    set u | u in instances && instances[u].scope == AgentScope(a)
  }

  /** Every record of an agent names another instance. */
  ghost predicate RecordedOnce(plugins: Plugins, loops: Loops, a: AgentId) {
    && (a in plugins ==>
          forall p, q :: p in plugins[a] && q in plugins[a] && plugins[a][p].uuid == plugins[a][q].uuid ==> p == q)
    && (a in plugins && a in loops ==> loops[a].uuid !in UuidsOf(plugins[a]))
  }

  /** What lives in an agent's scope are those of its records that are there at all, each recorded once. */
  ghost predicate Accounted(instances: map<Uuid, Instance>, plugins: Plugins, loops: Loops, a: AgentId) {
    RecordedOnce(plugins, loops, a) && Living(instances, a) == Recorded(plugins, loops, a) * instances.Keys
  }

  /** Nothing lives in any agent's scope that is not on record, and no record points elsewhere. */
  ghost predicate NoLeak(instances: map<Uuid, Instance>, plugins: Plugins, loops: Loops) {
    forall a :: Accounted(instances, plugins, loops, a)
  }

  /** The agents that have a record of an instance that is gone. */
  function Astray(instances: map<Uuid, Instance>, plugins: Plugins, loops: Loops): set<AgentId> {
    set a | a in plugins.Keys + loops.Keys && !(Recorded(plugins, loops, a) <= instances.Keys)
  }

  /** For every other agent, what lives in its scope is exactly what is on record for it. */
  lemma AstrayIff(instances: map<Uuid, Instance>, plugins: Plugins, loops: Loops, a: AgentId)
    requires NoLeak(instances, plugins, loops)
    ensures a in Astray(instances, plugins, loops) <==> Living(instances, a) != Recorded(plugins, loops, a)
    ensures Living(instances, a) <= Recorded(plugins, loops, a) && RecordedOnce(plugins, loops, a)
  {
    assert Accounted(instances, plugins, loops, a);
    assert Recorded(plugins, loops, a) <= instances.Keys
           <==> Recorded(plugins, loops, a) * instances.Keys == Recorded(plugins, loops, a);
  }

  /** Every uuid any record mentions. */
  function AllRecorded(plugins: Plugins, loops: Loops): set<Uuid> {
    (set a, p | a in plugins && p in plugins[a] :: plugins[a][p].uuid) + (set a | a in loops :: loops[a].uuid)
  }

  lemma RecordedWithin(plugins: Plugins, loops: Loops)
    ensures forall a :: Recorded(plugins, loops, a) <= AllRecorded(plugins, loops)
  {
  }

  /** Which agents are astray is a matter of each one's records. */
  lemma AstraySame(instances: map<Uuid, Instance>, plugins: Plugins, loops: Loops, after: map<Uuid, Instance>,
                   plugins': Plugins, loops': Loops, apart: set<AgentId>)
    requires forall b :: b !in apart ==>
               (Recorded(plugins', loops', b) <= after.Keys <==> Recorded(plugins, loops, b) <= instances.Keys)
    ensures Astray(after, plugins', loops') - apart == Astray(instances, plugins, loops) - apart
    ensures apart == {} ==> Astray(after, plugins', loops') == Astray(instances, plugins, loops)
  {
    forall b ensures b in Astray(after, plugins', loops') <==> !(Recorded(plugins', loops', b) <= after.Keys) {
    }
    forall b ensures b in Astray(instances, plugins, loops) <==> !(Recorded(plugins, loops, b) <= instances.Keys) {
    }
  }

  // ------------------------------------------------------------ one change

  /** The tables list this very instance, of this definition and with these user properties. */
  ghost predicate Running(instances: map<Uuid, Instance>, user: map<Uuid, Props>, i: Instance, key: DefinitionKey,
                          scope: ScopeId, own: Props)
  {
    && i.uuid in instances && instances[i.uuid] == i
    && DefinitionOf(i) == key && i.scope == scope && i.enabled && i.ranking == 0
    && i.uuid in user && user[i.uuid] == own
  }

  /** Nothing there was has changed. */
  ghost predicate Grown<K, V>(before: map<K, V>, after: map<K, V>) {
    forall k :: k in before ==> k in after && after[k] == before[k]
  }

  lemma LivingAdded(instances: map<Uuid, Instance>, i: Instance, a: AgentId)
    requires i.uuid !in instances
    ensures Living(instances[i.uuid := i], a)
            == Living(instances, a) + (if i.scope == AgentScope(a) then {i.uuid} else {})
  {
  }

  lemma LivingDropped(instances: map<Uuid, Instance>, gone: set<Uuid>, a: AgentId)
    ensures Living(instances - gone, a) == Living(instances, a) - gone
  {
  }

  /** A new instance that no record mentions changes nothing for an agent in whose scope it does not live. */
  lemma AddedElsewhere(instances: map<Uuid, Instance>, plugins: Plugins, loops: Loops, i: Instance, a: AgentId)
    requires i.uuid !in instances && i.uuid !in AllRecorded(plugins, loops)
    ensures i.scope != AgentScope(a) && Accounted(instances, plugins, loops, a) ==>
              Accounted(instances[i.uuid := i], plugins, loops, a)
    ensures Recorded(plugins, loops, a) <= instances[i.uuid := i].Keys
            <==> Recorded(plugins, loops, a) <= instances.Keys
  {
    RecordedWithin(plugins, loops);
    LivingAdded(instances, i, a);
    assert i.uuid !in Recorded(plugins, loops, a);
    assert Recorded(plugins, loops, a) * instances[i.uuid := i].Keys == Recorded(plugins, loops, a) * instances.Keys;
  }

  /** An instance outside every agent's scope changes nothing, if its uuid is new. */
  lemma OutsideAdded(instances: map<Uuid, Instance>, plugins: Plugins, loops: Loops, i: Instance)
    requires NoLeak(instances, plugins, loops) && i.uuid !in instances && i.uuid !in AllRecorded(plugins, loops)
    requires forall a :: i.scope != AgentScope(a)
    ensures NoLeak(instances[i.uuid := i], plugins, loops)
    ensures Astray(instances[i.uuid := i], plugins, loops) == Astray(instances, plugins, loops)
  {
    forall a
      ensures Accounted(instances[i.uuid := i], plugins, loops, a)
      ensures Recorded(plugins, loops, a) <= instances[i.uuid := i].Keys
              <==> Recorded(plugins, loops, a) <= instances.Keys
    {
      assert Accounted(instances, plugins, loops, a);
      hide Accounted, Recorded, AllRecorded;
      AddedElsewhere(instances, plugins, loops, i, a);
    }
    AstraySame(instances, plugins, loops, instances[i.uuid := i], plugins, loops, {});
  }

  /** Forgetting an agent while deleting all that was on record for it, which settles it if it was astray. */
  lemma TornDown(instances: map<Uuid, Instance>, plugins: Plugins, loops: Loops, a: AgentId)
    requires NoLeak(instances, plugins, loops)
    ensures var left := instances - Recorded(plugins, loops, a);
            && NoLeak(left, plugins - {a}, loops - {a})
            && Living(left, a) == {}
            && Astray(left, plugins - {a}, loops - {a}) == Astray(instances, plugins, loops) - {a}
  {
    var gone := Recorded(plugins, loops, a);
    var left := instances - gone;
    assert Accounted(instances, plugins, loops, a);
    LivingDropped(instances, gone, a);
    forall u | u in gone && u in instances ensures instances[u].scope == AgentScope(a) {
      assert u in Living(instances, a);
    }
    assert Living(left, a) == {};
    assert Recorded(plugins - {a}, loops - {a}, a) == {};
    forall b | b != a
      ensures Accounted(left, plugins - {a}, loops - {a}, b)
      ensures Recorded(plugins - {a}, loops - {a}, b) <= left.Keys <==> Recorded(plugins, loops, b) <= instances.Keys
    {
      assert Accounted(instances, plugins, loops, b);
      DroppedElsewhere(instances, plugins, loops, a, gone, b);
      OtherForgotten(plugins, loops, a, b);
      hide Living, Recorded, RecordedOnce;
    }
    AstraySame(instances, plugins, loops, left, plugins - {a}, loops - {a}, {a});
  }

  lemma OtherForgotten(plugins: Plugins, loops: Loops, a: AgentId, b: AgentId)
    requires b != a
    ensures Recorded(plugins - {a}, loops - {a}, b) == Recorded(plugins, loops, b)
    ensures RecordedOnce(plugins - {a}, loops - {a}, b) == RecordedOnce(plugins, loops, b)
  {
  }

  /** Deleting what lives in one agent's scope, or nowhere, changes nothing for another agent. */
  lemma DroppedElsewhere(instances: map<Uuid, Instance>, plugins: Plugins, loops: Loops, a: AgentId, gone: set<Uuid>,
                         b: AgentId)
    requires b != a && Accounted(instances, plugins, loops, b)
    requires forall u :: u in gone && u in instances ==> instances[u].scope == AgentScope(a)
    ensures Accounted(instances - gone, plugins, loops, b)
    ensures Recorded(plugins, loops, b) <= (instances - gone).Keys <==> Recorded(plugins, loops, b) <= instances.Keys
  {
    AgentScopesApart(a, b);
    LivingDropped(instances, gone, b);
    assert Living(instances, b) - gone == Living(instances, b);
    forall u | u in Recorded(plugins, loops, b) && u in instances ensures u !in gone {
      assert u in Living(instances, b);
    }
    assert Recorded(plugins, loops, b) * (instances - gone).Keys == Recorded(plugins, loops, b) * instances.Keys;
  }

  /** The agents other than `a` leak nothing. */
  ghost predicate NoLeakElsewhere(instances: map<Uuid, Instance>, plugins: Plugins, loops: Loops, a: AgentId) {
    forall b :: b != a ==> Accounted(instances, plugins, loops, b)
  }

  /** The uuids given to the plugins are different and are all that lives in the agent's scope. */
  ghost predicate CreatedExactly(instances: map<Uuid, Instance>, a: AgentId, created: map<string, Instance>) {
    && Living(instances, a) == UuidsOf(created)
    && (forall p, q :: p in created && q in created && created[p].uuid == created[q].uuid ==> p == q)
  }

  lemma InsideAdded(instances: map<Uuid, Instance>, plugins: Plugins, loops: Loops, a: AgentId, i: Instance)
    requires NoLeakElsewhere(instances, plugins, loops, a) && i.uuid !in instances
    requires i.scope == AgentScope(a) && i.uuid !in AllRecorded(plugins, loops)
    ensures NoLeakElsewhere(instances[i.uuid := i], plugins, loops, a)
    ensures Astray(instances[i.uuid := i], plugins, loops) == Astray(instances, plugins, loops)
    ensures Living(instances[i.uuid := i], a) == Living(instances, a) + {i.uuid}
  {
    LivingAdded(instances, i, a);
    forall b
      ensures b != a ==> Accounted(instances[i.uuid := i], plugins, loops, b)
      ensures Recorded(plugins, loops, b) <= instances[i.uuid := i].Keys
              <==> Recorded(plugins, loops, b) <= instances.Keys
    {
      AgentScopesApart(a, b);
      hide Accounted, Recorded, AllRecorded;
      AddedElsewhere(instances, plugins, loops, i, b);
    }
    AstraySame(instances, plugins, loops, instances[i.uuid := i], plugins, loops, {});
  }

  lemma InsideDropped(instances: map<Uuid, Instance>, plugins: Plugins, loops: Loops, a: AgentId, gone: set<Uuid>)
    requires NoLeakElsewhere(instances, plugins, loops, a) && a !in plugins && a !in loops
    requires forall u :: u in gone && u in instances ==> instances[u].scope == AgentScope(a)
    ensures NoLeakElsewhere(instances - gone, plugins, loops, a)
    ensures Astray(instances - gone, plugins, loops) == Astray(instances, plugins, loops)
    ensures Living(instances - gone, a) == Living(instances, a) - gone
  {
    LivingDropped(instances, gone, a);
    forall b | b != a
      ensures Accounted(instances - gone, plugins, loops, b)
      ensures Recorded(plugins, loops, b) <= (instances - gone).Keys <==> Recorded(plugins, loops, b) <= instances.Keys
    {
      assert Accounted(instances, plugins, loops, b);
      hide Accounted, Recorded;
      DroppedElsewhere(instances, plugins, loops, a, gone, b);
    }
  }

  lemma CreatedOneMore(instances: map<Uuid, Instance>, a: AgentId, created: map<string, Instance>, p: string,
                       i: Instance)
    requires CreatedExactly(instances, a, created) && p !in created && i.uuid !in instances && i.scope == AgentScope(a)
    ensures CreatedExactly(instances[i.uuid := i], a, created[p := i])
    ensures UuidsOf(created[p := i]) == UuidsOf(created) + {i.uuid}
  {
    LivingAdded(instances, i, a);
    assert forall q :: q in created ==> created[q].uuid in UuidsOf(created);
    var more := created[p := i];
    assert more[p].uuid in UuidsOf(more);
    forall q | q in created ensures created[q].uuid in UuidsOf(more) {
      assert more[q] == created[q];
    }
    assert UuidsOf(more) == UuidsOf(created) + {i.uuid};
  }

  lemma ElsewhereOf(instances: map<Uuid, Instance>, plugins: Plugins, loops: Loops, a: AgentId)
    requires a !in plugins && a !in loops
    ensures NoLeak(instances, plugins, loops)
            <==> NoLeakElsewhere(instances, plugins, loops, a) && Living(instances, a) == {}
  {
    assert Accounted(instances, plugins, loops, a) <==> Living(instances, a) == {};
  }

  /** Entering an agent whose scope holds exactly the instances that are recorded for it. */
  lemma Entered(instances: map<Uuid, Instance>, plugins: Plugins, loops: Loops, a: AgentId,
                created: map<string, Instance>, loop: Instance)
    requires a !in plugins && a !in loops && NoLeakElsewhere(instances, plugins, loops, a)
    requires CreatedExactly(instances, a, created) && loop.uuid !in instances && loop.scope == AgentScope(a)
    requires loop.uuid !in AllRecorded(plugins, loops)
    ensures NoLeak(instances[loop.uuid := loop], plugins[a := created], loops[a := loop])
    ensures Astray(instances[loop.uuid := loop], plugins[a := created], loops[a := loop])
            == Astray(instances, plugins, loops)
  {
    var m, after, after' := instances[loop.uuid := loop], plugins[a := created], loops[a := loop];
    InsideAdded(instances, plugins, loops, a, loop);
    assert loop.uuid !in Living(instances, a);
    assert Recorded(after, after', a) == Living(m, a);
    assert Accounted(m, after, after', a);
    forall b | b != a
      ensures Accounted(m, after, after', b)
      ensures Recorded(after, after', b) <= m.Keys <==> Recorded(plugins, loops, b) <= m.Keys
    {
      assert Accounted(m, plugins, loops, b);
      assert Recorded(after, after', b) == Recorded(plugins, loops, b);
    }
  }

  // ------------------------------------------------------------ building one agent

  /** The manager's instances with their user properties, and what the directory has on record. */
  datatype Books = Books(instances: map<Uuid, Instance>, user: map<Uuid, Props>, plugins: Plugins, loops: Loops)

  function Added(b: Books, i: Instance, own: Props): Books {
    b.(instances := b.instances[i.uuid := i], user := b.user[i.uuid := own])
  }

  function Without(b: Books, gone: set<Uuid>): Books {
    b.(instances := b.instances - gone, user := b.user - gone)
  }

  ghost predicate Clean(b: Books) {
    NoLeak(b.instances, b.plugins, b.loops)
  }

  function StrayIn(b: Books): set<AgentId> {
    Astray(b.instances, b.plugins, b.loops)
  }

  /** A new instance under a uuid that no instance and no record has. */
  predicate New(b: Books, i: Instance) {
    i.uuid !in b.instances && i.uuid !in AllRecorded(b.plugins, b.loops)
  }

  /** Nobody is more or less astray than before, and all instances and records there were are untouched. */
  ghost predicate Keeps(before: Books, after: Books) {
    && Clean(after) && StrayIn(after) == StrayIn(before)
    && Grown(before.instances, after.instances) && Grown(before.user, after.user)
    && Grown(before.plugins, after.plugins) && Grown(before.loops, after.loops)
  }

  lemma KeepsItself(b: Books)
    requires Clean(b)
    ensures Keeps(b, b)
  {
  }

  lemma KeepsGrown(before: Books, after: Books, some: map<Uuid, Instance>)
    requires Keeps(before, after) && Grown(some, before.instances)
    ensures Grown(some, after.instances)
  {
    hide Clean, StrayIn;
  }

  lemma KeepsOn(a: Books, b: Books, c: Books)
    requires Keeps(a, b) && Keeps(b, c)
    ensures Keeps(a, c)
  {
    hide Clean, Astray;
  }

  lemma AddedOutside(b: Books, i: Instance, own: Props)
    requires Clean(b) && New(b, i) && i.uuid !in b.user && i.scope == AGENT_SCOPE_ID
    ensures Keeps(b, Added(b, i, own))
  {
    forall a ensures i.scope != AgentScope(a) {
      AgentScopesApart(a, a);
    }
    OutsideAdded(b.instances, b.plugins, b.loops, i);
    hide NoLeak, Astray, AllRecorded;
  }

  /** An agent torn down. */
  function Forgot(b: Books, a: AgentId): Books {
    Without(b, Recorded(b.plugins, b.loops, a)).(plugins := b.plugins - {a}, loops := b.loops - {a})
  }

  /** Tearing an agent down deletes nothing that was not on record at some earlier moment. */
  lemma ForgotKeeps(before: Books, now: Books, a: AgentId)
    requires Grown(now.plugins, before.plugins) && Grown(now.loops, before.loops)
    ensures var others := before.instances - AllRecorded(before.plugins, before.loops);
            Grown(others, now.instances) ==> Grown(others, Forgot(now, a).instances)
    ensures Grown(Forgot(now, a).plugins, before.plugins) && Grown(Forgot(now, a).loops, before.loops)
  {
    RecordedWithin(before.plugins, before.loops);
    assert Recorded(now.plugins, now.loops, a) <= Recorded(before.plugins, before.loops, a);
    hide Recorded, AllRecorded;
  }

  lemma NobodyAstray(b: Books)
    requires b.plugins == map[] && b.loops == map[]
    ensures StrayIn(b) == {}
  {
  }

  /** A uuid that is new once some instance is gone was new before. */
  lemma NewBefore(before: Books, now: Books, gone: set<Uuid>, i: Instance)
    requires now == Without(before, gone) && New(now, i)
    requires gone <= AllRecorded(before.plugins, before.loops)
    ensures New(before, i)
  {
    hide AllRecorded;
  }

  lemma NobodyWithoutRecord(b: Books, a: AgentId)
    requires Clean(b) && a !in b.plugins && a !in b.loops
    ensures Living(b.instances, a) == {}
  {
    assert Accounted(b.instances, b.plugins, b.loops, a);
  }

  /** Instances were created for an agent that is not on record yet; nothing else has changed. */
  ghost predicate Underway(before: Books, now: Books, a: AgentId, created: map<string, Instance>) {
    && now.plugins == before.plugins && now.loops == before.loops && a !in now.plugins && a !in now.loops
    && NoLeakElsewhere(now.instances, now.plugins, now.loops, a) && StrayIn(now) == StrayIn(before)
    && CreatedExactly(now.instances, a, created) && UuidsOf(created) !! before.instances.Keys
    && Grown(before.instances, now.instances) && Grown(before.user, now.user)
    && before.user.Keys == before.instances.Keys
  }

  lemma UnderwayOf(before: Books, now: Books, a: AgentId, created: map<string, Instance>)
    ensures Underway(before, now, a, created) ==> now.plugins == before.plugins && now.loops == before.loops
    ensures Underway(before, now, a, created) ==> a !in now.plugins && a !in now.loops
  {
  }

  lemma KeepsClean(before: Books, after: Books)
    ensures Keeps(before, after) ==> Clean(after) && StrayIn(after) == StrayIn(before)
  {
  }

  lemma Begun(b: Books, a: AgentId)
    requires Clean(b) && a !in b.plugins && a !in b.loops && b.user.Keys == b.instances.Keys
    ensures Underway(b, b, a, map[])
  {
    ElsewhereOf(b.instances, b.plugins, b.loops, a);
  }

  lemma OneMore(before: Books, now: Books, a: AgentId, created: map<string, Instance>, p: string, i: Instance,
                own: Props)
    requires Underway(before, now, a, created) && New(now, i) && i.scope == AgentScope(a) && p !in created
    ensures Underway(before, Added(now, i, own), a, created[p := i])
  {
    hide NoLeakElsewhere, CreatedExactly, UuidsOf, Astray, AllRecorded;
    InsideAdded(now.instances, now.plugins, now.loops, a, i);
    CreatedOneMore(now.instances, a, created, p, i);
  }

  /** Deleting what was created undoes the creations. */
  lemma Undone(before: Books, now: Books, a: AgentId, created: map<string, Instance>)
    requires Underway(before, now, a, created)
    ensures var after := Without(now, UuidsOf(created));
            Keeps(before, after) && Living(after.instances, a) == {} && (created == map[] ==> after == now)
  {
    var gone := UuidsOf(created);
    CreatedLiveThere(now.instances, a, created);
    hide NoLeakElsewhere, NoLeak, UuidsOf, Astray, Living, CreatedExactly;
    InsideDropped(now.instances, now.plugins, now.loops, a, gone);
    ElsewhereOf(now.instances - gone, now.plugins, now.loops, a);
    if created == map[] {
      DropNone(now.instances);
      DropNone(now.user);
    }
  }

  lemma CreatedLiveThere(instances: map<Uuid, Instance>, a: AgentId, created: map<string, Instance>)
    requires CreatedExactly(instances, a, created)
    ensures forall u :: u in UuidsOf(created) && u in instances ==> instances[u].scope == AgentScope(a)
    ensures Living(instances, a) - UuidsOf(created) == {}
    ensures created == map[] ==> UuidsOf(created) == {}
  {
    assert forall u :: u in UuidsOf(created) ==> u in Living(instances, a);
  }

  /** With the loop on top, what was created goes on record. */
  lemma Recording(before: Books, now: Books, a: AgentId, created: map<string, Instance>, loop: Instance, own: Props)
    requires Underway(before, now, a, created) && New(now, loop) && loop.scope == AgentScope(a)
    ensures Keeps(before, Added(now, loop, own).(plugins := now.plugins[a := created], loops := now.loops[a := loop]))
  {
    hide NoLeakElsewhere, NoLeak, UuidsOf, Astray, CreatedExactly, AllRecorded;
    Entered(now.instances, now.plugins, now.loops, a, created, loop);
  }

  // ------------------------------------------------------------ replacing one plugin

  function PluginsOf(plugins: Plugins, a: AgentId): map<string, Instance> {
    if a in plugins then plugins[a] else map[]
  }

  function WithPlugin(plugins: Plugins, a: AgentId, p: string, i: Instance): Plugins {
    plugins[a := PluginsOf(plugins, a)[p := i]]
  }

  /** The instance a plugin's record names, if there is a record. */
  function CurrentUuid(plugins: Plugins, a: AgentId, p: string): set<Uuid> {
    if p in PluginsOf(plugins, a) then {plugins[a][p].uuid} else {}
  }

  /** Deleting the instance of a record without replacing the record: no leak, but the agent is astray. */
  lemma RecordDangles(instances: map<Uuid, Instance>, plugins: Plugins, loops: Loops, a: AgentId, p: string)
    requires NoLeak(instances, plugins, loops)
    ensures var gone := CurrentUuid(plugins, a, p);
            && NoLeak(instances - gone, plugins, loops)
            && Astray(instances - gone, plugins, loops)
               == Astray(instances, plugins, loops) + (if p in PluginsOf(plugins, a) then {a} else {})
            && (p in PluginsOf(plugins, a) && plugins[a][p].uuid !in instances ==>
                  a in Astray(instances, plugins, loops))
  {
    var gone := CurrentUuid(plugins, a, p);
    assert gone <= Recorded(plugins, loops, a);
    assert Accounted(instances, plugins, loops, a);
    LivingDropped(instances, gone, a);
    assert Living(instances - gone, a) == Recorded(plugins, loops, a) * (instances - gone).Keys;
    forall b | b != a
      ensures Accounted(instances - gone, plugins, loops, b)
      ensures Recorded(plugins, loops, b) <= (instances - gone).Keys <==> Recorded(plugins, loops, b) <= instances.Keys
    {
      assert Accounted(instances, plugins, loops, b);
      forall u | u in gone && u in instances ensures instances[u].scope == AgentScope(a) {
        assert u in Living(instances, a);
      }
      hide Accounted, Recorded, CurrentUuid;
      DroppedElsewhere(instances, plugins, loops, a, gone, b);
    }
    if p in PluginsOf(plugins, a) {
      assert plugins[a][p].uuid in Recorded(plugins, loops, a) && plugins[a][p].uuid !in (instances - gone).Keys;
    } else {
      assert instances - gone == instances;
    }
  }

  lemma OthersRecorded(plugins: Plugins, loops: Loops, a: AgentId, p: string, i: Instance, b: AgentId)
    requires b != a
    ensures Recorded(WithPlugin(plugins, a, p, i), loops, b) == Recorded(plugins, loops, b)
    ensures RecordedOnce(WithPlugin(plugins, a, p, i), loops, b) == RecordedOnce(plugins, loops, b)
  {
  }

  lemma UuidsWithPlugin(own: map<string, Instance>, p: string, i: Instance)
    ensures var gone := if p in own then {own[p].uuid} else {};
            && UuidsOf(own[p := i]) <= UuidsOf(own) + {i.uuid}
            && UuidsOf(own) - gone <= UuidsOf(own[p := i])
            && i.uuid in UuidsOf(own[p := i])
  {
    var after := own[p := i];
    assert after[p] == i;
    forall u | u in UuidsOf(own) && !(p in own && own[p].uuid == u) ensures u in UuidsOf(after) {
      var q :| q in own && own[q].uuid == u;
      assert after[q] == own[q];
    }
  }

  lemma RecordedWithPlugin(plugins: Plugins, loops: Loops, a: AgentId, p: string, i: Instance)
    ensures var after := WithPlugin(plugins, a, p, i);
            && Recorded(after, loops, a) <= Recorded(plugins, loops, a) + {i.uuid}
            && Recorded(plugins, loops, a) - CurrentUuid(plugins, a, p) <= Recorded(after, loops, a)
            && i.uuid in Recorded(after, loops, a)
            && (RecordedOnce(plugins, loops, a) && i.uuid !in Recorded(plugins, loops, a) ==>
                  && RecordedOnce(after, loops, a)
                  && Recorded(after, loops, a) == Recorded(plugins, loops, a) - CurrentUuid(plugins, a, p) + {i.uuid})
  {
    UuidsWithPlugin(PluginsOf(plugins, a), p, i);
  }

  /** Replacing a plugin's instance, if there is one, and its record together. */
  lemma RecordReplaced(instances: map<Uuid, Instance>, plugins: Plugins, loops: Loops, a: AgentId, p: string,
                       i: Instance)
    requires NoLeak(instances, plugins, loops) && CurrentUuid(plugins, a, p) <= instances.Keys
    requires i.uuid !in instances && i.uuid !in AllRecorded(plugins, loops) && i.scope == AgentScope(a)
    ensures var after := (instances - CurrentUuid(plugins, a, p))[i.uuid := i];
            && NoLeak(after, WithPlugin(plugins, a, p, i), loops)
            && Astray(after, WithPlugin(plugins, a, p, i), loops) == Astray(instances, plugins, loops)
  {
    var gone := CurrentUuid(plugins, a, p);
    var after, plugins' := (instances - gone)[i.uuid := i], WithPlugin(plugins, a, p, i);
    ReplacedFor(instances, plugins, loops, a, p, i);
    forall b | b != a
      ensures Accounted(after, plugins', loops, b)
      ensures Recorded(plugins', loops, b) <= after.Keys <==> Recorded(plugins, loops, b) <= instances.Keys
    {
      assert Accounted(instances, plugins, loops, a) && Accounted(instances, plugins, loops, b);
      ReplacedElsewhere(instances, plugins, loops, a, p, i, b);
    }
    hide Accounted, Recorded, WithPlugin, CurrentUuid;
    AstraySame(instances, plugins, loops, after, plugins', loops, {});
  }

  /** The agent whose plugin is replaced. */
  lemma ReplacedFor(instances: map<Uuid, Instance>, plugins: Plugins, loops: Loops, a: AgentId, p: string, i: Instance)
    requires Accounted(instances, plugins, loops, a) && CurrentUuid(plugins, a, p) <= instances.Keys
    requires i.uuid !in instances && i.uuid !in AllRecorded(plugins, loops) && i.scope == AgentScope(a)
    ensures var after, plugins' := (instances - CurrentUuid(plugins, a, p))[i.uuid := i], WithPlugin(plugins, a, p, i);
            && Accounted(after, plugins', loops, a)
            && (Recorded(plugins', loops, a) <= after.Keys <==> Recorded(plugins, loops, a) <= instances.Keys)
            && (a !in plugins && a !in loops ==> Recorded(plugins, loops, a) == {})
  {
    var gone := CurrentUuid(plugins, a, p);
    var left := instances - gone;
    RecordedWithin(plugins, loops);
    RecordedWithPlugin(plugins, loops, a, p, i);
    LivingDropped(instances, gone, a);
    LivingAdded(left, i, a);
    hide Recorded, RecordedOnce, WithPlugin, CurrentUuid, Living, AllRecorded;
    var all := Recorded(plugins, loops, a);
    assert i.uuid !in all;
    assert (all - gone + {i.uuid}) * left[i.uuid := i].Keys == all * instances.Keys - gone + {i.uuid};
  }

  /** Any other agent. */
  lemma ReplacedElsewhere(instances: map<Uuid, Instance>, plugins: Plugins, loops: Loops, a: AgentId, p: string,
                          i: Instance, b: AgentId)
    requires b != a && Accounted(instances, plugins, loops, a) && Accounted(instances, plugins, loops, b)
    requires i.uuid !in instances && i.uuid !in AllRecorded(plugins, loops) && i.scope == AgentScope(a)
    ensures var after, plugins' := (instances - CurrentUuid(plugins, a, p))[i.uuid := i], WithPlugin(plugins, a, p, i);
            && Accounted(after, plugins', loops, b)
            && (Recorded(plugins', loops, b) <= after.Keys <==> Recorded(plugins, loops, b) <= instances.Keys)
  {
    var gone := CurrentUuid(plugins, a, p);
    assert gone <= Recorded(plugins, loops, a);
    forall u | u in gone && u in instances ensures instances[u].scope == AgentScope(a) {
      assert u in Living(instances, a);
    }
    OthersRecorded(plugins, loops, a, p, i, b);
    AgentScopesApart(a, b);
    hide Recorded, RecordedOnce, WithPlugin, CurrentUuid, AllRecorded;
    DroppedElsewhere(instances, plugins, loops, a, gone, b);
    AddedElsewhere(instances - gone, plugins, loops, i, b);
  }

  /** The same in the books: the instance on record was deleted, if there was one, and a new one takes its place. */
  lemma Replaced(before: Books, now: Books, added: Books, a: AgentId, p: string, i: Instance, own: Props)
    requires Clean(before) && CurrentUuid(before.plugins, a, p) <= before.instances.Keys
    requires now == Without(before, CurrentUuid(before.plugins, a, p)) && New(now, i) && added == Added(now, i, own)
    requires i.scope == AgentScope(a) && i.enabled && i.ranking == 0
    ensures var after := added.(plugins := WithPlugin(now.plugins, a, p, i));
            && Clean(after) && StrayIn(after) == StrayIn(before)
            && Running(after.instances, after.user, i, DefinitionOf(i), AgentScope(a), own)
            && p in PluginsOf(after.plugins, a) && after.plugins[a][p] == i
            && after.plugins.Keys == before.plugins.Keys + {a}
  {
    CurrentOnRecord(before.plugins, before.loops, a, p);
    hide NoLeak, Astray, AllRecorded, CurrentUuid;
    NewBefore(before, now, CurrentUuid(before.plugins, a, p), i);
    RecordReplaced(before.instances, before.plugins, before.loops, a, p, i);
  }

  lemma CurrentOnRecord(plugins: Plugins, loops: Loops, a: AgentId, p: string)
    ensures CurrentUuid(plugins, a, p) <= AllRecorded(plugins, loops)
  {
  }
}
