# The scoped plugin runtime, modelled and proved

The runtime keeps a tree of scopes, shows a component only what lives in its own scope or an ancestor
of it, and creates and destroys plugin instances in those scopes. This project models its logic in
Dafny and proves what the parts promise each other.

* **Scope tree** (`ScopeForest`, `ScopeTree`, `ScopeRestore`): the mutable tree with its validation,
  removal and restore loops. `CommitLog` is the compare-and-swap protocol for any kind of contents,
  and `ScopeReplicas` shows that several tree objects on one store follow it.
* **Visibility and shadowing** (`LdapFilter`, `StableSort`, `TextOrder`, `ScopePolicy`,
  `ServiceRanking`): the LDAP filter a consumer sees through, read back by the grammar of section 3 of
  RFC 4515; the two implementations of nearest-scope shadowing; and the number `service.ranking` that
  stands in for it.
* **Plugin manager** (`EffectiveProperties`, `PluginTables`, `PluginManager`, `ManagerRuns`): the
  properties an instance runs with, the tables that must agree, every operation on them, and whole
  runs. iPOPO is a map from component names to injected properties. What the outside world decides
  (whether a component starts, a bundle installs, a kill of an unknown name is tolerated, a write
  works) is a parameter of each call and quantified over. `ManagerRuns.After` is the state a command
  should lead to, as a function of the state before and of those answers. `ManagerRestore` is the
  restart from a saved image.
* **Agent directory** (`Ids`, `AgentRecords`, `AgentSetup`, `AgentDirectory`, `DirectoryRuns`): whole
  plugin sets created and torn down through the manager. `AgentSetup` says, on values, which
  properties a plugin of an agent is given and what a sweep over a list of agents comes to.
* **Shortcomings**: short runs in which the code falls short of what one would expect.
* **Independent cores**: `Annotations`, `StreamDeltas`, `RateLimit`, `ConfigStore`, `ClientRegistry`,
  `Palette`.

Objects that the program updates in place are classes here, with the same fields and the same steps.
A class invariant is called `Valid()`; the manager's is the conjunction of `Tables()` (definitions,
registry, bundles, instances and index agree with each other and with the tree), `Live()` (the live
components are exactly the active instances, with the properties on record) and `Derived()` (those
properties are what the user's properties and the present tree give).

Where the code falls short of what it or its comments promise, the code is modelled as it is and the
exact condition is proved:

* `ServiceRanking.RankingAgreesIff`, `StrideTies`: the integer ranking follows the policy iff no
  farther candidate leads by 1,000,000 per step.
* `EffectiveProperties.RehydrateStableIff`: saved properties come back unchanged iff no scoped field
  had a filter of its own.
* `PluginManager.DeleteInstance`, `UpdateInstance`: when saving or starting fails, the tables still
  agree; live components and user properties do so iff a condition holds that is known before the call
  (`ManagerRuns.Breaks`, computed by `ManagerRuns.WillBreak`).
* `PluginManager.ApplyConfigTo`: clearing the user's properties first leaves a live component with old
  properties after a normal return in exactly one case, and loses the user's properties on an error.
* `PluginManager.EnsureInstance`: reconciling only adds and replaces, so an instance can keep
  properties the caller no longer names.
* `AgentDirectory.EnsurePluginInstance`: a replacement that cannot be created leaves a record of a
  deleted instance, and every later attempt for that plugin then fails, until the agent is torn down.
* `ManagerRestore.Restart`: a disabled instance comes back without its user properties and without a
  place in the index.
* `StreamDeltas.RepeatIsLostIff`: the remark that an identical consecutive delta is never sliced to
  nothing does not hold.

`Shortcomings` shows all but the first and the last at work, in short runs from a fresh start.

## Model

| member | source | states |
|---|---|---|
| `ScopeForest.ChainUnique` | src/langharness_scope/tree.py:100-108 | a scope has at most one chain of parents, so the walk of `ancestors` has one possible result |
| `ScopeForest.ChainDistinct` | src/langharness_scope/tree.py:100-108 | no scope occurs twice on its own chain: nothing is its own ancestor |
| `ScopeForest.UnderTransitive` | src/langharness_scope/tree.py:127-138 | being an ancestor-or-self is transitive, and mutual only for equal scopes |
| `ScopeForest.WithScopeKeepsChains` | src/langharness_scope/tree.py:71-87 | a new leaf leaves a tree, and every existing chain and depth as it was |
| `ScopeForest.WithoutSubtreeKeepsChains` | src/langharness_scope/tree.py:140-155 | taking out a whole subtree leaves a tree in which every surviving scope has the chain and depth it had |
| `ScopeTree.EditKeepsTree` | src/langharness_scope/tree.py:71-87 | every allowed create or remove leads from a tree to a tree and changes no surviving chain |
| `ScopeTree.EditKeepsParentsFirst` | src/langharness_scope/tree.py:157-161 | the dictionary keeps listing every scope after its parent |
| `ScopeTree.EditKeepsOrder` | src/langharness_scope/tree.py:71-87 | a created scope is listed last, and a removal leaves the survivors in the order they were listed in |
| `Common.BlankIff` | src/langharness_scope/tree.py:76-78 | a text counts as blank iff stripping white space leaves nothing of it |
| `ScopeTree.TableRoundTrip` | src/langharness_scope/tree.py:42-55 | the list of scopes in a snapshot reads back to the same dictionary in the same order |
| `ScopeTree.InMemoryScopeStore.Save` | src/langharness_scope/tree.py:27-36 | compare and swap: it writes and counts one version up exactly when the expected version is the stored one, else nothing changes |
| `ScopeTree.ScopeTree.Open` | src/langharness_scope/tree.py:42-55 | an empty store gets a root at version 1; a stored snapshot is taken over if it is a tree and refused otherwise |
| `ScopeTree.ScopeTree.ValidateSnapshot` | src/langharness_scope/tree.py:163-176 | terminates on every map of scopes, cycles included, and accepts it iff it is a tree in which every parent chain ends at `root` |
| `ScopeTree.ScopeTree.FollowParents` | src/langharness_scope/tree.py:166-176 | the inner walk ends at a parentless scope, a repetition or a missing parent, and is accepted iff it settles |
| `ScopeTree.CycleIsNoTree` | src/langharness_scope/tree.py:168-171 | a walk that meets a scope again proves that the map is no tree |
| `ScopeTree.OrphanIsNoTree` | src/langharness_scope/tree.py:172-176 | a parent link out of the map proves that the map is no tree |
| `ScopeTree.ScopeTree.Create` | src/langharness_scope/tree.py:71-87 | errors in the order of the code, else the table with the new leaf committed; tree and store move together or not at all |
| `ScopeTree.ScopeTree.Commit` | src/langharness_scope/tree.py:157-161 | table and version change exactly when the store accepts the write |
| `ScopeTree.ScopeTree.Ancestors` | src/langharness_scope/tree.py:100-108 | returns exactly the chain, with or without the scope itself |
| `ScopeTree.ScopeTree.DepthOf` | src/langharness_scope/tree.py:124-125 | the number of proper ancestors |
| `ScopeTree.ScopeTree.IsAncestor` | src/langharness_scope/tree.py:127-138 | answers whether one scope lies on the chain of the other |
| `ScopeTree.ScopeTree.Children` | src/langharness_scope/tree.py:93-98 | every scope whose parent is this one, each once, listed as the dictionary lists them |
| `ScopeTree.ScopeTree.Descendants` | src/langharness_scope/tree.py:110-122 | without duplicates, exactly the other scopes that have this one on their chain, depth first with siblings in the order of the dictionary |
| `ScopeTree.ScopeTree.Visit` | src/langharness_scope/tree.py:116-120 | the recursion lists a subtree without its top, each child followed by what is below it, and terminates |
| `ScopeTree.SiblingsApart` | src/langharness_scope/tree.py:93-98 | the subtrees of different children share no scope, so concatenating them repeats none |
| `ScopeTree.ChildrenCover` | src/langharness_scope/tree.py:110-122 | the subtrees of the children are together all proper descendants |
| `ScopeTree.RemovalOrder` | src/langharness_scope/tree.py:140-155 | reversing the list of descendants after the scope itself reports every scope before its ancestors |
| `ScopeTree.ScopeTree.Remove` | src/langharness_scope/tree.py:140-155 | removes exactly the subtree (alone: a childless scope), reports every removed scope once and before its ancestors, and refuses root, unknown scopes, inner scopes and stale versions without any change |
| `CommitLog.RunsAreConsistent` | src/langharness_scope/tree.py:157-161 | in every interleaving of any number of copies the store is the replay of the committed updates and every copy the replay of a prefix |
| `CommitLog.VersionsDetermineStates` | src/langharness_scope/tree.py:27-36 | a copy is never ahead of the store, and equal versions mean equal contents |
| `CommitLog.NoLostUpdate` | src/langharness_scope/tree.py:27-36 | an attempt commits exactly when its copy has seen every commit and the update is allowed; any other attempt changes nothing anywhere |
| `CommitLog.HistoryOnlyGrows` | src/langharness_scope/tree.py:157-161 | what is committed at some point stays a prefix of what is committed later |
| `CommitLog.RunsKeep` | src/langharness_scope/tree.py:157-161 | whatever every allowed update keeps holds of the store and every copy in every run |
| `ScopeReplicas.StepIsAttempt` | src/langharness_scope/tree.py:157-161 | a create or remove through one tree object, snapshot list and all, is one step of that protocol |
| `ScopeReplicas.RunsStayTrees` | src/langharness_scope/tree.py:163-176 | over all interleavings of several trees on one store, every tree and every stored snapshot is a rooted tree with parents before children |
| `ScopeReplicas.OpenSucceeds` | src/langharness_scope/tree.py:42-55 | every snapshot ever stored passes validation, and a newly opened tree holds what the store holds |
| `ScopeReplicas.StaleTreeIsRefused` | src/langharness_scope/tree.py:27-36 | a tree at another version than the store is behind it, and its next write changes nothing |
| `ScopeRestore.Wanted` | src/langharness_plugin/plugin_manager.py:1019-1026 | which saved rows are to be created: those not there yet, each id once with its last row |
| `ScopeRestore.RestoreScopes` | src/langharness_plugin/plugin_manager.py:1019-1036 | terminates; succeeds iff the old scopes with all wanted ones form a tree, no text is blank and the tree can write; then adds exactly the wanted scopes |
| `ScopeRestore.Pass` | src/langharness_plugin/plugin_manager.py:1027-1035 | one pass creates some wanted scopes and leaves only scopes whose parent is still missing |
| `ScopeRestore.StuckIsNoTree` | src/langharness_plugin/plugin_manager.py:1032-1034 | a pass without progress proves that some parent chain never reaches an existing scope |
| `ScopeRestore.OrderDoesNotMatter` | src/langharness_plugin/plugin_manager.py:1019-1036 | the order of the saved rows does not change the tree that results |
| `ScopeRestore.RestoreRebuilds` | src/langharness_plugin/plugin_manager.py:1019-1036 | restoring the rows a tree was saved as, over any part of it, gives that tree back |
| `LdapFilter.EscapeRoundTrip` | src/langharness_plugin/scope_policy.py:20-22 | escaping has a left inverse on every string (section 3 of RFC 4515) |
| `LdapFilter.EscapeIsPlain` | src/langharness_plugin/scope_policy.py:20-22 | an escaped value contains no parenthesis, asterisk or NUL |
| `LdapFilter.EscapeJoins` | src/langharness_plugin/scope_policy.py:20-22 | escaping works character by character, replaces exactly five of them, and each by the code the source has for it |
| `LdapFilter.ParseExtends` | src/langharness_plugin/scope_policy.py:37-42 | what follows a filter never changes how the filter is read |
| `LdapFilter.NoProperPrefix` | src/langharness_plugin/plugin_manager.py:700-706 | a well-formed filter that starts with a well-formed filter is that filter |
| `LdapFilter.ConjunctionParses` | src/langharness_plugin/plugin_manager.py:700-706 | two filters joined by the manager parse back to their conjunction |
| `LdapFilter.ConjunctionAdmits` | src/langharness_plugin/plugin_manager.py:700-706 | the joined filter admits exactly what both admit |
| `LdapFilter.NegationAdmits` | src/langharness_plugin/plugin_manager.py:94-108 | a user filter with `!` in front admits what it did not |
| `LdapFilter.ItemAdmits` | src/langharness_plugin/scope_policy.py:37-42 | an equality with an escaped value asks for that very value, other comparisons are left open |
| `LdapFilter.VisibilityFilterParses` | src/langharness_plugin/scope_policy.py:37-42 | the visibility filter of a non-empty chain parses back to the disjunction over exactly its scopes |
| `LdapFilter.VisibilityFilterAdmits` | src/langharness_plugin/scope_policy.py:37-42 | the visibility filter admits a service iff its scope id is one of the visible scopes |
| `StableSort.SortIsTheStableSort` | src/langharness_plugin/scope_policy.py:73-75 | a list is the result of the model's sort iff it is sorted and keeps ties in order: the sort stands for Python's |
| `StableSort.SortHead` | src/langharness_plugin/scope_policy.py:55-63 | the head of a stable sort is what `min` returns |
| `StableSort.FirstMinIsFirst` | src/langharness_plugin/scope_policy.py:55-63 | `min` returns a minimum, the first of equal ones |
| `StableSort.FilterSort` | src/langharness_plugin/scope_policy.py:65-82 | dropping elements commutes with a stable sort |
| `ScopePolicy.BestIsNearest` | src/langharness_plugin/scope_policy.py:44-63 | `resolve_best` is missing iff nothing is visible; else it is nearest, there of highest ranking, then of smallest key, and the first of those with all three alike |
| `TextOrder.TextLeIff` | src/langharness_plugin/scope_policy.py:55-63 | the order of keys: a prefix comes first, else the smaller character where two keys first differ |
| `ScopePolicy.ResolveAggregate` | src/langharness_plugin/scope_policy.py:65-82 | the loop over scopes returns the first candidate of every key, scope by scope; on the chain of a scope, by `AggregatesAgree` and `AggregateIsBestPerKey`, in order of distance, ranking down, key |
| `ScopePolicy.Complete` | src/langharness_plugin/scope_policy.py:91-100 | given metadata wins, missing entries come from the attributes of the provider |
| `ScopePolicy.LegacyIff` | src/langharness_plugin/scope_policy.py:103-104 | a provider is legacy iff the caller says nothing about it and the object itself lacks scope or key |
| `ScopePolicy.CandidateOf` | src/langharness_plugin/scope_policy.py:92-109 | any other provider becomes one candidate: with what the caller says, or else with what the object says and ranking 0 by default |
| `ScopePolicy.ScopedJoins` | src/langharness_plugin/scope_policy.py:105-109 | providers become candidates one by one, in their order |
| `ScopePolicy.ResolveScopedAggregate` | src/langharness_plugin/scope_policy.py:84-118 | without scopes the input; else the first candidate of every key in one global order, which `AggregateIsBestPerKey` spells out, then the providers without metadata in their order |
| `ScopePolicy.SelectFirst` | src/langharness_plugin/scope_policy.py:112-118 | the selection loop keeps the first service of every key |
| `ScopePolicy.ResolveScopedBest` | src/langharness_plugin/scope_policy.py:121-152 | returns the service of `resolve_best` over the completed candidates, which `BestIsNearest` spells out; nothing iff none is visible |
| `ScopePolicy.InsertIntoBlock` | src/langharness_plugin/scope_policy.py:65-118 | one more candidate goes into the block of its scope exactly where one global sort puts it |
| `ScopePolicy.SortsAgree` | src/langharness_plugin/scope_policy.py:65-118 | on a chain without repetition, sorting scope by scope and sorting once give the same list |
| `ScopePolicy.AggregatesAgree` | src/langharness_plugin/scope_policy.py:65-118 | the per-scope loop and the single stable sort select the same sequence |
| `ScopePolicy.TreeAggregatesAgree` | src/langharness_plugin/scope_policy.py:31-35 | the two agree for the chain of every scope of every tree |
| `ScopePolicy.FirstOfKeysByKey` | src/langharness_plugin/scope_policy.py:65-82 | of the candidates with one key exactly the first stays |
| `ScopePolicy.AggregateIsBestPerKey` | src/langharness_plugin/scope_policy.py:65-118 | the result lists every visible key once, the entry of a key is `resolve_best` of its candidates, the head is `resolve_best` of all; any two entries stand in order of distance, then ranking down, then key |
| `ScopePolicy.AggregateForgetsOrder` | src/langharness_plugin/scope_policy.py:65-118 | with distinct (scope, ranking, key) triples the result does not depend on the order of the input |
| `ServiceRanking.DepthFalls` | src/langharness_plugin/plugin_manager.py:680-682 | depth falls by one with every step away from the consumer |
| `ServiceRanking.RankingAgreesIff` | src/langharness_plugin/plugin_manager.py:680-682 | every candidate of largest depth * 1,000,000 + ranking has the scope and ranking of `resolve_best` iff no farther candidate leads by a stride per step |
| `ServiceRanking.CloseRankingsAgree` | src/langharness_plugin/plugin_manager.py:64 | rankings that differ pairwise by less than 1,000,000 satisfy that condition |
| `ServiceRanking.StrideTies` | src/langharness_plugin/plugin_manager.py:64 | the bound is tight: at a difference of 1,000,000 across one step, in every tree, the numbers tie |
| `ServiceRanking.FindServiceFollowsPolicy` | src/langharness_plugin/plugin_manager.py:754-769 | looking a service up through the visibility filter finds one iff the policy does, and under that condition one of the same scope and ranking |
| `ServiceRanking.FindServiceIsFirst` | src/langharness_plugin/plugin_manager.py:754-769 | of several services with the largest number the lookup answers with the first |
| `EffectiveProperties.ApplyScopedFilters` | src/langharness_plugin/plugin_manager.py:690-708 | the loop over scoped fields sets each to the scope filter or its conjunction with the user's, in whatever order the set yields them, and touches nothing else |
| `EffectiveProperties.ComputeEffective` | src/langharness_plugin/plugin_manager.py:662-688 | step by step computes the effective properties or the validation error; the validation after the merge never rejects; what comes out is `EffectiveInjects`, when it does is `AcceptableIff` |
| `EffectiveProperties.EffectiveInjects` | src/langharness_plugin/plugin_manager.py:671-706 | a component is given its scope, scope chain, factory as key, uuid, ranking and `service.ranking`; filters of scoped fields aside, every other key is there iff the user gave it, with the user's value |
| `EffectiveProperties.AcceptableIff` | src/langharness_plugin/plugin_manager.py:94-108 | properties are acceptable iff filters are absent, or null where no field is scoped, or a mapping to texts each of which reads as one filter to its end |
| `EffectiveProperties.EffectiveIff` | src/langharness_plugin/plugin_manager.py:94-108 | properties are accepted iff the user's filters are well formed and not null where fields are scoped, wherever the instance lives |
| `EffectiveProperties.MergeCases` | src/langharness_plugin/plugin_manager.py:700-706 | a merged field is well formed: the scope filter if the user gave none or just that, else the conjunction; so skipping a filter that starts with the scope filter lets nothing else through |
| `EffectiveProperties.ScopedFieldAdmits` | src/langharness_plugin/plugin_manager.py:690-708 | a scoped field admits exactly the services of visible scopes that pass the user's own filter |
| `EffectiveProperties.FiltersKeptIff` | src/langharness_plugin/plugin_manager.py:690-706 | the user's filters come through unchanged iff every scoped field has exactly the scope filter already |
| `EffectiveProperties.RehydrateSucceeds` | src/langharness_plugin/plugin_manager.py:1038-1049 | recomputing from saved properties minus the runtime keys always works and changes at most the filters |
| `EffectiveProperties.StripIs` | src/langharness_plugin/plugin_manager.py:1042-1045 | what counts as the user's part of saved properties is all but the six values about the component |
| `EffectiveProperties.MergeTwice` | src/langharness_plugin/plugin_manager.py:700-706 | a field with its own filter is wrapped exactly once more, every other field keeps its filter |
| `EffectiveProperties.RehydrateStableIff` | src/langharness_plugin/plugin_manager.py:1038-1049 | rehydration gives back the same map iff no scoped field has a filter of its own |
| `EffectiveProperties.RehydratedFieldAdmits` | src/langharness_plugin/plugin_manager.py:1038-1049 | even a field wrapped once more admits exactly the same services |
| `PluginTables.DerivedSurvives` | src/langharness_plugin/plugin_manager.py:671-682 | a change of the tree that leaves the chains in use alone leaves all recorded properties current |
| `PluginTables.InjectedMetadataIsCurrent` | src/langharness_plugin/plugin_manager.py:671-706 | everything injected into an instance is what its record and the tree say now: scope, chain, factory, uuid, ranking, depth times a million plus ranking; all else, filters of scoped fields aside, is what the user gave |
| `PluginTables.ValidDescriptorIff` | src/langharness_plugin/registry.py:89-105 | a descriptor is valid iff none of its six texts is blank and it is swapped hot or by restart |
| `PluginTables.DerivedFromEffectiveIff` | src/langharness_plugin/plugin_manager.py:536-562 | recording effective properties as the user's keeps an instance derivable iff no scoped field had its own filter |
| `PluginTables.NewDefinitionUndone` | src/langharness_plugin/plugin_manager.py:338-358 | adding a definition and rolling it back gives every table back, bundle included |
| `PluginManager.RuntimeStateStore.Save` | src/langharness_plugin/state_store.py:156-164 | compare and swap on the runtime state |
| `PluginManager.PluginManager.constructor` | src/langharness_plugin/plugin_manager.py:113-143 | a new manager has empty tables that agree |
| `PluginManager.PluginManager.PersistState` | src/langharness_plugin/plugin_manager.py:850-894 | succeeds iff no store is bound or the write works at the expected version; afterwards the store holds the memory image, else nothing changed |
| `PluginManager.PluginManager.InstallDefinition` | src/langharness_plugin/plugin_manager.py:280-325 | exactly when it succeeds, what it adds, and that a refused or failed install leaves tables, bundles and store as they were |
| `PluginManager.PluginManager.RollbackDefinition` | src/langharness_plugin/plugin_manager.py:338-358 | removes a definition and unloads the bundle iff no other definition of its module is left |
| `PluginManager.PluginManager.UninstallPlugin` | src/langharness_plugin/plugin_manager.py:390-412 | refused for unknown plugins, another module or live instances; else the definition is gone even when saving fails |
| `PluginManager.PluginManager.CreateInstance` | src/langharness_plugin/plugin_manager.py:443-499 | succeeds exactly when scope and definition exist, the properties are acceptable, the component starts and saving works; then the record holds the arguments and, key by key, the injected properties; otherwise every table, the live components and the store are as before |
| `PluginManager.PluginManager.Enter` | src/langharness_plugin/plugin_manager.py:470-499 | start, record and save, or undo of all three |
| `PluginManager.PluginManager.RemoveRecord` | src/langharness_plugin/plugin_manager.py:256-268 | takes one instance out of the tables, the index and the live components |
| `PluginManager.PluginManager.DeleteInstance` | src/langharness_plugin/plugin_manager.py:536-562 | which outcome, error or not, and what is left after it; after a failed save the instance is back with its effective properties as the user's, which stays consistent iff no scoped field had its own filter |
| `PluginManager.PluginManager.PutBack` | src/langharness_plugin/plugin_manager.py:546-561 | rebuilding a deleted instance works iff the component starts, and states what is recorded for it |
| `PluginManager.PluginManager.SwapComponent` | src/langharness_plugin/plugin_manager.py:585-623 | what one update does to the live component, including the handler that kills an already killed component |
| `PluginManager.PluginManager.UpdateInstance` | src/langharness_plugin/plugin_manager.py:564-637 | a plan known before the call decides outcome, records and components; live components match the records iff `InStepAfter` holds of the plan, and after a failed save the recorded properties are the user's iff no scoped field had its own filter; the new record differs only in what the caller names and, key by key, in the injected properties |
| `PluginManager.PluginManager.CarryOut` | src/langharness_plugin/plugin_manager.py:580-637 | the same for an instance that is there, step by step |
| `PluginManager.OkInStep` | src/langharness_plugin/plugin_manager.py:598-615 | a component that is not built anew has the properties of the new record, so a normal return keeps everything in step |
| `PluginManager.PluginManager.ApplyConfigTo` | src/langharness_plugin/plugin_manager.py:801-826 | the outcome of clearing and updating in every case, errors included; after a normal return the tables agree iff it is not an enabled instance that stays enabled with an empty override and a changed record |
| `PluginManager.PluginManager.EnsureInstance` | src/langharness_plugin/plugin_manager.py:501-528 | creates, keeps or updates the first matching instance, when each succeeds, and whether everything agrees afterwards; its properties are, key by key, the injected ones; user properties become the wanted ones iff it is new or had no other property |
| `PluginManager.PluginManager.Reconcile` | src/langharness_plugin/plugin_manager.py:511-522 | the update of an instance that has other properties, and the condition under which everything agrees afterwards |
| `PluginManager.CreatedIff` | src/langharness_plugin/plugin_manager.py:443-475 | a creation accepts properties iff the user's filters are acceptable, wherever it is |
| `PluginManager.PluginManager.AddScope` | src/langharness_plugin/plugin_manager.py:213-226 | creates the scope, accepts an equal one, or says why not; every instance keeps its chain, number and properties |
| `PluginManager.PluginManager.ScopeFilter` | src/langharness_plugin/plugin_manager.py:737-738 | the visibility filter of the chain of the scope |
| `PluginManager.PluginManager.RemoveScope` | src/langharness_plugin/plugin_manager.py:228-254 | refuses as the code does; else exactly the instances that live in the subtree are gone, and what remains of the scopes after a refusal of the store or a failed save |
| `PluginManager.LiveAfterMove` | src/langharness_plugin/plugin_manager.py:585-637 | the live components match the records after an update iff that condition holds |
| `PluginManager.PluginManager.CheckRemoval` | src/langharness_plugin/plugin_manager.py:228-251 | which instances a removal would delete, or the refusal for unknown scopes, children or instances |
| `ManagerRuns.WillBreak` | src/langharness_plugin/plugin_manager.py:501-637 | a caller can compute before the call whether it will break the agreement |
| `ManagerRuns.GoodWorldBreaksNothing` | src/langharness_plugin/plugin_manager.py:501-637 | no command does while saving works and components start |
| `ManagerRuns.Execute` | src/langharness_plugin/plugin_manager.py:213-637 | a command, in a world that answers in any way, leads to exactly one state (definitions, registry, bundles, scopes, instances, user properties, components, whether stores can be written), and it breaks the agreement of tables, live components and properties iff that condition held before it |
| `ManagerRuns.EffectOf` | src/langharness_plugin/plugin_manager.py:213-637 | a command adds, removes and moves no other instances than it should |
| `ManagerRuns.Run` | src/langharness_plugin/plugin_manager.py:213-637 | any run of install, uninstall, add_scope, remove_scope, create, update, delete and ensure reaches exactly the state its commands lead to one after another; tables, registry, bundles, index, live components and cached properties agree up to the first command that meets the condition in the state before it, and no longer |
| `ManagerRestore.RestoreInstance` | src/langharness_plugin/plugin_manager.py:957-1007 | a saved instance comes back active, disabled, missing or failed exactly as definition, record, properties, a free name and its component decide; only active and failed ones get user properties and a place in the index |
| `ManagerRestore.RestoreInstances` | src/langharness_plugin/plugin_manager.py:950-1007 | the loop restores exactly the saved instances that live in no scope `agent:<id>`, in whatever order |
| `ManagerRestore.KeptIff` | src/langharness_plugin/plugin_manager.py:950-955 | a saved instance is left out iff its scope is `agent:` followed by some id |
| `ManagerRestore.RestoreDefinitions` | src/langharness_plugin/plugin_manager.py:932-947 | installs exactly the saved definitions that are missing, iff each is valid, its factory free and its bundle there or installable |
| `ManagerRestore.Restore` | src/langharness_plugin/plugin_manager.py:923-1017 | succeeds iff the scopes can be rebuilt, the missing definitions installed and, where agents' instances were dropped, the state saved again; then scopes, registry, instances, components and index are what the image says |
| `ManagerRestore.InstanceComesBack` | src/langharness_plugin/plugin_manager.py:978-989 | an enabled instance comes back with properties that its saved ones give, the very same iff no scoped field had a filter of its own; a disabled one as it was |
| `ManagerRestore.Restart` | src/langharness_plugin/plugin_manager.py:923-1017 | restoring what a manager in agreement saved gives the same scopes, definitions and bundles and exactly the instances that live in no agent's scope, up to that condition on properties; so nothing lives in any agent's scope, as the directory starts out from; components match records and records the tree, and all tables agree iff none of these instances was disabled |
| `AgentRecords.AgentScopesApart` | src/langharness_plugin/scope_const.py:24-25 | different agents have different scopes |
| `Ids.ValidIdIff` | src/langharness_core/common/ids.py:7-15 | an id is one to 64 letters, digits, hyphens, full stops and underscores, neither `.` nor `..`, and the pattern lets one final line break pass |
| `Ids.ThreadKeysApart` | src/langharness_core/common/ids.py:18-23 | two conversations share a memory key iff user, session and agent are the same |
| `AgentRecords.AstrayIff` | src/langharness_core/plugins/agents/directory.py:349-351 | an agent is out of step iff what lives in its scope is not exactly what is on record for it; nothing unrecorded ever lives there, and no instance is recorded twice |
| `AgentRecords.TornDown` | src/langharness_core/plugins/agents/directory.py:372-377 | deleting what is recorded for an agent and forgetting it leaves its scope empty, mends its records if they were out of step, and leaves every other agent as it was |
| `AgentRecords.Undone` | src/langharness_core/plugins/agents/directory.py:341-342 | deleting what was created for an agent leaves every instance and record there was before untouched and its scope empty |
| `AgentRecords.Recording` | src/langharness_core/plugins/agents/directory.py:349-351 | entering created plugins and loop together puts no agent out of step and touches nothing else |
| `AgentRecords.RecordDangles` | src/langharness_core/plugins/agents/directory.py:190-205 | deleting a recorded instance without touching the record leaks nothing and puts exactly that agent out of step |
| `AgentRecords.RecordReplaced` | src/langharness_core/plugins/agents/directory.py:190-205 | replacing an instance together with its record puts no agent out of or back in step |
| `AgentSetup.BoundIff` | src/langharness_core/plugins/agents/directory.py:353-370 | every key of a binding has its stored value, else for an llm the provider's default, for `name` the agent's name or id, else the catalog's setting, and `plugin.agent_id` is the agent; a binding is left out iff it is an llm for which neither stored properties nor defaults name a model |
| `AgentSetup.WantedIff` | src/langharness_core/plugins/agents/directory.py:174-191 | an ensured binding asks for the caller's value of every key, else the stored one, else the provider's default, else the catalog's setting; it is left alone iff it is an llm for which none of them names a model |
| `AgentSetup.SettlesIff` | src/langharness_core/plugins/agents/directory.py:193-199 | after an instance was created as wanted the same call finds nothing to do, iff the wanted properties name none of the injected values but the right one and no filters but the scope filter on every scoped field |
| `AgentSetup.BundlesReadyIff` | src/langharness_core/plugins/agents/directory.py:292-305 | an agent waits for the bundle of the llm only if it binds one |
| `AgentSetup.AgentScopeAdded` | src/langharness_core/plugins/agents/directory.py:308-313 | an agent's scope is `agent:<id>` under `agent`, named after the agent or, without a name, by its id |
| `AgentSetup.SweepBuilds` | src/langharness_core/plugins/agents/directory.py:226-232 | a sweep that ends builds every listed agent it can, whatever else is listed: an agent not on record and not failed is on record afterwards iff its bundles are there and its first enabled entry could be built before, has failed iff the bundles are there and it could not, and waits otherwise |
| `AgentSetup.SweepKeeps` | src/langharness_core/plugins/agents/directory.py:226-232 | agents on record or failed, agents not listed and their scopes are left alone by a sweep |
| `AgentSetup.StuckOnlyWithKids` | src/langharness_core/plugins/agents/directory.py:343-346 | a sweep fails only at an agent that cannot be built and whose scope has child scopes |
| `AgentSetup.BuiltAtFirst` | src/langharness_core/plugins/agents/directory.py:226-232 | with one id listed several times, the first enabled entry is the one that is built |
| `AgentSetup.BuiltStays` | src/langharness_core/plugins/agents/directory.py:226-232 | building other agents leaves an agent running as configured, its loop filter included |
| `AgentSetup.EffectiveButUuid` | src/langharness_plugin/plugin_manager.py:671-688 | properties computed under another uuid differ in that uuid alone |
| `AgentSetup.LosesAsExpected` | src/langharness_core/plugins/agents/directory.py:190-201 | whether a call loses an instance that its own sweep first builds can be told before the call |
| `AgentDirectory.AgentDirectory.Spawn` | src/langharness_core/plugins/agents/directory.py:323-327 | a creation under a new uuid succeeds iff scope and definition are there, the properties are acceptable and the component starts; else it changes nothing |
| `AgentDirectory.AgentDirectory.SafeKill` | src/langharness_core/plugins/agents/directory.py:379-385 | deletes an instance if it exists |
| `AgentDirectory.AgentDirectory.Teardown` | src/langharness_core/plugins/agents/directory.py:372-377 | an agent's records are gone and so is every instance they named, which mends it if it was out of step |
| `AgentDirectory.AgentDirectory.EnsureDefaultLlm` | src/langharness_core/plugins/agents/directory.py:255-276 | when the one fallback instance is created, of the llm entry with the default properties and outside every agent's scope |
| `AgentDirectory.AgentDirectory.CreateBinding` | src/langharness_core/plugins/agents/directory.py:314-327 | one binding is left out, created with its layered properties, or fails, and exactly when |
| `AgentDirectory.AgentDirectory.CreateBindings` | src/langharness_core/plugins/agents/directory.py:313-327 | succeeds iff every usable binding can be created; each becomes an instance of its catalog entry whose user properties are layered as `BoundIff` says, and what was created before a failure is exactly what lives in the agent's scope |
| `AgentDirectory.AgentDirectory.CreateLoop` | src/langharness_core/plugins/agents/directory.py:328-338 | the loop runs in the agent's scope with the visibility filter of that scope, iff its definition and scope are there and it starts |
| `AgentDirectory.AgentDirectory.Complete` | src/langharness_core/plugins/agents/directory.py:328-351 | adds the loop and enters the agent into the records, or undoes what was created |
| `AgentDirectory.AgentDirectory.Furnish` | src/langharness_core/plugins/agents/directory.py:313-351 | plugins and loop of an agent whose scope is there, iff every component starts; else nothing of them and of the scope is left |
| `AgentDirectory.AgentDirectory.Build` | src/langharness_core/plugins/agents/directory.py:305-351 | scope, plugins and loop of an agent as they should be, or none of them and the agent marked as failed; every other instance and record is untouched |
| `AgentDirectory.AgentDirectory.Rollback` | src/langharness_core/plugins/agents/directory.py:339-348 | after a failed materialization every instance and record there was is untouched, nothing is left in the agent's scope, the scope is gone and the agent marked as failed, unless the scope has child scopes |
| `AgentDirectory.AgentDirectory.Materialize` | src/langharness_core/plugins/agents/directory.py:288-351 | succeeds iff the bundles are loaded, the scope is available and bindings and loop can be created; then the plugins on record are exactly those configured and known, llm only with a model, key by key with the properties configured, the loop looks through its scope for each of its fields, and they are what lives in the scope; otherwise nothing lives there; scopes, records and failed agents end as the attempt says |
| `AgentDirectory.AgentDirectory.MaterializeAll` | src/langharness_core/plugins/agents/directory.py:222-232 | ends exactly as the sweep over the list does: which agents are on record or failed, which scopes there are, and whether it gets stuck; every agent newly on record runs as its first enabled entry says, and every instance and record there was is untouched |
| `AgentDirectory.AgentDirectory.ApplyAgentConfig` | src/langharness_core/plugins/agents/directory.py:143-153 | afterwards the agent runs exactly the new configuration iff it is enabled and can be built, and otherwise nothing lives in its scope; it is in step again, and nothing else changes |
| `AgentDirectory.AgentDirectory.EnsureBinding` | src/langharness_core/plugins/agents/directory.py:178-205 | what it comes to in each case; the agent gets out of step iff an outdated instance has to be replaced and cannot be created anew, and a dangling record refuses every later attempt |
| `AgentDirectory.AgentDirectory.PutBinding` | src/langharness_core/plugins/agents/directory.py:199-205 | deleting and creating anew, and when that leaves a dangling record |
| `AgentDirectory.AgentDirectory.EnsurePluginInstance` | src/langharness_core/plugins/agents/directory.py:167-205 | exactly when each refusal comes, which changes nothing; else the sweep is made and the plugin's instance holds, key by key, the caller's, stored, default and catalog properties, or the reason why not; the agent gets out of step iff the call loses an instance, a condition on the state before it, and no other agent does |
| `AgentDirectory.AgentDirectory.Reload` | src/langharness_core/plugins/agents/directory.py:207-217 | for one agent as applying its configuration, for all as forgetting all and sweeping the list; whoever is torn down is in step again |
| `AgentDirectory.AgentDirectory.RemoveAgent` | src/langharness_core/plugins/agents/directory.py:155-165 | deletes exactly what was recorded and the scope; the non-recursive `remove_scope` never finds an instance, so it fails iff there are child scopes |
| `DirectoryRuns.OthersKeepRecords` | src/langharness_core/plugins/agents/directory.py:143-217 | commands to the manager that create nothing in agents' scopes and delete nothing on record put no agent out of or back in step |
| `DirectoryRuns.Execute` | src/langharness_core/plugins/agents/directory.py:143-217 | each call leads from one stage to the next: stored configurations, scopes, agents on record and failed end exactly as the call says, and exactly the agents are out of step that were and were not torn down, and the one of which it loses an instance |
| `DirectoryRuns.AstrayIff` | src/langharness_core/plugins/agents/directory.py:143-217 | at the end of a run an agent is out of step iff it was at first or a call lost an instance of it, in the state before that call, and no later call tore it down |
| `DirectoryRuns.AssuredKeeps` | src/langharness_core/plugins/agents/directory.py:143-217 | with the catalog installed, nothing stored naming filters, ensured components starting and nothing uninstalled, no call puts an agent out of step, and this stays so |
| `DirectoryRuns.Run` | src/langharness_core/plugins/agents/directory.py:143-217 | any run of materialize, apply_agent_config, ensure_plugin_instance, reload and remove_agent with such commands in between passes through stages that follow each other in that way: nothing ever leaks, exactly the agents of that condition are out of step at the end, and none that was not before where a caller assures installed plugins, starting components and no filters |
| `Shortcomings.RehydrationWraps` | src/langharness_plugin/plugin_manager.py:1038-1049 | a user filter `(a=b)` on a scoped field in the root scope does not survive rehydration |
| `Shortcomings.FailedDelete` | src/langharness_plugin/plugin_manager.py:546-561 | from a fresh start: deleting that instance with a failing save leaves properties its user properties do not give |
| `Shortcomings.FailedUpdate` | src/langharness_plugin/plugin_manager.py:624-631 | from a fresh start: a new ranking with a failing save leaves a live component that does not match its record, and properties its user properties do not give |
| `Shortcomings.LostProperties` | src/langharness_plugin/plugin_manager.py:811-818 | from a fresh start: an override whose component does not start leaves the instance without the user properties it had |
| `Shortcomings.StaleOverride` | src/langharness_plugin/plugin_manager.py:815-820 | from a fresh start: an override without properties returns normally and leaves a live component that does not match its record |
| `Shortcomings.NeverTakenAway` | src/langharness_plugin/plugin_manager.py:511-522 | from a fresh start: ensuring an instance without properties leaves it the property it had |
| `Shortcomings.ForgottenProperties` | src/langharness_plugin/plugin_manager.py:968-977 | from a fresh start: an instance that was disabled before a restart is there after it, without the user properties it had |
| `Shortcomings.LostInstance` | src/langharness_core/plugins/agents/directory.py:199-205 | from a fresh start: replacing the one binding of an agent by a component that does not start leaves a record of a deleted instance |
| `Annotations.GroundMatchIsEquality` | src/langharness_plugin/validation.py:196-279 | between types without unions, wildcards and missing parameters, and without proper subclasses, the check in either position is equality |
| `Annotations.MatchIffAdmits` | src/langharness_plugin/validation.py:240-279 | against such a type the check in result position asks whether a value of it is one the annotation admits, for any `issubclass` |
| `Annotations.ResultMatchIsNarrowing` | src/langharness_plugin/validation.py:196-279 | a result that matches yields only values the contract admits, and a union of such types that yields no others matches |
| `Annotations.ParameterCheckKnowsNoSubclasses` | src/langharness_plugin/validation.py:249-279 | in parameter position subclasses play no part |
| `Annotations.MatchTransitive` | src/langharness_plugin/validation.py:196-279 | on wildcard-free, fully parameterized annotations the return check is transitive whenever `issubclass` is |
| `Annotations.ResultCheckIsPreorder` | src/langharness_plugin/validation.py:196-279 | so there it is a preorder |
| `Annotations.PositionsAreDual` | src/langharness_plugin/validation.py:240-258 | without proper subclasses the parameter check on (E, A) is the return check on (A, E) |
| `Annotations.WideningKeepsMatch` | src/langharness_plugin/validation.py:214-217 | replacing any subterms by `Any`, on either side, never turns a match into a mismatch |
| `Annotations.EqualityAddsNothing` | src/langharness_plugin/validation.py:218-219 | Python's equality that ignores the order of union arms gives no answer that the structural rules would not |
| `Annotations.SameArmsSame` | src/langharness_plugin/validation.py:218-219 | where that equality calls unions the same whenever they have the same arms |
| `StreamDeltas.PiecesMakeText` | src/langharness_core/plugins/loop/agent_loop.py:656-667 | the emitted pieces of a message concatenate to the accumulated text |
| `StreamDeltas.CumulativeArrives` | src/langharness_core/plugins/loop/agent_loop.py:658-664 | a cumulative stream arrives as exactly its last content |
| `StreamDeltas.LengthIsConserved` | src/langharness_core/plugins/loop/agent_loop.py:661-665 | emitted length plus the lengths cut off at extending chunks is the total chunk length |
| `StreamDeltas.DeltasArriveIff` | src/langharness_core/plugins/loop/agent_loop.py:661-665 | a delta stream arrives intact iff no chunk starts with a non-empty accumulated text |
| `StreamDeltas.SwallowedIff` | src/langharness_core/plugins/loop/agent_loop.py:661-666 | a chunk with text is dropped iff it equals the whole accumulated text |
| `StreamDeltas.RepeatIsLostIff` | src/langharness_core/plugins/loop/agent_loop.py:658-664 | sending a delta twice in a row loses the second iff the first started with everything before it, which the remark in the code rules out |
| `StreamDeltas.RepeatedDigitIsLost` | src/langharness_core/plugins/loop/agent_loop.py:658-664 | the deltas `7`, `7` arrive as `7` |
| `StreamDeltas.MessagesDoNotMix` | src/langharness_core/plugins/loop/agent_loop.py:656-667 | however messages are interleaved, each is streamed as if it were alone |
| `StreamDeltas.OwnChunksDecide` | src/langharness_core/plugins/loop/agent_loop.py:656-667 | two streams that agree on the chunks of one message emit the same pieces for it |
| `StreamDeltas.ToolsAreSilent` | src/langharness_core/plugins/loop/agent_loop.py:649-655 | a tool message, or one that calls tools, changes no piece of any text, wherever in the stream it comes |
| `StreamDeltas.SoleMessage` | src/langharness_core/plugins/loop/agent_loop.py:656-667 | all content said under one id, or under none, counts to one text |
| `StreamDeltas.UsageAddsUp` | src/langharness_core/plugins/loop/agent_loop.py:645-648 | usage adds up over the parts of a stream, number by number |
| `StreamDeltas.Stream` | src/langharness_core/plugins/loop/agent_loop.py:633-698 | the loop emits exactly those pieces in order, then the summed usage if it is not zero; `previous_content` is what was emitted per message |
| `RateLimit.PruningIsHarmless` | src/langharness_api/plugins/rate_limit/rate_limit.py:32-36 | what was pruned earlier would be pruned now |
| `RateLimit.StaysFaithful` | src/langharness_api/plugins/rate_limit/rate_limit.py:32-41 | from now on the pruned list decides as the full accepted history would |
| `RateLimit.NoWindowOverflows` | src/langharness_api/plugins/rate_limit/rate_limit.py:37-41 | no half-open interval of one window holds more than `limit` accepted requests, wherever it starts |
| `RateLimit.InsideCounts` | src/langharness_api/plugins/rate_limit/rate_limit.py:32-41 | what is counted there are the requests from the start of the interval up to, but not at, its end |
| `RateLimit.RateLimit.Dependency` | src/langharness_api/plugins/rate_limit/rate_limit.py:29-41 | a request is refused iff `limit` accepted ones of its full history lie within the window; other clients are untouched |
| `RateLimit.RateLimit.LimitHolds` | src/langharness_api/plugins/rate_limit/rate_limit.py:28-43 | at every moment of every run, for every client and every interval |
| `ConfigStore.LastSegmentIs` | src/langharness_plugin/config_store.py:56-62 | the segment that decides is what follows the last dot, or the whole key |
| `ConfigStore.PrefixDoesNotMatter` | src/langharness_plugin/config_store.py:56-62 | a dotted prefix neither hides nor makes a credential name |
| `ConfigStore.CaseDoesNotMatter` | src/langharness_plugin/config_store.py:56-62 | capitals do not hide one either |
| `ConfigStore.SecretIff` | src/langharness_plugin/config_store.py:56-62 | a name is that of a credential iff, capitals aside, it ends with one of the four words: the split at the last dot never matters |
| `ConfigStore.CleanConfig` | src/langharness_plugin/config_store.py:65-72 | the loop cleans every entry, and no property with the name of a credential is left |
| `ConfigStore.CleaningRemovesSecrets` | src/langharness_plugin/config_store.py:56-72 | cleaning changes a configuration iff it holds a credential, and cleaning twice changes nothing more |
| `ConfigStore.CleanedIs` | src/langharness_plugin/config_store.py:65-72 | entry by entry and property by property: credentials are gone, all else is as it was |
| `ConfigStore.EveryVersionIsFound` | src/langharness_plugin/config_store.py:171-176 | in a linear history exactly the numbers 1 to current are found, each at its place |
| `ConfigStore.EditKeepsLinear` | src/langharness_plugin/config_store.py:143-164 | an update always works and a rollback iff its version exists; both append exactly one version and keep the history linear |
| `ConfigStore.RunsOnlyAppend` | src/langharness_plugin/config_store.py:178-199 | over every run from a linear history it stays linear, credential-free, and no earlier version changes or is lost |
| `ConfigStore.LinksEnd` | src/langharness_plugin/config_store.py:157-164 | following rollback targets ends at an earlier version that is no rollback and has the same configuration |
| `ConfigStore.PluginConfigStore.FindVersion` | src/langharness_plugin/config_store.py:171-176 | the loop finds the first version with the number |
| `ConfigStore.PluginConfigStore.Current` | src/langharness_plugin/config_store.py:134-135 | in a linear history the current version is the last one written |
| `ConfigStore.PluginConfigStore.UpdatePlugins` | src/langharness_plugin/config_store.py:143-155 | memory and file hold the old history and one cleaned version under the next number, with its action and actor |
| `ConfigStore.PluginConfigStore.RollbackTo` | src/langharness_plugin/config_store.py:157-164 | appends the target's configuration under the next number with a link to it, or changes nothing, iff the version exists |
| `ConfigStore.Load` | src/langharness_plugin/config_store.py:98-129 | a missing file is started linear, a broken, foreign or empty one refused, and any other taken over unchanged |
| `ClientRegistry.ClientRegistry.MarkReady` | src/langharness_api/common/client_registry.py:33-36 | a timer is pending afterwards iff one was or nobody is attached and shutdown is enabled with a callback |
| `ClientRegistry.ClientRegistry.Attach` | src/langharness_api/common/client_registry.py:38-40 | after attaching no task ever created can still fire |
| `ClientRegistry.ClientRegistry.Detach` | src/langharness_api/common/client_registry.py:42-45 | the last client leaving schedules a shutdown under the same conditions |
| `ClientRegistry.ClientRegistry.ScheduleShutdown` | src/langharness_api/common/client_registry.py:55-60 | starts one task due after the grace period, or nothing while one is pending |
| `ClientRegistry.ClientRegistry.RunTimer` | src/langharness_api/common/client_registry.py:62-66 | when the callback runs, nobody was attached at any moment of the grace period before; the assertion never fails |
| `ClientRegistry.Run` | src/langharness_api/common/client_registry.py:27-66 | over any timed events the callback is called only after a whole grace period in which, by those events, nobody was attached; at most one task can fire; and a registry marked ready while enabled with a callback and never disabled since has, without clients, a timer due within the grace period or has called back since the last one left |
| `Palette.HitsAreLeftmost` | src/langharness_cli/common/palette.py:42-60 | a match is found iff the lowered query is a subsequence of the lowered target, and its hits are pointwise the leftmost embedding |
| `Palette.TypingNarrows` | src/langharness_cli/common/palette.py:42-60 | a match of a longer query is a match of the shorter one, whose hits are the first of the longer one's |
| `Palette.GreedyStops` | src/langharness_cli/common/palette.py:52-60 | stopping early at the last hit loses nothing |
| `Palette.Match` | src/langharness_cli/common/palette.py:42-60 | the loop returns those hits |
| `Palette.Score` | src/langharness_cli/common/palette.py:63-71 | the loop adds up 5 per hit at a word start and 10 per hit right after another, less twice the first position and the length |
| `Palette.ScoreIs` | src/langharness_cli/common/palette.py:63-71 | the same score in plain numbers, with the four characters that end a word |
| `Palette.Rank` | src/langharness_cli/common/palette.py:74-98 | returns a prefix of the full ranking, cut off as Python slices by the limit |
| `Palette.RankingIsComplete` | src/langharness_cli/common/palette.py:90-98 | the ranking has higher scores first, then shorter names, then names in order; it lists every matching candidate as often as it was offered, and nothing else |
| `Palette.RankingForgetsOrder` | src/langharness_cli/common/palette.py:74-98 | with distinct names it does not depend on the order in which candidates were offered |

## Left out

- Pelix and iPOPO: components are a map from names to properties, and the service registry answers by the grammar of RFC 4515. Their own filter parser is more lenient; only well-formed filters are modelled.
- SQLite, JSON encoding and files: a store is a version and a value. Writing the configuration file always works; writing the runtime state may fail.
- Threads: every method is one atomic step. In particular `ScopeTree.remove` reads descendants outside its lock, and nothing is claimed about two threads in one tree object.
- Re-entrant calls, such as a component that calls the manager while it starts.
- History entries, provenance and registrations; descriptor sources (`_sources`), which are saved with each definition and decide on a restart whether a definition counts as discovered, missing or upgradable, but not whether it is installed.
- ManagerRestore.Restore: what is saved is read back as it was, so values that JSON cannot hold are left out. Commands after a restart that brought instances back as disabled, missing or failed are not modelled.
- EffectiveProperties.EffectiveIff: filters that the lenient Pelix parser takes beyond the grammar of RFC 4515 are refused in the model.
- `start`, `stop`, `discover`, `install_plugin` by discovery and a registry filled beforehand: a manager starts with empty tables.
- `apply_config`: only what it does to one instance (`ApplyConfigTo`); the loops around it, over plugin names and over the instances of a factory, are not modelled.
- `RuntimeMutationCoordinator`, call-binding checks in `_parameter_problems`, `ContractGuard`, the `APIGuard` startup lock, route and template plugins, and everything that talks to a terminal or the network.
- Directory callbacks for binding and unbinding services: they clear tables without deleting instances. The registry's agents are an argument of each call.
- AgentDirectory.AgentDirectory.Materialize: assumes, as the directory does, that nobody else creates instances in scopes `agent:<id>` and that saving works; which components start is a parameter.
- AgentDirectory.AgentDirectory.EnsurePluginInstance: if the wanted properties name `plugin.instance_id` and the agent is not on record yet, nobody can tell before whether the uuid it is going to get is the one asked for; then it is only stated that at most this agent gets out of step, and only if the plugin could not be created anew.
- DirectoryRuns.Step: says of records which agents have one, not which instances are in it; that is stated at the methods themselves.
- DirectoryRuns.Run: commands of others that meddle with agents' instances, or break the manager's agreement, do not happen in a run.
- ManagerRuns.Run: ends at the first command that breaks the agreement; what each leaves behind is stated at the method itself.
- PluginManager.PluginManager.AddScope: says nothing about the runtime store, because the code does not save there.
- ScopeTree.ScopeTree.Children: results are ids rather than scope objects.
- Iteration order of dictionaries and sets (pending scopes, targets of a removal, bindings of an agent, names in a configuration): any order is allowed, which includes Python's; the first matching instance of `ensure_instance` is a parameter.
- Uuids are numbers, and the values of properties the manager never looks into are opaque.
- Annotations.MatchTransitive: classes and special forms are numbers and `issubclass` a given relation that is false where Python raises; forward references and evaluation of hints are not modelled.
- StreamDeltas.Stream: covers message chunks; updates of graph nodes (tool output, tool calls, interrupts) pass through without touching this state. Content and usage are what the extraction functions returned.
- RateLimit.RateLimit.Dependency: times are exact reals, so rounding of floating-point differences is left out.
- ClientRegistry.ClientRegistry.RunTimer: a task wakes at some moment not before it is due; a cancelled task never runs on, which is asyncio's promise.
- Palette.Match: lowering maps one character to one character; the few letters whose lower case is longer are not modelled.
- ConfigStore.RunsOnlyAppend: time stamps are left out, and configurations are values, so callers that alter a returned shallow copy are not modelled.
