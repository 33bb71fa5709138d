# Verified model of the NetBox SSoT reconciliation engine

An edge agent collects data from a provider and submits it to a NetBox plugin. The plugin compares what was
collected with what NetBox holds, a person reviews the differences, and the reviewed plan is applied in one
transaction. This project models the parts of that pipeline whose correctness is not visible in any one function
and proves what they promise, for all inputs, all runs and all orders in which other components call them.

Run `dafny verify dfyconfig.toml` in this directory.

## The modules

| file | what it models |
|---|---|
| `Prelude.dfy`, `KeyOrder.dfy` | JSON values, facts about sequences, the order of record keys |
| `ApplicationPlanning.dfy` | which records a record refers to; the layered dependency order of a plan |
| `RecordWrites.dfy` | what writing one record reads and loads, its deferred selectors, and exactly which values a write accepts |
| `WriteEffects.dfy`, `PlanningEffects.dfy` | what the two write passes link, and what planning accepts and in which order, told from the relationships of a record |
| `NetBoxSnapshot.dfy` | NetBox as it is loaded, its digest, and its objects by identity |
| `MutationBackend.dfy` | the backend behind DiffSync's hooks: one cache used for look-ups and as "already written" |
| `ApplicationService.dfy` | readiness and the whole apply transaction, for every order of hooks |
| `ComparisonItems.dfy` | from a preview to the stored items, and what that gives the transaction that applies them |
| `ApplyTransaction.dfy` | one apply from the review to the saved rows |
| `ApplyEffects.dfy`, `ApplyConditions.dfy` | what a successful apply has saved, and when an apply goes through, told from the reviewed items, the loads of NetBox and the relationships |
| `IdentityResolution.dfy` | the memoised, cycle-detecting identity resolver against a well-founded meaning |
| `SourceRecords.dfy` | from a run's observations to canonical records and rejections |
| `ObservedRecords.dfy` | identities, records and rejections told from the observations they come from |
| `CanonicalDiff.dfy` | model attribute names, field changes, patching, merging of observed fields |
| `ComparisonDrafts.dfy` | grouping, conflicts and classification of a whole run into drafts |
| `PreviewMeaning.dfy` | what each line of a preview says of its record, both payloads and the changes, in order |
| `CommandLedger.dfy`, `WorkerPool.dfy`, `DaemonModel.dfy` | the agent daemon as a state machine over its steps, with invariants over every run |
| `AgentDaemon.dfy` | the daemon's control loop itself, proved to be a run of that machine |
| `DaemonHistory.dfy` | what the log of any run of the daemon tells: when sources are collected, what reports say, what is launched |
| `CommandProtocol.dfy` | the command protocol over a lossy, repeating network with restarting agents |
| `CommandOutcomes.dfy` | how commands begin, are renewed and end, over every run of the protocol |
| `CommandServer.dfy` | the server's request handlers and the agent's execution of one command |
| `CommandSystem.dfy` | server, agents and network driven by arbitrary events, proved to be a run of the protocol |
| `ReviewLog.dfy`, `ReviewLifecycle.dfy` | decisions, progress, final reviews and at-most-once application |
| `ReviewOutcomes.dfy` | what a reviewer's decisions come to, over every history of a comparison |
| `Retention.dfy` | what pruning removes, what survives, and that prunings compose |
| `UnifiPages.dfy` | pagination against an arbitrary server; gathering observations by identity |
| `DatasetClosure.dfy` | the two dataset worklists and the server's check of a batch |
| `CustomFieldNames.dfy` | the printer and the parser of custom-field relationship names |

## How the model is built

State that the program updates in place is a class: `Backend`, `Resolver`, `Daemon`, `Server`, `System`, `Comparison`,
`Archive`, `CollectionState`. Their methods are loops and assignments in the program's order, proved against
functions or relations over values; the invariants and whole-run theorems are lemmas about those values.
Invariants with several clauses are written as one predicate by clause (`Holds(state, clause)`), and a sound state
satisfies every clause.

Concurrency is modelled as steps. A goroutine of the daemon is an entry of `working`, `fetches` or `reportsOut`
until it sends, and each arm of the select statement is one step. In the protocol every message ever sent stays
available, so it can be delivered late, repeatedly or never, and an agent may forget everything it knew. Each locked
database transaction is one step.

Per-kind tables are parameters: `Schema` (relationship targets, multiplicity, required relationships) with the
writer's own tables (`Writer`), `Rules` (identity relationships, attribute normalisation, natural identity) and the
declared fields of a kind. What every apply may rely on is in one predicate, `Sane`: the two sets of tables agree on
what the writer reads, and an identity belongs to one kind, as natural identities begin with the name of their kind. Clocks, run
IDs, collected batches and the answers of remote servers are parameters too. A digest is modelled by the value it
digests, which makes it injective. DiffSync is modelled as the caller of one create or update hook per key whose
payload differs, in any order at all, its diff as the fields whose pair of presence and value differs, and its store
as one that refuses a second object of a kind and identity.

The daemon's loop variables are grouped in three records (`pool`, `ledger`, `control`), and the events of commands
are kept in a log, `history`, and what the loop reads, starts and sends in another, `log`; the program has neither. The link
of a write carries the name of its relationship, and each handle names the object NetBox has or the record that creates it.

## Findings

These are results of the proofs about the code as it is.

* Readiness does not promise that an apply succeeds. A ready comparison stored from its preview is applied exactly
  when no two objects of NetBox share an identity, be they in the plan or not, no field names of all of NetBox collide,
  and the values of its creates and updates fit (`ApplyTransaction.ApplyComparison`, `ApplyConditions.ValuesExactly`). What readiness leaves unchecked includes the generic target of
  a prefix, a VLAN group, a MAC or IP address or an inventory item, of which the writer accepts one at most. Merging
  observed fields makes such a record: NetBox has a prefix in a location, the provider sees it at a site, and the
  update carries both scopes (`ComparisonItems.TwoScopesSlipThrough`).
* Two field paths can map to one model attribute, and then the comparison stops with an error:
  `CanonicalDiff.PathsCanCollide`. `ComparisonDrafts.BuildDrafts` succeeds exactly when no compared kind has such a pair.
* Observations that share an external ID can be lost from the preview. `SourceRecords.LoadSourceRecords` says
  exactly when none is (`Unshared`); distinct IDs are enough. A site and a region under one ID give a preview of one line:
  `ComparisonDrafts.TwinsShareADraft`.
* A run can have no preview at all. Turning an observation away normalises its attributes once more, outside any handler,
  so an observation of an unsupported kind or without a record whose attributes do not normalise ends the comparison with
  an error. `SourceRecords.LoadSourceRecords` says exactly when (`Showable`); with distinct external IDs it is when some
  observation's attributes do not normalise (`SourceRecords.DistinctLoadsExactly`). A VLAN group with the ranges "1-100"
  is such an observation: `SourceRecords.UnreadableRangesStop`.
* A run_now command that ended FAILED may have a complete run stored. It has one exactly when a failure report or a
  cancellation ended it, never a recovery, and a complete batch under its ID was admitted, before or after that:
  `CommandProtocol.FailedThoughStored`, with one such run in `CommandProtocol.LostConfirmationFails`. The other direction,
  from SUCCEEDED to a stored complete run, always holds until the run is pruned.
* Approve-all leaves every item approved exactly when no clock ran backwards (`ReviewLog.ApproveAllWorksExactlyInTime`),
  because the latest decision is chosen by time. `ReviewLog.LateRejectionStands` is a rejection that survives it.
* A rejected review does not block a comparison without creates and updates from being applied
  (`ReviewLifecycle.RejectionBindsChangesOnly`).
* A custom-field name reads back as another kind and field when a longer registered kind also matches:
  `CustomFieldNames.DeviceTypeShadows`; `RoundTripExactly` gives the condition.

## Model

| member | source | states |
|---|---|---|
| ApplicationPlanning.RelationshipDependencies | packages/plugin/src/netbox_ssot/application/planning.py:93-194 | the loop returns the specified keys in reference order, or the first problem of the record |
| ApplicationPlanning.DeferralOnlyHidesKeys | packages/plugin/src/netbox_ssot/application/planning.py:93-207 | leaving deferred relationships out never changes whether or why a record is rejected, and only removes keys |
| ApplicationPlanning.DependencyOrder | packages/plugin/src/netbox_ssot/application/planning.py:60-83 | the shrinking worklist computes the layered order, the duplicate error, the first record error or the cycle error, as specified |
| ApplicationPlanning.OrderSound | packages/plugin/src/netbox_ssot/application/planning.py:60-83 | an accepted order is a permutation of the plan with every in-plan immediate dependency earlier |
| ApplicationPlanning.OrderFailsExactlyOnCycles | packages/plugin/src/netbox_ssot/application/planning.py:72-76 | a plan of distinct keys and well-formed records is refused exactly when its dependency graph has a cycle, and with the cycle error |
| ApplicationPlanning.OrderIgnoresListing | packages/plugin/src/netbox_ssot/application/planning.py:60-83 | any permutation of the records gives the same order and the same plan-level errors |
| ApplicationPlanning.FailureHasCycle | packages/plugin/src/netbox_ssot/application/planning.py:72-76 | when no record is ready, a closed walk along dependencies exists and is exhibited |
| PlanningEffects.AcceptsExactly | packages/plugin/src/netbox_ssot/application/planning.py:93-194 | planning accepts exactly the records of a known kind and shape with every required relationship, every relationship well formed and every custom field defined |
| PlanningEffects.RefusesInOrder | packages/plugin/src/netbox_ssot/application/planning.py:93-194 | any other record is refused for the first thing wrong with it |
| PlanningEffects.KeysExactly | packages/plugin/src/netbox_ssot/application/planning.py:93-194 | the keys of an accepted record are exactly those its relationships name, deferred ones only if asked for, and the definitions of the custom fields it fills |
| PlanningEffects.OrderGoesByLevels | packages/plugin/src/netbox_ssot/application/planning.py:60-83 | an accepted order goes level by level: each record stands just above the highest record it refers to, and a level is in ascending order |
| KeyOrder.SortedUnique | packages/plugin/src/netbox_ssot/application/planning.py:73-73 | a set of keys has only one ascending listing, so sorting a layer leaves no freedom |
| KeyOrder.SortKeys | packages/plugin/src/netbox_ssot/application/planning.py:73-73 | insertion sort lists exactly the members of the set in ascending order |
| KeyOrder.LessSays | packages/plugin/src/netbox_ssot/application/planning.py:73-73 | keys stand by kind, within a kind by identity, each by code points |
| RecordWrites.LoadsSettled | packages/plugin/src/netbox_ssot/application/service.py:654-912 | past the plan checks, everything a write reads (scalars, the generic target, cable ends, custom fields, lists) is well formed and there exactly when what planning left unchecked fits, and whatever it finds was planned as an immediate dependency |
| RecordWrites.SelectorsWithin | packages/plugin/src/netbox_ssot/application/service.py:1115-1200 | every selector the deferred writer resolves was among the keys the plan was checked for |
| RecordWrites.DeferredFitsExactly | packages/plugin/src/netbox_ssot/application/service.py:1115-1200 | the deferred writer accepts a checked record exactly when no managed selector holds an empty list and every port mapping has positions and a target |
| RecordWrites.FitsExactly | packages/plugin/src/netbox_ssot/application/service.py:654-1216 | both write passes accept a checked record, and find every object, exactly when its values fit: one generic target at most and with a value, custom fields that agree with their definitions, port mappings with positions and a target |
| WriteEffects.LoadsExactly | packages/plugin/src/netbox_ssot/application/service.py:654-912 | the first pass links a key under a name exactly when it writes that name at once, told kind by kind, and the record names the key there |
| WriteEffects.SelectorsExactly | packages/plugin/src/netbox_ssot/application/service.py:1122-1200 | the second pass holds exactly one selector for each managed deferred name and each port mapping: the key the record names there, or nothing when it names none |
| MutationBackend.Backend.RelationshipObject | packages/plugin/src/netbox_ssot/application/service.py:936-958 | a look-up asks the cache, then NetBox, returns the one object its key denotes and caches it; it keeps the invariant unless it is asked for a reviewed key that is not written yet |
| MutationBackend.Backend.RelationshipObjects | packages/plugin/src/netbox_ssot/application/service.py:1203-1216 | a list of look-ups returns the objects of all keys, in order, exactly when each is cached or in NetBox |
| MutationBackend.Backend.WriteObject | packages/plugin/src/netbox_ssot/application/service.py:654-912 | a write saves the desired record with the links of its loads, enters cache and log once, and on an applicable plan never fails |
| MutationBackend.Backend.Create | packages/plugin/src/netbox_ssot/application/service.py:492-506 | terminates, keeps the invariant, leaves its key cached only once written, and on an applicable plan always succeeds |
| MutationBackend.Backend.Update | packages/plugin/src/netbox_ssot/application/service.py:508-529 | the same for a reviewed update of the object that was reviewed |
| MutationBackend.Backend.MaterializeDependencies | packages/plugin/src/netbox_ssot/application/service.py:550-559 | on success every reviewed dependency has been written; the recursion terminates and on an applicable plan never meets the cycle error |
| MutationBackend.Backend.WriteDeferredRelationships | packages/plugin/src/netbox_ssot/application/service.py:536-541 | every written record gets exactly its selectors, each set to the object of its key, NetBox's own if it has one, and none is unavailable on an applicable plan; what the selectors are is `WriteEffects.SelectorsExactly` |
| MutationBackend.Backend.ObjectsByItem | packages/plugin/src/netbox_ssot/application/service.py:561-579 | every applied item gets the one object of its key, exactly when all are written or in NetBox |
| MutationBackend.SoundAfterWrite | packages/plugin/src/netbox_ssot/application/service.py:492-541 | saving keeps the double use of the cache sound: a reviewed key is cached only once its own write has happened |
| MutationBackend.LogFacts | packages/plugin/src/netbox_ssot/application/service.py:492-541 | the log holds each written record once, after every reviewed record it needs, with the row the plan fixes |
| ApplicationService.RelationshipProblems | packages/plugin/src/netbox_ssot/application/service.py:323-336 | the missing keys are exactly those referred to, now or later, that neither the plan nor NetBox has |
| ApplicationService.PreparePlan | packages/plugin/src/netbox_ssot/application/service.py:582-623 | the transaction goes ahead exactly when the plan has an order, names each record once, no field names of the plan and NetBox collide, NetBox has one object of each identity, and it still differs as reviewed |
| ApplicationService.RunHooks | packages/plugin/src/netbox_ssot/application/service.py:604-605 | one hook per delta key, in any order, writes every reviewed key, and on an applicable plan none fails |
| ApplicationService.SyncItems | packages/plugin/src/netbox_ssot/application/service.py:582-606 | for every hook order: success saves exactly the rows, selectors and objects the plan fixes, each reviewed record once and after its dependencies; a ready comparison succeeds exactly when DiffSync can compare (no colliding field names, one object of each identity), the delta and the updated objects are the reviewed ones, and its values fit; what was saved is told from the items by `ApplyEffects.SavedAsReviewed` |
| ApplicationService.ApplyItems | packages/plugin/src/netbox_ssot/application/service.py:106-167 | with readiness checked first, success is exact: ready, comparable, guarded and fitting |
| ApplyEffects.SavedAsReviewed | packages/plugin/src/netbox_ssot/application/service.py:582-606 | after success each created or updated item has its row with exactly the links its relationships name and each managed selector set to the object named there, the one NetBox has or else the one created, or cleared when none is named; nothing else is saved, and what a record names was saved before it |
| ApplyEffects.ComparableExactly | packages/plugin/src/netbox_ssot/application/service.py:597-605 | DiffSync can compare a plan exactly when NetBox has one object of each identity and no two fields of a kind in play share an attribute name |
| ApplyConditions.ReadyExactly | packages/plugin/src/netbox_ssot/application/service.py:194-237 | a comparison is ready exactly when NetBox holds under every identity the objects it held when the comparison was made, in the same order and with the same data, nothing conflicts or was skipped, the plan has an order and nothing it mentions is missing |
| ApplyConditions.ValuesExactly | packages/plugin/src/netbox_ssot/application/service.py:654-1216 | the values of a comparison fit exactly when in every created or updated record no scalar is an empty list, the generic target is named once at most and not left empty, every custom field is defined and only relationships of its type belong to it, and managed selectors and port mappings are well formed |
| NetBoxSnapshot.DigestDecides | packages/plugin/src/netbox_ssot/planning/comparison.py:613-627 | two snapshots of one digest give the same object, with the same content, for every identity, even if objects share identities |
| NetBoxSnapshot.DigestExactly | packages/plugin/src/netbox_ssot/planning/comparison.py:613-627 | two snapshots have one digest exactly when under every identity they hold the same objects with the same data in the same order |
| NetBoxSnapshot.FillStore | packages/plugin/src/netbox_ssot/planning/adapters.py:81-83 | the store of the target adapter fills exactly when no two objects have one identity |
| ApplicationService.EachItemOnce | packages/plugin/src/netbox_ssot/application/service.py:647-651 | without conflicts and skips, the distinct keys of an ordered plan find each record exactly one item |
| ApplicationService.RankOfOrder | packages/plugin/src/netbox_ssot/application/service.py:543-559 | the accepted order ranks every record above what it needs, so on-demand materialisation cannot cycle |
| ApplicationService.WritableExactlyWhenFit | packages/plugin/src/netbox_ssot/application/service.py:194-237 | once a ready comparison differs as reviewed, every write is accepted and finds its objects exactly when the values of its changes fit |
| ComparisonItems.StoredIsGuarded | packages/plugin/src/netbox_ssot/application/service.py:609-623 | items stored from a preview against the NetBox found again meet the transaction's guards: the fresh delta and the objects to update are the reviewed ones |
| ComparisonItems.ItemJudged | packages/plugin/src/netbox_ssot/planning/service.py:96-126 | the stored action is what NetBox found again calls for: create, update or nothing by presence and payload, with the object that was found |
| ComparisonItems.TwoScopesSlipThrough | packages/plugin/src/netbox_ssot/application/service.py:1078-1094 | a prefix that merging observed fields gives two scopes: judged an update, accepted by planning, refused by the writer |
| ApplyTransaction.ApplyComparison | packages/plugin/src/netbox_ssot/application/service.py:106-167 | rows are saved and a run is recorded together, exactly when the review allows it, the plan is ready, DiffSync can compare it and every value fits; and what is saved is what the reviewed items say |
| ApplyTransaction.WrittenWasApproved | packages/plugin/src/netbox_ssot/application/service.py:106-167 | every key in the rows of an applied comparison has approval as its item's latest decision, for ever |
| IdentityResolution.Resolver.ResolveIdentity | packages/plugin/src/netbox_ssot/planning/service.py:141-172 | whatever the caches hold and whoever asks, the answer is the well-founded one; both caches stay true and the recursion terminates |
| IdentityResolution.KeyUnique | packages/plugin/src/netbox_ssot/planning/service.py:141-172 | an observation has at most one identity, so it cannot depend on the order of calls |
| IdentityResolution.IdentifiedExactlyWhenSound | packages/plugin/src/netbox_ssot/planning/service.py:141-172 | an observation has an identity exactly when no path of identity relationships from it is absent, cyclic or locally invalid |
| IdentityResolution.FindDefect | packages/plugin/src/netbox_ssot/planning/service.py:148-172 | an observation without an identity has a defective path, and it is exhibited |
| ObservedRecords.KeyMeaning | packages/plugin/src/netbox_ssot/planning/service.py:141-172 | the identity is what the rule of the kind gives the normalised attributes and the identities of exactly the identifying relationships, and there is no other way to have one |
| SourceRecords.Resolve | packages/plugin/src/netbox_ssot/planning/service.py:174-203 | the record is one the observation yields, so what `ObservedRecords.RecordMeaning` says of it holds, and none is returned exactly when it has none |
| SourceRecords.RecordUnique | packages/plugin/src/netbox_ssot/planning/service.py:174-203 | an observation has at most one record |
| SourceRecords.LoadSourceRecords | packages/plugin/src/netbox_ssot/planning/service.py:205-246 | the run loads exactly when the attributes of every observation turned away normalise; then the rejections are those of exactly the observations without a supported record, with their kind, label and attributes, records are meant by their observations, and nothing is lost exactly when no external ID is shared; `ObservedRecords.LoadedMeaning` tells all of it from the observations |
| SourceRecords.DistinctLoadsExactly | packages/plugin/src/netbox_ssot/planning/service.py:207-233 | with distinct external IDs a run loads exactly when the attributes of all its observations normalise |
| SourceRecords.UnreadableRangesStop | packages/plugin/src/netbox_ssot/planning/service.py:226-233 | a concrete run of one VLAN group that does not load |
| SourceRecords.VlanRangesStable | packages/plugin/src/netbox_ssot/planning/ipam.py:6-26 | normalised VLAN ranges normalise to themselves, so normalising them again in the writer cannot fail |
| SourceRecords.DistinctIdsUnshared | packages/plugin/src/netbox_ssot/planning/service.py:134-135 | distinct external IDs are enough for nothing to be lost |
| SourceRecords.LoadConserves | packages/plugin/src/netbox_ssot/planning/service.py:205-246 | of a run that loads, records and rejections together carry every observed external ID, with its multiplicity |
| SourceRecords.SharedIdLosesOne | packages/plugin/src/netbox_ssot/planning/service.py:134-135 | two recordable observations under one external ID always leave one record and no rejection |
| ObservedRecords.RecordMeaning | packages/plugin/src/netbox_ssot/planning/service.py:174-203 | a record has the identity that was resolved, its observation's kind, ID and label, at each path the normalised attribute, and under each relationship the identity of its one target or the sorted identities of its targets, and no other field |
| ObservedRecords.RecordedExactly | packages/plugin/src/netbox_ssot/planning/service.py:174-203 | an observation has a record exactly when it and all it links to are identified, its attributes normalise and no single relationship has several targets |
| ObservedRecords.RefusalMeaning | packages/plugin/src/netbox_ssot/planning/service.py:318-333 | an observation can be turned away exactly when its attributes that have a path normalise, and then the rejection shows it with them |
| ObservedRecords.LastWins | packages/plugin/src/netbox_ssot/planning/service.py:134-135 | looking an external ID up finds the last observation of it |
| ObservedRecords.LoadedMeaning | packages/plugin/src/netbox_ssot/planning/service.py:205-246 | of a loaded run every record is faithful to the last observation of its ID, and the rejections show exactly the observations that are of no supported kind or cannot have a record |
| SourceRecords.VlanRangesSay | packages/plugin/src/netbox_ssot/planning/ipam.py:6-26 | ranges are read exactly when each is a span that ends no earlier than it starts, and each is kept, in order, in its portable form |
| CanonicalDiff.FieldMapOf | packages/plugin/src/netbox_ssot/planning/adapters.py:150-156 | a name map exists exactly when no two fields collide, and it inverts the naming |
| CanonicalDiff.PathsCanCollide | packages/plugin/src/netbox_ssot/planning/adapters.py:203-208 | two concrete paths that collide |
| CanonicalDiff.FieldNameReads | packages/plugin/src/netbox_ssot/planning/adapters.py:203-208 | a field's attribute is the mark of its category and its path without the slashes at its ends, every other character that is not a letter, digit or underscore made an underscore, and marked when nothing is left or it begins with a digit |
| CanonicalDiff.ModelsDifferWithPayloads | packages/plugin/src/netbox_ssot/planning/adapters.py:194-200 | two records are equal models exactly when their payloads are equal |
| CanonicalDiff.DiffSyncFieldChanges | packages/plugin/src/netbox_ssot/planning/comparison.py:584-610 | the loop lists the visible changes of all changed names in display order |
| CanonicalDiff.RecordChanges | packages/plugin/src/netbox_ssot/planning/comparison.py:550-570 | the changes of a create or update are exactly the differing fields, each once, with both sides, sorted |
| CanonicalDiff.PatchUndoesDiff | packages/plugin/src/netbox_ssot/planning/comparison.py:584-610 | applying the changes to the target gives the source, and there are none exactly when the payloads agree |
| CanonicalDiff.ObservedNeverClears | packages/plugin/src/netbox_ssot/planning/comparison.py:81-94 | after a merge every change writes an observed value, and fields only NetBox has survive |
| ComparisonDrafts.GroupByUid | packages/plugin/src/netbox_ssot/planning/service.py:298-302 | every identity's group holds exactly its records, in order |
| ComparisonDrafts.GroupsPartition | packages/plugin/src/netbox_ssot/planning/service.py:249-302 | going through the groups visits every record exactly once |
| ComparisonDrafts.CompareRecord | packages/plugin/src/netbox_ssot/planning/comparison.py:545-580 | one record becomes a create, an update or no change by its target's payload, with exactly the differing fields |
| ComparisonDrafts.CompareCanonicalRecords | packages/plugin/src/netbox_ssot/planning/comparison.py:532-581 | all records are compared with the target of their identity, unless field names collide |
| ComparisonDrafts.SortGroups | packages/plugin/src/netbox_ssot/planning/service.py:263-291 | the conflicts set aside and the records kept for comparison are those their multiplicities on both sides decide |
| ComparisonDrafts.BuildDrafts | packages/plugin/src/netbox_ssot/planning/service.py:249-295 | the preview holds one draft per rejection and per record, of the class its multiplicities and payload decide, sorted; it exists exactly when no compared kind has a collision |
| PreviewMeaning.PreviewMeans | packages/plugin/src/netbox_ssot/planning/service.py:249-333 | every record has a line: a conflict named for its multiplicities, a create, an update with exactly the fields that differ from the desired payload and both sides of each, or no change; every rejection has one too, there are no others, and they are in order of kind, identity and ID |
| ComparisonDrafts.PreviewConserves | packages/plugin/src/netbox_ssot/planning/service.py:249-295 | of a run that loads with distinct external IDs, the drafts carry exactly the observed IDs, and the five counts sum to the number of observations |
| ComparisonDrafts.PreviewRun | packages/plugin/src/netbox_ssot/planning/service.py:76-95 | from observations to preview: there is one exactly when the run loads and no compared fields collide; every record in it is faithful to its observation, every line says what its record and NetBox call for, and with distinct external IDs it has exactly one line for every observation |
| ComparisonDrafts.TwinsShareADraft | packages/plugin/src/netbox_ssot/planning/service.py:134-135 | a concrete run of two observations whose preview has one line, whatever NetBox holds |
| CommandLedger.StartKeeps | agent/cmd/netbox-ssot-agent/main.go:562-583 | starting the first queued command of an idle source keeps conservation, order per source, and the spacing of executions |
| CommandLedger.EnqueueKeeps | agent/cmd/netbox-ssot-agent/main.go:751-767 | queueing keeps every ledger invariant |
| CommandLedger.PurgeKeeps | agent/cmd/netbox-ssot-agent/main.go:745-750 | forgetting completed commands after ten minutes keeps every ledger invariant |
| CommandLedger.SettleKeeps | agent/cmd/netbox-ssot-agent/main.go:833-852 | reading a report's outcome keeps every ledger invariant |
| WorkerPool.LaunchKeeps | agent/cmd/netbox-ssot-agent/main.go:570-577 | starting work for an idle source keeps busy and collecting sources exact and the bound of four |
| WorkerPool.ReceiveCommandKeeps | agent/cmd/netbox-ssot-agent/main.go:803-808 | reading a result frees exactly the source of its work |
| WorkerPool.SendNeverBlocks | agent/cmd/netbox-ssot-agent/main.go:538-539 | a goroutine about to send finds room on both result channels |
| DaemonModel.BackoffDoubles | agent/cmd/netbox-ssot-agent/main.go:465-479 | one more failure takes the delay from one term of the doubling sequence, capped at five minutes, to the next |
| DaemonModel.StepSound | agent/cmd/netbox-ssot-agent/main.go:652-853 | every arm of the select, and everything around it, keeps every invariant |
| DaemonModel.CommandsConserved | agent/cmd/netbox-ssot-agent/main.go:521-527 | in every reachable state a known command is queued, executing or pending, exactly one of these and once; a reported one has one report in flight; a completed one is none of these |
| DaemonModel.ExecutionsApart | agent/cmd/netbox-ssot-agent/main.go:745-758 | no command executes twice without its report delivered in between, over ten minutes before the second start |
| DaemonModel.CommandsInOrder | agent/cmd/netbox-ssot-agent/main.go:562-570 | over any run the commands of one source start in the order they arrived |
| DaemonModel.WorkExclusive | agent/cmd/netbox-ssot-agent/main.go:519-540 | in every reachable state running and collecting sources are exactly those with such work in flight, no source twice, at most four at once, and no send blocks |
| DaemonModel.AlwaysPolling | agent/cmd/netbox-ssot-agent/main.go:660-696 | between events the poll timer is armed or has fired, or exactly one fetch is in flight; the timer never fires during a fetch; after n failures it is armed with the n-th delay |
| DaemonModel.ReportsSound | agent/cmd/netbox-ssot-agent/main.go:544-558 | starting pending reports keeps every invariant and leaves every pending result being reported |
| DaemonModel.CommandsFirst | agent/cmd/netbox-ssot-agent/main.go:560-650 | once a dispatch starts scheduled work, every queued command's source is busy, to the end of the dispatch |
| DaemonModel.DispatchBounded | agent/cmd/netbox-ssot-agent/main.go:560-650 | a dispatch starts at most four pieces of work, ends with all workers busy or nothing startable, and touches no schedule |
| DaemonHistory.RunTold | agent/cmd/netbox-ssot-agent/main.go:503-855 | over every run the schedule, the configuration in force, the work in flight and the pending results are what the log tells |
| DaemonHistory.CollectionsApart | agent/cmd/netbox-ssot-agent/main.go:787-794 | in every run a source is not collected again within its whole interval of a success or a final failure, nor within a minute, or a shorter interval, of a failure worth retrying |
| DaemonHistory.RunNowDefers | agent/cmd/netbox-ssot-agent/main.go:811-818 | in every run a finished run_now puts the next scheduled collection off by the whole interval |
| DaemonHistory.ResultBetween | agent/cmd/netbox-ssot-agent/main.go:560-583 | in every run the loop has read how a piece of work for a source ended before the next begins |
| DaemonHistory.CollectsAssigned | agent/cmd/netbox-ssot-agent/main.go:598-650 | scheduled work begins only for an enabled assignment of the configuration in force |
| DaemonHistory.WorkConserving | agent/cmd/netbox-ssot-agent/main.go:560-650 | whenever the loop has looked for work, four are at work or neither a queued command nor a due assignment of an idle source is left |
| DaemonHistory.LaunchOrder | agent/cmd/netbox-ssot-agent/main.go:560-650 | what starts is the first queued command of an idle source, or, if there is none, the first assignment that is due |
| DaemonHistory.ReportsAreResults | agent/cmd/netbox-ssot-agent/main.go:544-558 | every report sent is what the last execution of its command ended with |
| DaemonHistory.OutcomesAreResults | agent/cmd/netbox-ssot-agent/main.go:780-802 | every scheduled result the loop reads is what a goroutine at that work ended with |
| DaemonHistory.ConcludedOnceDelivered | agent/cmd/netbox-ssot-agent/main.go:833-852 | a command is concluded once for each report of it that got through |
| DaemonHistory.ArrivalsOffered | agent/cmd/netbox-ssot-agent/main.go:751-767 | only commands that some configuration had are ever queued |
| DaemonHistory.AfterFetch | agent/cmd/netbox-ssot-agent/main.go:709-779 | after a successful fetch the new configuration is in force, exactly its unknown commands not completed in the last ten minutes are known too, and the timer is armed with its interval |
| DaemonHistory.PollTells | agent/cmd/netbox-ssot-agent/main.go:661-684 | a fetch names exactly the commands queued, executing or pending and the sources being collected |
| DaemonHistory.IntervalFollows | agent/cmd/netbox-ssot-agent/main.go:715-727 | the polling interval is the last one a configuration asked for, or the one the daemon was started with |
| DaemonHistory.ReportsFollow | agent/cmd/netbox-ssot-agent/main.go:544-558 | once a configuration or a command result is read every pending result is being reported, or nothing new is if there is no endpoint |
| AgentDaemon.Daemon.DispatchWork | agent/cmd/netbox-ssot-agent/main.go:560-650 | the loop terminates and is a dispatch of the model: work-conserving, commands first |
| AgentDaemon.Daemon.StartPendingReports | agent/cmd/netbox-ssot-agent/main.go:544-558 | exactly the pending results not being reported get a report each, whatever the order of the map |
| AgentDaemon.Daemon.OnPollTimer | agent/cmd/netbox-ssot-agent/main.go:661-684 | the poll arm is the poll step of the model: it starts one fetch that carries the known commands and collecting sources |
| AgentDaemon.Daemon.OnFetchFailed | agent/cmd/netbox-ssot-agent/main.go:685-708 | the failed-fetch arm is a step of the model |
| AgentDaemon.Daemon.OnFetched | agent/cmd/netbox-ssot-agent/main.go:709-779 | the configuration arm is a step of the model: purge, queue, prune schedules, report, dispatch, rearm |
| AgentDaemon.Daemon.OnSourceResult | agent/cmd/netbox-ssot-agent/main.go:780-802 | the scheduled-result arm is a step of the model: what it does to the schedule is `DaemonHistory.CollectionsApart` |
| AgentDaemon.Daemon.OnCommandResult | agent/cmd/netbox-ssot-agent/main.go:803-832 | the command-result arm is a step of the model |
| AgentDaemon.Daemon.OnReportResult | agent/cmd/netbox-ssot-agent/main.go:833-852 | the report arm is a step of the model |
| AgentDaemon.RunDaemon | agent/cmd/netbox-ssot-agent/main.go:503-855 | whatever happens around it, the loop is a run of the model, so every whole-run theorem holds of it |
| CommandProtocol.StepSound | packages/plugin/src/netbox_ssot/api/views.py:202-210 | every step of the protocol keeps every invariant |
| CommandProtocol.NeverHandedOutAgain | packages/plugin/src/netbox_ssot/api/views.py:497-519 | while a command's run stays stored, no claim hands the command out, whatever leases expire and agents restart |
| CommandProtocol.OneRunEver | packages/plugin/src/netbox_ssot/ingestion/service.py:74-82 | until it is pruned, any two runs ever stored under one ID are the same run |
| CommandProtocol.RunsAnswerCommands | internal/automation/runner.go:126-137 | a run stored under a command's ID is of a run_now command, of its agent and source, after it was handed out |
| CommandProtocol.FinalForever | packages/plugin/src/netbox_ssot/api/views.py:287-288 | a finished command never changes, none becomes pending again, and a stored run never changes until it is pruned |
| CommandProtocol.SuccessIsStored | internal/automation/runner.go:167-183 | a run_now command that ends SUCCEEDED, by report or recovery, has its complete run stored, and it stays so until it is pruned |
| CommandProtocol.OneUnderWay | packages/plugin/src/netbox_ssot/views.py:503-519 | at most one command of a kind is under way for a source |
| CommandProtocol.HandoutsApart | packages/plugin/src/netbox_ssot/api/views.py:465-495 | while time does not run backwards a command is handed out again only after its five-minute lease ran out |
| CommandProtocol.FailedThoughStored | packages/plugin/src/netbox_ssot/api/views.py:290-294 | over every run: a FAILED command has a complete run stored exactly when a failure report or a cancellation ended it and some step admitted a complete batch under its ID |
| CommandProtocol.HowItFails | packages/plugin/src/netbox_ssot/api/views.py:502-519 | only a recovery from an incomplete run, a failure report or a cancellation ends a command in failure |
| CommandOutcomes.HowItEnds | packages/plugin/src/netbox_ssot/api/views.py:260-296 | however a command ended, one step ended it, a recovery from its run, its agent's result or a cancellation, and outcome and time are what that step says |
| CommandOutcomes.HowItSucceeds | packages/plugin/src/netbox_ssot/api/views.py:287-294 | a command of either kind that ended SUCCEEDED was recovered from its complete run or reported successful by its own agent |
| CommandOutcomes.ResultDecides | packages/plugin/src/netbox_ssot/api/views.py:287-294 | the first result of its own agent that reaches an open command ends it for ever, SUCCEEDED if the result says so and FAILED otherwise |
| CommandOutcomes.WhereItCameFrom | packages/plugin/src/netbox_ssot/views.py:485-519 | every command was requested for the agent that owned its enabled source, at the time it shows |
| CommandOutcomes.RequestMakes | packages/plugin/src/netbox_ssot/views.py:485-519 | a request for an enabled, owned source with no such command open makes one |
| CommandOutcomes.RenewalHolds | packages/plugin/src/netbox_ssot/api/views.py:202-210 | while time does not run backwards nobody is handed a command within 300 seconds of its last claim, heartbeat or progress |
| CommandOutcomes.LastRenewal | packages/plugin/src/netbox_ssot/api/views.py:202-210 | a command in progress shows the time of its last renewal, after which none has come |
| CommandOutcomes.ClaimableExactly | packages/plugin/src/netbox_ssot/api/views.py:465-497 | a command is claimable exactly by its agent, for an approved enabled source it still owns, when pending or its lease is over |
| CommandOutcomes.StepMovesOn | packages/plugin/src/netbox_ssot/api/views.py:303-350 | a command that stays open is handed out anew, moved on by its own agent with first times kept, or as it was |
| CommandOutcomes.IngestDecides | packages/plugin/src/netbox_ssot/ingestion/service.py:59-126 | a batch is stored exactly if it is welcome and its run ID unused; its sender hears so of a stored batch or its exact repeat, and of nothing else |
| CommandOutcomes.ResultAnswered | packages/plugin/src/netbox_ssot/api/views.py:260-289 | what the server answers a result, told from the stored command |
| CommandOutcomes.StatusAnswered | packages/plugin/src/netbox_ssot/api/views.py:303-345 | what the server answers a status message, told from the stored command |
| CommandOutcomes.TestSuccessReported | packages/plugin/src/netbox_ssot/api/views.py:287-294 | a connection test that ended SUCCEEDED was reported so by its own agent |
| CommandProtocol.LostConfirmationFails | packages/plugin/src/netbox_ssot/api/views.py:290-294 | a concrete run ending with a FAILED command whose complete run is stored |
| CommandServer.Server.ClaimCommands | packages/plugin/src/netbox_ssot/api/views.py:460-533 | at most the ten oldest claimable commands are taken; each is recovered from its stored run or leased, and exactly the leased ones are handed out |
| CommandServer.Server.PostResult | packages/plugin/src/netbox_ssot/api/views.py:260-296 | replies and effects of a result: not found, mismatch, duplicate for a finished command, or final as the result says; what that comes to over every run is `CommandOutcomes.ResultDecides` |
| CommandServer.Server.PostStatus | packages/plugin/src/netbox_ssot/api/views.py:303-350 | progress is accepted only forwards, and first times are kept |
| CommandServer.Server.IngestBatch | packages/plugin/src/netbox_ssot/ingestion/service.py:59-126 | a used run ID is a duplicate for the same batch and a conflict for any other; otherwise the batch is stored |
| CommandServer.Server.Heartbeat | packages/plugin/src/netbox_ssot/api/views.py:202-210 | exactly the agent's own active commands in progress get their lease renewed |
| CommandServer.Server.RequestCommand | packages/plugin/src/netbox_ssot/views.py:485-519 | a command is created exactly when the source is enabled and owned, its agent may be asked, and no command of the kind is under way |
| CommandServer.Server.CancelAgent | packages/plugin/src/netbox_ssot/agent_security.py:318-325 | revoking or replacing an agent's identity fails exactly its open commands |
| CommandServer.Server.CancelSource | packages/plugin/src/netbox_ssot/views.py:2088-2095 | taking a source away fails exactly the open commands of the source |
| CommandServer.Execute | internal/automation/runner.go:105-184 | success exactly when the provider is found, an ID exists, the batch encodes, is accepted and is complete; the batch carries the requested run ID |
| CommandServer.StartCommand | internal/automation/runner.go:186-231 | a command ends at once or sends one batch under its own ID for its own source, exactly when it is a run_now whose provider is found and whose batch encodes |
| CommandServer.ExecuteCommand | internal/automation/runner.go:186-240 | a run_now command submits only under its own ID for its own source, and succeeds exactly when a complete batch was accepted |
| CommandSystem.System.Handle | internal/automation/runner.go:186-240 | each event, through the handlers and the execution of commands, takes exactly its step of the protocol, or none if it makes no sense: what agents send is what their execution decides from the confirmations they heard |
| CommandSystem.RunSystem | internal/automation/runner.go:186-240 | whatever happens in whatever order, server and agents make a run of the protocol ending in the server's tables, so every whole-run theorem holds of them; in particular, while nothing is pruned, every SUCCEEDED run_now has its complete run in the tables, every SUCCEEDED test_connection was executed with a provider found and tested, and every batch and result an agent sent is accounted for by what it met: what it collected, its test, or the answer it heard |
| ReviewLog.LatestIsGreatest | packages/plugin/src/netbox_ssot/review.py:100-117 | the latest decision of an item has the greatest time and, among those, the greatest ID |
| ReviewLog.ProgressPathsAgree | packages/plugin/src/netbox_ssot/review.py:51-97 | the grouped query and the look-up by item give the same progress |
| ReviewLog.AllApproved | packages/plugin/src/netbox_ssot/review.py:208-211 | nothing rejected and nothing undecided exactly when every actionable item's latest decision approves |
| ReviewLog.ApproveAllWorksExactlyInTime | packages/plugin/src/netbox_ssot/review.py:155-179 | approve-all leaves every actionable item approved exactly when no approval is earlier than the rejection it overrides |
| ReviewLog.LateRejectionStands | packages/plugin/src/netbox_ssot/review.py:155-179 | a log and a clock for which approve-all leaves the rejection latest |
| ReviewLifecycle.StepSound | packages/plugin/src/netbox_ssot/review.py:120-237 | every operation, accepted or refused, keeps every invariant of log, review and application |
| ReviewLifecycle.FrozenForever | packages/plugin/src/netbox_ssot/review.py:327-331 | once reviewed or applied the log is frozen, and review and application stay as they are |
| ReviewLifecycle.ReviewAlwaysIntact | packages/plugin/src/netbox_ssot/review.py:304-324 | a final review has no integrity issue, from the moment it is made and for ever after |
| ReviewLifecycle.ApprovedMeansAll | packages/plugin/src/netbox_ssot/review.py:202-213 | an approved review approves every create and update by its latest decision, with no conflict and no skip |
| ReviewLifecycle.AppliedWasApproved | packages/plugin/src/netbox_ssot/application/service.py:106-167 | once applied, no item conflicts or is skipped and every create and update has approval as its latest decision, for ever |
| ReviewOutcomes.DecisionRecorded | packages/plugin/src/netbox_ssot/review.py:120-152 | a decision is recorded exactly if it is taken, as one more entry that quotes item, decision, author, time and trimmed reason |
| ReviewOutcomes.DecisionStands | packages/plugin/src/netbox_ssot/review.py:120-152 | in any history a decision taken no earlier than the others on its item is the one that stands |
| ReviewOutcomes.RejectionBinds | packages/plugin/src/netbox_ssot/review.py:202-213 | in any history, while a rejection stands no approval of the comparison is taken or was, and nothing of it was applied |
| ReviewOutcomes.RejectionStopsApply | packages/plugin/src/netbox_ssot/review.py:120-213 | a rejection taken in time stands, and as long as it does nothing is applied, whatever else happens |
| ReviewOutcomes.ReviewMade | packages/plugin/src/netbox_ssot/review.py:182-237 | a final review is made exactly if its verdict is taken, with the author, the trimmed reason and the numbers of approved and rejected changes |
| ReviewOutcomes.TamperingShows | packages/plugin/src/netbox_ssot/review.py:304-324 | a rightful review agrees with another log exactly when the same decision stands on every item there |
| ReviewOutcomes.AppliesExactly | packages/plugin/src/netbox_ssot/application/service.py:194-280 | an apply goes ahead exactly if nothing was applied, the stored counts are those of the items without conflict or skip, and any proposed change is approved, by someone else where that is asked |
| ReviewOutcomes.ReviewerIsNotApplier | packages/plugin/src/netbox_ssot/application/service.py:239-280 | where reviewing and applying must be separate, who applies changes did not approve them |
| ReviewOutcomes.ApproveAllSays | packages/plugin/src/netbox_ssot/review.py:155-179 | approving everything adds one approval for each proposed change not standing approved, and nothing to a closed comparison |
| ReviewOutcomes.ProgressCounts | packages/plugin/src/netbox_ssot/review.py:51-97 | progress counts the proposed changes whose standing decision approves, rejects or is missing |
| ReviewOutcomes.DecisionRefused | packages/plugin/src/netbox_ssot/review.py:120-152 | each refusal of a decision exactly when it is the first that applies |
| ReviewOutcomes.VerdictRefused | packages/plugin/src/netbox_ssot/review.py:182-213 | each refusal of a verdict exactly when it is the first that applies |
| ReviewLifecycle.Comparison.RecordReviewDecision | packages/plugin/src/netbox_ssot/review.py:120-152 | the refusals in their order, and otherwise one entry with the given item, decision, author and time and the stripped reason is appended |
| ReviewLifecycle.Comparison.ApproveAllReviewItems | packages/plugin/src/netbox_ssot/review.py:155-179 | one approval for each actionable item not approved yet, in item order |
| ReviewLifecycle.Comparison.FinalizeReview | packages/plugin/src/netbox_ssot/review.py:182-237 | the refusals in their order, and otherwise a review with the digest and counts of the log |
| ReviewLifecycle.Comparison.ApplyComparison | packages/plugin/src/netbox_ssot/application/service.py:106-167 | an application is created exactly when none exists, the comparison is applicable and the plan was written |
| Retention.Archive.RetentionPlan | packages/plugin/src/netbox_ssot/retention.py:42-81 | the queries over newest-first lists select the runs unlisted by protection, age and number, whatever the order of runs received at the same instant |
| Retention.Archive.PruneCollections | packages/plugin/src/netbox_ssot/retention.py:84-129 | a pruning deletes exactly the planned runs with their observations and preparations, a dry run nothing, and the counts are right; without ties the survivors are those of the specification, told in days and numbers by `Retention.SurvivesExactly` |
| Retention.PlannedExactly | packages/plugin/src/netbox_ssot/retention.py:42-81 | without ties what the lists select is exactly what is eligible by protection, age and rank |
| Retention.NewestSurvive | packages/plugin/src/netbox_ssot/retention.py:46-54 | with ties too, no compared run is pruned, and a newest run and a newest complete run survive |
| Retention.RetainedByRank | packages/plugin/src/netbox_ssot/retention.py:46-50 | a complete run is among the first n listed exactly when fewer than n complete runs are newer |
| Retention.ProtectedSurvive | packages/plugin/src/netbox_ssot/retention.py:52-53 | compared runs, the newest run and the newest complete run survive, the latter two as such |
| Retention.PruningComposes | packages/plugin/src/netbox_ssot/retention.py:42-129 | pruning and pruning again later leaves what the later pruning alone leaves |
| Retention.PruningSchedule | packages/plugin/src/netbox_ssot/retention.py:42-129 | any number of prunings at non-decreasing times equals the last one alone |
| Retention.RetentionBound | packages/plugin/src/netbox_ssot/retention.py:56-58 | unprotected complete survivors are no more than the policy's number, and all recent |
| Retention.SurvivesExactly | packages/plugin/src/netbox_ssot/retention.py:42-81 | a pruning leaves exactly compared runs, a newest run, a newest complete run, recent incomplete runs, and recent runs among the newest complete ones, in days of 86,400 seconds |
| Retention.PlannedSays | packages/plugin/src/netbox_ssot/retention.py:42-81 | whatever the ties, an unprotected run is pruned exactly when it is too old for its kind or listed too late among the complete ones |
| UnifiPages.CollectPages | providers/unifi/collector.go:517-560 | against any server at most 10,000 requests; success is contiguous pages of one declared total that add up to it; each failure is told by the server's answers |
| UnifiPages.ContiguousAgree | providers/unifi/collector.go:543-551 | accepted pages all declare the same total, carry as many items as they count, and each starts where the ones before it end |
| UnifiPages.StableListing | providers/unifi/collector.go:528-559 | a stable server's items are returned, all and in order, exactly when they fit in 10,000 pages, and otherwise the limit error |
| UnifiPages.CollectionState.Add | providers/unifi/collector.go:504-515 | accepted exactly when no observation of the same ID differs; the list, index and counts stay those of the distinct observations |
| UnifiPages.FirstComeFirst | providers/unifi/collector.go:504-515 | observations stand in the order in which they first came |
| DatasetClosure.ResolveDatasets | internal/provider/provider.go:69-98 | the stack worklist terminates and lists the least dependency-closed set in manifest order, or fails exactly when it leaves the manifest |
| DatasetClosure.SelectedDatasetIds | packages/contracts/src/netbox_ssot_contracts/provider.py:49-63 | on a valid manifest the other worklist does the same |
| DatasetClosure.ResolvesUnique | internal/provider/provider.go:69-98 | a request resolves in one way only, so the two worklists agree |
| DatasetClosure.ResolvesWhenKnown | packages/contracts/src/netbox_ssot_contracts/provider.py:50-53 | on a valid manifest a request resolves exactly when it names known datasets |
| DatasetClosure.ResolvedIsFixed | packages/plugin/src/netbox_ssot/ingestion/service.py:45-50 | a resolved list is its own resolution, so an agent's list passes the server's check |
| DatasetClosure.FixedExactlyWhenClosed | packages/plugin/src/netbox_ssot/ingestion/service.py:45-50 | the lists that pass are exactly the manifest-order listings of closed sets |
| DatasetClosure.ValidateProvider | packages/plugin/src/netbox_ssot/ingestion/service.py:38-55 | a missing provider, a wrong contract version, unknown datasets, missing dependencies and kinds that no chosen dataset has are told apart exactly |
| DatasetClosure.ListingInOrder | internal/provider/provider.go:90-98 | a listing keeps the order of the manifest |
| CustomFieldNames.PrintAfterParse | packages/plugin/src/netbox_ssot/planning/resource_registry.py:178-189 | printing what was parsed gives the name back |
| CustomFieldNames.ParseAfterPrint | packages/plugin/src/netbox_ssot/planning/resource_registry.py:178-189 | parsing a printed name finds the longest registered kind that begins what was printed |
| CustomFieldNames.RoundTripExactly | packages/plugin/src/netbox_ssot/planning/resource_registry.py:178-189 | the name round-trips exactly when no longer registered kind matches |
| CustomFieldNames.DeviceTypeShadows | packages/plugin/src/netbox_ssot/planning/resource_registry.py:178-189 | a concrete name that reads back as another kind and field |

## Left out

- The per-kind tables of the registry, natural identities, attribute normalisation (VLAN ranges apart) and value normalisation are parameters; numbers are integers, and Python's equality of `True`, `1` and `1.0` is not modelled.
- `_write_object`'s assignment of attributes, content types, tags and external references, `full_clean` and the database constraints: a write stores the desired record and its links. That a re-comparison after an apply is empty is not claimed.
- The rewriting of legacy users of rack reservations when records are read back from items, and malformed source data of an item: a record is read back as it was stored.
- Which custom fields NetBox defines, and with which types, is a parameter (`Writer.customField`).
- Error messages are tags, and which of several errors a set iteration meets first is not modelled: the required-relationship check has one error, whichever name it finds.
- DiffSync's own traversal: assumed to call one hook for each key that differs, in any order, and no delete hook.
- Readiness checks of external references, content types, data sources and extras, and of the engine version, direction and evidence, are one flag (`others`).
- Serialisation failures and concurrent transactions: each locked transaction is one step.
- The JSON `result` of a command row, security events, key rotation, enrolment and capability checks; the approved sources of a claim, the validity of a batch, and whether an agent may be asked for a command (enabled, current protocol, capable and permitted) are parameters.
- ReviewLifecycle.Comparison.ApplyComparison: takes the readiness of the plan and its write as flags; `ApplyTransaction.ApplyComparison` joins it to them.
- SourceRecords.LoadSourceRecords: Python's recursion limit, which a very long chain of identity relationships would reach, is not modelled.
- `AgentDaemon.RunDaemon`: runs until its list of offers is used up; context cancellation, log output and exit on encode errors are not modelled, and durations are unbounded integers (the accepted intervals are at most 30 seconds and the schedule intervals are those of the source).
- The capacity of the report channel, on which goroutines may wait for the loop.
- Stripping of reasons covers ASCII white space; the length limit of a reason is not modelled.
- The order in which eligible runs are listed and the totals a retention plan displays.
- HTTP, TLS, signing, base64 and hashing; views, forms, tables, workflow presentation, health badges and trends.
- The NetBox collector's attribute and relationship tables, and mapping of provider objects to observations.
