# kranix-core: a verified model of its stateful components

This project models, in Dafny, the parts of kranix-core whose correctness depends on whole histories rather than on
single calls, and proves what each of them guarantees:

- **Dependency resolver** (`Graphs.dfy`, `Dependency.dfy`): the dependency multigraph, Kahn's topological sort and the
  depth-first cycle search, for every map iteration order.
- **Circuit breaker** (`CircuitBreaker.dfy`): the closed/open/half-open machine with its 32-bit counters, proved to refine
  a breaker that keeps no counters and only reads the observation history.
- **Hard quotas** (`Quota.dfy`): limit selection, peer matching, aggregation, admission and the usage report.
- **Event log and memory store** (`EventLog.dfy`, `StateStore.dfy`): versions, limited reads, cleanup, and the log as a
  replayable shadow of the store.
- **Rollback history** (`RolloutHistory.dfy`, `WorkloadTags.dfy`): bounded newest-first history, the versioned store over
  shared cells or copies, and revert.
- **Placement, warm standby, secret rotation** (`Scheduler.dfy`, `WarmStandby.dfy`, `SecretRotation.dfy`).
- **Reconciler** (`Reconciler.dfy`, `ReconcileRuns.dfy`): a pass over the quota, breaker, standby, secret and rollout
  stages on the store's shared cells, and runs of passes over any of the stored workloads.

`Types.dfy` holds the workload record shared by all of them, `Sums.dfy` order-free sums and pigeonhole facts,
`Strings.dfy` trimming and case folding. A Go struct value is a datatype value; a Go pointer to a workload is a reference
to a `WorkloadRef` cell, so that sharing and copying are told apart where the source depends on it. Loops over Go maps
pick their next key arbitrarily, so what is proved holds for every iteration order. Clocks, random IDs, driver answers,
policy verdicts and cron evaluation are parameters.

Check everything with `dafny verify dfyconfig.toml`.

## Main results

1. Kahn's sort succeeds exactly on acyclic graphs and the cycle search finds a cycle exactly on cyclic ones, so
   `ResolveDeploymentOrder` fails exactly when `DetectCycles` reports a (simple) dependency cycle.
2. The breaker's counters are exact summaries of its history; as long as the breaker stays enabled no route is allowed
   inside a cooldown, however specs are edited; over any number of half-open rounds the probes stay within one budget.
3. Over any run of passes over any workloads, a pass inside the cooldown of a workload reaches its runtime exactly when it
   does so without asking the breaker: it fails another workload, or the workload itself, over to it, rolls another one
   out under its ID, or carries out a due restart. During an outage, deployments are such passes plus at most the probe
   budget.
4. Every store state reached through the quota gate is within every cap, if each team-less namespace limit is spelled in
   one way; a stored workload is reconciled exactly when the usage report of its namespace is within the caps.
5. For every run of store calls that deletes no renamed workload, the log of each aggregate is a lifecycle that replays to
   the spec last written; batched cursor reads lose and repeat nothing; a version is reissued exactly when an append finds
   the newest event cleaned up.
6. The bounded revision history is the newest part of the unbounded one, and a revert is undone by a revert.
7. With non-negative prices placement is optimal; standbys of recognisable primaries never get standbys; a restart is
   pending exactly when a rotation is unanswered.
8. What the histories and runs are about is tied to the fields of workloads and configuration: which thresholds open and
   close the breaker and for how long, whom each quota binds, how long an event is kept, which change is recorded as a
   revision, which node, standby or secret is meant, and which phase a pass leaves; a finished rollout is not repeated.

Facts about the code that the proofs brought out, each with a lemma that says exactly when it happens:

- `Quota.CountsExactlyWhenSpelledAlike`, `Quota.SecondSpellingEscapes`: limits are selected by the folded namespace, peers
  are listed by the exact one (`internal/resourcequota/engine.go:58`, `internal/state/store.go:59`), so two spellings of
  one namespace each fill it. `Quota.MixedCaseNamespacesEscape` is the witness.
- `Reconciler.ReconciledExactlyWithinCaps`, `Reconciler.CreateAtCapStalls`: the quota gate is consulted only when
  reconciling stored workloads (`internal/reconciler/reconciler.go:150-155`), so one create too many is stored and then
  stalls every workload of its namespace.
- `Reconciler.PassKeepsSpecExactly`, `Reconciler.CooldownPass`: a workload whose standby ID is its own
  (`internal/warmstandby/manager.go:72-88,109-124`) is overwritten by its own failover and provisioning, and its failover
  deploys it inside the cooldown. `Reconciler.OwnStandbyDeploysInCooldown` is the witness.
- `Reconciler.AnyPassInCooldown`: the restart stage comes before the breaker is asked, a failed restart falls back to a
  deployment (`internal/scheduler/restart.go:26-31`), and a failover schedules the standby whatever the standby's own
  breaker says. `ReconcileRuns.FailoverRepeats`, `ReconcileRuns.RedeploymentRepeats` and
  `ReconcileRuns.AnywayIsUnbounded` show that no number bounds these deployments.
- `Reconciler.ReplacedIsRolledOut`: deploying an existing ID stores a fresh status (`internal/server/server.go:150-168`),
  which ends a cooldown and forgets a pending restart.
- `Reconciler.FirstStandbyStalls`: standbys count against the workload cap of their primary's namespace.
- `Reconciler.PromotionSurvivesExactly`: with the breaker open and the phase still Running, one pass promotes the standby
  and scales it back to zero.
- `StateStore.MirrorsExactlyWithoutRenaming`: deleting a workload whose ID was changed through its pointer logs the
  deletion under the wrong ID.
- `EventLog.ReissuedExactlyAfterLoss`: versions are counted from the newest retained event, so cleaning that up makes them
  repeat; in chronological runs this happens when an aggregate is emptied (`EventLog.ReissuedExactlyAfterEmptying`).
- `RolloutHistory.RecoverableExactlyWhenCompared`: a revert that changes only fields outside image, replicas, backend and
  the three tags records nothing, so the spec it replaces is lost. `RolloutHistory.UncomparedFieldIsLost` is the witness; `RolloutHistory.SharedLabelsHideTag`
  shows that a restored tag can go unrecorded too, because the captured workload shares the label map.
- `Scheduler.PlacementIsFixedPointExactly`: on nodes without a hostname label, as in the built-in registry, a second
  placement matches no node, falls back to all of them and forgets the preferences.
  `Scheduler.UnlabelledNodesLosePreferences` is the witness.
- `Scheduler.ScanIsFirstCheapestExactly`: a negative price is mistaken for "no node chosen yet" and gives way to the next
  affordable node. `Scheduler.NegativePriceWitness` shows both outcomes.
- `WarmStandby.RecognisedExactly`, `WarmStandby.StandbyOfStandbyExactly`: a primary that carries another role, as a label
  or as a custom tag, hands it to its standby, which is then not recognised and gets a standby of its own.

## Model

| member | source | states |
|---|---|---|
| Graphs.CountEdges | internal/dependency/resolver.go:183-187 | counting a node's edges raises each target's in-degree by its multiplicity |
| Graphs.ComputeInDegrees | internal/dependency/resolver.go:177-187 | every node's in-degree is the number of edges into it, repeated edges counted |
| Graphs.ReadyNodes | internal/dependency/resolver.go:189-195 | the queue starts with exactly the nodes of in-degree zero, each once |
| Graphs.PopNode | internal/dependency/resolver.go:199-202 | a popped node has all its sources before it; its edges are what separates the in-degrees from the unpopped count |
| Graphs.ReleaseEdges | internal/dependency/resolver.go:204-210 | after releasing a node's edges, in-degrees again count the edges from unpopped nodes and the queue holds exactly the rest at zero |
| Graphs.StuckIsCyclic | internal/dependency/resolver.go:213-216 | if every remaining node has a source among the remaining ones, there is a cycle (pigeonhole on a backward walk) |
| Graphs.Drained | internal/dependency/resolver.go:213-218 | with an empty queue, all nodes were popped if and only if the graph is acyclic, and then in topological order |
| Graphs.OrderIsAcyclic | internal/dependency/resolver.go:176-219 | a graph with a topological order has no cycle |
| Graphs.TopologicalSort | internal/dependency/resolver.go:176-219 | succeeds exactly on acyclic graphs; the result holds every key once with every edge pointing forward |
| Graphs.BackEdge | internal/dependency/resolver.go:259-270 | an edge back to a node on the recursion stack closes a simple cycle that starts at that node's place on the path |
| Graphs.CycleSearch.Visit | internal/dependency/resolver.go:249-277 | returns a simple cycle, or finishes the node and all it reaches and restores path and stack; terminates on the unvisited nodes |
| Graphs.FinishOrderIsAcyclic | internal/dependency/resolver.go:274-276 | if every edge leads to a node finished earlier, there is no cycle |
| Graphs.FindCycle | internal/dependency/resolver.go:232-246 | returns a cycle exactly when one exists, for every order of roots, and the cycle is simple |
| Dependency.AddDependencies | internal/dependency/resolver.go:166-169 | one workload's dependencies add its ID to their edge lists, once per mention |
| Dependency.BuildDependencyGraph | internal/dependency/resolver.go:156-173 | keys are the listed and depended-upon IDs; edge multiplicities are the numbers of mentions |
| Dependency.CyclesAreDependencyCycles | internal/dependency/resolver.go:156-173 | the cycles of that graph are exactly the circular dependency chains |
| Dependency.ResolveDeploymentOrder | internal/dependency/resolver.go:30-54 | fails exactly on circular dependencies; otherwise lists each ID once, as its last workload, after all listed dependencies, unknown ones dropped |
| Dependency.DetectCycles | internal/dependency/resolver.go:222-229 | reports a cycle exactly when there is a circular dependency, and the report is a simple dependency cycle |
| CircuitBreaker.NewConfig | internal/circuitbreaker/engine.go:24-38 | defaults are always positive and positive settings are kept |
| CircuitBreaker.SettingsApply | internal/circuitbreaker/engine.go:169-194 | each threshold is the workload's own where positive, else the configured one, else the built-in one (3, 2, 60 seconds, 1); the switch and the meaning of degraded by their fields |
| CircuitBreaker.OpensExactlyAtThreshold | internal/circuitbreaker/engine.go:75-85 | from a fresh status under failures only the breaker is open exactly from the failure threshold on, then until that many seconds after the trip |
| CircuitBreaker.OthersNeverOpen | internal/circuitbreaker/engine.go:75-90 | phases that do not count as failures never open a fresh breaker |
| CircuitBreaker.ClosesExactlyAtThreshold | internal/circuitbreaker/engine.go:66-106 | after the cooldown under ready observations only the breaker is closed exactly from the success threshold on |
| CircuitBreaker.ProbesAreGrantedExactly | internal/circuitbreaker/engine.go:113-153 | after the cooldown exactly as many routes are allowed as the settings grant probes |
| CircuitBreaker.SwitchedOffRoutes | internal/circuitbreaker/engine.go:113-119 | without a breaker everything but a failed workload is routed |
| CircuitBreaker.TransitionLooks | internal/circuitbreaker/engine.go:66-110 | the reason, the time and the counters that each change of state leaves |
| CircuitBreaker.Engine.SyncFromWorkload | internal/circuitbreaker/engine.go:52-110 | in-place update is the breaker step on the workload's status and reports the states before and after |
| CircuitBreaker.Engine.AllowRoute | internal/circuitbreaker/engine.go:113-143 | synchronises and returns the routing decision |
| CircuitBreaker.Engine.RecordRouteAttempt | internal/circuitbreaker/engine.go:146-153 | counts an attempt in half-open only |
| CircuitBreaker.CountersSummarizeHistory | internal/circuitbreaker/engine.go:66-110 | over every history the counters equal the counts a counter-free breaker reads off the history, below their thresholds |
| CircuitBreaker.CounterMeaning | internal/circuitbreaker/engine.go:75-105 | closed: fails are the unhealthy observations since the last Running one; half-open: OKs are the ready ones since entry; both below threshold; the transition time is when the present state began |
| CircuitBreaker.TransitionsAreExact | internal/circuitbreaker/engine.go:66-106 | trips, recovers, fails a probe and leaves the cooldown exactly when the history says so |
| CircuitBreaker.Blackout | internal/circuitbreaker/engine.go:66-106 | after a trip or failed probe at t, every event before t plus the cooldown of the tripping spec finds the status frozen and routing refused, whatever is observed and however specs are edited meanwhile |
| CircuitBreaker.TripsAreOpenings | internal/circuitbreaker/engine.go:78-95 | an event trips the stored status exactly when the counter-free breaker opens at that event |
| CircuitBreaker.UniformRun | internal/circuitbreaker/engine.go:52-110 | a run with a spec per event whose specs are all equal is a history under that spec |
| CircuitBreaker.AttemptsBounded | internal/circuitbreaker/engine.go:97-104 | attempts stay within the budget and are zero whenever closed |
| CircuitBreaker.ProbeBudget | internal/circuitbreaker/engine.go:125-153 | without a recovery in between, recorded probes over any number of rounds stay within one budget |
| CircuitBreaker.RoutingIsExact | internal/circuitbreaker/engine.go:120-142 | routing is allowed exactly when closed and not unhealthy, or half-open with budget left since the outage began |
| Quota.TableOfIsValid | internal/resourcequota/engine.go:27-47 | every configured limit is filed under its own normalised key |
| Quota.LastLimitWins | internal/resourcequota/engine.go:33-45 | a key holds the last limit configured for it and no other key exists |
| Quota.Engine.constructor | internal/resourcequota/engine.go:27-47 | the two maps are the table of the configured limits |
| Quota.List | internal/state/store.go:53-64 | lists exactly the workloads of a namespace, or all, each once |
| Quota.SumRequests | internal/quotaaggregate/requests.go:12-33 | fails exactly on an unparsable counted request; otherwise the totals of everything counted, as often as it is listed, with 32-bit replicas |
| Quota.ListUsageIsUsage | internal/quotaaggregate/requests.go:12-33 | over a listing without repetition those totals are the order-free totals of the set |
| Quota.SelectPeers | internal/resourcequota/engine.go:86-92 | keeps exactly the listed workloads that match the quota key, each as often as listed |
| Quota.CheckLimit | internal/resourcequota/engine.go:76-140 | accepts exactly when all requests parse and all totals are within the caps |
| Quota.Engine.Enforce | internal/resourcequota/engine.go:50-141 | accepts exactly when the gate admits, for every listing order |
| Quota.Engine.SetNamespaceQuota | internal/resourcequota/admin.go:13-23 | refuses blank namespaces, otherwise files the limit under the folded namespace; the table stays valid |
| Quota.Engine.DeleteNamespaceQuota | internal/resourcequota/admin.go:34-43 | removes exactly the folded namespace's limit and says whether there was one |
| Quota.Engine.NamespaceUsage | internal/resourcequota/admin.go:57-84 | reports the limit, or an empty one, and the totals of the trimmed namespace, failing exactly on blank names and unparsable requests |
| Quota.CountsExactlyWhenSpelledAlike | internal/resourcequota/engine.go:58-92 | under a namespace limit one governed workload counts another exactly when the limit names a team or both spell the namespace alike |
| Quota.NamespacePeers | internal/resourcequota/engine.go:76-92 | the gate counts exactly the other workloads of the exact namespace if and only if the report sees everything that counts |
| Quota.GateAgreesWithReport | internal/resourcequota/engine.go:76-140 | for a stored workload whose namespace report sees all that counts, the gate accepts exactly when the report is within every cap |
| Quota.VerdictIsPerNamespace | internal/resourcequota/engine.go:76-140 | all stored workloads of a namespace get the same verdict |
| Quota.GovernedArePeers | internal/resourcequota/engine.go:143-154 | workloads with the same selected limit are matched as peers where spelling does not matter or agrees |
| Quota.ExactTotals | internal/resourcequota/engine.go:107-114 | where totals fit 32 bits the gate compares the exact totals |
| Quota.UpsertKeepsSafe | internal/resourcequota/engine.go:50-141 | an admitted upsert, also one that moves a workload between limits, keeps every limit |
| Quota.EmptyStoreIsSafe | internal/resourcequota/engine.go:50-141 | the empty store is a starting point for guarded runs |
| Quota.QuotaSafety | internal/resourcequota/engine.go:50-141 | every state reached through the gate by upserts and deletions is within every cap of every limit, as long as workloads under a team-less namespace limit spell it alike |
| Quota.CheckedByWhatBinds | internal/resourcequota/engine.go:50-75 | each workload is checked against exactly the limit that binds it: its namespace's, else the one of the team it names by tag or label, else that of its tenant |
| Quota.BoundStayWithinCaps | internal/resourcequota/engine.go:50-141 | in every state reached through the gate the workloads that a limit binds are within each cap that is set, field by field |
| Quota.TeamPeersExactly | internal/resourcequota/engine.go:143-154 | a team limit counts exactly the others that carry the team's name, in any namespace |
| Quota.RefusedAtTeamCap | internal/resourcequota/engine.go:76-141 | a workload bound by a team limit is refused when others fill the cap |
| Quota.AdmittedAlone | internal/resourcequota/engine.go:76-141 | with nobody else counting it is admitted exactly when its own requests can be read and are within each cap |
| Quota.UsageAddsUp | internal/quotaaggregate/requests.go:12-33 | totals add up field by field, replicas in 32 bits |
| Quota.SecondSpellingEscapes | internal/resourcequota/engine.go:58-81 | under a limit of one, a second workload is admitted, and the limit exceeded, exactly when no team is named and the spellings differ |
| Quota.MixedCaseNamespacesEscape | internal/resourcequota/engine.go:58-81 | a concrete pair of spellings that folds to one key and exceeds its cap |
| EventLog.Store.Append | internal/eventsourcing/store.go:43-70 | stores the event with the next version of its aggregate, filling in missing ID and time; nothing when disabled |
| EventLog.Store.GetEvents | internal/eventsourcing/store.go:91-111 | returns the events from a version on, cut at a positive limit |
| EventLog.Store.CleanupOldEvents | internal/eventsourcing/store.go:372-392 | keeps in every aggregate exactly the events younger than the cutoff |
| EventLog.RecordedIsKeptExactly | internal/eventsourcing/store.go:43-70 | a recorded event keeps its ID, or gets the fresh one, and is in its aggregate after any further calls exactly when every cleanup ran before its own time, or the time of recording, plus the maximum age |
| EventLog.VersionsIncrease | internal/eventsourcing/store.go:61-70 | versions strictly increase in every aggregate under any appends and cleanups |
| EventLog.RetainedIsSuffix | internal/eventsourcing/store.go:382-388 | with non-decreasing timestamps cleanup removes exactly a prefix |
| EventLog.LogIsSuffixOfIssued | internal/eventsourcing/store.go:372-392 | in a chronological run the log is a version-contiguous suffix of everything issued |
| EventLog.VersionsCountUp | internal/eventsourcing/store.go:61-67 | while no append finds the newest event cleaned up, versions issued are 1, 2, 3, ... |
| EventLog.ReissuedExactlyAfterLoss | internal/eventsourcing/store.go:61-67 | a version is issued twice if and only if some append finds that the event issued last is no longer the last retained, whatever the timestamps |
| EventLog.ReissuedExactlyAfterEmptying | internal/eventsourcing/store.go:61-67 | in a chronological run a version is issued twice if and only if cleanup emptied the aggregate before a later append |
| EventLog.ReadKeepsLossless | internal/eventsourcing/store.go:91-111 | a batch continues exactly where the last one ended and either fills its limit or catches up |
| EventLog.ReadsMakeProgress | internal/eventsourcing/store.go:91-111 | n reads of a positive limit deliver n times the limit more, or everything |
| EventLog.CursorReadsAreLossless | internal/eventsourcing/store.go:91-111 | batched reads with interleaved appends deliver every event from the start version once and in order, and enough reads reach the unlimited read |
| StateStore.ReplayRecognizesLifecycles | internal/eventsourcing/store.go:178-231 | replay gets stuck exactly on logs that are not prefixes of (Created Updated* Deleted)* |
| StateStore.ExecKeepsMirror | internal/state/store.go:67-135 | a call keeps the log replaying to the stored IDs and last written specs exactly unless it deletes a workload renamed through its pointer |
| StateStore.MirrorsExactlyWithoutRenaming | internal/state/store.go:114-135 | the log mirrors the store after every call of a run if and only if no call deletes a renamed workload |
| StateStore.LogRefinesStore | internal/state/store.go:67-135 | for every run, refused calls and other recorders included, each log is a lifecycle that replays to the stored ID and last written spec |
| StateStore.WrittenIsLive | internal/state/store.go:89-111 | without changes through shared pointers the replayed spec is the stored spec |
| StateStore.StoredAsGiven | internal/state/store.go:67-135 | after one more call the store holds what it was given, lacks what was deleted and is otherwise unchanged |
| StateStore.LoggedAsGiven | internal/eventsourcing/store.go:179-231 | an accepted call ends the log of its aggregate with an event that says so, under the supplied ID and time |
| StateStore.MemoryStore.Get | internal/state/store.go:46-50 | hands out the stored cell itself |
| StateStore.MemoryStore.Create | internal/state/store.go:67-87 | refuses an existing ID, otherwise stores the cell and logs a creation |
| StateStore.MemoryStore.Update | internal/state/store.go:90-111 | refuses an unknown ID, otherwise replaces the cell and logs an update |
| StateStore.MemoryStore.Delete | internal/state/store.go:114-135 | refuses an unknown ID, otherwise removes it and logs a deletion under the ID that the cell carries |
| WorkloadTags.LabelsFromAt | internal/workloadtags/tags.go:25-43 | under every label mirroring leaves the last custom tag for it, else its structured tag, else what was there |
| WorkloadTags.SyncReads | internal/workloadtags/tags.go:47-63 | synchronising writes down each tag as its own value or, for want of that, the trimmed label |
| WorkloadTags.ApplyTags | internal/workloadtags/tags.go:17-24 | mirroring keeps the tags there are and without any takes those of the labels |
| WorkloadTags.TagsSettle | internal/workloadtags/tags.go:17-63 | mirroring and synchronising once more changes no tag |
| RolloutHistory.RecordBeforeUpdate | internal/rollouthistory/history.go:32-43 | in place: the recording function on two cells, nothing recorded on one |
| RolloutHistory.RecordsExactlyOnChange | internal/rollouthistory/history.go:36-42 | the predecessor is put in front of the bounded history exactly when image, replicas, backend or one of the three tags as read from the labels differs |
| RolloutHistory.CreateRecordsExactly | internal/rollouthistory/history.go:46-56 | a workload without history gets one revision of itself, one with a history keeps it |
| RolloutHistory.ReplacedSpecIsNewest | internal/state/versioned_store.go:39-49 | after any run an update by a holder of a copy that changes image, replicas or backend leaves the replaced spec as the newest revision |
| RolloutHistory.SharedUpdateFillsTags | internal/state/versioned_store.go:39-49 | updating the stored cell itself records nothing and writes down its tags |
| RolloutHistory.VersionedStore.Create | internal/state/versioned_store.go:33-37 | mirrors tags, records the first revision of a workload without history, and stores unless the ID exists |
| RolloutHistory.VersionedStore.Update | internal/state/versioned_store.go:39-49 | mirrors tags and records the stored predecessor, which is the same cell when the caller shares it |
| RolloutHistory.VersionedStore.Revert | internal/rollouthistory/history.go:111-159 | restores the revision, records what it replaced as the shared label map shows it, writes back; unknown workload or revision changes nothing |
| RolloutHistory.HistoryKeepsNewest | internal/rollouthistory/history.go:79-96 | over any run of creates and updates the kept revisions are the newest of all snapshots, with the right count, bound and active ID |
| RolloutHistory.FindRevision | internal/rollouthistory/history.go:161-168 | finds a revision exactly when one has the ID, and then the first such one |
| RolloutHistory.RevertUndoesRevert | internal/rollouthistory/history.go:111-159 | a revert leaves the revision's spec with the replaced spec newest; reverting to that one brings it back, for every store and bound |
| RolloutHistory.RevertSucceedsExactly | internal/rollouthistory/history.go:123-126 | a revert succeeds exactly when the history holds the revision |
| RolloutHistory.RevertBringsBack | internal/rollouthistory/history.go:111-159 | reverting to the newest revision brings back the spec, the tags and the labels it was taken of |
| RolloutHistory.LabelsAfterRevert | internal/rollouthistory/history.go:136-149 | a label that no restored tag claims is the revision's or, if it had none at all, the workload's |
| RolloutHistory.RevertReports | internal/rollouthistory/history.go:112-153 | a revert reports the bound, ten by default, the length of the history and the revision |
| RolloutHistory.SharedLabelsHideTag | internal/rollouthistory/history.go:129-151 | a tag restored into a shared label map goes unrecorded, except by a store over copies |
| RolloutHistory.StoreComparesAlike | internal/rollouthistory/history.go:36-38 | after an unnoticed revert a store over copies compares the same tags that the revert compared |
| RolloutHistory.RecoverableExactlyWhenCompared | internal/rollouthistory/history.go:111-159 | in every kind of store the replaced spec can be found again exactly when one of the comparisons notices the revert or it was in the history already |
| RolloutHistory.UncomparedFieldIsLost | internal/rollouthistory/history.go:36-38 | a concrete workload whose spec is lost by a revert in every kind of store |
| Scheduler.FilterNodes | internal/scheduler/scheduler.go:126-170 | keeps, in order, exactly the nodes that meet every preference |
| Scheduler.FilteredMembers | internal/scheduler/scheduler.go:126-170 | membership of the filtered list is meeting every preference |
| Scheduler.SelectCheapestNode | internal/scheduler/scheduler.go:173-209 | the loop with its negative sentinel is the scan whose result is characterised below |
| Scheduler.ScanIsFirstCheapestExactly | internal/scheduler/scheduler.go:178-208 | the scan finds the first cheapest affordable node exactly when no affordable price is negative or the last affordable node is strictly cheaper than all before it |
| Scheduler.NegativePriceWitness | internal/scheduler/scheduler.go:198-201 | a negative price is passed over when it comes first and chosen when it comes last |
| Scheduler.Placement.ApplyCostAwareScheduling | internal/scheduler/scheduler.go:90-123 | writes the chosen node's ID into the hostname selector, changing nothing on failure |
| Scheduler.PlacementIsOptimal | internal/scheduler/scheduler.go:90-111 | the first cheapest affordable node among those meeting every preference, or among all only if none does |
| Scheduler.PlacesCheapestEligible | internal/scheduler/scheduler.go:90-209 | the placed node meets each request by region, zone, selectors, draining and architecture, or no node does, is within the maximum price, and no such node costs less |
| Scheduler.PinsHostname | internal/scheduler/scheduler.go:113-117 | the hostname selector is set and every other selector kept |
| Scheduler.PlacementIsFixedPointExactly | internal/scheduler/scheduler.go:102-117 | placing again on the updated selectors picks the same node exactly when it carries its label, no node met the preferences, or it is the best of all nodes |
| Scheduler.UnlabelledNodesLosePreferences | internal/scheduler/scheduler.go:102-117 | two concrete nodes without hostname labels where the second placement ignores the preferences |
| WarmStandby.Manager.EnsureColdStandby | internal/warmstandby/manager.go:59-98 | on shared cells: creates or re-specifies the standby, then records it on the primary, which may be the same cell |
| WarmStandby.Manager.Promote | internal/warmstandby/manager.go:101-138 | on shared cells: scales the standby and sets it pending, then records the failover on the primary; fails exactly when disabled or missing |
| WarmStandby.EnsureKeepsSpecExactly | internal/warmstandby/manager.go:72-88 | provisioning keeps the primary's spec exactly when the primary is not its own standby |
| WarmStandby.PromoteKeepsSpecExactly | internal/warmstandby/manager.go:109-126 | promotion keeps the primary's spec exactly when it does not promote the primary itself or has nothing to strip |
| WarmStandby.EnsureOverwritesExactly | internal/warmstandby/manager.go:72-88 | provisioning keeps the spec of any other stored workload exactly when that is not stored under the standby ID or has the cloned spec already |
| WarmStandby.PromoteOverwritesExactly | internal/warmstandby/manager.go:109-126 | the same for promotion |
| WarmStandby.RoleAfterApply | internal/workloadtags/tags.go:17-44 | mirroring tags leaves the role that the last custom tag names, else the role that was there |
| WarmStandby.RecognisedExactly | internal/warmstandby/manager.go:185-209 | a new standby is recognised as one exactly when its primary's custom tags say standby, or neither its tags nor its labels name a role |
| WarmStandby.NoStandbyOfStandby | internal/warmstandby/manager.go:43-98 | over any steps no created workload gets a standby, primaries keep their specs, at most twice as many workloads as primaries |
| WarmStandby.ProvisionedIsCold | internal/warmstandby/manager.go:59-98 | provisioning leaves a standby in the primary's namespace with its spec at zero replicas, without schedule, standby and breaker, linked for promotion |
| WarmStandby.PromotedReplicas | internal/warmstandby/manager.go:114-138 | promotion leaves the larger of the primary's replicas and those asked for in its standby section, at least one, pending, and records the failover |
| WarmStandby.ActsExactlyForWanting | internal/warmstandby/manager.go:43-70 | provisioning and promotion act exactly for workloads not marked as standby for which the section or the default is on |
| WarmStandby.WhichStandby | internal/warmstandby/manager.go:63-70 | which ID provisioning and promotion look under |
| WarmStandby.NewStandbyLooks | internal/warmstandby/manager.go:185-209 | a new standby is pending, without history or tenant, labelled like its primary and as a standby for it |
| WarmStandby.StandbyOfStandbyExactly | internal/warmstandby/manager.go:47-88 | a first standby gets a standby itself exactly when standbys are on by default and its primary is not recognisable |
| WarmStandby.InheritedRoleEscapes | internal/warmstandby/manager.go:187-193 | another role, as a label or as a custom tag, makes a primary unrecognisable |
| SecretRotation.KeyIsNormalized | internal/secretrotation/registry.go:15-21 | secret keys are normal forms |
| SecretRotation.KeysAgreeExactly | internal/secretrotation/registry.go:15-21 | keys are equal exactly when trimmed names agree and namespaces agree, blank meaning default |
| SecretRotation.Registry.RegisterWorkload | internal/secretrotation/registry.go:41-54 | adds the ID under exactly the keys of the non-empty references |
| SecretRotation.Registry.ObserveVersion | internal/secretrotation/registry.go:70-80 | a change is a different version after a first one; the version is remembered |
| SecretRotation.Engine.IndexWorkload | internal/secretrotation/engine.go:54-67 | indexes an enabled workload under exactly the keys it references |
| SecretRotation.MarkAffected | internal/secretrotation/engine.go:99-135 | marks exactly the stored, enabled workloads among the affected ones, in any order |
| SecretRotation.Engine.HandleRotation | internal/secretrotation/engine.go:78-137 | refuses blank names and versions; on a change marks the indexed workloads and returns exactly those |
| SecretRotation.IndexIsExact | internal/secretrotation/registry.go:41-67 | the index of a key is exactly the set of workloads ever registered under it, by passes or first deployments |
| SecretRotation.VersionIsLast | internal/secretrotation/registry.go:70-80 | the remembered version is the last announced one |
| SecretRotation.PendingAfter | internal/secretrotation/engine.go:90-118 | one event sets the flag exactly on a change of an indexed secret, naming it, and clears it exactly on a successful restart or a fresh deployment |
| SecretRotation.PendingIsExact | internal/secretrotation/engine.go:90-118 | a stored workload is pending exactly when an indexed secret changed since it was last restarted, deployed or deleted |
| SecretRotation.SecondNoticeMarksExactly | internal/secretrotation/engine.go:43-137 | an indexed workload is pending after two notices exactly when rotation is on for it, both are about one secret it refers to, and they announce different versions |
| SecretRotation.RestartsAreCounted | internal/reconciler/reconciler.go:192-198 | a restart in a pass counts itself and keeps what it was for; one on request only clears the flag |
| SecretRotation.ReportsExactlyMarked | internal/secretrotation/engine.go:99-136 | exactly the reported workloads are marked |
| Reconciler.Engine.ReconcileOne | internal/reconciler/reconciler.go:133-274 | the pass on the shared cells, quota gate, standby manager, restarts and rollouts included, is the composition of its stages on the store, with the same calls to scheduler and drivers |
| Reconciler.Engine.RestartPending | internal/scheduler/restart.go:12-33 | a due restart calls the driver and, where that fails, deploys instead; only a completed one clears the flag |
| Reconciler.Engine.RollOut | internal/rollout/rollout.go:34-345 | which IDs a rollout hands to the scheduler before a call fails, when it completes, and the image that an A/B test leaves |
| Reconciler.PassKeepsSpecExactly | internal/reconciler/reconciler.go:169-271 | apart from node selectors, a pass keeps its workload's spec exactly when it neither provisions the workload as its own standby nor, with something to strip, fails it over to itself, nor picks another image in an A/B test |
| Reconciler.PassAtOther | internal/reconciler/reconciler.go:169-186 | what a pass leaves of another workload: all of it unless promoted or provisioned, and then all of its status but the phase |
| Reconciler.PassEffects | internal/reconciler/reconciler.go:169-271 | exactly which failovers, restarts, replaced restarts and rollouts a pass comes to |
| Reconciler.PassPhase | internal/reconciler/reconciler.go:224-271 | the phase a pass leaves: running after a rollout whose one, two or three calls were all accepted, else pending after a failover to itself, else unchanged |
| Reconciler.RolloutByFields | internal/rollout/rollout.go:34-345 | which IDs each strategy hands over, when it is finished, and when a winner is picked |
| Reconciler.FailsOverByFields | internal/reconciler/reconciler.go:157-178 | a pass fails over exactly when both collaborators exist, the workload has a standby and promotes it by itself, is down, and the standby is stored |
| Reconciler.PassActsByFields | internal/reconciler/reconciler.go:181-271 | restarts, replaced restarts, provisioning, rollouts and the restart generation of a pass by the fields it finds |
| Reconciler.CooldownPass | internal/reconciler/reconciler.go:157-271 | inside a cooldown a pass freezes the breaker status; it reaches the runtime of its workload exactly when it fails it over to itself or a restart is due, and deploys it exactly when it fails over or the restart falls back to a deployment |
| Reconciler.AnyPassInCooldown | internal/reconciler/reconciler.go:157-271 | no pass over any workload changes a breaker status inside its cooldown, and one reaches or deploys that workload exactly when it does so without asking the breaker: by failover, as a variant, or by a restart |
| Reconciler.TripDeadline | internal/reconciler/reconciler.go:157-254 | a pass that opens the breaker sets the deadline by the spec it started with |
| Reconciler.OwnStandbyDeploysInCooldown | internal/reconciler/reconciler.go:169-178 | the tripping pass of a workload that is its own standby promotes it, switches its own breaker off and rolls it out inside the cooldown |
| Reconciler.PassIsHistory | internal/reconciler/reconciler.go:157-271 | unless the workload is its own standby, a pass acts on the breaker as one or two observations and rolls out exactly what is pending where routing is allowed |
| Reconciler.ReplacedIsRolledOut | internal/server/server.go:150-172 | a workload deployed anew over an existing one is rolled out by the next pass, whatever cooldown it was in |
| Reconciler.PassKeepsOtherStandby | internal/reconciler/reconciler.go:169-186 | not being its own standby is kept by every pass |
| ReconcileRuns.RoundsAreHistory | internal/reconciler/reconciler.go:113-274 | over any run of passes over any workloads, with any changes in between, the breaker is where its observations since the last replacement put it |
| ReconcileRuns.BlackoutCoversPasses | internal/reconciler/reconciler.go:113-274 | between a pass that trips and the deadline no pass over any workload changes the breaker status, and one reaches or deploys the workload exactly when it does so without asking the breaker |
| ReconcileRuns.DeploysWithinBudget | internal/reconciler/reconciler.go:113-274 | during an outage the passes that deploy a workload are those that do so without asking its breaker and beside them at most the probe budget |
| ReconcileRuns.FailoverRepeats | internal/reconciler/reconciler.go:169-178 | a pass over a waiting primary deploys its standby inside the standby's own cooldown and leaves everything ready to do it again |
| ReconcileRuns.RedeploymentRepeats | internal/scheduler/restart.go:26-31 | a restart at which the driver fails twice deploys inside the cooldown and stays pending |
| ReconcileRuns.AnywayIsUnbounded | internal/reconciler/reconciler.go:169-204 | in a run of such passes every one deploys the waiting workload, whose breaker stays open |
| ReconcileRuns.RolloutIsNotRepeated | internal/reconciler/reconciler.go:224-271 | a running workload keeps running and is not rolled out again over any passes until one fails over to it |
| Reconciler.PromotionSurvivesExactly | internal/reconciler/reconciler.go:169-186 | a promotion survives its own pass exactly when the primary is not running or provisions under another ID; otherwise the standby is back at zero replicas |
| Reconciler.ReconciledExactlyWithinCaps | internal/reconciler/reconciler.go:150-155 | a stored workload of a limited namespace passes the quota gate exactly when the usage report is within its caps |
| Reconciler.OverCapStallsNamespace | internal/reconciler/reconciler.go:150-155 | over the caps no pass over any workload of the namespace changes or starts anything |
| Reconciler.CreateAtCapStalls | internal/state/store.go:67-87 | one create beyond the workload cap, which the store accepts, stalls the whole namespace |
| Reconciler.FirstStandbyStalls | internal/warmstandby/manager.go:72-78 | in a namespace at its workload cap the pass that provisions a first standby stalls the whole namespace |
| Reconciler.PassIsSecretStep | internal/reconciler/reconciler.go:188-204 | a pass restarts and clears the pending flag exactly as the rotation step does, unless it first fails the workload over to itself |

## Left out

- Dependency conditions and waiting (`CheckDependencies`, `WaitDependencies`): polling over wall-clock timers.
- HTTP handlers, configuration, `main`, the PostgreSQL and etcd clients, event bus and watcher channels: I/O.
- Health gates, drift, prediction, autoscaler, priority ranking, cron evaluation, multitenancy engine: health is one
  answer, cron one of three; replica splits of canaries and variants are left out.
- Quantity, cost and duration parsing: a request is an amount or malformed, a cap is absent, malformed or an amount.
- Strings.Lower: folds ASCII letters only; other Unicode case pairs are left alone.
- Quota.QuotaSafety: for stores with unique non-empty IDs, non-negative requests and totals that fit 32 bits, starting
  from any safe state, and one spelling per team-less namespace limit; `SecondSpellingEscapes` shows what happens otherwise.
  The guarded store is what a caller gets that asks the gate before writing; what the reconciler's own use of the gate
  gives is `Reconciler.ReconciledExactlyWithinCaps`.
- Quota.GateAgreesWithReport: for namespaces without surrounding white space, which the report trims, whose report sees
  everything that counts, and at most 2^31 - 1 workloads, where the 32-bit count is exact.
- Quota: nil workloads in lists, and the texts of refusals, are not modelled.
- EventLog: versions are unbounded integers, so the 64-bit counter never overflows; event payloads other than the written
  spec, such as the old spec of an update, are left out.
- StateStore.LogRefinesStore: for runs that delete no workload renamed through its pointer, which
  `MirrorsExactlyWithoutRenaming` shows to be necessary.
- RolloutHistory.VersionedStore.Revert: the workload found carries the ID it is stored under. The record of times is left
  out.
- RolloutHistory.RecordBeforeUpdate: the two workloads do not share a tags struct.
- RolloutHistory.HistoryKeepsNewest: callers start without a history and carry the stored history forward.
- WorkloadTags: custom tags are applied in one fixed order per tag list; Go picks a new order each time, which matters
  only when two custom keys trim to the same label.
- Scheduler.PlacementIsOptimal: prices are reals, without rounding, and non-negative; `ScanIsFirstCheapestExactly` covers
  negative ones.
- Scheduler.PlacementIsFixedPointExactly: prices are non-negative and do not change in between; node IDs are unique and
  hostname labels, where present, are the node's own ID.
- WarmStandby.NoStandbyOfStandby: primaries that get standbys are recognisable and no primary ID is used as a standby ID;
  `StandbyOfStandbyExactly`, `EnsureKeepsSpecExactly` and `EnsureOverwritesExactly` show what happens otherwise. The tags
  pointer that a standby shares with its primary is a copy; stored cells carry the ID they are stored under.
- SecretRotation.PendingIsExact: store writes succeed; restart generations of restarts on request are left out.
- Reconciler: the pass is the one on the plain memory store; store writes succeed, and attempts recorded without a later
  write are kept, since the pass works on the stored cells. With rollback history the store's updates also mirror tags into
  labels during the pass, and policy validation fills in tags; neither is part of the pass here. Custom controllers act
  before the pass, as changes of the store that the round finds; the standby manager uses the same breaker engine as the
  pass. Registration of secret references during the pass is part of `SecretRotation`.
- Reconciler.PassKeepsSpecExactly: the node selector that deploying a cost-aware workload writes into its spec, and through
  a shared pointer into the cloned spec of its standby, is not part of the spec here; `Scheduler` states what is written.
- ReconcileRuns.RoundsAreHistory: between passes anything may change, but the breaker status of the workload only when the
  workload is replaced; passes over the workload find its breaker enabled and another standby than itself.
- ReconcileRuns.DeploysWithinBudget: passes over the workload find always the same effective breaker spec, since the budget
  is part of it, and the workload is not replaced; a pass counts once, however often its rollout calls the scheduler.
