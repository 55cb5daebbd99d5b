# The hybrid-memory sidecar in Dafny

This project models, in Dafny, how the Python sidecar under `hybrid_memory/` keeps its memory and its
promises, and how the agent's TypeScript tool runtime fills its catalog:

* the version graph of memories: verdicts that merge and aggregate versions, the walk to a version's
  representative, the pins eviction must respect, decay, promotion, the pool limits, and the capacity
  plan that is made before an effect commits;
* the durable effect protocol: one task database with leases, tokens, attempt counters, checkpoints under a
  revision check and receipts, several service instances that can crash or lose acknowledgements, and the
  hand-over of recorded units from a second database;
* delayed credit for recalled memories, and metered reading budgets;
* the round-robin selection of tool signatures under a shared budget.

Every operation is written as a function on values. Where the source changes objects or tables step by step,
a class or a method with loops does the same and is proved to compute that function; what the source promises
is then proved about the functions, for all inputs and over all runs.

## Files

| file | content |
|---|---|
| `MemoryTypes.dfy` | memory versions, tensions, shadow hits, the engine state, the configuration |
| `VersionGraph.dfy`, `Verdicts.dfy`, `UnionFind.dfy` | chains, what a verdict does, and its equivalence with union-find |
| `Ordering.dfy`, `Capacity.dfy`, `CapacityPlan.dfy`, `Pins.dfy`, `Maintenance.dfy` | eviction order, the plan, pins, and one maintenance step |
| `EngineSteps.dfy`, `ChainRuns.dfy`, `Potential.dfy`, `Causal.dfy` | whole engine runs: chains, provenance, total value, causal confinement |
| `IngestOutcomes.dfy`, `VerdictOutcomes.dfy`, `CreditOutcomes.dfy`, `RetrievalOutcomes.dfy`, `MaintenanceOutcomes.dfy` | what observing, judging, crediting, searching and maintaining leave, said of their results |
| `EngineHeap.dfy`, `MaintenanceRun.dfy`, `EngineOps.dfy` | the engine as mutable objects |
| `TaskTable.dfy`, `TaskInvariant.dfy`, `TaskStore.dfy`, `WorkerRuns.dfy`, `AttemptLimits.dfy` | the task database, its invariant, its imperative form, a worker's rounds, and the attempt limits |
| `TaskOutcomes.dfy`, `TaskRuns.dfy`, `UnitOutcomes.dfy`, `EffectOutcomes.dfy` | what calls on tasks, units and instances answer and leave, when they go through, and what stays true of a task over any interleaving |
| `Sidecar.dfy`, `SerialHistory.dfy`, `EffectsOnce.dfy`, `UnitHandover.dfy` | instances over the two databases |
| `FrozenInstances.dfy`, `Restarts.dfy`, `EngineBodies.dfy` | instances whose fault flag is set, starts, and engine operations as effects |
| `EffectRollback.dfy` | restoring the heap after a failed effect |
| `Credit.dfy`, `FeedbackService.dfy`, `CreditBodies.dfy`, `CreditRuns.dfy`, `FeedbackOutcomes.dfy` | credit: the desk, its imperative form, credit over runs of instances, and what each step of the desk leaves |
| `ServiceRuns.dfy` | runs from a fresh installation whose effects are all the service's own |
| `Budgets.dfy`, `BudgetService.dfy` | budgets |
| `Catalog.dfy` | the tool catalog |

## Abstractions

* A database transaction is one step that commits, aborts, or commits while its acknowledgement is lost.
  A clock is an integer passed to each call; a call that reads the clock again at its end takes a second time.
* Lease tokens are numbers drawn from a counter, which stands for their freshness. Digests of requests are
  taken to be injective. Payloads, results and responses are strings, encoded by the identity.
* A task's id is its position in the table.
* A service's memory is its engine and its registry of recalls. A checkpoint keeps all of it but the pins the
  service named last, which start empty again. The count of broken chains also moves when a judgement is
  prepared outside of effects. So a current instance equals the durable state but for these two, and effects
  are required to turn on neither; for the engine's operations that is proved (`EngineBodiesAreRegular`).
* Similarities, model results, effect bodies, verdicts, relevance and what a retrieval looks at are arbitrary.
* Values are real numbers; `e^(-x)` is an arbitrary function of the configuration, and where decay is
  bounded its value at `lam` lies between 0 and 1.

## Where the code differs from what it or its documentation says

* A capacity plan refuses some states that evictions could close: it archives no more candidates than their
  pool overflows, so current candidates that fit their pool still count against the context
  (`RefusalExactly`, `ClosableButRefused`), although the refusal names pins or a full pool as the reason.
* The model-attempt limit needs one worker for each group of kinds (`ClaimsAreBounded`). With two,
  `TwoWorkersPassTheLimit` gives a run that passes it, and `LimitsHoldExactly` says of all runs which claims do.
* With immediate instead of delayed credit, memories beyond the token budget are credited too
  (`PrefixCreditExactly`).
* A step with two pools demotes and promotes one version only when the promotion threshold is below the demotion
  threshold and the main pool may hold a version; the former need not be larger than the latter
  (`HysteresisExactly`).

## Model

| member | source | states |
|---|---|---|
| `VersionGraph.FollowExact` | hybrid_memory/core/maintenance.py:135-153 | the walk reports a broken chain exactly when some pointer on it is missing or cyclic; otherwise it ends at the one root the chain leads to |
| `VersionGraph.AcyclicNoCycle` | hybrid_memory/core/maintenance.py:135-153 | a rank that grows along pointers excludes every cycle of any length |
| `VersionGraph.LinkedRep` | hybrid_memory/core/maintenance.py:159-234 | hanging roots under another root keeps whole chains whole and moves exactly the representatives that were re-pointed |
| `UnionFind.LineageRefinesUnionFind` | hybrid_memory/core/engine.py:184-210 | after any sequence of verdicts and tensions no chain is broken or cyclic, two versions share a representative exactly when the start and the merged pairs relate them, and each merge costs exactly one root |
| `UnionFind.BatchIsRun` | hybrid_memory/core/engine.py:184-210 | a batch submitted in one call is such a sequence |
| `VerdictOutcomes.UpdateOutcome` | hybrid_memory/core/maintenance.py:174-185 | an update keeps the later born of the two versions, or the later stored one, with its content and worth; the other is archived at that time and refers to it, and both ends lead to the kept one |
| `VerdictOutcomes.SynonymOutcome` | hybrid_memory/core/maintenance.py:159-173 | a synonym keeps the more valuable version, which takes over worth, hits and evidence; sources that both sides have count once |
| `VerdictOutcomes.ContradictionOutcome` | hybrid_memory/core/maintenance.py:186-208 | a contradiction puts both versions behind a new one that is worth as much as the better of them; without different scopes both lose half of their worth and a review is pending |
| `VerdictOutcomes.NoResolution` | hybrid_memory/core/engine.py:184-210 | a collision, or any verdict on ends that already meet, only closes the pair; a pending verdict leaves it open |
| `VerdictOutcomes.LatestWins` | hybrid_memory/core/maintenance.py:174-185 | over any run of updates, collisions and pending verdicts, the representative of every version is the latest of all versions that were tied to it |
| `VerdictOutcomes.ResolvedExactly` | hybrid_memory/core/engine.py:184-210 | a verdict counts as resolved exactly when its pair is open, its ends exist and lead to different versions, and it is not pending |
| `VerdictOutcomes.ResolvedCostRoots` | hybrid_memory/core/engine.py:184-210 | the number that a batch returns is the number of root versions it cost, collisions aside |
| `VerdictOutcomes.WalkOutcome` | hybrid_memory/core/maintenance.py:135-153 | a walk counts one broken chain exactly when some pointer on it is missing or cyclic |
| `ChainRuns.RunsNeverBreakChains` | hybrid_memory/core/dynamics.py:17-47 | over every run of observing, searching, judging, maintaining and closing the pools, the ends of open tensions and unsettled shadow hits keep whole chains, and the counter of broken chains never moves |
| `ChainRuns.TensionEndReachesRoot` | hybrid_memory/core/maintenance.py:113-153 | in such a state the walk from either end of an open tension reaches a root, and no pointer cycle exists |
| `ChainRuns.ProvenanceReachesRepresentative` | hybrid_memory/core/ingest.py:28-74 | after any run, the sources of a version with an intact chain are contained in its representative's sources |
| `ChainRuns.SubmitOneSafe` | hybrid_memory/core/maintenance.py:156-234 | one verdict, of whatever kind, keeps chains, acyclicity and the growth of sources |
| `ChainRuns.IngestOneSafe` | hybrid_memory/core/ingest.py:28-74 | a confirmed or new memory, with the tension it may open, keeps them too |
| `ChainRuns.LookSafe` | hybrid_memory/core/retrieval.py:104-127 | so do a suppression with its shadow entry and tension, and a selection with its credit |
| `IngestOutcomes.EventsAreHeld` | hybrid_memory/core/ingest.py:15-74 | after a batch every event is held with its belief, value and sources, and no old memory changed in content, worth or place |
| `IngestOutcomes.ConflictsAreOpened` | hybrid_memory/core/ingest.py:28-74 | an event that is too similar to a memory of its moment but says something else ends as a memory in tension with it |
| `IngestOutcomes.EventOutcome` | hybrid_memory/core/ingest.py:28-74 | an event adds no memory exactly when it repeats its nearest neighbour above the threshold; then each of its sources that is new counts once; otherwise it becomes a memory with the initial worth |
| `Pins.PinClosureLeast` | hybrid_memory/core/dynamics.py:36-47 | the pins are the least set that holds the roots and is closed under present references |
| `MaintenanceOutcomes.PinsAreLeast` | hybrid_memory/core/dynamics.py:17-47 | the pins spare the ends of tensions and waiting hits, versions under review with their members, what the service named, and all that these refer to, and nothing else |
| `Pins.TrimKeepsClosure` | hybrid_memory/core/dynamics.py:17-47 | deleting unpinned memories leaves the pins as they are |
| `Pins.TrimKeepsWhole` | hybrid_memory/core/dynamics.py:17-47 | and keeps the chain of every pinned root whole, with the same representative |
| `Capacity.CandidatesBounded` | hybrid_memory/core/dynamics.py:50-77 | archiving what `evictable` names leaves the candidate pool within its limit or full of pins, and names no pinned id |
| `Capacity.ArchiveBounded` | hybrid_memory/core/dynamics.py:64-69 | the same for deletions from the archive |
| `Capacity.WeakestLeave` | hybrid_memory/core/dynamics.py:60-64 | every candidate that goes is worth less, or idle for longer, than every unpinned one that stays |
| `Capacity.OldestLeave` | hybrid_memory/core/dynamics.py:65-69 | every archived version that is deleted was archived before every unpinned one that stays |
| `CapacityPlan.PlanAcceptedExactly` | hybrid_memory/core/dynamics.py:80-144 | a plan is accepted if and only if the pinned candidates, the pinned archive, and the current versions out of its reach respect the three limits, all counted before the plan: a candidate is out of reach when at least as many unpinned ones are weaker as the pool overflows |
| `CapacityPlan.AcceptedPlanMeetsLimits` | hybrid_memory/dispatch/effects.py:141-163 | carrying out an accepted plan meets all three limits and neither deletes nor changes a pinned version |
| `CapacityPlan.SurvivorsAreNewer` | hybrid_memory/core/dynamics.py:105-128 | every unpinned current archived version a plan keeps was archived after every version it deletes |
| `CapacityPlan.ClosableExactly` | hybrid_memory/core/dynamics.py:80-144 | some eviction of unpinned versions meets the limits exactly when the pinned ones alone do |
| `CapacityPlan.RefusalExactly` | hybrid_memory/core/dynamics.py:129-133 | a plan is accepted exactly when the state is closable and the current candidates with enough weaker ones below them to stay in place still fit the context |
| `CapacityPlan.ClosableButRefused` | hybrid_memory/core/dynamics.py:98-133 | whatever the limits, pinned archived versions and free candidates that fit their own pools, but not the context together, are closable and refused |
| `CapacityPlan.DefaultLimitsRefuse` | hybrid_memory/config.py:38-42 | under the default limits 400 pinned archived versions and 150 candidates are such a state |
| `Maintenance.PinsAreStable` | hybrid_memory/core/maintenance.py:84-104 | the pins computed three times within a step are all the pins at its start |
| `Maintenance.MaintenanceBounds` | hybrid_memory/core/maintenance.py:44-110 | with capacity on, a step ends with the main pool within its limit and each other pool within its limit or full of pins |
| `Maintenance.PinnedSurviveStep` | hybrid_memory/core/maintenance.py:84-107 | a step deletes no pinned version and moves no pinned candidate to the archive |
| `Maintenance.WeakestLeaveMain` | hybrid_memory/core/maintenance.py:75-83 | whoever leaves the main pool is weaker than whoever stays |
| `Maintenance.BestArePromoted` | hybrid_memory/core/maintenance.py:60-73 | a main pool with too little room takes the most valuable of those that qualify |
| `Maintenance.HysteresisExactly` | hybrid_memory/core/maintenance.py:55-73 | one step both demotes and promotes no version, for any graph, exactly when there is one pool only, or a main pool without room, or the promotion threshold is not below the demotion threshold |
| `MaintenanceOutcomes.NoIdleCandidateStays` | hybrid_memory/core/maintenance.py:93-100 | after a step no unpinned candidate is left that went unused for longer than its salience allows |
| `MaintenanceOutcomes.OnlyIdleAreArchived` | hybrid_memory/core/maintenance.py:75-100 | whoever a step archives carries its time; with the limits off it was unpinned and unused for too long |
| `MaintenanceOutcomes.ArchiveStays` | hybrid_memory/core/maintenance.py:44-107 | a step takes nobody out of the archive and keeps its stamps |
| `MaintenanceOutcomes.WorthAfterStep` | hybrid_memory/core/maintenance.py:44-53 | a version's worth after a step is its decayed worth and what its hits earned, whatever pools it went through |
| `MaintenanceOutcomes.MainAfterStep` | hybrid_memory/core/maintenance.py:55-73 | with two pools and no limits, exactly who keeps the demotion threshold or passes the promotion threshold is in the main pool after a step |
| `MaintenanceOutcomes.RetentionGrows` | hybrid_memory/core/maintenance.py:23-29 | salience never shortens retention, does nothing below its floor, and adds the whole weight at its full |
| `MaintenanceOutcomes.TensionsAfterStep` | hybrid_memory/core/maintenance.py:113-132 | in a safe state a step closes a tension exactly when its ends lead to one version, hands out exactly the others that are old enough, and loses none by eviction |
| `MaintenanceOutcomes.ClosingOutcome` | hybrid_memory/dispatch/effects.py:141-163 | closing the pools archives unpinned candidates at that time, loses unpinned archived versions, and changes nothing else |
| `Potential.VerdictsNeverRaiseTotal` | hybrid_memory/core/engine.py:184-210 | the total value of root versions never grows through verdicts when chains are whole (a broken one can raise it: `BrokenChainsRaiseTotal`), values are non-negative and the merge factor is at most 1 |
| `Potential.QuietRunsDecay` | hybrid_memory/core/maintenance.py:44-53 | without new memories or hits, n steps with any verdicts and evictions between them leave at most d^n of the total value |
| `Causal.CausalMemoryIds` | hybrid_memory/service/recall.py:106-125 | the loop ends with the greatest set of memories older than the bound that is closed under successor pointers |
| `Causal.VerdictsAreConfined` | hybrid_memory/service/operate.py:189-207 | a verdict on two memories of a closed set works on representatives inside it, writes no memory outside it, and adds at most one aggregate |
| `Causal.InvestigationsAreConfined` | hybrid_memory/service/operate.py:170-207 | a bounded verdict leaves every memory that is born, confirmed or sourced at or after the bound untouched |
| `EngineHeap.MemoryEngine.FollowChain` | hybrid_memory/core/maintenance.py:135-153 | the loop with its growing set of seen ids returns the representative and counts a broken chain |
| `EngineHeap.MemoryEngine.CreditHit` | hybrid_memory/core/engine.py:101-119 | one hit on the current representative, which it revives; a retired one gets nothing, and the result says which |
| `EngineHeap.MemoryEngine.SettleShadow` | hybrid_memory/core/engine.py:156-182 | the entries of the pair are settled in order and dropped, the others kept in order |
| `EngineHeap.MemoryEngine.AddTension` | hybrid_memory/core/engine.py:59-71 | a tension is opened once for a pair and counted afterwards |
| `EngineHeap.MemoryEngine.MakeAggregate` | hybrid_memory/core/maintenance.py:211-234 | a new object holds the aggregate, and both members point at it |
| `EngineHeap.MemoryEngine.ApplyResolution` | hybrid_memory/core/maintenance.py:156-208 | the objects change exactly as the resolution of the abstract state says |
| `EngineHeap.MemoryEngine.SubmitVerdicts` | hybrid_memory/core/engine.py:184-210 | a batch leaves the state of the run of its verdicts and returns how many were resolved |
| `MaintenanceRun.PinnedIds` | hybrid_memory/core/dynamics.py:17-47 | the worklist computes the closure of the roots |
| `MaintenanceRun.CloseOver` | hybrid_memory/core/dynamics.py:36-47 | for any roots, whatever order ids leave the list in |
| `MaintenanceRun.DecayMemories` | hybrid_memory/core/maintenance.py:44-53 | every memory decays once |
| `MaintenanceRun.PromoteRanked` | hybrid_memory/core/maintenance.py:60-73 | the loop with its running count promotes exactly the first candidates that the main pool has room for |
| `MaintenanceRun.WeakestFirst` | hybrid_memory/core/maintenance.py:75-83 | taking the minimum again and again evicts exactly the overflow of the sorted pool |
| `MaintenanceRun.ArchiveIdle` | hybrid_memory/core/maintenance.py:93-100 | exactly the unpinned idle candidates are archived |
| `MaintenanceRun.TrimArchive` | hybrid_memory/core/maintenance.py:102-107 | exactly the oldest unpinned overflow of the archive is deleted |
| `MaintenanceRun.EmitPendingConflicts` | hybrid_memory/core/maintenance.py:113-132 | dead and settled tensions are dropped, broken walks counted, and exactly the aged pairs handed out |
| `MaintenanceRun.RunMaintenance` | hybrid_memory/core/maintenance.py:44-132 | the whole step over the objects is the step of the abstract state |
| `EngineOps.MostSimilar` | hybrid_memory/core/ingest.py:29 | no other memory is more similar, and none before it is as similar |
| `EngineOps.RunIngest` | hybrid_memory/core/ingest.py:15-74 | a batch of events confirms, adds and opens tensions as the abstract state says, each event seeing the ones before it |
| `EngineOps.TrySelect` | hybrid_memory/core/retrieval.py:104-127 | a memory is taken exactly when suppression is off or no selected one is too similar; otherwise the first of the most similar ones suppresses it, with its shadow entry and tension |
| `EngineOps.RunRetrieve` | hybrid_memory/core/retrieval.py:129-172 | what is selected and what is suppressed by whom is exactly what the shortlist in its order decides; the state changes by the suppressions and then, unless credit is deferred, by the credited selections in their order |
| `EngineOps.GoodOnesAreTaken` | hybrid_memory/core/retrieval.py:129-158 | while there is room every shortlisted memory that is good enough is selected, or suppressed by the most similar one selected before it; and only such memories are suppressed |
| `RetrievalOutcomes.RetrievalCredits` | hybrid_memory/core/retrieval.py:160-172 | a retrieval that credits at once gives one useful hit to each memory that it selects and that earns it, and changes no memory otherwise; one that defers changes none |
| `RetrievalOutcomes.ConflictsExactly` | hybrid_memory/core/retrieval.py:110-126 | with tensions off, the suppressions that wait for a verdict, and no others, put their pairs up for judgement |
| `EngineOps.EnforceCapacity` | hybrid_memory/dispatch/effects.py:141-163 | the pools are closed by the plan, or the effect is refused |
| `CreditOutcomes.HitOutcome` | hybrid_memory/core/engine.py:101-119 | a hit goes to the current version that the id leads to: one useful hit more, used now, out of the archive; a retired version gets nothing |
| `CreditOutcomes.CreditCounts` | hybrid_memory/core/engine.py:121-145 | a settlement gives each current version exactly one hit for every used id that leads to it, and reports how many earned one |
| `CreditOutcomes.CreditIsWorth` | hybrid_memory/core/maintenance.py:44-53 | at the next step, whatever else it does, a version is worth more by exactly the learning rate for each of these hits |
| `CreditOutcomes.SettlementOfShadows` | hybrid_memory/core/engine.py:156-182 | the first verdict on a pair gives each current version a shadow hit for every relevant suppressed hit that leads to it, none for a synonym, and leaves the hits of other pairs waiting |
| `CreditOutcomes.SuppressionOutcome` | hybrid_memory/core/engine.py:147-154 | a suppression queues a hit of the suppressed version, drops the oldest entry of a full queue, and opens or counts the tension |
| `TaskInvariant.TableInvariant` | hybrid_memory/store/tasks.py:110-525 | over any interleaving of calls a token is held exactly while running or applying, results are present in ready and applying and absent in pending and running, one unclaimed row exists per kind and key, active rows stay within capacity even when a completion enqueues successors, no row is lost, and done, dead and skipped rows never change |
| `TaskInvariant.ClaimsSeeWhatWasListed` | hybrid_memory/store/tasks.py:278-279 | a claim that names the listed version gets the listed payload and time, or nothing |
| `TaskInvariant.DailyLimitHolds` | hybrid_memory/store/tasks.py:280-286 | the runs of a day never pass the limit its claimers keep to |
| `TaskInvariant.LastDoneIsLatest` | hybrid_memory/store/tasks.py:133-138 | a new task remembers the one that was done last under its key |
| `TaskOutcomes.RecoveryOutcome` | hybrid_memory/store/tasks.py:193-246 | a recovery leaves no task of its kinds under a lease that ended, leaves live leases alone, and returns the others to where they were claimed from, or ends them when their attempts are spent |
| `TaskOutcomes.RecoveryIsDone` | hybrid_memory/store/tasks.py:193-246 | recovering again at the same time changes nothing |
| `TaskOutcomes.OnlyHoldersAct` | hybrid_memory/store/tasks.py:302-307 | storing a result, failing and ending go through exactly under the task's token and a lease that has not ended |
| `TaskOutcomes.OnlyHoldersCommit` | hybrid_memory/store/tasks.py:479-525 | completing and operating go through only under such a lease at both checks and at the current checkpoint |
| `TaskOutcomes.RetryOutcome` | hybrid_memory/store/tasks.py:362-386 | a failure ends a task whose attempts are spent; otherwise it goes back to where it was claimed from, or to the beginning without its result, and rests for a time that doubles with each failure |
| `TaskOutcomes.ClaimOutcome` | hybrid_memory/store/tasks.py:261-300 | a claim draws a token exactly when the task waits, its rest is over, it is what was listed, the day has room, a lease is known and the claimer is current |
| `TaskOutcomes.GrantOutcome` | hybrid_memory/store/tasks.py:261-300 | a granted claim counts one attempt of its sort, sets the lease, and keeps the first causal bound and origin ever named |
| `TaskOutcomes.StoreOutcome` | hybrid_memory/store/tasks.py:345-360 | exactly the text that was handed in is stored |
| `TaskOutcomes.CompleteOutcome` | hybrid_memory/store/tasks.py:479-506 | a completion applies the stored text and leaves what that made of it |
| `TaskOutcomes.EnqueueOutcome` | hybrid_memory/store/tasks.py:110-141 | a job goes into the open task of its kind and key, or becomes a new task if there is none and the queue has room |
| `TaskOutcomes.JobsCombine` | hybrid_memory/store/tasks.py:110-141 | jobs for one key pile up in one task that combines their payloads in the order in which they came, dated by the latest |
| `TaskOutcomes.SkipOutcome` | hybrid_memory/store/tasks.py:248-259 | a task is skipped exactly when its predecessor ended less than the given time ago |
| `TaskOutcomes.CaptureOutcome` | hybrid_memory/store/tasks.py:461-477 | a bound request id answers its own body again without an effect and refuses every other |
| `TaskOutcomes.EffectOutcome` | hybrid_memory/store/tasks.py:451-459 | an effect goes through exactly at the current checkpoint, when its body does not raise and its jobs find room, and leaves what the body made |
| `TaskOutcomes.JobsFit` | hybrid_memory/store/tasks.py:110-141 | a queue with room for all jobs of an effect takes them all |
| `TaskOutcomes.UnitOutcome` | hybrid_memory/store/tasks.py:400-417 | a unit takes effect as any effect the first time, with a receipt, and is answered from it afterwards |
| `TaskOutcomes.CapturedOutcome` | hybrid_memory/store/tasks.py:461-477 | so does a captured request; its receipt also holds the body it answered |
| `TaskOutcomes.CompleteExactly` | hybrid_memory/store/tasks.py:479-506 | exactly when a completion goes through |
| `TaskOutcomes.OperationOutcome` | hybrid_memory/store/tasks.py:508-525 | an operation is answered from its receipt, or performed and filed exactly when its body does not raise and the lease still holds at its end |
| `TaskRuns.RestsAreKept` | hybrid_memory/store/tasks.py:261-300 | whatever calls are made before a resting task is due, none of them gets hold of it |
| `TaskRuns.FailureRests` | hybrid_memory/store/tasks.py:362-386 | so no attempt follows a failure before its rest is over |
| `TaskRuns.ResultsWereStored` | hybrid_memory/store/tasks.py:345-360 | over any interleaving a task only ever holds a result that some call stored for it |
| `TaskRuns.AppliedWasStored` | hybrid_memory/store/tasks.py:479-506 | so a completion applies a text that was stored for its task |
| `TaskRuns.OneBodyPerRequest` | hybrid_memory/store/tasks.py:461-477 | whatever happens in between, a later call under a captured request id has the same body and gets the first answer without an effect |
| `TaskStore.TaskStore.Enqueue` | hybrid_memory/store/tasks.py:110-139 | merging, the capacity check and insertion with their loops, or a rolled-back refusal |
| `TaskStore.TaskStore.SaveCheckpoint` | hybrid_memory/store/tasks.py:171-186 | a checkpoint is written only over the revision the writer expects |
| `TaskStore.TaskStore.Claim` | hybrid_memory/store/tasks.py:261-300 | one claim with its daily count, checkpoint, token and counters, or nothing |
| `TaskStore.TaskStore.StoreResult` | hybrid_memory/store/tasks.py:345-360 | the owner's result makes the task ready, with a checkpoint when asked for |
| `TaskStore.TaskStore.Retry` | hybrid_memory/store/tasks.py:362-386 | the owner's failure sends the task back or kills it at its limit, after a back-off |
| `TaskStore.TaskStore.RecoverExpired` | hybrid_memory/store/tasks.py:193-246 | the two passes over expired and exhausted rows change every row as recovering it alone would |
| `TaskStore.TaskStore.SkipRecent` | hybrid_memory/store/tasks.py:248-259 | an unclaimed task is skipped exactly when its predecessor was done recently |
| `TaskStore.TaskStore.Finish` | hybrid_memory/store/tasks.py:388-392 | only the owner of an applying task can end it |
| `TaskStore.TaskStore.Complete` | hybrid_memory/store/tasks.py:479-506 | effect, successors, checkpoint, receipt and the end of the task commit together, or all are rolled back |
| `TaskStore.TaskStore.ApplyUnit` | hybrid_memory/store/tasks.py:400-417 | a unit's effect, jobs, checkpoint and receipt commit together, or the stored answer is returned |
| `TaskStore.TaskStore.ApplyEffect` | hybrid_memory/store/tasks.py:451-459 | an effect and its jobs commit with the next checkpoint or not at all |
| `TaskStore.TaskStore.ApplyCaptured` | hybrid_memory/store/tasks.py:461-477 | a captured request takes effect once, and another body under its id is refused |
| `TaskStore.TaskStore.ApplyOperation` | hybrid_memory/store/tasks.py:508-525 | an operation is fenced twice by its lease and answered from its receipt when repeated; its bodies file no tasks |
| `WorkerRuns.ClaimsAreBounded` | hybrid_memory/dispatch/worker.py:253-310 | with one worker for a group, over any mix of failures, model retries, expired leases and crashes, no counter passes its limit and a task is claimed at most as often as both limits allow |
| `WorkerRuns.PassRow` | hybrid_memory/store/tasks.py:205-246 | after the recovery of a round every pending task has a model attempt left |
| `AttemptLimits.ClaimPassesExactly` | hybrid_memory/store/tasks.py:261-300 | a claim that goes through takes a counter past its limit exactly when it finds the task pending without a model attempt left or ready without an application left |
| `AttemptLimits.LimitsHoldExactly` | hybrid_memory/dispatch/worker.py:253-310 | over any interleaving of any number of workers, no counter ends past its limit exactly when no claim went through for such a task |
| `SerialHistory.RunsAreSerial` | hybrid_memory/store/tasks.py:172-181 | over any interleaving of instances, aborts, lost acknowledgements, crashes and restarts the durable state is the replay of the committed effects, an instance at the current revision has that state (both but for the named pins and the count of broken chains), and receipts and committed effects correspond |
| `SerialHistory.RestartSerial` | hybrid_memory/service/lifecycle.py:15-63 | a restarted instance has exactly the durable state: raising its id counter to the stored bound never changes it |
| `EffectsOnce.EffectsHappenOnce` | hybrid_memory/store/tasks.py:400-525 | over any run each task is completed, each unit applied and each request of a task performed exactly as often as a receipt exists, and each captured request at most once |
| `EffectsOnce.CommitsAreFenced` | hybrid_memory/store/tasks.py:302-307 | an effect is committed only by an instance that is not frozen, is current and has the durable state, and for tasks only under the current token, unexpired at both checks |
| `EffectsOnce.OnlyCurrentInstancesCommit` | hybrid_memory/store/tasks.py:171-186 | whatever moves the revision, identity commits included, comes from an instance that is neither frozen nor behind and has the durable state; identity commits leave state and history alone |
| `FrozenInstances.FrozenIsInert` | hybrid_memory/store/state.py:107-112 | whatever a frozen instance tries, save, claim and result with their checkpoints included, leaves the task database, the history and every other instance alone |
| `FrozenInstances.ThawsExactly` | hybrid_memory/legacy/loop.py:167-184 | a frozen instance loses its flag exactly when it is started again, or when its claim or its storing of a result is refused and it finds the database readable and still at its revision |
| `FrozenInstances.StaleInstanceIsInvisible` | hybrid_memory/service/lifecycle.py:66-86 | over any run without a new start of it, a frozen instance that is behind stays frozen, and both databases, the history and all others end as if it had not tried to write |
| `EffectsOnce.AnswersAreStored` | hybrid_memory/store/tasks.py:461-525 | the answer to a fresh or repeated call is the one filed with the one effect under its tag, and a repetition changes nothing |
| `EffectsOnce.ErrorsRollBackOrFreeze` | hybrid_memory/service/service.py:109-122 | after an error the memory and revision are as before, and the instance is frozen exactly when the database is unreadable or has moved on, so a lost acknowledgement always freezes it |
| `EffectOutcomes.EffectEnds` | hybrid_memory/service/service.py:134-189 | an effect enters the history exactly when its instance may begin it, its transaction goes through and is not answered from a receipt, and the commit arrives; what database and instance are then |
| `EffectOutcomes.EffectTakesPlace` | hybrid_memory/service/service.py:134-189 | the effect of a healthy, current instance that does not raise, and whose jobs find room, takes place |
| `EffectOutcomes.SaveEnds` | hybrid_memory/store/state.py:107-112 | saving writes the memory of a healthy instance exactly when it is current and something was ever written, and how the instance ends |
| `EffectOutcomes.ClaimSavingEnds` | hybrid_memory/legacy/loop.py:167-184 | a claim that saves the claimer's memory goes through exactly as the claim with that memory does, for an instance that is not frozen |
| `EffectOutcomes.TellOutcome` | hybrid_memory/store/tasks.py:110-141 | outside of effects a healthy instance can ask for investigations, while the queue has room, and for nothing else |
| `EffectOutcomes.UnitGoesThrough` | hybrid_memory/service/observe.py:86-208 | the oldest pending unit that is not at rest can always be scanned, applied with a receipt and acknowledged |
| `Restarts.StartsAlwaysSucceed` | hybrid_memory/service/lifecycle.py:15-63 | over any run no start is refused, and the started process is healthy, at the durable revision, with exactly the durable state and no named pins |
| `Restarts.RefusedExactly` | hybrid_memory/store/tasks.py:157-169 | a start is refused exactly when a task was claimed before any checkpoint was written; receipts alone never cause it |
| `EngineBodies.EngineBodiesAreRegular` | hybrid_memory/service/observe.py:184-186 | engine operations that name the pins before they maintain count ids up, and nothing they do, answer or file turns on pins named earlier or on the count of broken chains |
| `EngineBodies.EngineBodiesKeepSafe` | hybrid_memory/service/observe.py:146-193 | every sequence of engine operations takes a safe memory to a safe one |
| `EngineBodies.DurableMemoryIsSafe` | hybrid_memory/dispatch/effects.py:68-114 | as long as the bodies of effects take safe memories to safe ones, no run of instances, crashes and retries breaks a chain of the durable memory |
| `CreditBodies.FeedbackKeepsSafe` | hybrid_memory/dispatch/effects.py:283-309 | accepting feedback and settling it take a safe memory to a safe one |
| `CreditBodies.RecallsKeepSafe` | hybrid_memory/service/recall.py:162-193 | so does a search that registers what it sends |
| `ServiceRuns.ServiceRunsAreSafe` | hybrid_memory/dispatch/effects.py:68-114 | from an empty installation, over every run whose effects are engine operations that name the pins before they maintain, recalls, feedback and settlements: the durable memory is the replay of the committed effects with every chain whole, units are applied in order, and the next start goes through |
| `ServiceRuns.ServesWell` | hybrid_memory/service/service.py:134-189 | each of these effects counts ids up, turns on nothing that a checkpoint does not save, and keeps memories safe |
| `UnitHandover.FreshSystem` | hybrid_memory/service/lifecycle.py:15-63 | a fresh installation satisfies every invariant that the runs keep |
| `UnitHandover.RunsHandOverInOrder` | hybrid_memory/service/observe.py:86-105 | over any run the units with a receipt are a prefix of the recorded ones in id order, and a unit is done only with a receipt |
| `UnitHandover.UnitsApplyOnceInOrder` | hybrid_memory/service/observe.py:108-208 | the history applies every received unit exactly once and only after all units recorded before it |
| `UnitHandover.RequestsRecordOnce` | hybrid_memory/store/evidence.py:165-237 | no two units answer one request id, and sending a bound request again records nothing |
| `UnitHandover.PendingInOrder` | hybrid_memory/store/evidence.py:286-291 | however many pending units a scan lists, what it leaves out before them is done |
| `UnitOutcomes.AppendOutcome` | hybrid_memory/store/evidence.py:165-237 | a recorded unit comes last, with an id and a time beyond all others; a bound request records nothing |
| `UnitOutcomes.RunsStayInTime` | hybrid_memory/store/evidence.py:165-237 | over any run the times of units grow along the log |
| `UnitOutcomes.FailedUnitRests` | hybrid_memory/service/observe.py:108-208 | a unit that failed is not applied before its rest is over, and the scan ends there |
| `UnitOutcomes.PostponeOutcome` | hybrid_memory/store/evidence.py:326-336 | a failure of a pending unit counts and puts it to rest for a time that doubles, and touches no other unit |
| `UnitOutcomes.SaveOutcome` | hybrid_memory/store/evidence.py:318-324 | the first result of a pending unit is kept and ends its rest; no later one changes anything |
| `EffectRollback.Service.EffectTransaction` | hybrid_memory/service/service.py:134-189 | whatever the body of an effect writes before it fails, every memory, signal and retrieval object has its old contents and every container its old objects; and the durable revision is unchanged or the fault flag set |
| `EffectRollback.Service.RollBack` | hybrid_memory/service/service.py:170-187 | restoring a backup object by object yields exactly the backed-up state in the same objects, and the flag is set exactly when the database is unreadable or has moved on |
| `Credit.RecallResult` | hybrid_memory/service/recall.py:196-219 | what is sent is the longest prefix of lines within the budget, and the memories on it |
| `Credit.EvictRetrievals` | hybrid_memory/service/recall.py:179-186 | the oldest evictable retrievals go, no more than needed, and none with accepted unsettled feedback |
| `Credit.CreditOnce` | hybrid_memory/service/feedback.py:13-72 | over any run of committed recalls, repeated feedback, settlements and evictions a recall is settled at most once, only memories it sent are credited, and one with accepted unsettled feedback stays registered |
| `FeedbackOutcomes.RecallOutcome` | hybrid_memory/service/recall.py:162-193 | a recall gets the next id with its credit open, and pushes out only older recalls that may go, none while there is room |
| `FeedbackOutcomes.AnswerOutcome` | hybrid_memory/service/feedback.py:13-72 | each answer to feedback, exactly when it is given |
| `FeedbackOutcomes.FeedbackIsGivenOnce` | hybrid_memory/service/feedback.py:13-72 | accepted feedback that is repeated changes nothing: it is reported as repeated under its request id, as already given without one, and another body under that id is refused |
| `FeedbackOutcomes.SettleOutcome` | hybrid_memory/dispatch/effects.py:283-309 | a settlement credits each current version once for every used id that leads to it, unless the recall was credited before, and closes the recall with the number of ids that earned a hit |
| `FeedbackOutcomes.MissOutcome` | hybrid_memory/dispatch/effects.py:283-309 | a settlement reports a miss exactly when nothing shown proved useful, for an open recall that is registered with what it showed |
| `CreditRuns.CreditOnceOverRuns` | hybrid_memory/service/feedback.py:50-72 | the same over every run of instances with aborts, lost acknowledgements, crashes and restarts: the history settles each recall at most once, by the settlement of what that recall was recorded to have sent, and an open request's recall stays registered with its credit open |
| `CreditRuns.SettlementCreditsSent` | hybrid_memory/dispatch/effects.py:283-309 | such a settlement credits only what the recall sent, and changes current versions only |
| `CreditBodies.RecallIsDeskStep` | hybrid_memory/service/recall.py:162-193 | the effect of a recall is a search of the engine and then the recall of the desk: the longest prefix is registered, settled already when credit is given at once, and the registry is trimmed to its limit |
| `CreditBodies.AcceptIsDeskStep` | hybrid_memory/service/feedback.py:50-66 | the effect of feedback goes through exactly when the desk accepts it, and files the one request |
| `CreditBodies.SettleIsDeskStep` | hybrid_memory/dispatch/effects.py:283-309 | the effect of a completed request leaves the engine and the registry of the desk's settlement |
| `CreditBodies.ConflictsAreNoRequests` | hybrid_memory/core/retrieval.py:118-124 | the conflicts that a search raises while tensions are off request no verdict on a recall |
| `CreditBodies.RecallsAreIndifferent` | hybrid_memory/service/recall.py:177-186 | a recall passes by all feedback already given: no accepted unsettled recall is evicted, and no registered one changes |
| `Credit.RetiredGetNoCredit` | hybrid_memory/core/engine.py:101-145 | a settlement changes current versions only |
| `CreditBodies.PrefixCreditExactly` | hybrid_memory/core/retrieval.py:160-172 | a retrieval credits at once only memories on lines that are sent, for all searches and all ways to render what they select, exactly when credit is deferred or there is no budget |
| `FeedbackService.FeedbackService.RecallMain` | hybrid_memory/service/recall.py:162-193 | a recall registers what it sends under a new id and evicts |
| `FeedbackService.FeedbackService.GiveFeedback` | hybrid_memory/service/feedback.py:13-72 | the checks in their order: repetition, unknown, empty, already given, accepted |
| `FeedbackService.FeedbackService.CreditShown` | hybrid_memory/core/engine.py:121-145 | the used ones of the shown memories are credited one after the other |
| `FeedbackService.FeedbackService.SettleRequest` | hybrid_memory/dispatch/effects.py:283-309 | a verdict settles its request once, from the registry or from the request |
| `Budgets.BudgetsHold` | hybrid_memory/service/budgets.py:17-93 | over any interleaving of openings, closings, admissions, failures and settlements no budget object is overdrawn, the characters returned through it stay within its limit, and nothing stays reserved when no call is in flight |
| `Budgets.OpenOutcome` | hybrid_memory/service/budgets.py:17-40 | a budget is opened exactly with sound limits under a signal that says something and is not open |
| `Budgets.AdmitOutcome` | hybrid_memory/service/budgets.py:53-93 | a call is let in exactly while calls are left, the lease is held and, for reading, characters are left; its bound is the tighter one, and its share is as much as it asked for or all that is left |
| `Budgets.SettleOutcome` | hybrid_memory/service/tools.py:32-47 | the end of a reading call gives back its whole reservation and charges exactly what was returned, once |
| `Budgets.CallsAreLimited` | hybrid_memory/service/budgets.py:53-93 | over any interleaving no more calls are let in on a budget than it has |
| `Budgets.ReadWindow` | hybrid_memory/store/evidence.py:574-604 | the reader returns beginnings of the readable units in order within its limit, truncates only the last, and reports what is missing and what found no room |
| `BudgetService.BudgetService.OpenBudget` | hybrid_memory/service/budgets.py:17-40 | every opening is a new object, under a signal id that is not blank |
| `BudgetService.BudgetService.CloseBudget` | hybrid_memory/service/budgets.py:43-50 | the signal is forgotten and its last figures returned |
| `BudgetService.BudgetService.AdmitCall` | hybrid_memory/service/budgets.py:53-93 | arguments and the health of the service are checked first, then the attempt counted, then calls, lease and window checked and the window reserved, for calls with and without a signal |
| `BudgetService.BudgetService.LogWindow` | hybrid_memory/service/tools.py:32-47 | a reading call is refused or returns no more than its budget, or the limit of a call without a signal, has left; it charges exactly what it returned, releases its reservation and shows nothing at or after the causal bound |
| `Catalog.Select` | agent/codemode/src/tool-runtime.ts:511-539 | the loops end; each namespace gets a prefix of its queue, the cost is the sum of the picked lines within the budget, and a namespace stops only when its line would overflow although nobody was more than one line ahead |
| `Catalog.Prepare` | agent/codemode/src/tool-runtime.ts:495-544 | with queues sorted cheapest first, no line that was left out fits at the end, and the catalog is reported complete exactly when nothing was left out |
| `Catalog.NothingLeftFits` | agent/codemode/src/tool-runtime.ts:511-539 | the same for any selection that stopped fairly |
| `Catalog.TrailingIsFair` | agent/codemode/src/tool-runtime.ts:484-494 | a namespace trails another by more than one line only if its queue ran out or its next line did not fit at its turn, while the line the other is ahead by did fit at its own |
| `Catalog.SelectionIsUnique` | agent/codemode/src/tool-runtime.ts:511-539 | the budget and the rule of the turns determine the selection: whatever respects them is what the loops find |
| `Catalog.CompleteExactly` | agent/codemode/src/tool-runtime.ts:543-544 | everything is shown exactly when all lines together fit the budget |
| `Catalog.SortedQueue` | agent/codemode/src/tool-runtime.ts:517-524 | a queue holds its namespace's tools, cheapest line first |

## Left out

- Confidence counters and their discounting, event counters other than the one of broken chains, and the consolidation of memories into reflections: bookkeeping beside the graph.
- Retrieval scoring: shortlists, qualities and similarities are arbitrary. Entries held back for low confidence, the contested rivals that are shown beside a selection, and signals of thin recalls are not modelled; over runs a retrieval is any sequence of suppressions and selections of current versions.
- Texts, embeddings, claims, entities and scenes of memories; the text of aggregates.
- Floating-point rounding: values are reals.
- SQL, pickle and JSON encodings, and the legacy `state.pkl` snapshot: a service starts from the durable checkpoint or empty.
- The checkpoint size gate, which only refuses effects before they begin.
- Sealed call contexts, agent rules, human reviews and their decisions.
- Units imported with a given id; every recorded unit asks for work.
- Tasks filed by an operation of a task: there are none, since proposing, resolving and diagnosing (`hybrid_memory/service/operate.py`) raise no signal inside the operation's transaction.
- HTTP, authentication, the command line, telemetry views, model calls and their prompts.
- FeedbackService.FeedbackService.SettleRequest: a shown memory that was deleted since is passed over; the source would credit the object that the retrieval still holds.
- MaintenanceRun.WeakestFirst: a negative main-pool limit stops at an empty pool, where the source would fail.
- EffectRollback.Service.EffectTransaction: the body of an effect is a list of writes to reachable objects instead of arbitrary code, and the jobs it enqueues are those of the task database's own model.
