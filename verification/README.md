# PocketCI in Dafny

A model of the parts of PocketCI whose correctness is hard to see from the code, with the
properties they are meant to have proved for all inputs, all runs and all interleavings:

- **Run admission, queue and concurrency groups.** `Runs`, `Admission`, `ExecutionServices`
  hold the run store and the service: a class with the service's fields whose methods
  trigger, admit, queue, dispatch, stop, finish, resume and recover runs, each proved equal
  to a transition function. `AdmissionOutcome` says what becomes of a trigger,
  `QueueTicks` what a tick does. `QueueOrder`, `GroupInvariant`, `AdmissionEffects`,
  `FailedLookup`, `GroupSafety`, `GroupExact`, `GroupHistories` and `Recovery` prove what
  holds over every history of those transitions, and after a restart.
- **The `triggers.passed` scanner.** `PassedTriggers` and `PassedScanner` (queries, scan,
  methods), `StoreHistory`, `PassedLineage`, `PassedEdges`, `PassedTies` and `FanIn`
  (freshness, lineage, retention, fan-in under concurrency).
- **The JavaScript event loop.** `EventLoop` is the protocol as a state machine: worker
  goroutines, a wait-group counter, a task channel of capacity one, the closing goroutine,
  stage jobs with their channels and the single main thread. `EventLoopInvariant`,
  `EventLoopSteps`, `EventLoopSafety`, `EventLoopVerdicts` and `EventLoopJams` prove it. `Gates` covers approval gates.
- **The execution slot counter** at the grain of its atomic operations: `SlotCounter`.
- **Pipeline validation:** `DependsOn` (three-colour search), `Wiring` and `WiringOrder`
  (inputs and outputs).
- **The path trie:** `PathTree`, `PathGroups`, `PathFlatten` on values, `PathNodes` in place.
- **Fly helpers and the capped reader:** `Shell`, `Sanitize`, `SanitizeWords`, `FlyVolumes`,
  `CappedReader`.

Where the code does not have a property it seems to promise, the code is kept as it is, a
lemma gives the input that breaks the property, and another states exactly when it holds:

- a group template may render the key reserved for a serial pipeline
  (`GroupExact.AliasedKeyBreaksGroup`, `GroupExact.TriggerExact`, `GroupExact.SyncExact`), a
  manual resume looks at no group (`GroupExact.ResumeExact`), and a failed busy-group query
  is taken for an empty answer (`FailedLookup.BlindTickExact`); `GroupExact.HistoryExact`
  puts the conditions together for whole histories;
- the "superseded by" message of a cancelled run is overwritten when it held a slot or
  failed by itself (`GroupHistories.SupersededMessageLasts`);
- creation times have whole seconds, so retention by count can delete a firing and keep an
  upstream of the same second, which is then used again (`PassedTies.TieSplitUsesUpstreamTwice`,
  `PassedTies.CountRetentionRevives`);
- the boot-time sweep dereferences a missing run exactly when a job would fire
  (`PassedScanner.EvaluatePassedDownstream`);
- an asynchronous notification sends from the main thread, the only receiver of the channel,
  and may block it for ever (`EventLoopJams.NotificationExactly`, `EventLoopJams.JamsExactly`,
  `EventLoopJams.OneNotificationMayDeadlock`, `EventLoopSafety.SecondNotificationDeadlocks`);
- a gate approved between the last poll and the deadline is reported as timed out
  (`Gates.TimeoutReportExact`);
- duplicate job names hide dependency cycles (`DependsOn.DuplicateNameHidesCycle`,
  `DependsOn.SearchedExactly`);
- the wiring check asks for a prior step in its message but accepts outputs of the same, a
  later or a parallel step of one plan step (`Wiring.OwnOutputSatisfiesInput`,
  `WiringOrder.LaterOutputSatisfiesInput`, `WiringOrder.InOrderExactly`), and skips `try`
  (`Wiring.TryIsSkipped`, `WiringOrder.TryExactly`);
- byte-sorted paths are not grouped by component (`PathGroups.SortedPathsDuplicate`), and
  flattening drops the value of a node with one child (`PathFlatten.SingleChildValueIsDropped`);
- a stream of exactly the cap ends cleanly only if its reader reports the end together with
  the last byte (`CappedReader.Drain`).

Assumptions shared by the modules: an admission, a scan, a queue tick and a completion are
one step each; a dispatch includes the execution's first status write; store calls succeed
unless a parameter says otherwise; creation times never decrease; a worker's output callbacks
are sent before its work returns, and continuations of a promise run inside the closure that
settles it. An empty `string` stands for an absent name, as in the source.

## Model

| member | source | states |
|---|---|---|
| `ExecutionServices.ExecutionService.UpdateRunStatus` | storage/sqlite/runs.go:371-409 | a status write moves exactly the matching record, and only where the state machine allows it; a blocked write changes nothing and only an absent run is reported as not found |
| `ExecutionServices.ExecutionService.StopRun` | server/execution.go:330-352 | a run in the stop registry is cancelled and failed whatever its status; any other run is left alone and reported as not in flight |
| `ExecutionServices.ExecutionService.ResolveConcurrency` | server/execution_concurrency.go:49-102 | the peers are exactly the active runs of the pipeline or the group; a trigger proceeds exactly when there are none, and otherwise the mode says whether it is skipped, queued or takes over; the only error is an unresolved group key |
| `ExecutionServices.ExecutionService.SupersedePeers` | server/execution_concurrency.go:193-231 | running peers are stopped and failed, queued peers skipped, in list order |
| `ExecutionServices.ExecutionService.AdmitRun` | server/execution_concurrency.go:250-301 | the whole state after admission; the run is terminal exactly when its group key is unresolved or it skips behind a run in the way, and must queue exactly when something is in the way and it neither skips nor takes over |
| `AdmissionOutcome.AdmitOutcome` | server/execution_concurrency.go:250-301 | the new record: failed with the group error, skipped behind the oldest active run in the way, or queued |
| `AdmissionOutcome.GroupKeyIs` | server/execution_concurrency.go:108-144 | when a group key is an error, and what it is otherwise, mode by mode |
| `AdmissionOutcome.AcceptsExactly` | server/execution.go:304-323 | room is a free slot, or fewer queued runs than a positive queue size |
| `AdmissionOutcome.TriggerOutcome` | server/execution.go:383-407 | an accepted trigger runs at once exactly with a free slot and nothing in its way that it does not take over |
| `ExecutionServices.ExecutionService.DispatchOrQueue` | server/execution_concurrency.go:308-327 | the run starts exactly when it need not queue and a slot is free |
| `ExecutionServices.ExecutionService.TriggerPipeline` | server/execution.go:383-407 | a trigger is refused exactly when nothing can be accepted; otherwise it admits and then starts or queues one run |
| `ExecutionServices.ExecutionService.RunByNameSync` | server/execution.go:937-975 | a synchronous run takes no slot: it is running exactly when its ID is returned, failed or skipped otherwise, and groups stay exclusive |
| `ExecutionServices.ExecutionService.BusyConcurrencyGroups` | server/execution_concurrency.go:330-347 | exactly the non-empty groups of running runs |
| `ExecutionServices.ExecutionService.DispatchEligible` | server/execution.go:183-208 | one pass dispatches exactly the entries of the greedy, work-conserving rule and counts them |
| `ExecutionServices.ExecutionService.ProcessQueueTick` | server/execution.go:152-179 | a tick takes exactly the entries of the greedy rule over the queued runs, newest first, and the groups of running runs; it counts them and keeps groups exclusive if the query worked |
| `QueueTicks.TickIsGreedy` | server/execution.go:152-208 | whoever computes the greedy selection: a taken entry runs on a slot of its own or, without its pipeline, is failed, and nothing else changes |
| `ExecutionServices.ExecutionService.FinalizeExecRun` | server/execution.go:724-766 | a stopped run ends failed whatever its outcome, an active one takes the outcome, a finished one can only become failed; the slot and the registry entry are released and groups stay exclusive |
| `ExecutionServices.ExecutionService.FinalizeSyncRun` | server/execution.go:900-935 | a synchronous run takes its outcome whether it was stopped or not, and leaves the registry |
| `ExecutionServices.ExecutionService.ResumePipeline` | server/execution.go:473-503 | accepted exactly when the service can accept and the run exists; then the run is running in a slot of its own or queued, whatever it was; a refused resume changes nothing |
| `ExecutionServices.ExecutionService.RecoverOrphanedRuns` | server/execution.go:538-577 | every run found running is failed for its own reason or, if its pipeline can be resumed, running in a slot, and only for want of slots queued or refused; nothing else changes and groups stay exclusive |
| `Recovery.RestartSettles` | server/execution.go:538-577 | after a restart the slot counter equals the registry, within the limit, and a run is running exactly when it is in it |
| `QueueOrder.PicksAreGreedy` | server/execution.go:183-208 | an entry is taken exactly when a slot is left, its group is not busy and no earlier entry of its group was taken |
| `QueueOrder.GreedyIsUnique` | server/execution.go:183-208 | the greedy rule determines the entries taken |
| `QueueOrder.DispatchRefinesPicks` | server/execution.go:183-208 | the dispatch loop does to the service what dispatching the picked entries in store order does |
| `QueueOrder.PickedGroupsDiffer` | server/execution.go:192-204 | two entries taken in one pass never share a non-empty group |
| `AdmissionEffects.AdmitRecords` | server/execution_concurrency.go:250-301 | admission changes no older record except that a cancel-running trigger fails the running and skips the queued runs of its group |
| `AdmissionEffects.AdmitNewRun` | server/execution_concurrency.go:250-301 | the one record admission appends: its group, inputs, identity and status |
| `AdmissionEffects.AdmitFindsGroupFree` | server/execution_concurrency.go:49-102 | a run admitted without having to queue leaves no other active run in its group |
| `FailedLookup.BlindTickExact` | server/execution.go:166-172 | a tick that lost the busy-group query keeps groups exclusive exactly when it starts no run of a running group |
| `GroupSafety.GroupsStayExclusive` | server/execution_concurrency.go:49-102 | in every state of every history at most one run per non-empty group is running |
| `GroupExact.TriggerExact` | server/execution_concurrency.go:66-102 | a trigger keeps groups exclusive exactly when it does not start, on a free slot, a run whose lookup by pipeline misses a run of another pipeline under its reserved key |
| `GroupExact.SyncExact` | server/execution.go:937-975 | the same for a synchronous run, which needs no slot |
| `GroupExact.HistoryExact` | server/execution_concurrency.go:108-150 | groups are exclusive in every state of a run of the system exactly when each step meets its own condition |
| `GroupExact.GuardedHistoriesAreExclusive` | server/execution_concurrency.go:108-150 | templates free of other pipelines' reserved keys meet the conditions without a look at the store |
| `GroupExact.ResumeExact` | server/execution.go:473-503 | a resume keeps groups exclusive exactly when it does not dispatch or nothing else runs in the group |
| `GroupExact.AliasedKeyBreaksGroup` | server/execution_concurrency.go:108-150 | a template that renders another pipeline's reserved key lets two runs of one group run |
| `GroupHistories.SerialPipelineNeverOverlaps` | server/execution_concurrency.go:108-120 | a pipeline admitted in serial or skip mode never has two running runs |
| `GroupHistories.CancelRunningTakesOver` | server/execution_concurrency.go:193-231 | after a cancel-running admission the new run is the only active one of its group; peers failed or skipped, all else unchanged |
| `GroupHistories.CancelRunningGroupHoldsOne` | server/execution_concurrency.go:85-101 | a group entered only by cancel-running triggers never holds two active runs |
| `GroupHistories.SupersededMessageLasts` | server/execution.go:724-766 | the message of a superseded run outlasts its end exactly when it held no slot and, if synchronous, did not fail; otherwise its record says stopped by the user, or its own failure |
| `PassedScanner.CompletedJobNames` | server/execution_passed.go:77-88 | the targeted jobs, or every configured job of an untargeted run |
| `PassedScanner.BuildPassedDependents` | server/execution_passed.go:93-109 | under each upstream name the jobs that list it, one entry per occurrence |
| `PassedScanner.EvaluatePassedDownstream` | server/execution_passed.go:113-173 | the job is triggered exactly when it fires; without a completed run it crashes exactly then |
| `PassedScanner.FirePassedDownstream` | server/execution_passed.go:179-214 | nothing is admitted when the queue is full |
| `PassedScanner.ScanPassedDownstreams` | server/execution_passed.go:21-70 | each candidate is evaluated once, in some order; a paused pipeline is left alone |
| `PassedTriggers.CandidatesAre` | server/execution_passed.go:44-70 | the candidates are the jobs that await a completed one, one per name |
| `PassedEdges.FiresExactlyWhenSatisfied` | server/execution_passed.go:113-173 | a job fires exactly when it has no active run, the queue has room, and every upstream name has a success younger than all its runs |
| `PassedEdges.RescanFiresNothing` | server/execution_passed.go:16-20 | right after an evaluation, fired or not, the job does not fire |
| `PassedLineage.EveryFiringIsFresh` | server/execution_passed.go:135-171 | over every history the later of two firings of a job is credited only to runs created after the earlier one |
| `PassedLineage.FiredJobWaits` | server/execution_passed.go:16-20 | whatever happened since a firing, the job does not fire while one upstream name has no success created later |
| `PassedLineage.FiringStores` | server/execution_passed.go:179-214 | the run a firing stores: its one target, the credited runs in order, and the group key rendered for that target |
| `PassedLineage.UpstreamUsedOnce` | server/execution_passed.go:185-192 | no upstream run appears in the lineage of two passed-triggered runs of one job |
| `PassedEdges.CountRetentionExact` | storage/sqlite/runs.go:416-434 | retention by count deletes at an instant, the premise of the lineage law, exactly when it does not split runs of one second; exact for the premise, not for the law |
| `PassedEdges.AgeRetentionIsAtInstant` | storage/sqlite/runs.go:436-444 | retention by age always keeps it |
| `PassedTies.CountRetentionRevives` | storage/sqlite/runs.go:416-434 | retention by count makes a used upstream run usable again exactly when it deletes every downstream run created since, all of them in that run's own second |
| `PassedTies.TieSplitUsesUpstreamTwice` | storage/sqlite/runs.go:416-434 | a history from the empty store, legal but for one retention by count, in which a job fires twice on one upstream run |
| `StoreHistory.FreshUpstreamsAre` | storage/storage.go:265-269 | what the freshness query returns, and why it returns nothing |
| `StoreHistory.FreshUpstreamsAreLatest` | storage/storage.go:265-269 | of several successes of one upstream the most recent is taken |
| `FanIn.OwnEvaluation` | server/execution_passed.go:113-173 | the awaited job fires at most once, and as soon as every upstream name has a settled run |
| `FanIn.ScanFiresOnce` | server/execution_passed.go:36-70 | a scan in any order leaves at most one new run of the job, and one unless an upstream is missing |
| `FanIn.ExactlyOneDownstreamRun` | server/execution_passed.go:36-70 | in every interleaving of committing, scanning and pruning upstream completions with unrelated work exactly one downstream run is created |
| `FanIn.PruneIsUnrelated` | storage/sqlite/runs.go:416-444 | deleting anything but the completing upstream runs and their downstream run disturbs nothing |
| `FanIn.CountRetentionSpares` | storage/sqlite/runs.go:416-434 | retention by count that keeps the oldest of the upstream runs and splits no second spares all of them and their downstream run |
| `SlotCounter.CounterBounds` | server/execution.go:278-285 | with k dispatchers the counter stays within max - 1 + k (the limit itself for one), is never negative, never below the wait group, and equals the executions not yet released |
| `SlotCounter.BoundIsReached` | server/execution.go:355-358 | the bound is reached for every limit and every number of dispatchers |
| `EventLoopSteps.StepKeeps` | runtime/async.go:19-81 | every action of every goroutine keeps the invariant of the protocol |
| `EventLoopSafety.NoSendAfterClose` | runtime/runtime.go:179-195 | the counter is the number of unsettled operations, and nobody sends or can send on the closed channel |
| `EventLoopSafety.ZeroIsFinal` | runtime/runtime.go:180-183 | once the closer waits, a counter at zero never rises again |
| `EventLoopSafety.WaitSettlesEverything` | runtime/runtime.go:179-195 | when Wait returns every promise was settled exactly once, and the error reported is the first in execution order |
| `EventLoopSafety.CallbacksPrecedeSettlement` | runtime/runtime.go:91-98 | an output callback never runs once its promise is settled |
| `EventLoopSafety.StageOutcome` | runtime/pipeline_ns.go:101-162 | a stage returns only with exactly one verdict and one result per job, and what it returns is what these recorded |
| `EventLoopVerdicts.RecordedExactly` | runtime/pipeline_ns.go:167-196 | over every run a verdict is recorded for a job exactly if one of its turns found its promise so, and then for good |
| `EventLoopVerdicts.StageOutcomeExactly` | runtime/pipeline_ns.go:101-162 | a finished stage failed exactly if a turn found some job's promise rejected, or some job's report saw the cancellation |
| `EventLoopVerdicts.OneJobReturns` | runtime/pipeline_ns.go:101-162 | a stage with one job can be run to its end for each verdict, cancelled or not, and returns that and nothing else |
| `EventLoopVerdicts.PendingIsAskedAgain` | runtime/pipeline_ns.go:172-185 | a promise still pending is asked again in a new turn, counted before its send |
| `EventLoopSafety.StageChannelsNeverBlock` | runtime/pipeline_ns.go:109-151 | no job ever puts two values in its error channel or overflows the results channel |
| `EventLoopSafety.NeverStuckOtherwise` | runtime/pipeline_ns.go:167-196 | until Wait returns some goroutine can act, unless the main thread itself sends into a full channel |
| `EventLoopSafety.BlockedExactly` | runtime/jsapi/notify.go:401-423 | a main thread blocked in a send resumes in some continuation exactly when the channel has room |
| `EventLoopJams.JamsExactly` | runtime/jsapi/notify.go:401-423 | some continuation blocks it for good exactly when the channel is full or another goroutine can send without it; otherwise its own send stays possible throughout |
| `EventLoopJams.NotificationExactly` | runtime/jsapi/notify.go:401-423 | before the call: an asynchronous notification may block for ever exactly when the channel is full or any operation can send |
| `EventLoopJams.OneNotificationMayDeadlock` | runtime/jsapi/notify.go:401-423 | one started task, one notification and one line of output block the loop in every continuation |
| `EventLoopSafety.SecondNotificationDeadlocks` | runtime/jsapi/notify.go:401-423 | two asynchronous notifications in one turn block the loop forever |
| `Gates.ResolutionIsFinal` | storage/sqlite/gates.go:88-109 | over every history a gate leaves pending at most once and its resolution and resolver never change |
| `Gates.OneResolverWins` | server/api_gates_controller.go:174-187 | of all approvers, rejecters and pollers exactly one succeeds on a gate that gets resolved, none otherwise |
| `Gates.GateStore.Resolve` | storage/sqlite/gates.go:88-109 | the guarded update changes a pending gate only, and says whether it did |
| `Gates.GateStore.PollGate` | runtime/pipeline_ns.go:254-304 | with others acting all the time, the first wake that is past the deadline or finds the gate not pending decides: an approved gate is reported approved, a rejected one rejected with its actor, a timed out one timed out, a missing one failed; without such a wake the poll is cancelled |
| `Gates.GateStore.OpenGate` | runtime/pipeline_ns.go:235-246 | a gate that has just been created is never reported missing, and is reported as it was resolved |
| `Gates.TimeoutReportExact` | runtime/pipeline_ns.go:269-281 | a timeout report is true in the end exactly when the gate was not already approved or rejected |
| `Gates.ApprovedGateReportedTimedOut` | runtime/pipeline_ns.go:269-281 | a history in which an approved gate is reported as timed out |
| `DependsOn.Search.Visit` | backwards/pipeline.go:384-404 | the search ends, leaves the gray path alone, and an error names an edge of a real cycle |
| `DependsOn.OrderedIsAcyclic` | backwards/pipeline.go:374-415 | a topological order of all jobs rules out every cycle |
| `DependsOn.CheckReferences` | backwards/pipeline.go:354-372 | accepted exactly when every reference names another known job; the error is that of the first bad one |
| `DependsOn.ValidateDependsOn` | backwards/pipeline.go:354-418 | nil exactly when every reference is known, none is to itself and the graph is acyclic; finish order is topological |
| `DependsOn.SearchedCycles` | backwards/pipeline.go:375-404 | a reported cycle is always declared; every declared cycle is found when the last entry of each name lists all its dependencies |
| `DependsOn.SearchedExactly` | backwards/pipeline.go:375-378 | the searched graph is the declared one exactly when the last entry of each name lists every dependency of the earlier ones |
| `DependsOn.DuplicateNameHidesCycle` | backwards/pipeline.go:375-378 | a repeated job name hides a declared cycle |
| `Wiring.Available.CollectStepOutputs` | backwards/pipeline.go:261-292 | adds exactly the outputs at or below the step, through do and in_parallel |
| `Wiring.Available.CheckStepInputs` | backwards/pipeline.go:297-329 | one error per missing checked input at or below the step, in pre-order |
| `Wiring.ValidateInputOutputWiring` | backwards/pipeline.go:243-257 | accepted exactly when every job is well wired; otherwise the first violation of the first bad job |
| `Wiring.NodesAre` | backwards/pipeline.go:283-291 | what lies at or below a step: the step, and what lies at or below its do and in_parallel steps |
| `Wiring.WellWiredMeans` | backwards/pipeline.go:243-257 | every checked input at or below plan step i is an output at or below steps 0 to i |
| `Wiring.AcceptedMeans` | backwards/pipeline.go:261-329 | acceptance in the fields of the steps: what get, put, task and agent steps provide, and which task and agent inputs are checked |
| `Wiring.ViolationsAre` | backwards/pipeline.go:297-329 | the first error is the first missing input in pre-order |
| `Wiring.PrependExact` | backwards/pipeline.go:243-257 | steps put in front act exactly as given outputs |
| `Wiring.PrependKeeps` | backwards/pipeline.go:243-257 | acceptance survives prepending accepted steps |
| `Wiring.OwnOutputSatisfiesInput` | backwards/pipeline.go:247-250 | a step's own output satisfies its own input |
| `Wiring.TryIsSkipped` | backwards/pipeline.go:283-291 | steps under try are neither checked nor counted |
| `WiringOrder.InOrderExactly` | backwards/pipeline.go:238-257 | every input comes from an earlier step exactly when the plan is accepted and no step consumes an output that only itself, a later or a parallel step produces |
| `WiringOrder.EarlierStepsExactly` | backwards/pipeline.go:238-257 | the same by whole plan steps |
| `WiringOrder.LaterOutputSatisfiesInput` | backwards/pipeline.go:247-250 | a do step whose first step consumes what its second produces is accepted |
| `WiringOrder.VisitedOrUnderTry` | backwards/pipeline.go:283-291 | every nested step is visited or lies under the try of a visited one |
| `WiringOrder.TryExactly` | backwards/pipeline.go:283-291 | acceptance covers the steps under try exactly when their inputs are available, misses nothing but reliance on their outputs, and is the whole truth without try |
| `PathTree.LookupAdd` | storage/tree.go:20-44 | while siblings stay unique, AddNode changes the value at its own path only |
| `PathTree.LookupGivesLastValue` | storage/tree.go:20-44 | each path holds the last value stored for it, every other path none |
| `PathTree.PathSpellsParts` | storage/tree.go:32-35 | a full path splits at its slashes into exactly the components that lead to the node |
| `PathGroups.TrieExactly` | storage/tree.go:20-44 | siblings are unique exactly when the paths come grouped below every directory |
| `PathGroups.GroupedLookup` | storage/storage.go:377-386 | grouped paths can all be looked up |
| `PathGroups.SortedPathsDuplicate` | storage/tree.go:27-40 | three byte-sorted paths that build two children of one name |
| `PathFlatten.FlatIsTight` | storage/tree.go:46-59 | no node of the result has exactly one child |
| `PathFlatten.FlatIsSquash` | storage/tree.go:46-59 | re-entering the same node equals one bottom-up pass |
| `PathFlatten.FlatIdempotent` | storage/tree.go:46-59 | flattening twice is flattening once |
| `PathFlatten.FlattenKeepsExactly` | storage/tree.go:46-59 | exactly the nodes without a single child are kept, in order, with full path, value, child count and spelled path |
| `PathFlatten.FlattenKeepsLeaves` | storage/tree.go:46-59 | the leaf sequence is unchanged |
| `PathFlatten.FlattenedPathsSpell` | storage/tree.go:32-35 | the names from the root spell each node's full path, before and after |
| `PathFlatten.SingleChildValueIsDropped` | storage/tree.go:51-58 | a value survives at its node exactly when the node does not have a single child |
| `PathNodes.Node.AddNode` | storage/tree.go:20-44 | in place: the tree below the node becomes the one the path is added to |
| `PathNodes.Node.Flatten` | storage/tree.go:46-59 | in place, terminating: the tree below the node becomes its flattened form |
| `PathNodes.AsTree` | storage/storage.go:377-386 | the results of a run become the flattened trie of their paths, with no single-child node |
| `Shell.ShellJoinInto` | orchestra/fly/fly.go:439-446 | the loop fills the list of quoted arguments and joins it |
| `Shell.RoundTrip` | orchestra/fly/fly.go:431-446 | a POSIX shell reads a joined argument list back as exactly that list |
| `Shell.JoinInjective` | orchestra/fly/fly.go:431-446 | different lists are never joined to one text |
| `Shell.ShellCommandReads` | orchestra/fly/cache.go:303 | one reading undoes one level and hands the shell the script unchanged |
| `Shell.MakeAndTarReads` | orchestra/fly/cache.go:303 | the script inside reads as two commands that both name the directory |
| `Shell.StartCommandReads` | orchestra/fly/container.go:740-741 | the start command changes into the directory and runs the arguments given |
| `Sanitize.SanitizeName` | orchestra/fly/fly.go:367-396 | the replace-until-none loop ends and equals a one-pass collapse of runs |
| `SanitizeWords.SanitizedExactly` | orchestra/fly/fly.go:367-396 | the result is the runs of lower-cased letters and digits joined by single separators, cut to length |
| `Sanitize.SanitizedIsValid` | orchestra/fly/fly.go:367-396 | only allowed characters, within the limit, no leading, trailing or doubled separator; letters kept in order |
| `Sanitize.SanitizeTwice` | orchestra/fly/fly.go:367-396 | sanitizing twice is sanitizing once |
| `Sanitize.EmptyExactly` | orchestra/fly/fly.go:367-396 | the result is empty exactly when no character maps to a letter |
| `Sanitize.SanitizeAppName` | orchestra/fly/fly.go:367-396 | application names: dash, 63 characters; valid names are unchanged |
| `Sanitize.SanitizeVolumeName` | orchestra/fly/fly.go:400-429 | volume names: underscore, 30 characters; valid names are unchanged |
| `FlyVolumes.Fly.CreateVolume` | orchestra/fly/volume.go:44-90 | a known name gives the same object, a failed call changes nothing, and the shared volume is created once and never shrinks |
| `FlyVolumes.Fly.ExtendSharedVolumeIfNeeded` | orchestra/fly/volume.go:137-175 | the size changes only to a larger requested one |
| `FlyVolumes.CreateAll` | orchestra/fly/volume.go:44-175 | any series of calls makes at most one physical volume, named by the first reply and by every logical volume; each call succeeds exactly when its name is known, the call was answered or no call was needed; the volume is as large as the largest request that opened a logical one |
| `FlyVolumes.AllServed` | orchestra/fly/volume.go:44-175 | when no API call fails every request is served from one volume, large enough for the first request of every name |
| `FlyVolumes.LargestIsLargest` | orchestra/fly/volume.go:95-175 | the tracked size is the maximum of the first effective size and every later positive size |
| `CappedReader.CappedReadCloser.Read` | server/api_pipelines_run.go:36-66 | below the cap each reply is the inner reader's, asked for as much as caller and cap allow; at the cap it is too unless the peek finds more; past it nothing is asked |
| `CappedReader.Drain` | server/api_pipelines_run.go:30-66 | one inner read per call until an error or the cap, everything handed over comes out, errors below the cap included; at the cap the reply that reached it and the peek decide; a stream of exactly the cap ends cleanly exactly if the reply with its last byte says that it ended |

## Left out

- HTTP controllers, clients, CLI commands, authentication and MCP: request plumbing around the modelled service.
- Cloud, container and VM drivers beyond the Fly helpers: they act through SDKs whose behaviour is not in the source.
- Template and cron parsing, YAML, the JavaScript engine and zstd: external libraries; a rendered group key is a parameter.
- Store errors: every store call succeeds, except the busy-group query, whose failure is a parameter.
- Status writes delayed past a dispatch, and admissions that interleave: the code takes no lock around them, and the group theorems are about atomic steps.
- Wall-clock time, sleeps, metrics and logs: a logical clock that never runs backwards is used instead.
- A global bound on the queue length: a run that must queue behind its group is admitted past the configured size.
- Fairness of the queue: the store lists newest runs first, so no order of service is promised.
- Untargeted runs as fresh upstreams: they name no job, so the queries never return them, although the comment at server/execution_passed.go:72-76 counts their jobs as completed.
- FanIn.ExactlyOneDownstreamRun: assumes room for the downstream when its turn comes first, as the scanner does not retry; no other run that targets it; no job that awaits one of the completing jobs and is itself awaited by the downstream; and retention that spares the runs in question.
- Admission.Finish: a run resumed while its first execution still ends would have two executions; the registry is a set, so the model ends only one of them and never releases the other's slot.
- PassedTriggers.Latest: of several runs of one second the one stored last is taken, and lists of runs are in the order they were stored; the queries leave both open.
- PassedEdges.CountRetentionExact: exact for the premise of the lineage law; whether a split second is ever used for a second firing depends on later runs.
- ExecutionServices.ExecutionService.RunByNameSync: the pause check, the uploaded directory and the event stream; a failed upload leaves the run running until the next boot sweep.
- SlotCounter.CounterBounds: the counter is an unbounded integer instead of 32 bits; the bound shows it cannot wrap for limits below that range.
- EventLoop.Apply: a fulfilled and a rejected promise are one settling step, and the promise a stage job polls may stay pending for any number of turns.
- DependsOn.Search.Visit: the closure `visit` and the variables it captures are a class.
- PathNodes.Node.AddNode: the walk is a recursion over the components instead of a loop over a current node; filepath.Clean has been applied to the path.
- Sanitize.SanitizeName: lower-casing is a character map that leaves allowed characters alone, so a letter that lower-cases to several runes is not covered.
- Shell.Read: here-documents, expansions, patterns and reserved words are not read; quoted text never reaches them.
- FlyVolumes.Fly.CreateVolume: concurrent calls, between whose lock sections a second physical volume could be created.
- CappedReader.InnerReader.Read: the wrapping of other errors, and Close.
- Gates: the RBAC check and the failure of the gate insert.
