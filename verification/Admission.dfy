/** The run-admission and queue machinery of server/execution.go and
    server/execution_concurrency.go, as transitions on a value: what each entry
    point does to the store, the slot counter and the stop registry when nothing
    else runs between its reads and its writes. ExecutionService.dfy holds the
    imperative methods and ties each of them to the function of this module. */
module Admission {
  import opened Runs

  datatype Mode = Unlimited | Serial | Grouped | SkipIfRunning | UnknownMode

  /** The part of a stored pipeline that admission reads. */
  datatype Pipeline = Pipeline(id: string, mode: Mode, hasTemplate: bool, cancelRunning: bool)

  /** `rendered` is what the pipeline's group template evaluates to on this input;
      template parsing and execution are not part of this model. */
  datatype TriggerInput = TriggerInput(jobs: seq<string>, upstream: seq<nat>, rendered: Result<string>)

  datatype Action = Proceed | QueueBehind | Skip | CancelPeers

  datatype Decision = Decision(action: Action, group: string, peers: seq<Run>)

  /** The service: the run store, its identifier counter and clock, the slot
      counter, and the stop registry split into slot-holding executions and
      synchronous runs. `cancelled` holds the executions whose context is cancelled. */
  datatype Service = Service(
    runs: seq<Run>,
    nextId: nat,
    clock: nat,
    inFlight: int,
    executing: set<nat>,
    syncing: set<nat>,
    cancelled: set<nat>,
    maxInFlight: nat,
    maxQueueSize: int)

  /** How a resume ends: QueueFull is ErrQueueFull, RunNotFound the store's ErrNotFound. */
  datatype Resumption = Resumed | QueueFull | RunNotFound

  datatype Admitted = Admitted(service: Service, id: nat, terminal: bool, queueOnly: bool)

  const PIPELINE_PREFIX := "pipeline:"

  function PipelineKey(id: string): string { PIPELINE_PREFIX + id }

  // ---------------------------------------------------------------- capacity

  predicate CanExecute(s: Service) { s.inFlight < s.maxInFlight }

  function QueueLength(s: Service): nat { |ByStatus(s.runs, Queued)| }

  predicate CanAccept(s: Service) {
    CanExecute(s) || (s.maxQueueSize > 0 && QueueLength(s) < s.maxQueueSize)
  }

  // ------------------------------------------------------- collision decision

  function ResolveGroup(p: Pipeline, input: TriggerInput): Result<string> {
    match p.mode
    case Unlimited => Ok("")
    case Serial => Ok(PipelineKey(p.id))
    case SkipIfRunning => Ok(PipelineKey(p.id))
    case Grouped =>
      if !p.hasTemplate then Err("concurrency_mode=group requires concurrency_group_template")
      else if input.rendered.Err? then input.rendered
      else if input.rendered.value == "" then Err("concurrency_group_template rendered to an empty string")
      else input.rendered
    case UnknownMode => Err("unknown concurrency_mode")
  }

  /** The in-flight runs a new trigger collides with: the whole pipeline's in serial
      and skip-if-running mode, the group's in group mode. */
  function Peers(s: Service, p: Pipeline, group: string): seq<Run> {
    if p.mode.Grouped? then ActiveByGroup(s.runs, group) else ActiveByPipeline(s.runs, p.id)
  }

  function ResolveConcurrency(s: Service, p: Pipeline, input: TriggerInput): Result<Decision> {
    if p.mode.Unlimited? then Ok(Decision(Proceed, "", []))
    else
      match ResolveGroup(p, input)
      case Err(e) => Err(e)
      case Ok(group) =>
        var peers := Peers(s, p, group);
        if peers == [] then Ok(Decision(Proceed, group, []))
        else if p.mode.SkipIfRunning? then Ok(Decision(Skip, group, peers))
        else if p.mode.Grouped? && p.cancelRunning then Ok(Decision(CancelPeers, group, peers))
        else Ok(Decision(QueueBehind, group, peers))
  }

  // ------------------------------------------------------------ store updates

  function SetStatus(s: Service, id: nat, to: RunStatus, message: Reason): Service {
    s.(runs := UpdateStatus(s.runs, id, to, message))
  }

  /** SaveRunWithStatus; an error message is kept only for a terminal status. */
  function SaveRun(s: Service, pipeline: string, trigger: TriggerType, input: TriggerInput, group: string,
                   status: RunStatus, message: Reason): Service
  {
    var error := if status.IsTerminal() then message else NoReason;
    var run := Run(s.nextId, pipeline, status, trigger, input.jobs, input.upstream, group, error, s.clock);
    s.(runs := s.runs + [run], nextId := s.nextId + 1)
  }

  /** StopRun: a run outside the stop registry is left alone (ErrRunNotInFlight). */
  function StopRun(s: Service, id: nat): Service {
    if id !in s.executing + s.syncing then s
    else SetStatus(s.(cancelled := s.cancelled + {id}), id, Failed, StoppedByUser)
  }

  /** One round of supersedePeers; `peer` is the snapshot taken by the decision. */
  function SupersedePeer(s: Service, peer: Run, newRun: nat): Service {
    match peer.status
    case Running => SetStatus(StopRun(s, peer.id), peer.id, Failed, SupersededBy(newRun))
    case Queued => SetStatus(s, peer.id, RunStatus.Skipped, SupersededBy(newRun))
    case _ => s
  }

  function SupersedePeers(s: Service, peers: seq<Run>, newRun: nat): Service
    decreases |peers|
  {
    if peers == [] then s else SupersedePeers(SupersedePeer(s, peers[0], newRun), peers[1..], newRun)
  }

  // ---------------------------------------------------------------- admission

  function AdmitRun(s: Service, p: Pipeline, trigger: TriggerType, input: TriggerInput): Admitted {
    match ResolveConcurrency(s, p, input)
    case Err(e) =>
      Admitted(SaveRun(s, p.id, trigger, input, "", Failed, Message(e)), s.nextId, true, false)
    case Ok(d) =>
      if d.action.Skip? then
        var reason := if d.peers == [] then NoReason else SkippedBehind(d.peers[0].id);
        Admitted(SaveRun(s, p.id, trigger, input, d.group, RunStatus.Skipped, reason), s.nextId, true, false)
      else
        var saved := SaveRun(s, p.id, trigger, input, d.group, Queued, NoReason);
        var after := if d.action.CancelPeers? then SupersedePeers(saved, d.peers, s.nextId) else saved;
        Admitted(after, s.nextId, false, d.action.QueueBehind?)
  }

  /** dispatchRun together with the execution goroutine's first status write. */
  function DispatchRun(s: Service, id: nat): Service {
    SetStatus(s.(inFlight := s.inFlight + 1, executing := s.executing + {id}, cancelled := s.cancelled - {id}),
              id, Running, NoReason)
  }

  function DispatchOrQueue(s: Service, id: nat, queueOnly: bool): Service {
    if !queueOnly && CanExecute(s) then DispatchRun(s, id) else s
  }

  /** The shape shared by the manual, webhook, scheduled and passed triggers. */
  function Trigger(s: Service, p: Pipeline, trigger: TriggerType, input: TriggerInput): Service {
    if !CanAccept(s) then s
    else
      var a := AdmitRun(s, p, trigger, input);
      if a.terminal then a.service else DispatchOrQueue(a.service, a.id, a.queueOnly)
  }

  /** The admission part of RunByNameSync: no slot is taken, and a run that would
      have to queue is failed. */
  function SyncRun(s: Service, p: Pipeline, input: TriggerInput): Service {
    var a := AdmitRun(s, p, Cli, input);
    if a.terminal then a.service
    else if a.queueOnly then SetStatus(a.service, a.id, Failed, SyncGroupBusy)
    else SetStatus(a.service.(syncing := a.service.syncing + {a.id}), a.id, Running, NoReason)
  }

  // -------------------------------------------------------------------- queue

  function BusyGroups(runs: seq<Run>): set<string> {
    set r | r in runs && r.status.Running? && r.group != "" :: r.group
  }

  predicate Blocked(group: string, busy: set<string>) { group != "" && group in busy }

  function Hold(busy: set<string>, group: string): set<string> {
    if group == "" then busy else busy + {group}
  }

  /** dispatchQueuedRun; `existing` are the pipelines the store still has. */
  function DispatchQueuedRun(s: Service, run: Run, existing: set<string>): Service {
    if run.pipeline in existing then DispatchRun(s, run.id)
    else SetStatus(s, run.id, Failed, PipelineNotFound)
  }

  /** dispatchEligible: the service after the pass, and how many runs it took. */
  function DispatchEligible(s: Service, queue: seq<Run>, busy: set<string>, existing: set<string>): (Service, nat)
    decreases |queue|
  {
    if queue == [] || !CanExecute(s) then (s, 0)
    else if Blocked(queue[0].group, busy) then DispatchEligible(s, queue[1..], busy, existing)
    else
      var (t, n) := DispatchEligible(DispatchQueuedRun(s, queue[0], existing), queue[1..],
                                     Hold(busy, queue[0].group), existing);
      (t, n + 1)
  }

  /** One queue tick; `lookup` is false when the busy-group query fails, in which
      case the tick goes on with an empty busy set. */
  function QueueTick(s: Service, existing: set<string>, lookup: bool): Service {
    DispatchEligible(s, ByStatus(s.runs, Queued), if lookup then BusyGroups(s.runs) else {}, existing).0
  }

  // --------------------------------------------------- completion and recovery

  /** finalizeExecRun and the deferred release of the slot and the registry entry.
      A cancelled context overrides the outcome. */
  function Finish(s: Service, id: nat, outcome: RunStatus, message: Reason): Service {
    var t := if id in s.cancelled then SetStatus(s, id, Failed, StoppedByUser) else SetStatus(s, id, outcome, message);
    t.(inFlight := s.inFlight - 1, executing := s.executing - {id}, cancelled := s.cancelled - {id})
  }

  function FinishSync(s: Service, id: nat, outcome: RunStatus, message: Reason): Service {
    SetStatus(s, id, outcome, message).(syncing := s.syncing - {id}, cancelled := s.cancelled - {id})
  }

  function ResumePipeline(s: Service, id: nat): (Service, Resumption) {
    if !CanAccept(s) then (s, QueueFull)
    else if !Stored(s.runs, id) then (s, RunNotFound)
    else
      var t := SetStatus(s, id, Queued, NoReason);
      (if CanExecute(t) then DispatchRun(t, id) else t, Resumed)
  }

  /** What RecoverOrphanedRuns does with one run found in running status. */
  function RecoverRun(s: Service, run: Run, existing: set<string>, resumable: set<string>): Service {
    if run.pipeline !in existing then SetStatus(s, run.id, Failed, PipelineLost)
    else if run.pipeline in resumable then
      var (t, outcome) := ResumePipeline(s, run.id);
      if outcome.Resumed? then t else SetStatus(t, run.id, Failed, ResumeRefused)
    else SetStatus(s, run.id, Failed, ServerRestarted)
  }

  function RecoverRuns(s: Service, orphans: seq<Run>, existing: set<string>, resumable: set<string>): Service
    decreases |orphans|
  {
    if orphans == [] then s
    else RecoverRuns(RecoverRun(s, orphans[0], existing, resumable), orphans[1..], existing, resumable)
  }

  /** A process restart: every in-memory field is lost, then the boot sweep runs. */
  function Restart(s: Service, existing: set<string>, resumable: set<string>): Service {
    var booted := s.(inFlight := 0, executing := {}, syncing := {}, cancelled := {});
    RecoverRuns(booted, ByStatus(s.runs, Running), existing, resumable)
  }

  /** PruneRunsByPipeline: the pipeline's runs outside `keep` are deleted. */
  function Prune(s: Service, pipeline: string, keep: set<nat>): Service {
    s.(runs := Filter((r: Run) => r.pipeline != pipeline || r.id in keep, s.runs))
  }
}
