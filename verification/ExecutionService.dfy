/** ExecutionService (server/execution.go, server/execution_concurrency.go): the
    methods that trigger, queue, dispatch, stop and finish runs, each proved to take
    the service from its old state to the one the functions of Admission.dfy name. */
module ExecutionServices {
  import opened Runs
  import opened Admission
  import opened QueueOrder
  import opened QueueTicks
  import opened GroupInvariant
  import opened AdmissionEffects
  import opened AdmissionOutcome
  import opened GroupSafety
  import opened GroupHistories
  import opened Recovery

  /** What a status write makes of the store: failed and queued are written over anything,
      every other status only over queued and running, and a message is kept only with
      success, failed and skipped. */
  ghost predicate Written(before: seq<Run>, after: seq<Run>, id: nat, to: RunStatus, message: Reason) {
    |after| == |before| &&
    forall i :: 0 <= i < |before| ==>
      var q := before[i];
      after[i] ==
        if q.id != id || (!(to.Failed? || to.Queued?) && !(q.status.Queued? || q.status.Running?)) then q
        else q.(status := to, error := if to.Queued? || to.Running? then q.error else message)
  }

  lemma UpdateWrites(runs: seq<Run>, after: seq<Run>, id: nat, to: RunStatus, message: Reason)
    requires |after| == |runs|
    requires forall k :: 0 <= k < |runs| ==> after[k] == if runs[k].id == id then Moved(runs[k], to, message) else runs[k]
    ensures after == UpdateStatus(runs, id, to, message) && Written(runs, after, id, to, message)
  {
  }

  /** What the end of the run `id` makes of the store: a stopped run is failed whatever
      its outcome, an active one takes the outcome, and a finished one can only turn
      into a failed one. */
  ghost predicate Concluded(before: seq<Run>, after: seq<Run>, id: nat, stopped: bool, outcome: RunStatus,
                            message: Reason)
  {
    |after| == |before| &&
    forall i :: 0 <= i < |before| ==>
      var q, r := before[i], after[i];
      && SameIdentity(q, r)
      && (q.id != id ==> r == q)
      && (q.id == id && stopped ==> r.status.Failed? && r.error == StoppedByUser)
      && (q.id == id && !stopped && q.status.IsActive() ==> r.status == outcome && r.error == message)
      && (q.id == id && !stopped && !q.status.IsActive() && !outcome.Failed? ==> r == q)
  }

  /** What a resume makes of the store. */
  ghost predicate Revived(before: seq<Run>, after: seq<Run>, id: nat, status: RunStatus) {
    |after| == |before| &&
    forall i :: 0 <= i < |before| ==> after[i] == if before[i].id == id then before[i].(status := status) else before[i]
  }

  lemma ResumeRevives(s: Service, id: nat)
    requires CanAccept(s) && Stored(s.runs, id)
    ensures Revived(s.runs, Admission.ResumePipeline(s, id).0.runs, id, if s.inFlight < s.maxInFlight then Running else Queued)
  {
  }

  lemma FinishConcludes(s: Service, id: nat, outcome: RunStatus, message: Reason)
    requires outcome.IsTerminal()
    ensures Concluded(s.runs, Finish(s, id, outcome, message).runs, id, id in s.cancelled, outcome, message)
  {
  }

  /** One more record, running or already finished, never queued. */
  predicate Answered(before: seq<Run>, after: seq<Run>, id: nat, started: bool) {
    && |after| == |before| + 1
    && after[|before|].id == id
    && var status := after[|before|].status;
    && if started then status.Running? else status.Failed? || status.Skipped?
  }

  lemma SyncEnds(s: Service, p: Pipeline, input: TriggerInput)
    requires Ordered(s.runs, s.nextId, s.clock)
    ensures var a := AdmitRun(s, p, Cli, input);
            && Answered(s.runs, SyncRun(s, p, input).runs, s.nextId, !a.terminal && !a.queueOnly)
            && (MustWait(s, p, input) ==> SyncRun(s, p, input).runs[|s.runs|].error == SyncGroupBusy)
  {
    AdmitNewRun(s, p, Cli, input);
    AdmitOutcome(s, p, Cli, input);
  }

  class ExecutionService {
    var runs: seq<Run>
    var nextId: nat
    var clock: nat
    var inFlight: int
    var executing: set<nat>
    var syncing: set<nat>
    var cancelled: set<nat>
    const maxInFlight: nat
    const maxQueueSize: int

    function State(): Service
      reads this
    {
      Service(runs, nextId, clock, inFlight, executing, syncing, cancelled, maxInFlight, maxQueueSize)
    }

    /** A non-positive limit falls back to ten slots. */
    constructor (maxInFlight: int, maxQueueSize: int)
      ensures State() == Fresh(if maxInFlight <= 0 then 10 else maxInFlight, maxQueueSize)
    {
      runs, nextId, clock := [], 0, 0;
      inFlight, executing, syncing, cancelled := 0, {}, {}, {};
      this.maxInFlight := if maxInFlight <= 0 then 10 else maxInFlight;
      this.maxQueueSize := maxQueueSize;
    }

    /** False stands for ErrNotFound; a transition the state machine blocks is no error. */
    method UpdateRunStatus(id: nat, to: RunStatus, message: Reason) returns (found: bool)
      modifies this`runs
      ensures found == Stored(old(runs), id)
      ensures State() == SetStatus(old(State()), id, to, message)
      ensures Written(old(runs), runs, id, to, message)
    {
      var after := [];
      var affected := 0;
      for i := 0 to |runs|
        invariant |after| == i
        invariant forall k :: 0 <= k < i ==>
                    after[k] == if runs[k].id == id then Moved(runs[k], to, message) else runs[k]
        invariant affected > 0 ==> Stored(runs, id)
      {
        var r := runs[i];
        if r.id == id && MayMove(r.status, to) {
          r := r.(status := to, error := if to.IsTerminal() then message else r.error);
          affected := affected + 1;
        }
        after := after + [r];
      }
      found := affected > 0 || Stored(runs, id);
      UpdateWrites(runs, after, id, to, message);
      runs := after;
    }

    method SaveRunWithStatus(pipeline: string, trigger: TriggerType, input: TriggerInput, group: string,
                             status: RunStatus, message: Reason) returns (id: nat)
      modifies this`runs, this`nextId
      ensures id == old(nextId)
      ensures State() == SaveRun(old(State()), pipeline, trigger, input, group, status, message)
    {
      id := nextId;
      var error := NoReason;
      if status.IsTerminal() {
        error := message;
      }
      runs := runs + [Run(id, pipeline, status, trigger, input.jobs, input.upstream, group, error, clock)];
      nextId := nextId + 1;
    }

    /** False stands for ErrRunNotInFlight. */
    method StopRun(id: nat) returns (stopped: bool)
      modifies this`runs, this`cancelled
      ensures stopped == (id in executing + syncing)
      ensures State() == Admission.StopRun(old(State()), id)
      ensures stopped ==> id in cancelled && Written(old(runs), runs, id, Failed, StoppedByUser)
      ensures !stopped ==> State() == old(State())
    {
      if id !in executing + syncing {
        return false;
      }
      cancelled := cancelled + {id};
      var _ := UpdateRunStatus(id, Failed, StoppedByUser);
      stopped := true;
    }

    method SupersedePeers(peers: seq<Run>, newRun: nat)
      modifies this`runs, this`cancelled
      ensures State() == Admission.SupersedePeers(old(State()), peers, newRun)
    {
      for i := 0 to |peers|
        invariant Admission.SupersedePeers(State(), peers[i..], newRun) ==
                  Admission.SupersedePeers(old(State()), peers, newRun)
      {
        assert peers[i..][1..] == peers[i + 1..];
        match peers[i].status {
          case Running =>
            var _ := StopRun(peers[i].id);
            var _ := UpdateRunStatus(peers[i].id, Failed, SupersededBy(newRun));
          case Queued =>
            var _ := UpdateRunStatus(peers[i].id, RunStatus.Skipped, SupersededBy(newRun));
          case Success =>
          case Failed =>
          case Skipped =>
        }
      }
    }

    /** The peers are the active runs that share the pipeline or the group, and the
        mode says what happens to the new run when there are any. */
    method ResolveConcurrency(p: Pipeline, input: TriggerInput) returns (decision: Result<Decision>)
      ensures decision == Admission.ResolveConcurrency(State(), p, input)
      ensures decision.Err? <==> ResolveGroup(p, input).Err?
      ensures decision.Ok? ==>
                var Decision(action, group, peers) := decision.value;
                && group == ResolveGroup(p, input).value
                && (forall r :: r in peers <==> r in runs && Collides(p, group, r))
                && (action.Proceed? <==> forall r :: r in runs ==> !Collides(p, group, r))
                && (action.Skip? ==> p.mode.SkipIfRunning?)
                && (action.CancelPeers? ==> p.mode.Grouped? && p.cancelRunning)
                && (action.QueueBehind? ==> p.mode.Serial? || (p.mode.Grouped? && !p.cancelRunning))
    {
      if !p.mode.Unlimited? && ResolveGroup(p, input).Ok? {
        PeersMembers(State(), p, ResolveGroup(p, input).value);
        PeersCollide(State(), p, input);
      }
      if p.mode.Unlimited? {
        return Ok(Decision(Proceed, "", []));
      }
      var group := ResolveGroup(p, input);
      if group.Err? {
        return Err(group.message);
      }
      var peers: seq<Run>;
      match p.mode {
        case Grouped => peers := ActiveByGroup(runs, group.value);
        case _ => peers := ActiveByPipeline(runs, p.id);
      }
      if |peers| == 0 {
        return Ok(Decision(Proceed, group.value, []));
      }
      if p.mode.SkipIfRunning? {
        decision := Ok(Decision(Skip, group.value, peers));
      } else if p.mode.Grouped? && p.cancelRunning {
        decision := Ok(Decision(CancelPeers, group.value, peers));
      } else {
        decision := Ok(Decision(QueueBehind, group.value, peers));
      }
    }

    method AdmitRun(p: Pipeline, trigger: TriggerType, input: TriggerInput)
      returns (id: nat, terminal: bool, queueOnly: bool)
      modifies this`runs, this`nextId, this`cancelled
      ensures Admitted(State(), id, terminal, queueOnly) == Admission.AdmitRun(old(State()), p, trigger, input)
      ensures old(Ordered(runs, nextId, clock)) ==>
                var keyed := ResolveGroup(p, input).Ok?;
                var blocked := SomethingInTheWay(old(State()), p, input);
                && (terminal <==> !keyed || (p.mode.SkipIfRunning? && blocked))
                && (queueOnly <==> keyed && blocked && (p.mode.Serial? || (p.mode.Grouped? && !p.cancelRunning)))
    {
      if Ordered(runs, nextId, clock) {
        AdmitOutcome(State(), p, trigger, input);
      }
      var decision := ResolveConcurrency(p, input);
      if decision.Err? {
        id := SaveRunWithStatus(p.id, trigger, input, "", Failed, Message(decision.message));
        return id, true, false;
      }
      var d := decision.value;
      if d.action.Skip? {
        id := SaveRunWithStatus(p.id, trigger, input, d.group, RunStatus.Skipped, SkippedBehind(d.peers[0].id));
        return id, true, false;
      }
      id := SaveRunWithStatus(p.id, trigger, input, d.group, Queued, NoReason);
      if d.action.CancelPeers? {
        SupersedePeers(d.peers, id);
      }
      terminal, queueOnly := false, d.action.QueueBehind?;
    }

    method DispatchRun(id: nat)
      modifies this`runs, this`inFlight, this`executing, this`cancelled
      ensures State() == Admission.DispatchRun(old(State()), id)
    {
      inFlight := inFlight + 1;
      executing := executing + {id};
      cancelled := cancelled - {id};
      var _ := UpdateRunStatus(id, Running, NoReason);
    }

    method DispatchOrQueue(id: nat, queueOnly: bool) returns (dispatched: bool)
      modifies this`runs, this`inFlight, this`executing, this`cancelled
      ensures dispatched == (!queueOnly && old(CanExecute(State())))
      ensures State() == Admission.DispatchOrQueue(old(State()), id, queueOnly)
    {
      if !queueOnly && inFlight < maxInFlight {
        DispatchRun(id);
        return true;
      }
      dispatched := false;
    }

    /** None stands for ErrQueueFull. */
    method TriggerPipeline(p: Pipeline, trigger: TriggerType, input: TriggerInput) returns (run: Option<nat>)
      modifies this
      ensures State() == Trigger(old(State()), p, trigger, input)
      ensures run == if old(HasRoom(State())) then Some(old(nextId)) else None
      ensures run.None? ==> State() == old(State())
      ensures old(Ordered(runs, nextId, clock)) && run.Some? ==>
                && |runs| == old(|runs|) + 1 && runs[old(|runs|)].id == run.value
                && (runs[old(|runs|)].status.Running? <==> old(inFlight) < maxInFlight && NeedNotWait(old(State()), p, input))
    {
      ghost var s := State();
      AcceptsExactly(s);
      if Ordered(s.runs, s.nextId, s.clock) {
        TriggerOutcome(s, p, trigger, input);
      }
      var queued := ByStatus(runs, Queued);
      if !(inFlight < maxInFlight || (maxQueueSize > 0 && |queued| < maxQueueSize)) {
        return None;
      }
      var id, terminal, queueOnly := AdmitRun(p, trigger, input);
      run := Some(id);
      if terminal {
        return;
      }
      var _ := DispatchOrQueue(id, queueOnly);
    }

    /** The admission part of RunByNameSync; None when the run is rejected. No slot is taken. */
    method RunByNameSync(p: Pipeline, input: TriggerInput) returns (run: Option<nat>)
      modifies this
      ensures State() == SyncRun(old(State()), p, input)
      ensures inFlight == old(inFlight) && executing == old(executing)
      ensures syncing == old(syncing) + (if run.Some? then {run.value} else {})
      ensures run.Some? ==> run.value == old(nextId)
      ensures old(Ordered(runs, nextId, clock)) ==>
                && Answered(old(runs), runs, old(nextId), run.Some?)
                && (MustWait(old(State()), p, input) ==> runs[old(|runs|)].error == SyncGroupBusy)
      ensures old(Safe(State())) && KeyFree(p, input) ==> Safe(State())
    {
      ghost var s := State();
      var id, terminal, queueOnly := AdmitRun(p, Cli, input);
      if Ordered(s.runs, s.nextId, s.clock) {
        SyncEnds(s, p, input);
      }
      if Safe(s) && KeyFree(p, input) {
        SyncSafe(s, p, input);
      }
      if terminal {
        return None;
      }
      if queueOnly {
        var _ := UpdateRunStatus(id, Failed, SyncGroupBusy);
        return None;
      }
      syncing := syncing + {id};
      var _ := UpdateRunStatus(id, Running, NoReason);
      run := Some(id);
    }

    method BusyConcurrencyGroups() returns (busy: set<string>)
      ensures busy == BusyGroups(runs) && HeldGroups(runs, true, busy)
    {
      var running := ByStatus(runs, Running);
      ByStatusMembers(runs, Running);
      busy := {};
      for i := 0 to |running|
        invariant busy == BusyGroups(running[..i])
      {
        assert running[i] in running;
        assert running[..i + 1] == running[..i] + [running[i]];
        if running[i].group == "" {
          continue;
        }
        busy := busy + {running[i].group};
      }
      assert running[..|running|] == running;
    }

    method DispatchQueuedRun(run: Run, existing: set<string>)
      modifies this`runs, this`inFlight, this`executing, this`cancelled
      ensures State() == Admission.DispatchQueuedRun(old(State()), run, existing)
    {
      if run.pipeline !in existing {
        var _ := UpdateRunStatus(run.id, Failed, PipelineNotFound);
        return;
      }
      DispatchRun(run.id);
    }

    /** One pass over the queue takes exactly the entries the greedy rule names. */
    method DispatchEligible(queue: seq<Run>, initiallyBusy: set<string>, existing: set<string>) returns (dispatched: nat)
      modifies this`runs, this`inFlight, this`executing, this`cancelled
      ensures (State(), dispatched) == Admission.DispatchEligible(old(State()), queue, initiallyBusy, existing)
      ensures var picks := Picks(old(FreeSlots(State())), queue, initiallyBusy, existing);
              && Greedy(old(FreeSlots(State())), queue, initiallyBusy, existing, picks)
              && State() == DispatchPicked(old(State()), queue, picks, existing)
              && dispatched == CountTrue(picks)
    {
      DispatchRefinesPicks(State(), queue, initiallyBusy, existing);
      PicksAreGreedy(FreeSlots(State()), queue, initiallyBusy, existing);
      var busy := initiallyBusy;
      dispatched := 0;
      var i := 0;
      while i < |queue|
        invariant 0 <= i <= |queue|
        invariant var (t, n) := Admission.DispatchEligible(State(), queue[i..], busy, existing);
                  (t, dispatched + n) == Admission.DispatchEligible(old(State()), queue, initiallyBusy, existing)
      {
        if !(inFlight < maxInFlight) {
          break;
        }
        assert queue[i..][0] == queue[i] && queue[i..][1..] == queue[i + 1..];
        var group := queue[i].group;
        i := i + 1;
        if group != "" && group in busy {
          continue;
        }
        DispatchQueuedRun(queue[i - 1], existing);
        dispatched := dispatched + 1;
        if group != "" {
          busy := busy + {group};
        }
      }
    }

    /** `lookup` is false when the busy-group query fails. The entries taken are those of the
        greedy rule over the queued runs, newest first, and the groups of running runs. */
    method ProcessQueueTick(existing: set<string>, lookup: bool)
      returns (dispatched: nat, ghost queue: seq<Run>, ghost busy: set<string>, ghost picks: seq<bool>)
      modifies this`runs, this`inFlight, this`executing, this`cancelled
      ensures State() == QueueTick(old(State()), existing, lookup)
      ensures HeldGroups(old(runs), lookup, busy)
      ensures old(Ordered(runs, nextId, clock)) ==>
                && NewestFirst(old(runs), queue)
                && Greedy(SlotsLeft(old(State())), queue, busy, existing, picks)
                && Ticked(old(State()), State(), queue, picks, existing)
                && inFlight == old(inFlight) + SlotsUsed(picks, queue, existing, |queue|)
                && executing == old(executing) + Started(queue, picks, existing)
                && dispatched == multiset(picks)[true]
      ensures old(Safe(State())) && lookup ==> Safe(State())
    {
      ghost var s := State();
      var queued := ByStatus(runs, Queued);
      queue := queued;
      busy := if lookup then BusyGroups(runs) else {};
      picks := Picks(SlotsLeft(s), queue, busy, existing);
      PicksAreGreedy(SlotsLeft(s), queue, busy, existing);
      if Ordered(s.runs, s.nextId, s.clock) {
        QueueIsNewestFirst(s.runs, s.nextId, s.clock);
        TickIsGreedy(s, existing, lookup, queue, busy, picks);
      }
      if Safe(s) && lookup {
        TickSafe(s, existing);
      }
      if |queued| == 0 {
        return 0, queue, busy, picks;
      }
      var held := {};
      if lookup {
        held := BusyConcurrencyGroups();
      }
      dispatched := DispatchEligible(queued, held, existing);
    }

    /** finalizeExecRun, then the deferred release of slot and registry entry. */
    method FinalizeExecRun(id: nat, outcome: RunStatus, message: Reason)
      requires id in executing && outcome.IsTerminal()
      modifies this`runs, this`inFlight, this`executing, this`cancelled
      ensures State() == Finish(old(State()), id, outcome, message)
      ensures Concluded(old(runs), runs, id, id in old(cancelled), outcome, message)
      ensures inFlight == old(inFlight) - 1 && id !in executing && id !in cancelled
      ensures old(inFlight == |executing|) ==> inFlight == |executing|
      ensures old(Safe(State())) ==> Safe(State())
    {
      ghost var s := State();
      if id in cancelled {
        var _ := UpdateRunStatus(id, Failed, StoppedByUser);
      } else {
        var _ := UpdateRunStatus(id, outcome, message);
      }
      executing := executing - {id};
      cancelled := cancelled - {id};
      inFlight := inFlight - 1;
      FinishConcludes(s, id, outcome, message);
      if Safe(s) {
        FinishSafe(s, id, outcome, message);
      }
    }

    /** finalizeSyncRun, then the removal of the registry entry: whether the run was stopped
        is not looked at. */
    method FinalizeSyncRun(id: nat, outcome: RunStatus, message: Reason)
      requires id in syncing && outcome.IsTerminal()
      modifies this`runs, this`syncing, this`cancelled
      ensures State() == FinishSync(old(State()), id, outcome, message)
      ensures Written(old(runs), runs, id, outcome, message) && id !in syncing
      ensures old(Safe(State())) ==> Safe(State())
    {
      ghost var s := State();
      var _ := UpdateRunStatus(id, outcome, message);
      syncing := syncing - {id};
      cancelled := cancelled - {id};
      if Safe(s) {
        OtherStatusSafe(s, id, outcome, message);
      }
    }

    /** A resumed run is running in a slot of its own or queued, whatever it was before;
        a refused resume changes nothing. */
    method ResumePipeline(id: nat) returns (outcome: Resumption)
      modifies this`runs, this`inFlight, this`executing, this`cancelled
      ensures (State(), outcome) == Admission.ResumePipeline(old(State()), id)
      ensures outcome.Resumed? <==> old(HasRoom(State())) && Stored(old(runs), id)
      ensures outcome.QueueFull? <==> !old(HasRoom(State()))
      ensures !outcome.Resumed? ==> State() == old(State())
      ensures outcome.Resumed? ==>
                var starts := old(inFlight) < maxInFlight;
                && Revived(old(runs), runs, id, if starts then Running else Queued)
                && inFlight == old(inFlight) + (if starts then 1 else 0)
                && (if starts then id in executing && id !in cancelled else executing == old(executing))
      ensures old(Safe(State())) && !(old(CanExecute(State())) && GroupHeldByOther(old(runs), id)) ==> Safe(State())
    {
      ghost var s := State();
      AcceptsExactly(s);
      var queued := ByStatus(runs, Queued);
      if !(inFlight < maxInFlight || (maxQueueSize > 0 && |queued| < maxQueueSize)) {
        return QueueFull;
      }
      var found := UpdateRunStatus(id, Queued, NoReason);
      if !found {
        assert forall i :: 0 <= i < |runs| ==> old(runs)[i] in old(runs);
        assert runs == old(runs);
        return RunNotFound;
      }
      if inFlight < maxInFlight {
        DispatchRun(id);
      }
      outcome := Resumed;
      ResumeRevives(s, id);
      if Safe(s) && !(CanExecute(s) && GroupHeldByOther(s.runs, id)) {
        ResumeSafe(s, id);
      }
    }

    /** The boot sweep over runs that were in flight when the process died. */
    method RecoverOrphanedRuns(existing: set<string>, resumable: set<string>)
      modifies this
      ensures State() == Restart(old(State()), existing, resumable)
      ensures old(Ordered(runs, nextId, clock)) ==> AllSettled(old(runs), State(), existing, resumable)
      ensures old(Safe(State())) ==> Safe(State())
    {
      ghost var s := State();
      var orphans := ByStatus(runs, Running);
      inFlight, executing, syncing, cancelled := 0, {}, {}, {};
      for i := 0 to |orphans|
        invariant RecoverRuns(State(), orphans[i..], existing, resumable) == old(Restart(State(), existing, resumable))
      {
        assert orphans[i..][1..] == orphans[i + 1..];
        if orphans[i].pipeline !in existing {
          var _ := UpdateRunStatus(orphans[i].id, Failed, PipelineLost);
        } else if orphans[i].pipeline in resumable {
          var outcome := ResumePipeline(orphans[i].id);
          if !outcome.Resumed? {
            var _ := UpdateRunStatus(orphans[i].id, Failed, ResumeRefused);
          }
        } else {
          var _ := UpdateRunStatus(orphans[i].id, Failed, ServerRestarted);
        }
      }
      if Ordered(s.runs, s.nextId, s.clock) {
        RestartSettles(s, existing, resumable);
      }
      if Safe(s) {
        RestartSafe(s, existing, resumable);
      }
    }
  }
}
