/** What exclusive groups mean for one pipeline and for one group: a serial pipeline
    never overlaps itself, and a group entered only by cancel-running triggers never
    holds two active runs. */
module GroupHistories {
  import opened Runs
  import opened Admission
  import opened QueueOrder
  import opened GroupInvariant
  import opened AdmissionEffects
  import opened GroupSafety

  // ------------------------------------------------------- classes of steps

  /** The same records, none of them active that was not. */
  ghost predicate ActiveWithin(base: seq<Run>, runs: seq<Run>) {
    StatusesOnly(base, runs) && forall i :: 0 <= i < |runs| && runs[i].status.IsActive() ==> base[i].status.IsActive()
  }

  predicate Admits(step: Step) { step.Triggered? || step.Synchronous? }

  /** Steps that add no record, delete none and revive none. */
  predicate Quiet(step: Step) { !Admits(step) && !step.Resume? && !step.Delete? }

  lemma {:induction false} DispatchRevivesNothing(s: Service, queue: seq<Run>, busy: set<string>, existing: set<string>)
    ensures ActiveWithin(s.runs, DispatchEligible(s, queue, busy, existing).0.runs)
    decreases |queue|
  {
    if queue == [] || !CanExecute(s) {
    } else if Blocked(queue[0].group, busy) {
      DispatchRevivesNothing(s, queue[1..], busy, existing);
    } else {
      var t := DispatchQueuedRun(s, queue[0], existing);
      var u := DispatchEligible(t, queue[1..], Hold(busy, queue[0].group), existing).0;
      DispatchRevivesNothing(t, queue[1..], Hold(busy, queue[0].group), existing);
    }
  }

  lemma QuietRevivesNothing(s: Service, step: Step)
    requires Ordered(s.runs, s.nextId, s.clock) && Enabled(s, step) && Quiet(step)
    ensures ActiveWithin(s.runs, Apply(s, step).runs)
  {
    match step
    case Tick(existing, lookup) =>
      DispatchRevivesNothing(s, ByStatus(s.runs, Queued), if lookup then BusyGroups(s.runs) else {}, existing);
    case Boot(existing, resumable) =>
      var booted := s.(inFlight := 0, executing := {}, syncing := {}, cancelled := {});
      ByStatusMembers(s.runs, Running);
      RecoveryRevivesNothing(s.runs, booted, ByStatus(s.runs, Running), existing, resumable);
    case End(_, _, _) =>
    case EndSync(_, _, _) =>
    case Stop(_) =>
    case Elapse(_) =>
  }

  lemma {:induction false} RecoveryRevivesNothing(base: seq<Run>, s: Service, orphans: seq<Run>, existing: set<string>,
                                                  resumable: set<string>)
    requires ActiveWithin(base, s.runs)
    requires forall i, o :: 0 <= i < |base| && o in orphans && o.id == base[i].id ==> base[i].status.Running?
    ensures ActiveWithin(base, RecoverRuns(s, orphans, existing, resumable).runs)
    decreases |orphans|
  {
    if orphans != [] {
      var t := RecoverRun(s, orphans[0], existing, resumable);
      assert orphans[0] in orphans;
      forall i | 0 <= i < |base| ensures SameIdentity(base[i], t.runs[i]) {
        assert SameIdentity(base[i], s.runs[i]);
      }
      RecoveryRevivesNothing(base, t, orphans[1..], existing, resumable);
    }
  }

  function TriggerOf(step: Step): TriggerType
    requires Admits(step)
  {
    if step.Triggered? then step.trigger else Cli
  }

  /** `t` is `s` after an accepted admission: the older records as admission leaves
      them, and one new record. */
  ghost predicate Appended(s: Service, step: Step, t: Service)
    requires Admits(step)
  {
    && |t.runs| == |s.runs| + 1
    && t.nextId == s.nextId + 1 && t.clock == s.clock
    && (forall i :: 0 <= i < |s.runs| ==> t.runs[i] == AfterAdmission(step.p, step.input, s.nextId, s.runs[i]))
    && var r := t.runs[|s.runs|];
    && r == Run(s.nextId, step.p.id, r.status, TriggerOf(step), step.input.jobs, step.input.upstream,
                r.group, r.error, s.clock)
    && !r.status.Success?
    && (ResolveGroup(step.p, step.input).Ok? ==> r.group == ResolveGroup(step.p, step.input).value)
    && (ResolveGroup(step.p, step.input).Err? ==> r.group == "")
  }

  lemma AdmissionAppends(s: Service, step: Step)
    requires Ordered(s.runs, s.nextId, s.clock) && Admits(step)
    ensures if step.Triggered? && !CanAccept(s) then Apply(s, step) == s else Appended(s, step, Apply(s, step))
  {
    AdmitRecords(s, step.p, TriggerOf(step), step.input);
    AdmitNewRun(s, step.p, TriggerOf(step), step.input);
    var a := AdmitRun(s, step.p, TriggerOf(step), step.input);
    forall i | 0 <= i < |s.runs| ensures a.service.runs[i].id == s.runs[i].id < s.nextId {}
  }

  // --------------------------------------------------------- serial pipelines

  /** Every admission of the pipeline is in serial or skip-if-running mode. */
  predicate SerialStep(pipeline: string, step: Step) {
    Admits(step) && step.p.id == pipeline ==> step.p.mode.Serial? || step.p.mode.SkipIfRunning?
  }

  ghost predicate AllKeyed(runs: seq<Run>, pipeline: string) {
    forall i :: 0 <= i < |runs| && runs[i].pipeline == pipeline ==> runs[i].group == PipelineKey(pipeline)
  }

  lemma AppendKeepsKeys(s: Service, step: Step, t: Service, pipeline: string)
    requires Admits(step) && Appended(s, step, t) && SerialStep(pipeline, step) && AllKeyed(s.runs, pipeline)
    ensures AllKeyed(t.runs, pipeline)
  {
    forall i | 0 <= i < |s.runs| ensures SameIdentity(s.runs[i], t.runs[i]) {}
  }

  lemma StepKeepsKeys(s: Service, step: Step, pipeline: string)
    requires Safe(s) && Enabled(s, step) && SerialStep(pipeline, step) && AllKeyed(s.runs, pipeline)
    ensures AllKeyed(Apply(s, step).runs, pipeline)
  {
    var t := Apply(s, step);
    if Admits(step) {
      AdmissionAppends(s, step);
      if t != s {
        AppendKeepsKeys(s, step, t, pipeline);
      }
    } else if Quiet(step) {
      QuietRevivesNothing(s, step);
      forall i | 0 <= i < |t.runs| ensures SameIdentity(s.runs[i], t.runs[i]) {}
    } else if step.Delete? {
      FilterMembers((r: Run) => r.pipeline != step.pipeline || r.id in step.keep, s.runs);
      forall i | 0 <= i < |t.runs| ensures t.runs[i] in s.runs { assert t.runs[i] in t.runs; }
    }
  }

  lemma {:induction false} HistoryKeepsKeys(s: Service, steps: seq<Step>, pipeline: string)
    requires Safe(s) && History(s, steps) && AllKeyed(s.runs, pipeline)
    requires forall k :: 0 <= k < |steps| ==> SerialStep(pipeline, steps[k])
    ensures AllKeyed(RunSteps(s, steps).runs, pipeline)
    decreases |steps|
  {
    if steps != [] {
      StepSafe(s, steps[0]);
      StepKeepsKeys(s, steps[0], pipeline);
      HistoryKeepsKeys(Apply(s, steps[0]), steps[1..], pipeline);
    }
  }

  /** A pipeline that is only ever admitted in serial or skip-if-running mode never
      has two running runs. */
  lemma SerialPipelineNeverOverlaps(maxInFlight: nat, maxQueueSize: int, steps: seq<Step>, pipeline: string)
    requires History(Fresh(maxInFlight, maxQueueSize), steps)
    requires forall k :: 0 <= k < |steps| ==> SerialStep(pipeline, steps[k])
    ensures var runs := RunSteps(Fresh(maxInFlight, maxQueueSize), steps).runs;
            forall i, j :: 0 <= i < j < |runs| && runs[i].pipeline == pipeline && runs[j].pipeline == pipeline ==>
              !(runs[i].status.Running? && runs[j].status.Running?)
  {
    var s := Fresh(maxInFlight, maxQueueSize);
    GroupsStayExclusive(s, steps);
    HistoryKeepsKeys(s, steps, pipeline);
    var runs := RunSteps(s, steps).runs;
    forall i, j | 0 <= i < j < |runs| && runs[i].pipeline == pipeline && runs[j].pipeline == pipeline
      ensures !(runs[i].status.Running? && runs[j].status.Running?)
    {
      assert PipelineKey(pipeline) != "";
      assert !Clash(runs[i], runs[j]);
    }
  }

  // ---------------------------------------------------- cancel-running groups

  /** A cancel-running trigger that is accepted: its run is the only active one of the
      group, running peers became failed, queued peers skipped, all else unchanged. */
  lemma CancelRunningTakesOver(s: Service, p: Pipeline, trigger: TriggerType, input: TriggerInput)
    requires Safe(s) && CanAccept(s) && p.mode.Grouped? && p.cancelRunning && ResolveGroup(p, input).Ok?
    ensures var group := ResolveGroup(p, input).value;
            var t := Trigger(s, p, trigger, input);
            var n := |s.runs|;
            && |t.runs| == n + 1
            && t.runs[n].group == group && t.runs[n].id == s.nextId
            && t.runs[n].status == (if CanExecute(s) then Running else Queued)
            && forall i :: 0 <= i < n ==>
                 var r := s.runs[i];
                 && !(t.runs[i].group == group && t.runs[i].status.IsActive())
                 && (r.group == group && r.status.Running? ==>
                       t.runs[i] == r.(status := Failed, error := SupersededBy(s.nextId)))
                 && (r.group == group && r.status.Queued? ==>
                       t.runs[i] == r.(status := RunStatus.Skipped, error := SupersededBy(s.nextId)))
                 && (r.group != group || !r.status.IsActive() ==> t.runs[i] == r)
  {
    AdmitRecords(s, p, trigger, input);
    AdmitNewRun(s, p, trigger, input);
    var a := AdmitRun(s, p, trigger, input);
    forall i | 0 <= i < |s.runs| ensures a.service.runs[i].id == s.runs[i].id != s.nextId {}
    assert !a.terminal && !a.queueOnly;
  }

  ghost predicate AtMostOneActive(runs: seq<Run>, group: string) {
    forall i, j :: 0 <= i < j < |runs| && runs[i].group == group && runs[j].group == group ==>
      !(runs[i].status.IsActive() && runs[j].status.IsActive())
  }

  predicate OtherActive(runs: seq<Run>, id: nat, group: string) {
    exists i, j :: 0 <= i < |runs| && 0 <= j < |runs| && runs[i].id == id && runs[i].group == group &&
                   runs[j].id != id && runs[j].group == group && runs[j].status.IsActive()
  }

  /** Every admission into the group is cancel-running, and no resume revives a run
      of it beside an active one. */
  ghost predicate CancelStep(s: Service, group: string, step: Step) {
    && (Admits(step) && ResolveGroup(step.p, step.input) == Ok(group) ==> step.p.mode.Grouped? && step.p.cancelRunning)
    && (step.Resume? ==> !OtherActive(s.runs, step.id, group))
  }

  ghost predicate CancelOnly(s: Service, group: string, steps: seq<Step>)
    decreases |steps|
  {
    steps == [] || (CancelStep(s, group, steps[0]) && CancelOnly(Apply(s, steps[0]), group, steps[1..]))
  }

  lemma AppendKeepsOneActive(s: Service, step: Step, t: Service, group: string)
    requires Admits(step) && Appended(s, step, t) && CancelStep(s, group, step)
    requires group != "" && AtMostOneActive(s.runs, group)
    ensures AtMostOneActive(t.runs, group)
  {
    var n := |s.runs|;
    forall i | 0 <= i < n && t.runs[n].group == group && t.runs[i].group == group
      ensures !t.runs[i].status.IsActive()
    {
      assert t.runs[i] == AfterAdmission(step.p, step.input, s.nextId, s.runs[i]);
    }
    forall i, j | 0 <= i < j < n && t.runs[i].group == group && t.runs[j].group == group
      ensures !(t.runs[i].status.IsActive() && t.runs[j].status.IsActive())
    {
      assert t.runs[i] == AfterAdmission(step.p, step.input, s.nextId, s.runs[i]);
      assert t.runs[j] == AfterAdmission(step.p, step.input, s.nextId, s.runs[j]);
    }
  }

  lemma StepKeepsOneActive(s: Service, step: Step, group: string)
    requires Safe(s) && Enabled(s, step) && CancelStep(s, group, step) && group != "" && AtMostOneActive(s.runs, group)
    ensures AtMostOneActive(Apply(s, step).runs, group)
  {
    var t := Apply(s, step);
    if Quiet(step) {
      QuietRevivesNothing(s, step);
      forall i | 0 <= i < |t.runs| ensures SameIdentity(s.runs[i], t.runs[i]) {}
    } else if Admits(step) {
      AdmissionAppends(s, step);
      if t != s {
        AppendKeepsOneActive(s, step, t, group);
      }
    } else if step.Delete? {
      var apart := (a: Run, b: Run) => a.group == group && b.group == group ==> !(a.status.IsActive() && b.status.IsActive());
      FilterPairwise((r: Run) => r.pipeline != step.pipeline || r.id in step.keep, apart, s.runs);
    } else {
      forall i | 0 <= i < |t.runs|
        ensures SameIdentity(s.runs[i], t.runs[i])
        ensures t.runs[i].id != step.id ==> t.runs[i] == s.runs[i] {}
    }
  }

  /** A non-empty group entered only by cancel-running triggers never holds two active runs. */
  lemma {:induction false} CancelRunningGroupHoldsOne(s: Service, steps: seq<Step>, group: string)
    requires Safe(s) && History(s, steps) && CancelOnly(s, group, steps)
    requires group != "" && AtMostOneActive(s.runs, group)
    ensures AtMostOneActive(RunSteps(s, steps).runs, group)
    decreases |steps|
  {
    if steps != [] {
      StepSafe(s, steps[0]);
      StepKeepsOneActive(s, steps[0], group);
      CancelRunningGroupHoldsOne(Apply(s, steps[0]), steps[1..], group);
    }
  }

  // ------------------------------------------------- the superseded run's message

  lemma {:induction false} SupersedeCancels(s: Service, peers: seq<Run>, newRun: nat, id: nat)
    requires id in s.executing + s.syncing
    requires id in s.cancelled || exists q :: q in peers && q.id == id && q.status.Running?
    ensures id in SupersedePeers(s, peers, newRun).cancelled
    decreases |peers|
  {
    if peers != [] {
      SupersedeCancels(SupersedePeer(s, peers[0], newRun), peers[1..], newRun, id);
    }
  }

  /** The end of a run, if it is executing or synchronous: finalizeExecRun or finalizeSyncRun. */
  function Ended(s: Service, id: nat, outcome: RunStatus, message: Reason): Service {
    if id in s.executing then Finish(s, id, outcome, message)
    else if id in s.syncing then FinishSync(s, id, outcome, message)
    else s
  }

  /** The "superseded by" message of a running peer outlasts the peer's own end exactly
      when the peer holds no slot and, if it is a synchronous run, does not fail of its
      own: the end of a cancelled execution always writes "Run stopped by user", that of
      a synchronous run never does. */
  lemma SupersededMessageLasts(s: Service, p: Pipeline, trigger: TriggerType, input: TriggerInput, i: int,
                               outcome: RunStatus, text: string)
    requires Safe(s) && 0 <= i < |s.runs| && s.runs[i].status.Running? && outcome.IsTerminal()
    requires TakenOver(p, input, s.runs[i]) && s.runs[i].group != ""
    ensures var t := AdmitRun(s, p, trigger, input).service;
            var r := s.runs[i];
            var superseded := r.(status := Failed, error := SupersededBy(s.nextId));
            var u := Ended(t, r.id, outcome, Message(text));
            && |t.runs| == |s.runs| + 1 && |u.runs| == |t.runs|
            && t.runs[i] == superseded
            && (u.runs[i] == superseded <==> r.id !in s.executing && (r.id in s.syncing ==> !outcome.Failed?))
            && (r.id in s.executing ==> u.runs[i] == r.(status := Failed, error := StoppedByUser))
            && (r.id in s.syncing - s.executing && outcome.Failed? ==>
                  u.runs[i] == r.(status := Failed, error := Message(text)))
  {
    AdmitRecords(s, p, trigger, input);
    var peers := Peers(s, p, ResolveGroup(p, input).value);
    PeersMembers(s, p, ResolveGroup(p, input).value);
    assert s.runs[i] in peers;
    var saved := SaveRun(s, p.id, trigger, input, ResolveGroup(p, input).value, Queued, NoReason);
    if s.runs[i].id in s.executing {
      SupersedeCancels(saved, peers, s.nextId, s.runs[i].id);
    }
  }
}
