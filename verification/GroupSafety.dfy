/** Concurrency groups over whole histories: at most one run of a non-empty group is
    ever running, for every sequence of triggers, queue ticks, completions, stops,
    synchronous runs, deletions, restarts and guarded resumes. */
module GroupSafety {
  import opened Runs
  import opened Admission
  import opened QueueOrder
  import opened GroupInvariant
  import opened AdmissionEffects
  import opened FailedLookup

  // -------------------------------------------------------------------- steps

  datatype Step =
    | Triggered(p: Pipeline, trigger: TriggerType, input: TriggerInput)
    | Synchronous(p: Pipeline, input: TriggerInput)
    | Tick(existing: set<string>, lookup: bool)
    | End(id: nat, outcome: RunStatus, message: Reason)
    | EndSync(id: nat, outcome: RunStatus, message: Reason)
    | Stop(id: nat)
    | Resume(id: nat)
    | Boot(existing: set<string>, resumable: set<string>)
    | Delete(pipeline: string, keep: set<nat>)
    | Elapse(time: nat)

  function Apply(s: Service, step: Step): Service {
    match step
    case Triggered(p, trigger, input) => Trigger(s, p, trigger, input)
    case Synchronous(p, input) => SyncRun(s, p, input)
    case Tick(existing, lookup) => QueueTick(s, existing, lookup)
    case End(id, outcome, message) => Finish(s, id, outcome, message)
    case EndSync(id, outcome, message) => FinishSync(s, id, outcome, message)
    case Stop(id) => StopRun(s, id)
    case Resume(id) => ResumePipeline(s, id).0
    case Boot(existing, resumable) => Restart(s, existing, resumable)
    case Delete(pipeline, keep) => Prune(s, pipeline, keep)
    case Elapse(time) => s.(clock := s.clock + time)
  }

  /** When the system can take the step at all. */
  predicate Enabled(s: Service, step: Step) {
    match step
    case End(id, outcome, _) => id in s.executing && outcome.IsTerminal()
    case EndSync(id, outcome, _) => id in s.syncing && outcome.IsTerminal()
    case _ => true
  }

  /** A group template never renders another pipeline's reserved key. */
  predicate KeyFree(p: Pipeline, input: TriggerInput) {
    p.mode.Grouped? && input.rendered.Ok? ==> OwnKey(p.id, input.rendered.value)
  }

  /** The conditions under which a step keeps groups exclusive. */
  ghost predicate Guarded(s: Service, step: Step) {
    match step
    case Triggered(p, _, input) => KeyFree(p, input)
    case Synchronous(p, input) => KeyFree(p, input)
    case Tick(existing, lookup) => lookup || !StartsHeldGroup(s, existing)
    case Resume(id) => CanExecute(s) ==> !GroupHeldByOther(s.runs, id)
    case _ => true
  }

  function RunSteps(s: Service, steps: seq<Step>): Service
    decreases |steps|
  {
    if steps == [] then s else RunSteps(Apply(s, steps[0]), steps[1..])
  }

  /** Every step is possible and guarded at the state it is taken in. */
  ghost predicate History(s: Service, steps: seq<Step>)
    decreases |steps|
  {
    steps == [] ||
    (Enabled(s, steps[0]) && Guarded(s, steps[0]) && History(Apply(s, steps[0]), steps[1..]))
  }

  function Fresh(maxInFlight: nat, maxQueueSize: int): Service {
    Service([], 0, 0, 0, {}, {}, {}, maxInFlight, maxQueueSize)
  }

  // ------------------------------------------------------ each step is safe

  lemma AdmitSafe(s: Service, p: Pipeline, trigger: TriggerType, input: TriggerInput)
    requires Safe(s) && KeyFree(p, input)
    ensures var a := AdmitRun(s, p, trigger, input);
            Safe(a.service) && (!a.terminal && !a.queueOnly ==> !GroupHeldByOther(a.service.runs, a.id))
  {
    AdmitKeepsKeys(s, p, trigger, input);
    AdmitKeepsGroups(s, p, trigger, input);
    var a := AdmitRun(s, p, trigger, input);
    AdmitNewRun(s, p, trigger, input);
    if !a.terminal && !a.queueOnly {
      forall i | 0 <= i < |s.runs| && a.service.runs[i].status.IsActive()
                 && a.service.runs[i].group == a.service.runs[|s.runs|].group
        ensures a.service.runs[i].group == ""
      {
        AdmitFindsGroupFree(s, p, trigger, input, i);
      }
    }
  }

  /** One more record, and the old ones unchanged but for their status. */
  lemma RecordsStayOrdered(s: Service, t: Service)
    requires Ordered(s.runs, s.nextId, s.clock) && KeysOwned(s.runs)
    requires |t.runs| == |s.runs| + 1 && t.nextId == s.nextId + 1 && t.clock == s.clock
    requires forall i :: 0 <= i < |s.runs| ==> SameIdentity(s.runs[i], t.runs[i])
    requires var r := t.runs[|s.runs|]; r.id == s.nextId && r.created == s.clock && OwnKey(r.pipeline, r.group)
    ensures Ordered(t.runs, t.nextId, t.clock) && KeysOwned(t.runs)
  {
    forall i | 0 <= i < |s.runs|
      ensures t.runs[i].id == s.runs[i].id && t.runs[i].created == s.runs[i].created
      ensures OwnKey(t.runs[i].pipeline, t.runs[i].group)
    {
      assert SameIdentity(s.runs[i], t.runs[i]);
    }
  }

  lemma AdmitKeepsKeys(s: Service, p: Pipeline, trigger: TriggerType, input: TriggerInput)
    requires Safe(s) && KeyFree(p, input)
    ensures var t := AdmitRun(s, p, trigger, input).service; Ordered(t.runs, t.nextId, t.clock) && KeysOwned(t.runs)
  {
    var t := AdmitRun(s, p, trigger, input).service;
    AdmitRecords(s, p, trigger, input);
    AdmitNewRun(s, p, trigger, input);
    forall i | 0 <= i < |s.runs| ensures SameIdentity(s.runs[i], t.runs[i]) {
      assert t.runs[i] == AfterAdmission(p, input, s.nextId, s.runs[i]);
    }
    RecordsStayOrdered(s, t);
  }

  lemma AdmitKeepsGroups(s: Service, p: Pipeline, trigger: TriggerType, input: TriggerInput)
    requires Exclusive(s)
    ensures OnePerGroup(AdmitRun(s, p, trigger, input).service.runs)
  {
    var t := AdmitRun(s, p, trigger, input).service;
    AdmitRecords(s, p, trigger, input);
    AdmitNewRun(s, p, trigger, input);
    forall i, j | 0 <= i < j < |t.runs| && Clash(t.runs[i], t.runs[j]) ensures t.runs[i].group == "" {
      assert Clash(s.runs[i], s.runs[j]);
    }
  }

  lemma DispatchSafe(s: Service, id: nat)
    requires Exclusive(s) && !GroupHeldByOther(s.runs, id)
    ensures StaysExclusive(s, DispatchRun(s, id))
  {
    SettingRunning(s.runs, id, s.nextId, s.clock);
    OrderedUnderStatuses(s.runs, DispatchRun(s, id).runs, s.nextId, s.clock);
  }

  lemma OtherStatusSafe(s: Service, id: nat, to: RunStatus, message: Reason)
    requires Exclusive(s) && !to.Running?
    ensures StaysExclusive(s, SetStatus(s, id, to, message))
  {
    SettingOther(s.runs, id, to, message);
    OrderedUnderStatuses(s.runs, UpdateStatus(s.runs, id, to, message), s.nextId, s.clock);
  }

  lemma FinishSafe(s: Service, id: nat, outcome: RunStatus, message: Reason)
    requires Exclusive(s) && !outcome.Running?
    ensures StaysExclusive(s, Finish(s, id, outcome, message))
  {
    OtherStatusSafe(s, id, Failed, StoppedByUser);
    OtherStatusSafe(s, id, outcome, message);
  }

  lemma TriggerSafe(s: Service, p: Pipeline, trigger: TriggerType, input: TriggerInput)
    requires Safe(s) && KeyFree(p, input)
    ensures Safe(Trigger(s, p, trigger, input))
  {
    AdmitSafe(s, p, trigger, input);
    var a := AdmitRun(s, p, trigger, input);
    if !a.terminal && !a.queueOnly && CanExecute(a.service) {
      DispatchSafe(a.service, a.id);
    }
  }

  lemma SyncSafe(s: Service, p: Pipeline, input: TriggerInput)
    requires Safe(s) && KeyFree(p, input)
    ensures Safe(SyncRun(s, p, input))
  {
    AdmitSafe(s, p, Cli, input);
    var a := AdmitRun(s, p, Cli, input);
    if a.terminal {
    } else if a.queueOnly {
      OtherStatusSafe(a.service, a.id, Failed, SyncGroupBusy);
    } else {
      DispatchSafe(a.service, a.id);
    }
  }

  lemma TickSafe(s: Service, existing: set<string>)
    requires Exclusive(s)
    ensures StaysExclusive(s, QueueTick(s, existing, true))
  {
    QueueIsSnapshot(s, Queued);
    DispatchKeepsGroups(s, ByStatus(s.runs, Queued), BusyGroups(s.runs), existing);
    DispatchFrame(s, ByStatus(s.runs, Queued), BusyGroups(s.runs), existing);
    OrderedUnderStatuses(s.runs, QueueTick(s, existing, true).runs, s.nextId, s.clock);
  }

  lemma ResumeSafe(s: Service, id: nat)
    requires Exclusive(s) && (CanExecute(s) ==> !GroupHeldByOther(s.runs, id))
    ensures StaysExclusive(s, ResumePipeline(s, id).0)
  {
    if CanAccept(s) {
      var t := SetStatus(s, id, Queued, NoReason);
      OtherStatusSafe(s, id, Queued, NoReason);
      if CanExecute(t) {
        assert forall i :: 0 <= i < |s.runs| ==> SameIdentity(s.runs[i], t.runs[i]);
        DispatchSafe(t, id);
      }
    }
  }

  // ----------------------------------------------------------- restart, prune

  /** The same records as `base`, none of them running that was not. */
  ghost predicate RunningWithin(base: seq<Run>, runs: seq<Run>) {
    StatusesOnly(base, runs) && forall i :: 0 <= i < |runs| && runs[i].status.Running? ==> base[i].status.Running?
  }

  /** The boot sweep never starts a run that was not running before the restart. */
  lemma {:induction false} RecoveryStartsNothing(base: seq<Run>, s: Service, orphans: seq<Run>, existing: set<string>,
                                                 resumable: set<string>)
    requires RunningWithin(base, s.runs)
    requires forall i, o :: 0 <= i < |base| && o in orphans && o.id == base[i].id ==> base[i].status.Running?
    ensures var t := RecoverRuns(s, orphans, existing, resumable);
            RunningWithin(base, t.runs) && t.nextId == s.nextId && t.clock == s.clock
    decreases |orphans|
  {
    if orphans != [] {
      var t := RecoverRun(s, orphans[0], existing, resumable);
      assert orphans[0] in orphans;
      forall i | 0 <= i < |base| ensures SameIdentity(base[i], t.runs[i]) {
        assert SameIdentity(base[i], s.runs[i]);
      }
      RecoveryStartsNothing(base, t, orphans[1..], existing, resumable);
    }
  }

  lemma RestartSafe(s: Service, existing: set<string>, resumable: set<string>)
    requires Exclusive(s)
    ensures StaysExclusive(s, Restart(s, existing, resumable))
  {
    var booted := s.(inFlight := 0, executing := {}, syncing := {}, cancelled := {});
    ByStatusMembers(s.runs, Running);
    RecoveryStartsNothing(s.runs, booted, ByStatus(s.runs, Running), existing, resumable);
    var t := Restart(s, existing, resumable);
    OrderedUnderStatuses(s.runs, t.runs, s.nextId, s.clock);
    forall i, j | 0 <= i < j < |t.runs| && Clash(t.runs[i], t.runs[j]) ensures t.runs[i].group == "" {
      assert SameIdentity(s.runs[i], t.runs[i]) && SameIdentity(s.runs[j], t.runs[j]);
      assert Clash(s.runs[i], s.runs[j]);
    }
  }

  lemma PruneSafe(s: Service, pipeline: string, keep: set<nat>)
    requires Exclusive(s)
    ensures StaysExclusive(s, Prune(s, pipeline, keep))
  {
    var kept := (r: Run) => r.pipeline != pipeline || r.id in keep;
    FilterMembers(kept, s.runs);
    FilterPairwise(kept, (a: Run, b: Run) => a.id < b.id && a.created <= b.created, s.runs);
    FilterPairwise(kept, (a: Run, b: Run) => Clash(a, b) ==> a.group == "", s.runs);
    var f := Filter(kept, s.runs);
    forall i | 0 <= i < |f| ensures f[i] in s.runs { assert f[i] in f; }
  }

  // -------------------------------------------------------------------- runs

  lemma StepSafe(s: Service, step: Step)
    requires Safe(s) && Enabled(s, step) && Guarded(s, step)
    ensures Safe(Apply(s, step))
  {
    match step
    case Triggered(p, trigger, input) => TriggerSafe(s, p, trigger, input);
    case Synchronous(p, input) => SyncSafe(s, p, input);
    case Tick(existing, lookup) =>
      if lookup { TickSafe(s, existing); } else { BlindTickExact(s, existing); }
    case End(id, outcome, message) => FinishSafe(s, id, outcome, message);
    case EndSync(id, outcome, message) => OtherStatusSafe(s, id, outcome, message);
    case Stop(id) => OtherStatusSafe(s, id, Failed, StoppedByUser);
    case Resume(id) => ResumeSafe(s, id);
    case Boot(existing, resumable) => RestartSafe(s, existing, resumable);
    case Delete(pipeline, keep) => PruneSafe(s, pipeline, keep);
    case Elapse(_) =>
  }

  /** At most one running run per non-empty group, in every state of every history. */
  lemma {:induction false} GroupsStayExclusive(s: Service, steps: seq<Step>)
    requires Safe(s) && History(s, steps)
    ensures Safe(RunSteps(s, steps))
    decreases |steps|
  {
    if steps != [] {
      StepSafe(s, steps[0]);
      GroupsStayExclusive(Apply(s, steps[0]), steps[1..]);
    }
  }
}
