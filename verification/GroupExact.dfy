/** Exactly when groups stay exclusive: for every kind of step the condition, checkable
    before the step, under which at most one run of a group is running afterwards; and,
    over whole histories, that exclusion holds throughout iff every step meets its own. */
module GroupExact {
  import opened Runs
  import opened Admission
  import opened GroupInvariant
  import opened AdmissionEffects
  import opened FailedLookup
  import opened GroupSafety

  // ----------------------------------------------------------------- admission

  /** The trigger looks its peers up by pipeline and finds none, yet a run of another
      pipeline is running under this pipeline's reserved key. */
  predicate Blind(s: Service, p: Pipeline) {
    && (p.mode.Serial? || p.mode.SkipIfRunning?)
    && (forall r :: r in s.runs ==> !(r.pipeline == p.id && r.status.IsActive()))
    && (exists r :: r in s.runs && r.status.Running? && r.group == PipelineKey(p.id))
  }

  /** A blind admission saves a run that starts wherever it can. */
  lemma BlindProceeds(s: Service, p: Pipeline, trigger: TriggerType, input: TriggerInput)
    requires Blind(s, p)
    ensures AdmitRun(s, p, trigger, input) ==
            Admitted(SaveRun(s, p.id, trigger, input, PipelineKey(p.id), Queued, NoReason), s.nextId, false, false)
  {
    PeersCollide(s, p, input);
  }

  /** An admission that is not blind and need not queue finds no run of its group running. */
  lemma AdmitFindsNoneRunning(s: Service, p: Pipeline, trigger: TriggerType, input: TriggerInput)
    requires Ordered(s.runs, s.nextId, s.clock) && !Blind(s, p)
    ensures var a := AdmitRun(s, p, trigger, input);
            !a.terminal && !a.queueOnly ==> !GroupHeldByOther(a.service.runs, a.id)
  {
    AdmitRecords(s, p, trigger, input);
    AdmitNewRun(s, p, trigger, input);
    var a := AdmitRun(s, p, trigger, input);
    if !a.terminal && !a.queueOnly && !p.mode.Unlimited? {
      PeersCollide(s, p, input);
      forall j | 0 <= j < |s.runs| && a.service.runs[j].status.Running?
        ensures a.service.runs[j].group != a.service.runs[|s.runs|].group
      {
        assert s.runs[j] in s.runs;
        assert a.service.runs[j] == AfterAdmission(p, input, s.nextId, s.runs[j]);
      }
    }
  }

  lemma AdmitExclusive(s: Service, p: Pipeline, trigger: TriggerType, input: TriggerInput)
    requires Exclusive(s)
    ensures Exclusive(AdmitRun(s, p, trigger, input).service)
  {
    var t := AdmitRun(s, p, trigger, input).service;
    AdmitKeepsGroups(s, p, trigger, input);
    AdmitRecords(s, p, trigger, input);
    AdmitNewRun(s, p, trigger, input);
    forall i | 0 <= i < |s.runs| ensures t.runs[i].id == s.runs[i].id && t.runs[i].created == s.runs[i].created {
      assert t.runs[i] == AfterAdmission(p, input, s.nextId, s.runs[i]);
    }
  }

  /** Starting a blindly admitted run makes two running runs of one group. */
  lemma BlindStartClashes(s: Service, p: Pipeline, trigger: TriggerType, input: TriggerInput)
    requires Ordered(s.runs, s.nextId, s.clock) && Blind(s, p)
    ensures !OnePerGroup(UpdateStatus(AdmitRun(s, p, trigger, input).service.runs, s.nextId, Running, NoReason))
  {
    BlindProceeds(s, p, trigger, input);
    var r :| r in s.runs && r.status.Running? && r.group == PipelineKey(p.id);
    var i :| 0 <= i < |s.runs| && s.runs[i] == r;
    var after := UpdateStatus(AdmitRun(s, p, trigger, input).service.runs, s.nextId, Running, NoReason);
    assert after[i] == r && Clash(after[i], after[|s.runs|]);
    assert PipelineKey(p.id)[0] == 'p';
  }

  /** A trigger keeps groups exclusive exactly when it does not start a blindly
      admitted run. */
  lemma TriggerExact(s: Service, p: Pipeline, trigger: TriggerType, input: TriggerInput)
    requires Exclusive(s)
    ensures OnePerGroup(Trigger(s, p, trigger, input).runs) <==> !(CanExecute(s) && Blind(s, p))
    ensures !(CanExecute(s) && Blind(s, p)) ==> Exclusive(Trigger(s, p, trigger, input))
  {
    var a := AdmitRun(s, p, trigger, input);
    AdmitExclusive(s, p, trigger, input);
    AdmitRecords(s, p, trigger, input);
    if Blind(s, p) {
      BlindProceeds(s, p, trigger, input);
      BlindStartClashes(s, p, trigger, input);
    } else if !a.terminal && !a.queueOnly && CanExecute(s) {
      AdmitFindsNoneRunning(s, p, trigger, input);
      DispatchSafe(a.service, a.id);
    }
  }

  /** A synchronous run starts without a slot, so there the slot does not matter. */
  lemma SyncExact(s: Service, p: Pipeline, input: TriggerInput)
    requires Exclusive(s)
    ensures OnePerGroup(SyncRun(s, p, input).runs) <==> !Blind(s, p)
    ensures !Blind(s, p) ==> Exclusive(SyncRun(s, p, input))
  {
    var a := AdmitRun(s, p, Cli, input);
    AdmitExclusive(s, p, Cli, input);
    if Blind(s, p) {
      BlindProceeds(s, p, Cli, input);
      BlindStartClashes(s, p, Cli, input);
    } else if a.terminal {
    } else if a.queueOnly {
      OtherStatusSafe(a.service, a.id, Failed, SyncGroupBusy);
    } else {
      AdmitFindsNoneRunning(s, p, Cli, input);
      DispatchSafe(a.service, a.id);
    }
  }

  /** While every reserved key is held by its own pipeline no admission is blind. */
  lemma OwnedKeysAreSeen(s: Service, p: Pipeline)
    requires KeysOwned(s.runs)
    ensures !Blind(s, p)
  {
    if r :| r in s.runs && r.status.Running? && r.group == PipelineKey(p.id) {
      assert OwnKey(r.pipeline, r.group);
      SameKeySamePipeline(r.pipeline, p.id);
    }
  }

  // -------------------------------------------------------------------- resume

  /** ResumePipeline looks at no group: it keeps groups exclusive exactly when it
      does not dispatch or nothing else runs in the resumed run's group. */
  lemma ResumeExact(s: Service, id: nat)
    requires Exclusive(s)
    ensures OnePerGroup(ResumePipeline(s, id).0.runs) <==> !(CanExecute(s) && GroupHeldByOther(s.runs, id))
  {
    if CanExecute(s) && GroupHeldByOther(s.runs, id) {
      var t := ResumePipeline(s, id).0;
      var i, j :| 0 <= i < |s.runs| && 0 <= j < |s.runs| && s.runs[i].id == id && s.runs[j].id != id &&
        s.runs[j].status.Running? && s.runs[j].group == s.runs[i].group && s.runs[i].group != "";
      assert s.runs[i] in s.runs;
      assert Clash(t.runs[i], t.runs[j]) && Clash(t.runs[j], t.runs[i]);
    } else {
      ResumeSafe(s, id);
    }
  }

  // ----------------------------------------------------------------- histories

  /** What a caller can check before the step. */
  ghost predicate KeepsExclusive(s: Service, step: Step) {
    match step
    case Triggered(p, _, _) => !(CanExecute(s) && Blind(s, p))
    case Synchronous(p, _) => !Blind(s, p)
    case Tick(existing, lookup) => lookup || !StartsHeldGroup(s, existing)
    case Resume(id) => !(CanExecute(s) && GroupHeldByOther(s.runs, id))
    case _ => true
  }

  lemma StepExact(s: Service, step: Step)
    requires Exclusive(s) && Enabled(s, step)
    ensures OnePerGroup(Apply(s, step).runs) <==> KeepsExclusive(s, step)
    ensures KeepsExclusive(s, step) ==> Exclusive(Apply(s, step))
  {
    match step
    case Triggered(p, trigger, input) => TriggerExact(s, p, trigger, input);
    case Synchronous(p, input) => SyncExact(s, p, input);
    case Tick(existing, lookup) =>
      if lookup { TickSafe(s, existing); } else { BlindTickExact(s, existing); }
    case End(id, outcome, message) => FinishSafe(s, id, outcome, message);
    case EndSync(id, outcome, message) => OtherStatusSafe(s, id, outcome, message);
    case Stop(id) => OtherStatusSafe(s, id, Failed, StoppedByUser);
    case Resume(id) =>
      ResumeExact(s, id);
      if KeepsExclusive(s, step) { ResumeSafe(s, id); }
    case Boot(existing, resumable) => RestartSafe(s, existing, resumable);
    case Delete(pipeline, keep) => PruneSafe(s, pipeline, keep);
    case Elapse(_) =>
  }

  /** Every step is possible where it is taken. */
  predicate Possible(s: Service, steps: seq<Step>)
    decreases |steps|
  {
    steps == [] || (Enabled(s, steps[0]) && Possible(Apply(s, steps[0]), steps[1..]))
  }

  ghost predicate AllGuarded(s: Service, steps: seq<Step>)
    decreases |steps|
  {
    steps == [] || (KeepsExclusive(s, steps[0]) && AllGuarded(Apply(s, steps[0]), steps[1..]))
  }

  /** In the first and in every later state of the run groups are exclusive. */
  ghost predicate AlwaysExclusive(s: Service, steps: seq<Step>)
    decreases |steps|
  {
    OnePerGroup(s.runs) && (steps == [] || AlwaysExclusive(Apply(s, steps[0]), steps[1..]))
  }

  /** Groups are exclusive throughout a run of the system exactly when every step of it
      meets its own condition. */
  lemma {:induction false} HistoryExact(s: Service, steps: seq<Step>)
    requires Exclusive(s) && Possible(s, steps)
    ensures AlwaysExclusive(s, steps) <==> AllGuarded(s, steps)
    decreases |steps|
  {
    if steps != [] {
      StepExact(s, steps[0]);
      if KeepsExclusive(s, steps[0]) {
        HistoryExact(Apply(s, steps[0]), steps[1..]);
      } else {
        assert !OnePerGroup(Apply(s, steps[0]).runs);
      }
    }
  }

  /** The guards that keep reserved keys to their own pipelines imply the exact conditions:
      nothing has to be looked up in the store as long as every template is free of them. */
  lemma {:induction false} GuardedHistoriesAreExclusive(s: Service, steps: seq<Step>)
    requires Safe(s) && History(s, steps)
    ensures AllGuarded(s, steps) && AlwaysExclusive(s, steps)
    decreases |steps|
  {
    if steps != [] {
      if steps[0].Triggered? || steps[0].Synchronous? {
        OwnedKeysAreSeen(s, steps[0].p);
      }
      StepSafe(s, steps[0]);
      GuardedHistoriesAreExclusive(Apply(s, steps[0]), steps[1..]);
    }
  }

  // ------------------------------------------------------------ an aliased key

  /** With a free slot and no peers a trigger saves its run and starts it. */
  lemma StartsAtOnce(s: Service, p: Pipeline, input: TriggerInput, group: string)
    requires forall i :: 0 <= i < |s.runs| ==> s.runs[i].id != s.nextId
    requires CanExecute(s) && !p.mode.Unlimited? && ResolveGroup(p, input) == Ok(group) && Peers(s, p, group) == []
    ensures Trigger(s, p, Manual, input).runs ==
            s.runs + [Run(s.nextId, p.id, Running, Manual, input.jobs, input.upstream, group, NoReason, s.clock)]
    ensures Trigger(s, p, Manual, input).nextId == s.nextId + 1 && Trigger(s, p, Manual, input).inFlight == s.inFlight + 1
    ensures Trigger(s, p, Manual, input).maxInFlight == s.maxInFlight
  {
  }

  /** A blind admission can be reached: once a template of pipeline "a" has rendered the
      key reserved for the serial pipeline "b", two runs of that group run. */
  lemma AliasedKeyBreaksGroup()
    ensures var a := Pipeline("a", Grouped, true, false);
            var b := Pipeline("b", Serial, false, false);
            var alias := TriggerInput([], [], Ok(PipelineKey("b")));
            var plain := TriggerInput([], [], Ok(""));
            var s := RunSteps(Fresh(2, 0), [Triggered(a, Manual, alias), Triggered(b, Manual, plain)]);
            && |s.runs| == 2 && Clash(s.runs[0], s.runs[1]) && s.runs[0].group == PipelineKey("b")
            && !KeyFree(a, alias) && KeyFree(b, plain)
            && Blind(Trigger(Fresh(2, 0), a, Manual, alias), b)
  {
    var a := Pipeline("a", Grouped, true, false);
    var b := Pipeline("b", Serial, false, false);
    var alias := TriggerInput([], [], Ok(PipelineKey("b")));
    var plain := TriggerInput([], [], Ok(""));
    var s0 := Fresh(2, 0);
    assert Peers(s0, a, PipelineKey("b")) == [];
    StartsAtOnce(s0, a, alias, PipelineKey("b"));
    var s1 := Trigger(s0, a, Manual, alias);
    var id := b.id;
    assert s1.runs[0].pipeline == "a" && "a"[0] != id[0];
    FilterNone((r: Run) => r.pipeline == id && r.status.IsActive(), s1.runs);
    assert Peers(s1, b, PipelineKey("b")) == [];
    assert PipelineKey("a")[|PIPELINE_PREFIX|..] != PipelineKey("b")[|PIPELINE_PREFIX|..];
    StartsAtOnce(s1, b, plain, PipelineKey("b"));
    assert s1.runs[0].status.Running? && s1.runs[0] in s1.runs;
    var s2 := Trigger(s1, b, Manual, plain);
    assert RunSteps(s0, [Triggered(a, Manual, alias), Triggered(b, Manual, plain)])
        == RunSteps(s1, [Triggered(b, Manual, plain)]) == s2;
  }
}
