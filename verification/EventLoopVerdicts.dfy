/** What a pipeline.stage promise reports, in terms of the steps that were taken: the
    verdict of a job is the one its turn on the main thread gave, for good, and a stage
    fails exactly if a job was rejected or a job's report saw the cancellation. */
module EventLoopVerdicts {
  import opened Runs
  import opened EventLoop
  import opened EventLoopInvariant
  import opened EventLoopSteps
  import opened EventLoopSafety

  /** The step finds the promise of the stage's job fulfilled (`failed` is false) or rejected. */
  predicate Decides(s: Loop, step: Step, stage: nat, job: nat, failed: bool) {
    && step == Answer(Decided(failed)) && Enabled(s, step)
    && s.ops[s.main.item.op].kind == Turn(stage, job)
  }

  predicate DecidedIn(s: Loop, steps: seq<Step>, stage: nat, job: nat, failed: bool)
    requires LegalRun(s, steps)
    decreases |steps|
  {
    steps != [] &&
    (Decides(s, steps[0], stage, job, failed) || DecidedIn(Apply(s, steps[0]), steps[1..], stage, job, failed))
  }

  predicate ReportedIn(steps: seq<Step>, stage: nat, job: nat) { Report(stage, job, true) in steps }

  /** The verdict that the state records for a job. */
  function Recorded(s: Loop, stage: nat, job: nat): Option<bool> {
    if stage >= |s.ops| || job >= |s.ops[stage].jobs| then None
    else
      match s.ops[stage].jobs[job]
      case Answered(failed) => Some(failed)
      case Reported(failed, _) => Some(failed)
      case _ => None
  }

  /** The turn being executed belongs to a job that still waits for it. */
  lemma DecidesAsking(s: Loop, step: Step, stage: nat, job: nat, failed: bool)
    requires Inv(s) && Decides(s, step, stage, job, failed)
    ensures Recorded(s, stage, job) == None && Recorded(Apply(s, step), stage, job) == Some(failed)
  {
    assert OpInv(s, s.main.item.op);
    assert OpInv(s, stage);
  }

  /** Only spawns, reports and answers touch the jobs of a stage. */
  lemma JobsStay(s: Loop, step: Step, i: nat)
    requires Enabled(s, step) && !step.Spawn? && !step.Report? && !step.Answer? && i < |s.ops|
    ensures i < |Apply(s, step).ops| && Apply(s, step).ops[i].jobs == s.ops[i].jobs
  {
  }

  lemma NewOpsRecordNothing(s: Loop, step: Step, i: nat, job: nat)
    requires Enabled(s, step) && |s.ops| <= i
    ensures Recorded(Apply(s, step), i, job) == None
  {
  }

  lemma AnswerRecords(s: Loop, verdict: Verdict, stage: nat, job: nat)
    requires Inv(s) && Enabled(s, Answer(verdict)) && stage < |s.ops|
    requires verdict.Decided? ==> s.ops[s.main.item.op].kind != Turn(stage, job)
    ensures Recorded(Apply(s, Answer(verdict)), stage, job) == Recorded(s, stage, job)
  {
    assert OpInv(s, s.main.item.op);
  }

  /** Only a verdict changes what is recorded for a job. */
  lemma OnlyVerdictsRecord(s: Loop, step: Step, stage: nat, job: nat)
    requires Inv(s) && Enabled(s, step)
    requires !Decides(s, step, stage, job, true) && !Decides(s, step, stage, job, false)
    ensures Recorded(Apply(s, step), stage, job) == Recorded(s, stage, job)
  {
    if stage >= |s.ops| {
      NewOpsRecordNothing(s, step, stage, job);
    } else if step.Answer? {
      AnswerRecords(s, step.verdict, stage, job);
    } else if step.Spawn? || step.Report? {
    } else {
      JobsStay(s, step, stage);
    }
  }

  /** Over every run: a job has a verdict recorded exactly if one of its turns gave it. */
  lemma {:induction false} RecordedExactly(s: Loop, steps: seq<Step>, stage: nat, job: nat, failed: bool)
    requires Inv(s) && LegalRun(s, steps)
    ensures Recorded(RunLoop(s, steps), stage, job) == Some(failed) <==>
            Recorded(s, stage, job) == Some(failed) || DecidedIn(s, steps, stage, job, failed)
    decreases |steps|
  {
    if steps != [] {
      var t := Apply(s, steps[0]);
      StepKeeps(s, steps[0]);
      RecordedExactly(t, steps[1..], stage, job, failed);
      if Decides(s, steps[0], stage, job, true) {
        DecidesAsking(s, steps[0], stage, job, true);
        RecordedStays(t, steps[1..], stage, job, true);
      } else if Decides(s, steps[0], stage, job, false) {
        DecidesAsking(s, steps[0], stage, job, false);
        RecordedStays(t, steps[1..], stage, job, false);
      } else {
        OnlyVerdictsRecord(s, steps[0], stage, job);
      }
    }
  }

  /** A recorded verdict stays, and no other is ever given. */
  lemma {:induction false} RecordedStays(s: Loop, steps: seq<Step>, stage: nat, job: nat, failed: bool)
    requires Inv(s) && LegalRun(s, steps) && Recorded(s, stage, job) == Some(failed)
    ensures Recorded(RunLoop(s, steps), stage, job) == Some(failed)
    ensures forall f :: !DecidedIn(s, steps, stage, job, f)
    decreases |steps|
  {
    if steps != [] {
      StepKeeps(s, steps[0]);
      forall f ensures !Decides(s, steps[0], stage, job, f) {
        if Decides(s, steps[0], stage, job, f) {
          DecidesAsking(s, steps[0], stage, job, f);
        }
      }
      OnlyVerdictsRecord(s, steps[0], stage, job);
      RecordedStays(Apply(s, steps[0]), steps[1..], stage, job, failed);
    }
  }

  // ------------------------------------------------------------------- reports

  predicate SentOf(s: Loop, stage: nat, job: nat, sent: bool) {
    stage < |s.ops| && job < |s.ops[stage].jobs| && s.ops[stage].jobs[job].Reported? && s.ops[stage].jobs[job].sent == sent
  }

  /** A failure is sent for a rejected job, and for one whose report saw the cancellation. */
  lemma {:induction false} SentExactly(s: Loop, steps: seq<Step>, stage: nat, job: nat)
    requires Inv(s) && LegalRun(s, steps)
    requires forall sent :: !SentOf(s, stage, job, sent)
    ensures var t := RunLoop(s, steps);
            SentOf(t, stage, job, true) || SentOf(t, stage, job, false) ==>
              (SentOf(t, stage, job, true) <==> Recorded(t, stage, job) == Some(true) || ReportedIn(steps, stage, job))
    decreases |steps|
  {
    if steps != [] {
      var t := Apply(s, steps[0]);
      StepKeeps(s, steps[0]);
      assert steps == [steps[0]] + steps[1..];
      if steps[0].Report? && steps[0].stage == stage && steps[0].job == job {
        SentStays(t, steps[1..], stage, job, s.ops[stage].jobs[job].failed, s.ops[stage].jobs[job].failed || steps[0].sawCancel);
      } else {
        OnlyReportsSend(s, steps[0], stage, job);
        SentExactly(t, steps[1..], stage, job);
      }
    }
  }

  lemma AnswerSendsNothing(s: Loop, verdict: Verdict, stage: nat, job: nat)
    requires Inv(s) && Enabled(s, Answer(verdict)) && stage < |s.ops|
    ensures forall sent :: SentOf(Apply(s, Answer(verdict)), stage, job, sent) <==> SentOf(s, stage, job, sent)
  {
    assert OpInv(s, s.main.item.op);
  }

  lemma NewOpsSendNothing(s: Loop, step: Step, i: nat, job: nat)
    requires Enabled(s, step) && |s.ops| <= i
    ensures forall sent :: !SentOf(Apply(s, step), i, job, sent)
  {
  }

  lemma OnlyReportsSend(s: Loop, step: Step, stage: nat, job: nat)
    requires Inv(s) && Enabled(s, step)
    requires !(step.Report? && step.stage == stage && step.job == job)
    ensures forall sent :: SentOf(Apply(s, step), stage, job, sent) <==> SentOf(s, stage, job, sent)
  {
    if stage >= |s.ops| {
      NewOpsSendNothing(s, step, stage, job);
    } else if step.Answer? {
      AnswerSendsNothing(s, step.verdict, stage, job);
    } else if step.Spawn? || step.Report? {
    } else {
      JobsStay(s, step, stage);
    }
  }

  lemma {:induction false} SentStays(s: Loop, steps: seq<Step>, stage: nat, job: nat, failed: bool, sent: bool)
    requires Inv(s) && LegalRun(s, steps) && SentOf(s, stage, job, sent) && Recorded(s, stage, job) == Some(failed)
    ensures SentOf(RunLoop(s, steps), stage, job, sent) && Recorded(RunLoop(s, steps), stage, job) == Some(failed)
    ensures !ReportedIn(steps, stage, job)
    decreases |steps|
  {
    if steps != [] {
      StepKeeps(s, steps[0]);
      OnlyReportsSend(s, steps[0], stage, job);
      RecordedStays(s, [steps[0]], stage, job, failed);
      OneStepRun(s, steps[0]);
      SentStays(Apply(s, steps[0]), steps[1..], stage, job, failed, sent);
      assert steps == [steps[0]] + steps[1..];
    }
  }

  lemma OneStepRun(s: Loop, step: Step)
    requires Enabled(s, step)
    ensures LegalRun(s, [step]) && RunLoop(s, [step]) == Apply(s, step)
  {
    assert [step][1..] == [];
    assert LegalRun(Apply(s, step), []);
  }

  // -------------------------------------------------------------------- stages

  lemma StartIsInv()
    ensures Inv(Start())
  {
    var none: seq<Step> := [];
    assert LegalRun(Start(), none) && RunLoop(Start(), none) == Start();
    ReachableInv(Start());
  }

  /** The job's promise was rejected, or its report saw the cancellation. */
  predicate FailsStage(steps: seq<Step>, stage: nat, job: nat)
    requires LegalRun(Start(), steps)
  {
    DecidedIn(Start(), steps, stage, job, true) || ReportedIn(steps, stage, job)
  }

  /** A finished stage: every job had exactly one verdict, and the stage failed exactly if
      some job's promise was rejected or some job's report saw the cancellation. */
  lemma StageOutcomeExactly(steps: seq<Step>, i: nat)
    requires LegalRun(Start(), steps)
    requires var s := RunLoop(Start(), steps); i < |s.ops| && s.ops[i].kind.Stage? && !s.ops[i].state.Working?
    ensures var op := RunLoop(Start(), steps).ops[i];
            && (forall j :: 0 <= j < |op.jobs| ==>
                  (DecidedIn(Start(), steps, i, j, true) <==> !DecidedIn(Start(), steps, i, j, false)))
            && (op.failed <==> exists j :: 0 <= j < |op.jobs| && FailsStage(steps, i, j))
  {
    var s := RunLoop(Start(), steps);
    var op := s.ops[i];
    StartIsInv();
    RunKeeps(Start(), steps);
    assert OpInv(s, i);
    AllReported(op);
    assert op.results[..op.taken] == op.results;
    forall j | 0 <= j < |op.jobs|
      ensures DecidedIn(Start(), steps, i, j, true) <==> !DecidedIn(Start(), steps, i, j, false)
      ensures op.jobs[j].Reported?
      ensures op.jobs[j].sent <==> FailsStage(steps, i, j)
    {
      RecordedExactly(Start(), steps, i, j, true);
      RecordedExactly(Start(), steps, i, j, false);
      SentExactly(Start(), steps, i, j);
      assert SentOf(s, i, j, op.jobs[j].sent);
    }
    FailedExactlyBySent(op);
    if j :| 0 <= j < |op.jobs| && FailsStage(steps, i, j) {
      assert op.jobs[j].sent;
    }
  }

  /** What the collected results amount to. */
  lemma FailedExactlyBySent(op: Op)
    requires ResultsInv(op) && op.failed == AnyFailed(op.results) && forall j :: 0 <= j < |op.jobs| ==> op.jobs[j].Reported?
    ensures op.failed <==> exists j :: 0 <= j < |op.jobs| && op.jobs[j].sent
  {
    if op.failed {
      var r :| r in op.results && r.failed;
      var k :| 0 <= k < |op.results| && op.results[k] == r;
      assert ResultInv(op, k);
    }
    if j :| 0 <= j < |op.jobs| && op.jobs[j].sent {
      assert Delivered(op, j);
      var k :| 0 <= k < |op.results| && op.results[k].job == j;
      assert ResultInv(op, k) && op.results[k] in op.results;
    }
  }

  lemma {:induction false} RunsJoin(s: Loop, a: seq<Step>, b: seq<Step>)
    requires LegalRun(s, a) && LegalRun(RunLoop(s, a), b)
    ensures LegalRun(s, a + b) && RunLoop(s, a + b) == RunLoop(RunLoop(s, a), b)
    decreases |a|
  {
    if a == [] {
      assert a + b == b;
    } else {
      assert (a + b)[0] == a[0] && (a + b)[1..] == a[1..] + b;
      RunsJoin(Apply(s, a[0]), a[1..], b);
    }
  }

  /** A script that starts a stage with one job and ends; the job asks for its turn. */
  const ASKS := [BeginStage(1), Spawn(0, 0), EndScript]

  /** The job's turn on the main thread. */
  function TakesTurn(rejected: bool): seq<Step> { [Send(1), Receive, Answer(Decided(rejected))] }

  /** Its report, perhaps after a cancellation it sees, and its result received. */
  function Reports(cancelled: bool): seq<Step> {
    if cancelled then [Cancel, Report(0, 0, true), Collect(0)] else [Report(0, 0, false), Collect(0)]
  }

  function Asked(): Loop {
    Loop([NewOp(Stage, Working, 1).(jobs := [Asking(1)]), NewOp(Turn(0, 0), Ready, 0)], 2, [], Waiting, Idle, false, false, [], None)
  }

  lemma Asks()
    ensures LegalRun(Start(), ASKS) && RunLoop(Start(), ASKS) == Asked()
  {
    var a := Apply(Start(), BeginStage(1));
    var b := Apply(a, Spawn(0, 0));
    var c := Apply(b, EndScript);
    assert ASKS[1..] == [Spawn(0, 0), EndScript] && ASKS[1..][1..] == [EndScript];
    assert c.ops[0].jobs == [Asking(1)] && c.ops[0].puts == Asked().ops[0].puts;
    assert c.ops[1].jobs == Asked().ops[1].jobs && c.ops[1].puts == Asked().ops[1].puts;
    assert c.ops == Asked().ops;
    OneStepRun(b, EndScript);
    assert LegalRun(a, ASKS[1..]) && RunLoop(a, ASKS[1..]) == c;
  }

  /** The stage's only job has its verdict and has not reported it. */
  predicate Told(s: Loop, rejected: bool) {
    && |s.ops| > 0 && s.ops[0].kind.Stage? && s.ops[0].state.Working?
    && s.ops[0].jobs == [Answered(rejected)] && s.ops[0].results == [] && s.ops[0].taken == 0
  }

  lemma TurnTells(rejected: bool)
    ensures LegalRun(Asked(), TakesTurn(rejected)) && Told(RunLoop(Asked(), TakesTurn(rejected)), rejected)
  {
    var steps := TakesTurn(rejected);
    var a := Apply(Asked(), steps[0]);
    var b := Apply(a, steps[1]);
    var c := Apply(b, steps[2]);
    assert steps[2..] == [steps[2]] && steps[1..][1..] == steps[2..];
    assert c.ops[0].jobs == [Answered(rejected)];
    OneStepRun(b, steps[2]);
    assert LegalRun(a, steps[1..]) && RunLoop(a, steps[1..]) == c;
  }

  lemma ReportReturns(s: Loop, rejected: bool, sawCancel: bool)
    requires Told(s, rejected) && (sawCancel ==> s.cancelled)
    ensures var steps := [Report(0, 0, sawCancel), Collect(0)];
            LegalRun(s, steps)
            && var t := RunLoop(s, steps);
            Enabled(t, Return(0, rejected || sawCancel)) && !Enabled(t, Return(0, !(rejected || sawCancel)))
  {
    var steps := [Report(0, 0, sawCancel), Collect(0)];
    var a := Apply(s, steps[0]);
    var b := Apply(a, steps[1]);
    var results := b.ops[0].results;
    assert results == [JobResult(0, rejected || sawCancel)] && results[..1] == results && results[0] in results;
    assert steps[1..] == [Collect(0)];
    OneStepRun(a, Collect(0));
  }

  lemma ReportsReturn(s: Loop, rejected: bool, cancelled: bool)
    requires Told(s, rejected)
    ensures LegalRun(s, Reports(cancelled))
    ensures var t := RunLoop(s, Reports(cancelled)); var failed := rejected || cancelled;
            Enabled(t, Return(0, failed)) && !Enabled(t, Return(0, !failed))
  {
    if cancelled {
      assert Reports(cancelled)[1..] == [Report(0, 0, true), Collect(0)];
      ReportReturns(Apply(s, Cancel), rejected, true);
    } else {
      ReportReturns(s, rejected, false);
    }
  }

  /** A stage with one job can be run to its end, and there returns the job's verdict, or a
      failure if the report saw a cancellation, and nothing else. */
  lemma OneJobReturns(rejected: bool, cancelled: bool)
    ensures var steps := ASKS + TakesTurn(rejected) + Reports(cancelled);
            LegalRun(Start(), steps)
            && var s := RunLoop(Start(), steps);
            var failed := rejected || cancelled;
            Enabled(s, Return(0, failed)) && !Enabled(s, Return(0, !failed))
  {
    Asks();
    TurnTells(rejected);
    RunsJoin(Start(), ASKS, TakesTurn(rejected));
    ReportsReturn(RunLoop(Start(), ASKS + TakesTurn(rejected)), rejected, cancelled);
    RunsJoin(Start(), ASKS + TakesTurn(rejected), Reports(cancelled));
  }

  /** A script can start a stage of any size, and a turn on the main thread may find its
      promise in any state. */
  lemma NothingIsRuledOut(s: Loop, n: nat, i: nat, verdict: Verdict)
    requires (s.main.Script? || s.main.InTask?) && n > 0
    ensures Enabled(s, BeginStage(n))
    ensures s.main == InTask(Closure(i)) && i < |s.ops| && s.ops[i].kind.Turn? && s.ops[i].state.Executing? ==>
              Enabled(s, Answer(verdict))
  {
  }

  /** A promise that is still pending is asked again in a new turn, which wants the channel. */
  lemma PendingIsAskedAgain(s: Loop, stage: nat, job: nat)
    requires Inv(s) && Enabled(s, Answer(Repoll)) && s.ops[s.main.item.op].kind == Turn(stage, job)
    ensures var t := Apply(s, Answer(Repoll));
            && |t.ops| == |s.ops| + 1 && t.count == s.count + 1
            && t.ops[|s.ops|].kind == Turn(stage, job) && t.ops[|s.ops|].state.Ready?
            && stage < |s.ops| && job < |t.ops[stage].jobs| && t.ops[stage].jobs[job] == Asking(|s.ops|)
  {
    assert OpInv(s, s.main.item.op);
    assert OpInv(s, stage);
  }
}
