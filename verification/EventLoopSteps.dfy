/** Every step of the event loop keeps the invariant; so every reachable state has it. */
module EventLoopSteps {
  import opened Runs
  import opened EventLoop
  import opened EventLoopInvariant

  /** Only the state and the settle count of one operation past its work changed. */
  predicate Moved(s: Loop, t: Loop, op: nat) {
    && op < |s.ops| && |t.ops| == |s.ops| && t.cancelled == s.cancelled
    && t.ops == s.ops[op := s.ops[op].(state := t.ops[op].state, settles := t.ops[op].settles)]
    && !s.ops[op].state.Working? && !t.ops[op].state.Working?
    && (s.ops[op].kind.Turn? && Unfinished(s.ops[op]) ==> Unfinished(t.ops[op]))
    && (Unfinished(t.ops[op]) ==> Unfinished(s.ops[op]))
  }

  lemma MoveKeepsOp(s: Loop, t: Loop, op: nat, i: nat)
    requires OpsInv(s) && Moved(s, t, op) && i < |s.ops| && PlaceInv(t, i)
    ensures OpInv(t, i)
  {
    assert OpInv(s, i);
    if i == op {
      forall j | 0 <= j < |t.ops[i].jobs| ensures JobInv(t, i, j) {
        assert JobInv(s, i, j);
      }
      ResultsSame(s.ops[i], t.ops[i]);
    } else {
      OpSurvives(s, t, i);
    }
  }

  lemma MoveKeeps(s: Loop, t: Loop, op: nat)
    requires OpsInv(s) && Moved(s, t, op)
    requires forall i :: 0 <= i < |s.ops| ==> PlaceInv(t, i)
    ensures OpsInv(t)
  {
    forall i | 0 <= i < |t.ops| ensures OpInv(t, i) {
      MoveKeepsOp(s, t, op, i);
    }
  }

  lemma SendKeepsOps(s: Loop, op: nat)
    requires Inv(s) && Enabled(s, Send(op))
    ensures !s.closer.Closed? && s.channel == [] && OpsInv(Apply(s, Send(op)))
  {
    var t := Apply(s, Send(op));
    SomeoneOutstanding(s, op);
    assert s.channel == [] && t.channel == [Closure(op)];
    forall i | 0 <= i < |s.ops| ensures PlaceInv(t, i) {
      assert OpInv(s, i);
      assert t.channel[0] == Closure(op);
    }
    MoveKeeps(s, t, op);
  }

  lemma SendKeeps(s: Loop, op: nat)
    requires Inv(s) && Enabled(s, Send(op))
    ensures Inv(Apply(s, Send(op)))
  {
    SendKeepsOps(s, op);
    SomeoneOutstanding(s, op);
    OutstandingUpdate(s.ops, op, s.ops[op].(state := Sent));
    ItemsStay(s, Apply(s, Send(op)), op);
  }

  lemma ItemsStay(s: Loop, t: Loop, op: nat)
    requires Inv(s) && Enabled(s, Send(op)) && t == Apply(s, Send(op)) && s.channel == [] && !s.closer.Closed?
    ensures ItemsInv(t) && MainInv(t)
  {
    assert t.channel == [Closure(op)] && t.ops[op].state.Sent?;
    assert Current(t.main) == Current(s.main);
  }

  lemma ReceiveKeeps(s: Loop)
    requires Inv(s) && Enabled(s, Receive)
    ensures Inv(Apply(s, Receive))
  {
    var t := Apply(s, Receive);
    var item := s.channel[0];
    assert s.channel == [item] && t.channel == [];
    if item.Closure? {
      OutstandingUpdate(s.ops, item.op, t.ops[item.op]);
      forall i | 0 <= i < |s.ops| ensures PlaceInv(t, i) {
        assert OpInv(s, i);
      }
      MoveKeeps(s, t, item.op);
    } else {
      forall i | 0 <= i < |s.ops| ensures OpInv(t, i) {
        assert OpInv(s, i);
        OpSurvives(s, t, i);
      }
    }
  }

  lemma SettleKeeps(s: Loop)
    requires Inv(s) && Enabled(s, Settle)
    ensures Inv(Apply(s, Settle))
  {
    var t := Apply(s, Settle);
    var op := s.main.item.op;
    OutstandingUpdate(s.ops, op, t.ops[op]);
    forall i | 0 <= i < |s.ops| ensures PlaceInv(t, i) {
      assert OpInv(s, i);
    }
    MoveKeeps(s, t, op);
  }

  lemma FinishKeepsOps(s: Loop, error: bool)
    requires Inv(s) && Enabled(s, Finish(error))
    ensures OpsInv(Apply(s, Finish(error)))
  {
    var t := Apply(s, Finish(error));
    if s.main.item.Closure? {
      forall i | 0 <= i < |s.ops| ensures PlaceInv(t, i) {
        assert OpInv(s, i);
      }
      MoveKeeps(s, t, s.main.item.op);
    } else {
      forall i | 0 <= i < |s.ops| ensures OpInv(t, i) {
        assert OpInv(s, i);
        OpSurvives(s, t, i);
      }
    }
  }

  lemma FinishKeeps(s: Loop, error: bool)
    requires Inv(s) && Enabled(s, Finish(error))
    ensures Inv(Apply(s, Finish(error)))
  {
    var t := Apply(s, Finish(error));
    FinishKeepsOps(s, error);
    SomeoneOutstanding(s, s.main.item.op);
    assert t.errors[..|s.errors|] == s.errors;
    if s.main.item.Closure? {
      OutstandingUpdate(s.ops, s.main.item.op, t.ops[s.main.item.op]);
    }
  }

  /** Steps that leave every operation, the channel and the current task alone. */
  lemma StillKeeps(s: Loop, step: Step)
    requires Inv(s) && Enabled(s, step)
    requires step.Cancel? || step.EndScript? || step.ObserveZero? || step.Close? || step.Exit?
    ensures Inv(Apply(s, step))
  {
    var t := Apply(s, step);
    if step.Exit? {
      ZeroIsQuiet(s);
    }
    forall i | 0 <= i < |s.ops| ensures OpInv(t, i) {
      assert OpInv(s, i);
      OpSurvives(s, t, i);
    }
  }

  // ------------------------------------------------------------- stage steps

  /** One job of a working stage moved on to `phase`; the other jobs of every stage, and
      every unfinished turn, are as before. */
  predicate JobMoved(s: Loop, t: Loop, stage: nat, job: nat) {
    && IsStage(s, stage) && IsStage(t, stage) && |t.ops| >= |s.ops| && (s.cancelled ==> t.cancelled)
    && |s.ops[stage].jobs| == |t.ops[stage].jobs| == |s.ops[stage].puts| == |t.ops[stage].puts|
    && job < |s.ops[stage].jobs|
    && t.ops[stage].jobs == s.ops[stage].jobs[job := t.ops[stage].jobs[job]]
    && t.ops[stage].puts == s.ops[stage].puts[job := t.ops[stage].puts[job]]
    && (forall k :: 0 <= k < |s.ops| ==> t.ops[k].kind == s.ops[k].kind)
    && forall k :: 0 <= k < |s.ops| && Unfinished(s.ops[k]) && !Unfinished(t.ops[k]) ==> t.ops[k].kind == Turn(stage, job)
  }

  lemma OtherJobsKeep(s: Loop, t: Loop, stage: nat, job: nat)
    requires OpsInv(s) && JobMoved(s, t, stage, job)
    ensures forall j :: 0 <= j < |t.ops[stage].jobs| && j != job ==> JobInv(t, stage, j)
  {
    assert OpInv(s, stage);
    forall j | 0 <= j < |t.ops[stage].jobs| && j != job ensures JobInv(t, stage, j) {
      assert JobInv(s, stage, j);
    }
  }

  lemma OtherOpKeeps(s: Loop, t: Loop, stage: nat, job: nat, i: nat)
    requires OpsInv(s) && JobMoved(s, t, stage, job) && i < |s.ops| && i != stage && t.ops[i] == s.ops[i]
    requires PlaceInv(t, i)
    requires forall k :: 0 <= k < |s.ops| && k != stage && IsStage(s, k) ==> t.ops[k] == s.ops[k]
    requires Unfinished(s.ops[i]) ==> s.ops[i].kind != Turn(stage, job)
    ensures OpInv(t, i)
  {
    assert OpInv(s, i);
    OpSurvives(s, t, i);
  }

  lemma SpawnKeepsStage(s: Loop, stage: nat, job: nat)
    requires Inv(s) && Enabled(s, Spawn(stage, job))
    ensures JobMoved(s, Apply(s, Spawn(stage, job)), stage, job)
    ensures OpInv(Apply(s, Spawn(stage, job)), stage)
  {
    var t := Apply(s, Spawn(stage, job));
    assert OpInv(s, stage);
    OtherJobsKeep(s, t, stage, job);
    JobChangeKeepsResults(s.ops[stage], t.ops[stage], job);
    assert JobInv(s, stage, job) && JobInv(t, stage, job);
  }

  lemma SpawnKeepsOps(s: Loop, stage: nat, job: nat)
    requires Inv(s) && Enabled(s, Spawn(stage, job))
    ensures OpsInv(Apply(s, Spawn(stage, job)))
  {
    var t := Apply(s, Spawn(stage, job));
    SpawnKeepsStage(s, stage, job);
    assert OpInv(s, stage) && JobInv(s, stage, job);
    forall i | 0 <= i < |t.ops| && i != stage ensures OpInv(t, i) {
      if i < |s.ops| {
        assert OpInv(s, i);
        OtherOpKeeps(s, t, stage, job, i);
      }
    }
  }

  lemma SpawnKeeps(s: Loop, stage: nat, job: nat)
    requires Inv(s) && Enabled(s, Spawn(stage, job))
    ensures Inv(Apply(s, Spawn(stage, job)))
  {
    var t := Apply(s, Spawn(stage, job));
    SpawnKeepsOps(s, stage, job);
    SomeoneOutstanding(s, stage);
    OutstandingUpdate(s.ops, stage, t.ops[stage]);
    OutstandingAdd(s.ops[stage := t.ops[stage]], NewOp(Turn(stage, job), Ready, 0));
  }

  /** A job that has not reported can change phase without touching the results. */
  lemma JobChangeKeepsResults(a: Op, b: Op, job: nat)
    requires ResultsInv(a) && a.results == b.results && job < |a.jobs| && !a.jobs[job].Reported?
    requires |b.jobs| == |a.jobs| && b.jobs == a.jobs[job := b.jobs[job]] && !b.jobs[job].Reported?
    ensures ResultsInv(b)
  {
    forall k | 0 <= k < |b.results| ensures ResultInv(b, k) {
      assert ResultInv(a, k);
    }
    forall j | 0 <= j < |b.jobs| && b.jobs[j].Reported? ensures Delivered(b, j) {
      assert Delivered(a, j);
    }
  }

  lemma ReportKeepsResults(a: Op, b: Op, job: nat, sent: bool)
    requires ResultsInv(a) && job < |a.jobs| && !a.jobs[job].Reported?
    requires |b.jobs| == |a.jobs| && b.jobs == a.jobs[job := b.jobs[job]]
    requires b.jobs[job].Reported? && b.jobs[job].sent == sent
    requires b.results == a.results + [JobResult(job, sent)]
    ensures ResultsInv(b)
  {
    forall k | 0 <= k < |b.results| ensures ResultInv(b, k) {
      if k < |a.results| {
        assert ResultInv(a, k);
      }
    }
    forall k, l | 0 <= k < l < |b.results| ensures b.results[k].job != b.results[l].job {
      assert ResultInv(a, k);
    }
    forall j | 0 <= j < |b.jobs| && b.jobs[j].Reported? ensures Delivered(b, j) {
      if j == job {
        assert b.results[|a.results|].job == j;
      } else {
        assert Delivered(a, j);
        var k :| 0 <= k < |a.results| && a.results[k].job == j;
        assert b.results[k].job == j;
      }
    }
  }

  lemma ReportKeepsStage(s: Loop, stage: nat, job: nat, sawCancel: bool)
    requires Inv(s) && Enabled(s, Report(stage, job, sawCancel))
    ensures JobMoved(s, Apply(s, Report(stage, job, sawCancel)), stage, job)
    ensures OpInv(Apply(s, Report(stage, job, sawCancel)), stage)
  {
    var t := Apply(s, Report(stage, job, sawCancel));
    assert OpInv(s, stage) && JobInv(s, stage, job);
    OtherJobsKeep(s, t, stage, job);
    ReportKeepsResults(s.ops[stage], t.ops[stage], job, s.ops[stage].jobs[job].failed || sawCancel);
  }

  lemma ReportKeepsOps(s: Loop, stage: nat, job: nat, sawCancel: bool)
    requires Inv(s) && Enabled(s, Report(stage, job, sawCancel))
    ensures OpsInv(Apply(s, Report(stage, job, sawCancel)))
  {
    var t := Apply(s, Report(stage, job, sawCancel));
    ReportKeepsStage(s, stage, job, sawCancel);
    assert OpInv(s, stage) && JobInv(s, stage, job);
    forall i | 0 <= i < |t.ops| && i != stage ensures OpInv(t, i) {
      assert OpInv(s, i);
      OtherOpKeeps(s, t, stage, job, i);
    }
  }

  lemma ReportKeeps(s: Loop, stage: nat, job: nat, sawCancel: bool)
    requires Inv(s) && Enabled(s, Report(stage, job, sawCancel))
    ensures Inv(Apply(s, Report(stage, job, sawCancel)))
  {
    var t := Apply(s, Report(stage, job, sawCancel));
    ReportKeepsOps(s, stage, job, sawCancel);
    OutstandingUpdate(s.ops, stage, t.ops[stage]);
  }

  lemma CollectKeepsOps(s: Loop, stage: nat)
    requires Inv(s) && Enabled(s, Collect(stage))
    ensures OpsInv(Apply(s, Collect(stage)))
  {
    var t := Apply(s, Collect(stage));
    assert OpInv(s, stage);
    ResultsSame(s.ops[stage], t.ops[stage]);
    forall j | 0 <= j < |t.ops[stage].jobs| ensures JobInv(t, stage, j) {
      assert JobInv(s, stage, j);
    }
    forall i | 0 <= i < |t.ops| && i != stage ensures OpInv(t, i) {
      assert OpInv(s, i);
      OpSurvives(s, t, i);
    }
  }

  lemma CollectKeeps(s: Loop, stage: nat)
    requires Inv(s) && Enabled(s, Collect(stage))
    ensures Inv(Apply(s, Collect(stage)))
  {
    var t := Apply(s, Collect(stage));
    CollectKeepsOps(s, stage);
    OutstandingUpdate(s.ops, stage, t.ops[stage]);
  }

  // -------------------------------------------------------- answering a turn

  function ActedOps(s: Loop, turn: nat): seq<Op>
    requires turn < |s.ops|
  {
    s.ops[turn := s.ops[turn].(state := Acted)]
  }

  /** What answering `turn` does: its own state, one job of its stage, and for a repoll
      one new turn of the same job. */
  predicate Answers(s: Loop, t: Loop, turn: nat, repolled: bool) {
    && turn < |s.ops| && s.ops[turn].kind.Turn? && s.ops[turn].state.Executing?
    && var k := s.ops[turn].kind;
    && IsStage(s, k.stage) && k.job < |s.ops[k.stage].jobs| == |s.ops[k.stage].puts|
    && t == s.(ops := t.ops, count := t.count)
    && |t.ops| == |s.ops| + (if repolled then 1 else 0) && t.count == s.count + (if repolled then 1 else 0)
    && |t.ops[k.stage].jobs| == |s.ops[k.stage].jobs|
    && var stage := s.ops[k.stage];
    && t.ops[k.stage] ==
       (if repolled then stage.(jobs := stage.jobs[k.job := Asking(|s.ops|)])
        else stage.(jobs := stage.jobs[k.job := t.ops[k.stage].jobs[k.job]],
                    puts := stage.puts[k.job := stage.puts[k.job] + 1]))
    && (!repolled ==> t.ops[k.stage].jobs[k.job].Answered?)
    && t.ops[..|s.ops|] == ActedOps(s, turn)[k.stage := t.ops[k.stage]]
    && (repolled ==> t.ops[|s.ops|] == NewOp(k, Ready, 0))
  }

  lemma AnswerShape(s: Loop, verdict: Verdict)
    requires Inv(s) && Enabled(s, Answer(verdict))
    ensures Answers(s, Apply(s, Answer(verdict)), s.main.item.op, verdict.Repoll?)
  {
    var turn := s.main.item.op;
    assert OpInv(s, turn) && OpInv(s, s.ops[turn].kind.stage);
  }

  lemma AnswersPointwise(s: Loop, t: Loop, turn: nat, repolled: bool)
    requires Answers(s, t, turn, repolled)
    ensures forall i :: 0 <= i < |s.ops| && i != turn && i != s.ops[turn].kind.stage ==> t.ops[i] == s.ops[i]
    ensures t.ops[turn] == s.ops[turn].(state := Acted)
    ensures turn != s.ops[turn].kind.stage
    ensures JobMoved(s, t, s.ops[turn].kind.stage, s.ops[turn].kind.job)
  {
    forall i | 0 <= i < |s.ops| && i != s.ops[turn].kind.stage ensures t.ops[i] == ActedOps(s, turn)[i] {
      assert t.ops[i] == t.ops[..|s.ops|][i];
    }
  }

  lemma AnswerKeepsStage(s: Loop, t: Loop, turn: nat, repolled: bool)
    requires OpsInv(s) && Answers(s, t, turn, repolled)
    ensures OpInv(t, s.ops[turn].kind.stage)
  {
    var k := s.ops[turn].kind;
    AnswersPointwise(s, t, turn, repolled);
    assert OpInv(s, turn) && OpInv(s, k.stage);
    assert JobInv(s, k.stage, k.job);
    OtherJobsKeep(s, t, k.stage, k.job);
    JobChangeKeepsResults(s.ops[k.stage], t.ops[k.stage], k.job);
    assert JobInv(t, k.stage, k.job);
  }

  lemma AnswerKeepsOther(s: Loop, t: Loop, turn: nat, repolled: bool, i: nat)
    requires OpsInv(s) && Answers(s, t, turn, repolled) && i < |s.ops| && i != s.ops[turn].kind.stage
    ensures OpInv(t, i)
  {
    var k := s.ops[turn].kind;
    AnswersPointwise(s, t, turn, repolled);
    assert OpInv(s, i) && OpInv(s, turn) && OpInv(s, k.stage);
    if i == turn {
      ResultsSame(s.ops[i], t.ops[i]);
    } else {
      assert JobInv(s, k.stage, k.job);
      OtherOpKeeps(s, t, k.stage, k.job, i);
    }
  }

  lemma AnswerKeepsOps(s: Loop, t: Loop, turn: nat, repolled: bool)
    requires Inv(s) && Answers(s, t, turn, repolled)
    ensures OpsInv(t)
  {
    var k := s.ops[turn].kind;
    forall i | 0 <= i < |t.ops| ensures OpInv(t, i) {
      if i == k.stage {
        AnswerKeepsStage(s, t, turn, repolled);
      } else if i < |s.ops| {
        AnswerKeepsOther(s, t, turn, repolled, i);
      } else {
        assert ResultsInv(t.ops[i]);
      }
    }
  }

  lemma AnswerKeepsCount(s: Loop, t: Loop, turn: nat, repolled: bool)
    requires s.count == Outstanding(s.ops) && Answers(s, t, turn, repolled)
    ensures t.count == Outstanding(t.ops)
  {
    var k := s.ops[turn].kind;
    AnswersPointwise(s, t, turn, repolled);
    var acted := ActedOps(s, turn);
    OutstandingUpdate(s.ops, turn, acted[turn]);
    OutstandingUpdate(acted, k.stage, t.ops[k.stage]);
    if repolled {
      OutstandingAdd(t.ops[..|s.ops|], t.ops[|s.ops|]);
      assert t.ops == t.ops[..|s.ops|] + [t.ops[|s.ops|]];
    } else {
      assert t.ops == t.ops[..|s.ops|];
    }
  }

  lemma AnswerKeepsRest(s: Loop, t: Loop, turn: nat, repolled: bool)
    requires Inv(s) && Answers(s, t, turn, repolled) && s.main == InTask(Closure(turn))
    ensures ItemsInv(t) && MainInv(t) && !t.closer.SawZero? && !t.closer.Closed?
  {
    AnswersPointwise(s, t, turn, repolled);
    SomeoneOutstanding(s, turn);
  }

  lemma AnswerKeeps(s: Loop, verdict: Verdict)
    requires Inv(s) && Enabled(s, Answer(verdict))
    ensures Inv(Apply(s, Answer(verdict)))
  {
    var turn := s.main.item.op;
    AnswerShape(s, verdict);
    AnswerKeepsAll(s, Apply(s, Answer(verdict)), turn, verdict.Repoll?);
  }

  lemma AnswerKeepsAll(s: Loop, t: Loop, turn: nat, repolled: bool)
    requires Inv(s) && Answers(s, t, turn, repolled) && s.main == InTask(Closure(turn))
    ensures Inv(t)
  {
    AnswerKeepsOps(s, t, turn, repolled);
    AnswerKeepsCount(s, t, turn, repolled);
    AnswerKeepsRest(s, t, turn, repolled);
  }

  // ------------------------------------------------------------------- runs

  lemma StepKeeps(s: Loop, step: Step)
    requires Inv(s) && Enabled(s, step)
    ensures Inv(Apply(s, step))
  {
    match step {
      case Begin => BeginKeeps(s, Promise, 0);
      case BeginStage(n) => BeginKeeps(s, Stage, n);
      case Notify => NotifyKeeps(s);
      case Spawn(stage, job) => SpawnKeeps(s, stage, job);
      case Emit(op) => EmitKeeps(s, op);
      case Return(op, failed) => ReturnKeeps(s, op, failed);
      case Send(op) => SendKeeps(s, op);
      case Report(stage, job, sawCancel) => ReportKeeps(s, stage, job, sawCancel);
      case Collect(stage) => CollectKeeps(s, stage);
      case Receive => ReceiveKeeps(s);
      case Settle => SettleKeeps(s);
      case Answer(verdict) => AnswerKeeps(s, verdict);
      case Finish(error) => FinishKeeps(s, error);
      case _ => StillKeeps(s, step);
    }
  }

  lemma {:induction false} RunKeeps(s: Loop, steps: seq<Step>)
    requires Inv(s) && LegalRun(s, steps)
    ensures Inv(RunLoop(s, steps))
    decreases |steps|
  {
    if steps != [] {
      StepKeeps(s, steps[0]);
      RunKeeps(Apply(s, steps[0]), steps[1..]);
    }
  }

  ghost predicate Reachable(s: Loop) {
    exists steps :: LegalRun(Start(), steps) && RunLoop(Start(), steps) == s
  }

  lemma ReachableInv(s: Loop)
    requires Reachable(s)
    ensures Inv(s)
  {
    var steps :| LegalRun(Start(), steps) && RunLoop(Start(), steps) == s;
    RunKeeps(Start(), steps);
  }
}
