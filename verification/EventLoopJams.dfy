/** When a send from the main thread can block it for ever. The main thread is the only
    receiver of the task channel, so it is lost as soon as somebody else's closure or
    callback takes the one free place first. */
module EventLoopJams {
  import opened Runs
  import opened EventLoop
  import opened EventLoopInvariant
  import opened EventLoopSteps
  import opened EventLoopSafety

  /** The operation's goroutine can put something in the channel before the main thread
      moves again: a closure that is ready, an output callback, or the closure of a stage
      none of whose jobs waits for the main thread, or the turn of a job not yet spawned. */
  predicate CanSend(s: Loop, i: nat) {
    i < |s.ops| &&
    (s.ops[i].state.Ready?
     || (s.ops[i].state.Working? && s.ops[i].kind.Promise?)
     || (IsStage(s, i) && (SomeUnspawned(s.ops[i]) || NoneAsking(s.ops[i]))))
  }

  predicate SomeUnspawned(op: Op) { exists j :: 0 <= j < |op.jobs| && op.jobs[j].Unspawned? }

  predicate NoneAsking(op: Op) { forall j :: 0 <= j < |op.jobs| ==> !op.jobs[j].Asking? }

  /** A run during which the main thread stays where it is. */
  predicate Waits(s: Loop, steps: seq<Step>)
    decreases |steps|
  {
    steps == [] ||
    (Enabled(s, steps[0]) && Apply(s, steps[0]).main == s.main && Waits(Apply(s, steps[0]), steps[1..]))
  }

  function After(s: Loop, steps: seq<Step>): Loop
    requires Waits(s, steps)
    decreases |steps|
  {
    if steps == [] then s else After(Apply(s, steps[0]), steps[1..])
  }

  /** A run after which the main thread is blocked for good. */
  predicate Jams(s: Loop, steps: seq<Step>) { Waits(s, steps) && Stuck(After(s, steps)) }

  lemma {:induction false} WaitsIsLegal(s: Loop, steps: seq<Step>)
    requires Waits(s, steps)
    ensures LegalRun(s, steps) && RunLoop(s, steps) == After(s, steps) && After(s, steps).main == s.main
    decreases |steps|
  {
    if steps != [] {
      WaitsIsLegal(Apply(s, steps[0]), steps[1..]);
    }
  }

  /** After a jam no continuation moves the main thread. */
  lemma JamIsForever(s: Loop, steps: seq<Step>, more: seq<Step>)
    requires Inv(s) && Jams(s, steps) && LegalRun(After(s, steps), more)
    ensures RunLoop(After(s, steps), more).main == s.main
  {
    WaitsIsLegal(s, steps);
    RunKeeps(s, steps);
    StuckForever(After(s, steps), more);
  }

  // ------------------------------------------------------------- a sender jams

  lemma JamAfter(s: Loop, step: Step, steps: seq<Step>)
    requires Enabled(s, step) && Apply(s, step).main == s.main && Jams(Apply(s, step), steps)
    ensures Jams(s, [step] + steps)
  {
    assert ([step] + steps)[1..] == steps;
  }

  lemma SendJams(s: Loop, step: Step)
    requires Enabled(s, step) && Apply(s, step).main == s.main && Stuck(Apply(s, step))
    ensures Jams(s, [step])
  {
    assert Jams(Apply(s, step), []);
    JamAfter(s, step, []);
    assert [step] + [] == [step];
  }

  /** A main thread that waits in a send of its own while the channel is empty. */
  ghost predicate Exposed(s: Loop) { Inv(s) && s.main.Blocked? && s.channel == [] && !s.closer.Closed? }

  lemma ExposedWhile(s: Loop)
    requires Inv(s) && s.main.Blocked? && s.channel == []
    ensures Exposed(s)
  {
    SomeoneOutstanding(s, s.main.op);
  }

  lemma SenderJams(s: Loop, i: nat) returns (steps: seq<Step>)
    requires Exposed(s) && CanSend(s, i) && i != s.main.op
    ensures Jams(s, steps)
  {
    if s.ops[i].state.Ready? {
      steps := [Send(i)];
      SendJams(s, Send(i));
    } else if s.ops[i].kind.Promise? {
      steps := [Emit(i)];
      SendJams(s, Emit(i));
    } else if SomeUnspawned(s.ops[i]) {
      var j :| 0 <= j < |s.ops[i].jobs| && s.ops[i].jobs[j].Unspawned?;
      steps := [Spawn(i, j)] + [Send(|s.ops|)];
      SendJams(Apply(s, Spawn(i, j)), Send(|s.ops|));
      JamAfter(s, Spawn(i, j), [Send(|s.ops|)]);
    } else {
      steps := StageJams(s, i);
    }
  }

  lemma ResultsFit(op: Op)
    requires ResultsInv(op)
    ensures |op.results| <= |op.jobs|
  {
    var xs := seq(|op.results|, k requires 0 <= k < |op.results| => op.results[k].job);
    forall k | 0 <= k < |xs| ensures xs[k] < |op.jobs| {
      assert ResultInv(op, k);
    }
    Pigeonhole(xs, |op.jobs|);
  }

  /** Every job of the stage has its verdict. */
  predicate PastTurns(s: Loop, i: nat) {
    IsStage(s, i) && NoneAsking(s.ops[i]) && !SomeUnspawned(s.ops[i])
  }

  /** What a stage past its turns still has to report and collect. */
  function Pending(op: Op): int { 2 * |op.jobs| - |op.results| - op.taken }

  /** It can report or collect one more result. */
  lemma StageAdvances(s: Loop, i: nat) returns (step: Step)
    requires Inv(s) && PastTurns(s, i) && s.ops[i].taken != |s.ops[i].jobs|
    ensures Enabled(s, step) && (step.Collect? || step.Report?)
    ensures var t := Apply(s, step);
            && t == s.(ops := t.ops) && |t.ops| == |s.ops|
            && PastTurns(t, i) && Pending(t.ops[i]) < Pending(s.ops[i])
  {
    var op := s.ops[i];
    assert OpInv(s, i);
    if op.taken < |op.results| {
      step := Collect(i);
    } else {
      var j := UnreportedJob(op);
      step := Report(i, j, false);
      forall k | 0 <= k < |op.jobs| && k != j ensures Apply(s, step).ops[i].jobs[k] == op.jobs[k] {}
    }
  }

  lemma PendingIsNatural(s: Loop, i: nat)
    requires Inv(s) && IsStage(s, i)
    ensures Pending(s.ops[i]) >= 0
  {
    assert OpInv(s, i);
    ResultsFit(s.ops[i]);
  }

  /** A stage whose jobs are all past their turns reports, collects and sends without the
      main thread. */
  lemma {:induction false} StageJams(s: Loop, i: nat) returns (steps: seq<Step>)
    requires Exposed(s) && PastTurns(s, i)
    ensures Jams(s, steps)
    decreases Pending(s.ops[i])
  {
    PendingIsNatural(s, i);
    if s.ops[i].taken == |s.ops[i].jobs| {
      steps := CompleteStageJams(s, i);
    } else {
      var step := StageAdvances(s, i);
      StepKeeps(s, step);
      PendingIsNatural(Apply(s, step), i);
      var rest := StageJams(Apply(s, step), i);
      JamAfter(s, step, rest);
      steps := [step] + rest;
    }
  }

  lemma CompleteStageJams(s: Loop, i: nat) returns (steps: seq<Step>)
    requires Exposed(s) && PastTurns(s, i) && s.ops[i].taken == |s.ops[i].jobs|
    ensures Jams(s, steps)
  {
    assert OpInv(s, i);
    var step := Return(i, AnyFailed(s.ops[i].results[..Taken(s.ops[i])]));
    SendJams(Apply(s, step), Send(i));
    JamAfter(s, step, [Send(i)]);
    steps := [step] + [Send(i)];
  }

  // ------------------------------------------------------ without a sender none

  /** Nobody but the main thread can send. */
  ghost predicate Alone(s: Loop) {
    Exposed(s) && forall i :: 0 <= i < |s.ops| && CanSend(s, i) ==> i == s.main.op
  }

  /** A stage that has collected everything has no job waiting for its turn. */
  lemma CompleteIsFree(s: Loop, i: nat)
    requires Inv(s) && IsStage(s, i) && s.ops[i].taken == |s.ops[i].jobs|
    ensures NoneAsking(s.ops[i])
  {
    assert OpInv(s, i);
    AllReported(s.ops[i]);
  }

  /** While the main thread is blocked and nobody else can send, stages report and collect,
      and the context may be cancelled; that is all. */
  lemma OnlyBookkeeping(s: Loop, step: Step)
    requires Alone(s) && Enabled(s, step) && Apply(s, step).main == s.main
    ensures step.Cancel? || step.Report? || step.Collect?
  {
    SomeoneOutstanding(s, s.main.op);
    assert s.ops[s.main.op].state.Ready? && s.ops[s.main.op].kind.Promise?;
    match step
    case Return(op, _) =>
      if IsStage(s, op) {
        CompleteIsFree(s, op);
      }
      assert CanSend(s, op);
    case Send(op) => assert CanSend(s, op);
    case Emit(op) => assert CanSend(s, op);
    case Spawn(stage, _) => assert CanSend(s, stage);
    case _ =>
  }

  /** As long as the main thread stays blocked, nobody becomes able to send. */
  lemma AloneStays(s: Loop, step: Step)
    requires Alone(s) && Enabled(s, step) && Apply(s, step).main == s.main
    ensures Alone(Apply(s, step))
  {
    var t := Apply(s, step);
    OnlyBookkeeping(s, step);
    StepKeeps(s, step);
    forall i | 0 <= i < |t.ops| && CanSend(t, i) ensures CanSend(s, i) {
      if step.Report? && i == step.stage && NoneAsking(t.ops[i]) && !SomeUnspawned(t.ops[i]) {
        var op := s.ops[i];
        forall k | 0 <= k < |op.jobs| && k != step.job ensures t.ops[i].jobs[k] == op.jobs[k] {}
      } else if step.Report? && i == step.stage && SomeUnspawned(t.ops[i]) {
        var j :| 0 <= j < |t.ops[i].jobs| && t.ops[i].jobs[j].Unspawned?;
        assert s.ops[i].jobs[j].Unspawned?;
      }
    }
  }

  lemma {:induction false} AloneThroughout(s: Loop, steps: seq<Step>)
    requires Alone(s) && Waits(s, steps)
    ensures Alone(After(s, steps))
    decreases |steps|
  {
    if steps != [] {
      AloneStays(s, steps[0]);
      AloneThroughout(Apply(s, steps[0]), steps[1..]);
    }
  }

  // -------------------------------------------------------------- exact conditions

  /** A blocked main thread can be blocked for good exactly when the channel is full or
      somebody else can send; otherwise its own send stays possible however long it waits. */
  lemma JamsExactly(s: Loop)
    requires Reachable(s) && s.main.Blocked?
    ensures (exists steps :: Jams(s, steps)) <==>
            |s.channel| == 1 || exists i :: 0 <= i < |s.ops| && i != s.main.op && CanSend(s, i)
    ensures (forall steps :: !Jams(s, steps)) ==> forall steps :: Waits(s, steps) ==> Enabled(After(s, steps), Send(s.main.op))
  {
    ReachableInv(s);
    if s.channel != [] {
      assert Jams(s, []);
    } else {
      ExposedWhile(s);
      if i :| 0 <= i < |s.ops| && i != s.main.op && CanSend(s, i) {
        var steps := SenderJams(s, i);
      } else {
        forall steps | Waits(s, steps) ensures Alone(After(s, steps)) && After(s, steps).main == s.main {
          AloneThroughout(s, steps);
          WaitsIsLegal(s, steps);
        }
      }
    }
  }

  /** What the caller of an asynchronous notification can check before the call: it may
      block the main thread for ever exactly when the channel is full or any operation can
      send. A single working promise is enough. */
  lemma NotificationExactly(s: Loop)
    requires Reachable(s) && Enabled(s, Notify)
    ensures (exists steps :: Jams(Apply(s, Notify), steps)) <==>
            |s.channel| == 1 || exists i :: 0 <= i < |s.ops| && CanSend(s, i)
  {
    var t := Apply(s, Notify);
    ReachableNext(s, Notify);
    JamsExactly(t);
    forall i | 0 <= i < |s.ops| ensures CanSend(t, i) <==> CanSend(s, i) {
      assert t.ops[i] == s.ops[i];
    }
    if i :| 0 <= i < |s.ops| && CanSend(s, i) {
      assert i != t.main.op && CanSend(t, i);
    }
  }

  lemma {:induction false} RunSnoc(s: Loop, steps: seq<Step>, step: Step)
    requires LegalRun(s, steps) && Enabled(RunLoop(s, steps), step)
    ensures LegalRun(s, steps + [step]) && RunLoop(s, steps + [step]) == Apply(RunLoop(s, steps), step)
    decreases |steps|
  {
    if steps == [] {
      assert [] + [step] == [step] && [step][1..] == [];
    } else {
      assert (steps + [step])[0] == steps[0] && (steps + [step])[1..] == steps[1..] + [step];
      RunSnoc(Apply(s, steps[0]), steps[1..], step);
    }
  }

  lemma ReachableNext(s: Loop, step: Step)
    requires Reachable(s) && Enabled(s, step)
    ensures Reachable(Apply(s, step))
  {
    var steps :| LegalRun(Start(), steps) && RunLoop(Start(), steps) == s;
    RunSnoc(Start(), steps, step);
  }

  /** The smallest case: a script that starts one task and then notifies once. The task's
      first output takes the channel's only place, and the main thread never moves again. */
  lemma OneNotificationMayDeadlock()
    ensures var steps := [Begin, Notify, Emit(0)];
            && LegalRun(Start(), steps)
            && var s := RunLoop(Start(), steps);
            && s.main == Blocked(1, Script)
            && forall more :: LegalRun(s, more) ==> RunLoop(s, more).main == s.main
  {
    var steps := [Begin, Notify, Emit(0)];
    var a := Apply(Start(), Begin);
    var b := Apply(a, Notify);
    assert steps[1..] == [Notify, Emit(0)] && steps[1..][1..] == [Emit(0)] && [Emit(0)][1..] == [];
    assert LegalRun(b, [Emit(0)]) && LegalRun(a, steps[1..]);
    var s := RunLoop(Start(), steps);
    assert s == RunLoop(a, steps[1..]) == RunLoop(b, [Emit(0)]) == Apply(b, Emit(0));
    RunKeeps(Start(), steps);
    forall more | LegalRun(s, more) ensures RunLoop(s, more).main == s.main {
      StuckForever(s, more);
    }
  }
}
