/** What the event loop guarantees in every reachable state, and what it does not. */
module EventLoopSafety {
  import opened Runs
  import opened EventLoop
  import opened EventLoopInvariant
  import opened EventLoopSteps

  /** No goroutine is left that sends, or that could start one that does. */
  ghost predicate NoSenderLeft(s: Loop) {
    && s.channel == []
    && (forall i :: 0 <= i < |s.ops| ==> s.ops[i].state.Settled?)
    && (forall i :: !Enabled(s, Send(i)) && !Enabled(s, Emit(i)))
    && (forall i, j :: !Enabled(s, Spawn(i, j)))
    && !InScript(s)
  }

  /** The counter is the number of operations added and not settled; nobody has sent,
      and nobody can still send, on the closed channel. */
  lemma NoSendAfterClose(s: Loop)
    requires Reachable(s)
    ensures s.count == Outstanding(s.ops) >= 0
    ensures !s.panicked
    ensures s.closer.SawZero? || s.closer.Closed? ==> NoSenderLeft(s)
  {
    ReachableInv(s);
    if s.closer.SawZero? || s.closer.Closed? {
      ZeroIsQuiet(s);
    }
  }

  /** Once the closer waits, a counter at zero stays there. */
  lemma ZeroIsFinal(s: Loop, step: Step)
    requires Reachable(s) && !s.closer.NotStarted? && s.count == 0 && Enabled(s, step)
    ensures Apply(s, step).count == 0 && Apply(s, step).ops == s.ops && Apply(s, step).channel == []
  {
    ReachableInv(s);
    ZeroIsQuiet(s);
  }

  /** When Wait returns, every promise was resolved or rejected exactly once, every stage
      job had its one verdict and one result, and the reported error is the first one in
      execution order. */
  lemma WaitSettlesEverything(s: Loop)
    requires Reachable(s) && s.main.Exited?
    ensures forall i :: 0 <= i < |s.ops| ==> s.ops[i].state.Settled?
    ensures forall i :: 0 <= i < |s.ops| && !s.ops[i].kind.Turn? ==> s.ops[i].settles == 1
    ensures forall i, j :: 0 <= i < |s.ops| && 0 <= j < |s.ops[i].jobs| ==>
              j < |s.ops[i].puts| && s.ops[i].puts[j] == 1 && OneResult(s.ops[i], j)
    ensures s.firstErr.Some? ==> s.firstErr.value < |s.errors| && s.errors[s.firstErr.value]
                                 && forall k :: 0 <= k < s.firstErr.value ==> !s.errors[k]
    ensures s.firstErr.None? ==> forall k :: 0 <= k < |s.errors| ==> !s.errors[k]
  {
    ReachableInv(s);
    ZeroIsQuiet(s);
    FirstErrorIsFirst(s.errors);
    forall i | 0 <= i < |s.ops| ensures OpInv(s, i) && (s.ops[i].kind.Turn? || s.ops[i].settles == 1) {
    }
    forall i, j | 0 <= i < |s.ops| && 0 <= j < |s.ops[i].jobs|
      ensures j < |s.ops[i].puts| && s.ops[i].puts[j] == 1 && OneResult(s.ops[i], j)
    {
      assert OpInv(s, i);
      StageIsComplete(s, i, j);
    }
  }

  /** Exactly one value was received from the results channel for the job. */
  ghost predicate OneResult(op: Op, j: nat) {
    exists k :: 0 <= k < op.taken <= |op.results| && op.results[k].job == j
                && forall l :: 0 <= l < |op.results| && op.results[l].job == j ==> l == k
  }

  lemma {:induction false} FirstErrorIsFirst(errors: seq<bool>)
    ensures var f := FirstError(errors);
            && (f.None? ==> forall k :: 0 <= k < |errors| ==> !errors[k])
            && (f.Some? ==> f.value < |errors| && errors[f.value] && forall k :: 0 <= k < f.value ==> !errors[k])
    decreases |errors|
  {
    if errors != [] {
      var before := errors[..|errors| - 1];
      FirstErrorIsFirst(before);
      assert forall k :: 0 <= k < |before| ==> before[k] == errors[k];
    }
  }

  lemma StageIsComplete(s: Loop, i: nat, j: nat)
    requires i < |s.ops| && OpInv(s, i) && !s.ops[i].state.Working? && j < |s.ops[i].jobs|
    ensures s.ops[i].jobs[j].Reported? && s.ops[i].puts[j] == 1 && OneResult(s.ops[i], j)
  {
    var op := s.ops[i];
    AllReported(op);
    assert JobInv(s, i, j);
    var k :| 0 <= k < |op.results| && op.results[k].job == j;
    forall l | 0 <= l < |op.results| && op.results[l].job == j ensures l == k {
      assert !(l < k) && !(k < l);
    }
  }

  predicate Fulfilled(phase: Phase) { phase.Reported? && !phase.failed }

  /** runStageJobs returns after exactly one verdict and one result per job; it returns
      nil only if every job fulfilled, and unless the context was cancelled, whenever
      every job did. */
  lemma StageOutcome(s: Loop, i: nat)
    requires Reachable(s) && i < |s.ops| && s.ops[i].kind.Stage? && !s.ops[i].state.Working?
    ensures forall j :: 0 <= j < |s.ops[i].jobs| ==> OneResult(s.ops[i], j)
    ensures |s.ops[i].puts| == |s.ops[i].jobs| == |s.ops[i].results| == s.ops[i].taken
    ensures forall j :: 0 <= j < |s.ops[i].puts| ==> s.ops[i].puts[j] == 1
    ensures !s.ops[i].failed ==> forall j :: 0 <= j < |s.ops[i].jobs| ==> Fulfilled(s.ops[i].jobs[j])
    ensures !s.cancelled && s.ops[i].failed ==> exists j :: 0 <= j < |s.ops[i].jobs| && !Fulfilled(s.ops[i].jobs[j])
  {
    ReachableInv(s);
    var op := s.ops[i];
    assert OpInv(s, i);
    AllReported(op);
    assert op.results[..op.taken] == op.results;
    forall j | 0 <= j < |op.jobs|
      ensures OneResult(op, j) && op.puts[j] == 1 && (!op.failed ==> Fulfilled(op.jobs[j]))
    {
      StageIsComplete(s, i, j);
      var k :| 0 <= k < |op.results| && op.results[k].job == j;
      assert ResultInv(op, k) && JobInv(s, i, j);
      assert op.results[k] in op.results;
    }
    if !s.cancelled && op.failed {
      var r :| r in op.results && r.failed;
      var k :| 0 <= k < |op.results| && op.results[k] == r;
      assert ResultInv(op, k) && JobInv(s, i, r.job);
      assert !Fulfilled(op.jobs[r.job]);
    }
  }

  /** At any moment no job has put a second value in errCh, so the put never blocks the
      main thread, and the buffered results channel never overflows. */
  lemma StageChannelsNeverBlock(s: Loop, i: nat, j: nat)
    requires Reachable(s) && i < |s.ops| && j < |s.ops[i].jobs|
    ensures j < |s.ops[i].puts| && s.ops[i].puts[j] <= 1
    ensures s.ops[i].jobs[j].Asking? ==> s.ops[i].puts[j] == 0
    ensures |s.ops[i].results| <= |s.ops[i].jobs|
  {
    ReachableInv(s);
    assert OpInv(s, i) && JobInv(s, i, j);
    var op := s.ops[i];
    var xs := seq(|op.results|, k requires 0 <= k < |op.results| => op.results[k].job);
    forall k | 0 <= k < |xs| ensures xs[k] < |op.jobs| {
      assert ResultInv(op, k);
    }
    Pigeonhole(xs, |op.jobs|);
  }

  /** An output callback never runs once its promise is settled. */
  lemma CallbacksPrecedeSettlement(s: Loop, op: nat)
    requires Reachable(s)
    requires Current(s.main) == Some(Callback(op)) || s.channel == [Callback(op)]
    ensures op < |s.ops| && s.ops[op].settles == 0
  {
    ReachableInv(s);
    if s.channel == [Callback(op)] {
      assert s.channel[0] == Callback(op);
    }
    assert OpInv(s, op);
  }

  // ---------------------------------------------------------------- progress

  /** A step some goroutine takes by itself, without new work from the script. */
  predicate Internal(step: Step) {
    !step.Begin? && !step.BeginStage? && !step.Notify? && !step.Emit? && !step.Cancel?
  }

  ghost predicate CanMove(s: Loop) { exists step :: Internal(step) && Enabled(s, step) }

  /** The main thread waits in a send of its own while the channel is full. */
  predicate Stuck(s: Loop) { s.main.Blocked? && |s.channel| == 1 }

  /** The protocol cannot deadlock unless the main thread itself sends into a full
      channel: until Wait returns, some goroutine can move. */
  lemma NeverStuckOtherwise(s: Loop)
    requires Reachable(s) && !s.main.Exited? && !Stuck(s)
    ensures CanMove(s)
  {
    ReachableInv(s);
    match s.main {
      case Script => assert Enabled(s, EndScript);
      case Blocked(op, _) => assert Enabled(s, Send(op));
      case InTask(item) =>
        if item.Callback? || Done(s.ops[item.op]) {
          assert Enabled(s, Finish(false));
        } else if s.ops[item.op].kind.Turn? {
          assert Enabled(s, Answer(Decided(false)));
        } else {
          assert Enabled(s, Settle);
        }
      case Idle =>
        if |s.channel| > 0 {
          assert Enabled(s, Receive);
        } else {
          IdleCanMove(s);
        }
      case Exited =>
    }
  }

  lemma IdleCanMove(s: Loop)
    requires Inv(s) && s.main.Idle? && s.channel == []
    ensures CanMove(s)
  {
    if s.count == 0 {
      assert Enabled(s, if s.closer.Waiting? then ObserveZero else if s.closer.SawZero? then Close else Exit);
    } else {
      OutstandingZero(s.ops);
      var i :| 0 <= i < |s.ops| && !s.ops[i].state.Settled?;
      assert OpInv(s, i);
      if s.ops[i].state.Ready? {
        assert Enabled(s, Send(i));
      } else if s.ops[i].kind.Promise? {
        assert Enabled(s, Return(i, false));
      } else {
        StageCanMove(s, i);
      }
    }
  }

  lemma StageCanMove(s: Loop, i: nat)
    requires Inv(s) && s.main.Idle? && s.channel == [] && IsStage(s, i)
    ensures CanMove(s)
  {
    var op := s.ops[i];
    assert OpInv(s, i);
    if op.taken == |op.jobs| {
      assert Enabled(s, Return(i, AnyFailed(op.results[..op.taken])));
    } else if op.taken < |op.results| {
      assert Enabled(s, Collect(i));
    } else {
      var j := UnreportedJob(op);
      assert JobInv(s, i, j);
      match op.jobs[j] {
        case Unspawned => assert Enabled(s, Spawn(i, j));
        case Asking(turn) =>
          assert OpInv(s, turn);
          assert Enabled(s, Send(turn));
        case Answered(_) => assert Enabled(s, Report(i, j, false));
        case Reported(_, _) =>
      }
    }
  }

  /** With fewer results than jobs, some job has not reported. */
  lemma UnreportedJob(op: Op) returns (j: nat)
    requires ResultsInv(op) && |op.results| < |op.jobs|
    ensures j < |op.jobs| && !op.jobs[j].Reported?
  {
    if forall k :: 0 <= k < |op.jobs| ==> op.jobs[k].Reported? {
      EveryJobNeedsAResult(op);
    }
    j :| 0 <= j < |op.jobs| && !op.jobs[j].Reported?;
  }

  ghost function ResultOf(op: Op, j: nat): nat
    requires Delivered(op, j)
  {
    var k :| 0 <= k < |op.results| && op.results[k].job == j; k
  }

  /** The results of different jobs are different, so there are as many as jobs. */
  lemma EveryJobNeedsAResult(op: Op)
    requires ResultsInv(op) && forall j :: 0 <= j < |op.jobs| ==> op.jobs[j].Reported?
    ensures |op.jobs| <= |op.results|
  {
    assert forall j :: 0 <= j < |op.jobs| ==> Delivered(op, j);
    Pigeonhole(seq(|op.jobs|, j requires 0 <= j < |op.jobs| => ResultOf(op, j)), |op.results|);
  }

  // ------------------------------------------- sends from the main thread

  /** An asynchronous notification sends its closure from the main thread, which is the
      only receiver. Blocked on a full channel it stays there in every continuation. */
  lemma {:induction false} StuckForever(s: Loop, steps: seq<Step>)
    requires Inv(s) && Stuck(s) && LegalRun(s, steps)
    ensures Stuck(RunLoop(s, steps)) && RunLoop(s, steps).main == s.main
    decreases |steps|
  {
    if steps != [] {
      SomeoneOutstanding(s, s.main.op);
      StepKeeps(s, steps[0]);
      StuckForever(Apply(s, steps[0]), steps[1..]);
    }
  }

  predicate Resumes(s: Loop, steps: seq<Step>) {
    LegalRun(s, steps) && !RunLoop(s, steps).main.Blocked?
  }

  /** A blocked main thread can ever resume exactly when the channel has room. */
  lemma BlockedExactly(s: Loop)
    requires Reachable(s) && s.main.Blocked?
    ensures |s.channel| == 0 <==> exists steps :: Resumes(s, steps)
  {
    ReachableInv(s);
    if |s.channel| == 0 {
      OneSendResumes(s);
    } else {
      forall steps | LegalRun(s, steps) ensures RunLoop(s, steps).main.Blocked? {
        StuckForever(s, steps);
      }
    }
  }

  lemma OneSendResumes(s: Loop)
    requires Inv(s) && s.main.Blocked? && |s.channel| == 0
    ensures Resumes(s, [Send(s.main.op)])
  {
    var steps := [Send(s.main.op)];
    var t := Apply(s, steps[0]);
    assert !t.main.Blocked?;
    assert LegalRun(t, steps[1..]) && RunLoop(t, steps[1..]) == t;
    assert RunLoop(s, steps) == t;
  }

  /** Two asynchronous notifications in one turn of the main thread always deadlock. */
  lemma SecondNotificationDeadlocks(s: Loop)
    requires Reachable(s) && Enabled(s, Notify) && s.channel == []
    ensures var first := Apply(s, Notify);
            && Enabled(first, Send(|s.ops|))
            && var sent := Apply(first, Send(|s.ops|));
            && Enabled(sent, Notify) && Stuck(Apply(sent, Notify))
            && forall steps :: LegalRun(Apply(sent, Notify), steps) ==> Stuck(RunLoop(Apply(sent, Notify), steps))
  {
    ReachableInv(s);
    ScriptHoldsCounter(s);
    var first := Apply(s, Notify);
    NotifyKeeps(s);
    var sent := Apply(first, Send(|s.ops|));
    SendKeeps(first, |s.ops|);
    NotifyKeeps(sent);
    forall steps | LegalRun(Apply(sent, Notify), steps) ensures Stuck(RunLoop(Apply(sent, Notify), steps)) {
      StuckForever(Apply(sent, Notify), steps);
    }
  }
}
