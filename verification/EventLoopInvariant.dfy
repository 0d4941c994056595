/** The inductive invariant of the event loop, and its preservation by every step. */
module EventLoopInvariant {
  import opened Runs
  import opened EventLoop

  /** The operations added and not yet settled. */
  function Outstanding(ops: seq<Op>): nat {
    if ops == [] then 0
    else Outstanding(ops[..|ops| - 1]) + if ops[|ops| - 1].state.Settled? then 0 else 1
  }

  predicate Unfinished(op: Op) { op.state.Ready? || op.state.Sent? || op.state.Executing? }

  predicate Done(op: Op) { op.state.Acted? || op.state.Settled? }

  /** A closure is in the channel, or on the main thread, exactly when its operation
      says so. */
  predicate PlaceInv(s: Loop, i: nat)
    requires i < |s.ops|
  {
    && (s.ops[i].state.Sent? <==> s.channel == [Closure(i)])
    && ((s.ops[i].state.Executing? || s.ops[i].state.Acted?) <==> Current(s.main) == Some(Closure(i)))
    && s.ops[i].settles == if Done(s.ops[i]) && !s.ops[i].kind.Turn? then 1 else 0
  }

  /** A turn that has not acted is the one its stage job waits for. */
  predicate TurnInv(s: Loop, i: nat)
    requires i < |s.ops|
  {
    s.ops[i].kind.Turn? ==>
      && !s.ops[i].state.Working?
      && (Unfinished(s.ops[i]) ==>
            var k := s.ops[i].kind;
            IsStage(s, k.stage) && k.job < |s.ops[k.stage].jobs| && s.ops[k.stage].jobs[k.job] == Asking(i))
  }

  predicate JobInv(s: Loop, i: nat, j: nat)
    requires i < |s.ops| && j < |s.ops[i].jobs| == |s.ops[i].puts|
  {
    var phase := s.ops[i].jobs[j];
    && s.ops[i].puts[j] == (if phase.Answered? || phase.Reported? then 1 else 0)
    && (phase.Asking? ==>
          phase.op < |s.ops| && s.ops[phase.op].kind == Turn(i, j) && Unfinished(s.ops[phase.op]))
    && (phase.Reported? ==> (phase.failed ==> phase.sent) && (phase.sent ==> phase.failed || s.cancelled))
  }

  /** The results channel carries one result for each job that has reported. */
  ghost predicate ResultsInv(op: Op) {
    && (forall k :: 0 <= k < |op.results| ==> ResultInv(op, k))
    && (forall k, l :: 0 <= k < l < |op.results| ==> op.results[k].job != op.results[l].job)
    && (forall j :: 0 <= j < |op.jobs| && op.jobs[j].Reported? ==> Delivered(op, j))
  }

  predicate ResultInv(op: Op, k: nat)
    requires k < |op.results|
  {
    var r := op.results[k];
    r.job < |op.jobs| && op.jobs[r.job].Reported? && op.jobs[r.job].sent == r.failed
  }

  predicate Delivered(op: Op, j: nat) { exists k :: 0 <= k < |op.results| && op.results[k].job == j }

  ghost predicate StageInv(s: Loop, i: nat)
    requires i < |s.ops|
  {
    var op := s.ops[i];
    && |op.jobs| == |op.puts| && op.taken <= |op.results| && op.taken <= |op.jobs|
    && (forall j :: 0 <= j < |op.jobs| ==> JobInv(s, i, j))
    && ResultsInv(op)
    && (!op.kind.Stage? ==> op.jobs == [])
    && (op.kind.Stage? && !op.state.Working? ==>
          op.taken == |op.jobs| && op.failed == AnyFailed(op.results[..op.taken]))
  }

  ghost predicate OpInv(s: Loop, i: nat)
    requires i < |s.ops|
  {
    PlaceInv(s, i) && TurnInv(s, i) && StageInv(s, i)
  }

  predicate MainInv(s: Loop) {
    match s.main
    case Blocked(op, resume) =>
      && (resume.Script? || resume.InTask?)
      && op < |s.ops| && s.ops[op].state.Ready? && s.ops[op].kind.Promise?
    case Exited => s.closer.Closed? && s.channel == []
    case _ => true
  }

  predicate ItemsInv(s: Loop) {
    && |s.channel| <= 1
    && (|s.channel| == 1 ==>
          var item := s.channel[0];
          && item.op < |s.ops|
          && (item.Closure? ==> s.ops[item.op].state.Sent?)
          && (item.Callback? ==> s.ops[item.op].state.Working? || s.ops[item.op].state.Ready?))
    && (Current(s.main).Some? ==>
          var item := Current(s.main).value;
          && item.op < |s.ops|
          && (item.Closure? ==> s.ops[item.op].state.Executing? || s.ops[item.op].state.Acted?)
          && (item.Callback? ==> !Done(s.ops[item.op]) && !s.ops[item.op].state.Executing?))
  }

  function FirstError(errors: seq<bool>): Option<nat> {
    if errors == [] then None
    else
      var before := FirstError(errors[..|errors| - 1]);
      if before.None? && errors[|errors| - 1] then Some(|errors| - 1) else before
  }

  predicate CounterInv(s: Loop) {
    && s.count == Outstanding(s.ops)
    && (s.closer.NotStarted? <==> RunsScript(s.main))
    && (s.closer.SawZero? || s.closer.Closed? ==> s.count == 0)
    && !s.panicked
    && s.firstErr == FirstError(s.errors)
  }

  ghost predicate OpsInv(s: Loop) { forall i :: 0 <= i < |s.ops| ==> OpInv(s, i) }

  ghost predicate Inv(s: Loop) { OpsInv(s) && MainInv(s) && ItemsInv(s) && CounterInv(s) }

  // -------------------------------------------------------------- the counter

  lemma {:induction false} OutstandingUpdate(ops: seq<Op>, i: nat, op: Op)
    requires i < |ops|
    ensures Outstanding(ops[i := op]) ==
            Outstanding(ops) + (if ops[i].state.Settled? then 1 else 0) - (if op.state.Settled? then 1 else 0)
    decreases |ops|
  {
    var last := |ops| - 1;
    if i == last {
      assert ops[i := op][..last] == ops[..last];
    } else {
      assert ops[i := op][..last] == ops[..last][i := op];
      OutstandingUpdate(ops[..last], i, op);
    }
  }

  lemma OutstandingAdd(ops: seq<Op>, op: Op)
    ensures Outstanding(ops + [op]) == Outstanding(ops) + if op.state.Settled? then 0 else 1
  {
    assert (ops + [op])[..|ops|] == ops;
  }

  lemma {:induction false} OutstandingZero(ops: seq<Op>)
    ensures Outstanding(ops) == 0 <==> forall i :: 0 <= i < |ops| ==> ops[i].state.Settled?
    decreases |ops|
  {
    if ops != [] {
      OutstandingZero(ops[..|ops| - 1]);
      assert forall i :: 0 <= i < |ops| - 1 ==> ops[..|ops| - 1][i] == ops[i];
    }
  }

  /** Zero means no live sender, an empty channel, and a main thread outside JavaScript
      unless the script still runs. */
  lemma ZeroIsQuiet(s: Loop)
    requires Inv(s) && s.count == 0
    ensures forall i :: 0 <= i < |s.ops| ==> s.ops[i].state.Settled?
    ensures s.channel == [] && Current(s.main).None?
    ensures s.main.Script? || s.main.Idle? || s.main.Exited?
  {
    OutstandingZero(s.ops);
  }

  lemma SomeoneOutstanding(s: Loop, i: nat)
    requires Inv(s) && i < |s.ops| && !s.ops[i].state.Settled?
    ensures s.count > 0 && !s.closer.SawZero? && !s.closer.Closed?
  {
    OutstandingZero(s.ops);
  }

  /** JavaScript runs only while the script or an unsettled closure does. */
  lemma ScriptHoldsCounter(s: Loop)
    requires Inv(s) && InScript(s)
    ensures !s.closer.SawZero? && !s.closer.Closed?
  {
    if s.main.InTask? {
      SomeoneOutstanding(s, s.main.item.op);
    }
  }

  // ------------------------------------------------------------- preservation

  lemma BeginKeeps(s: Loop, kind: Kind, jobs: nat)
    requires Inv(s) && InScript(s) && !kind.Turn? && (kind.Promise? ==> jobs == 0)
    ensures Inv(Add(s, NewOp(kind, Working, jobs)))
  {
    var t := Add(s, NewOp(kind, Working, jobs));
    ScriptHoldsCounter(s);
    OutstandingAdd(s.ops, NewOp(kind, Working, jobs));
    forall i | 0 <= i < |t.ops| ensures OpInv(t, i) {
      if i < |s.ops| {
        assert OpInv(s, i);
        OpSurvivesAdd(s, t, i);
      }
    }
  }

  /** Appending an operation leaves the others as they were. */
  lemma OpSurvivesAdd(s: Loop, t: Loop, i: nat)
    requires i < |s.ops| && OpInv(s, i) && |t.ops| == |s.ops| + 1 && t.ops[..|s.ops|] == s.ops
    requires t.channel == s.channel && Current(t.main) == Current(s.main) && t.cancelled == s.cancelled
    ensures OpInv(t, i)
  {
    assert forall k :: 0 <= k < |s.ops| ==> t.ops[k] == t.ops[..|s.ops|][k] == s.ops[k];
    forall j | 0 <= j < |t.ops[i].jobs| ensures JobInv(t, i, j) {
      assert JobInv(s, i, j);
    }
  }

  lemma NotifyKeeps(s: Loop)
    requires Inv(s) && Enabled(s, Notify)
    ensures Inv(Apply(s, Notify))
  {
    var t := Apply(s, Notify);
    ScriptHoldsCounter(s);
    OutstandingAdd(s.ops, NewOp(Promise, Ready, 0));
    forall i | 0 <= i < |t.ops| ensures OpInv(t, i) {
      if i < |s.ops| {
        assert OpInv(s, i);
        OpSurvivesAdd(s, t, i);
      }
    }
  }

  /** An operation whose own record, and the records of its stage and its turns, did not
      change in what the invariant reads, keeps it. */
  lemma OpSurvives(s: Loop, t: Loop, i: nat)
    requires i < |s.ops| <= |t.ops| && OpInv(s, i) && t.ops[i] == s.ops[i]
    requires PlaceInv(t, i) && TurnInv(t, i)
    requires s.cancelled ==> t.cancelled
    requires forall k :: 0 <= k < |s.ops| ==> t.ops[k].kind == s.ops[k].kind
    requires forall k :: 0 <= k < |s.ops| && Unfinished(s.ops[k]) && !Unfinished(t.ops[k]) ==> s.ops[k].kind.Turn? ==> s.ops[k].kind.stage != i
    ensures OpInv(t, i)
  {
    forall j | 0 <= j < |t.ops[i].jobs| ensures JobInv(t, i, j) {
      assert JobInv(s, i, j);
    }
  }

  lemma EmitKeeps(s: Loop, op: nat)
    requires Inv(s) && Enabled(s, Emit(op))
    ensures Inv(Apply(s, Emit(op)))
  {
    var t := Apply(s, Emit(op));
    SomeoneOutstanding(s, op);
    assert s.channel == [] && t.channel[0] == Callback(op);
    forall i | 0 <= i < |t.ops| ensures OpInv(t, i) {
      assert OpInv(s, i);
      OpSurvives(s, t, i);
    }
  }

  // ---------------------------------------------------------------- counting

  /** Distinct numbers below n that are n in number include every number below n. */
  lemma {:induction false} Pigeonhole(xs: seq<nat>, n: nat)
    requires forall k :: 0 <= k < |xs| ==> xs[k] < n
    requires forall k, l :: 0 <= k < l < |xs| ==> xs[k] != xs[l]
    ensures |xs| <= n
    ensures |xs| == n ==> forall j :: 0 <= j < n ==> j in xs
    decreases n
  {
    if xs != [] {
      assert xs[0] < n;
      if n - 1 in xs {
        var k :| 0 <= k < |xs| && xs[k] == n - 1;
        var rest := xs[..k] + xs[k + 1..];
        assert forall a :: 0 <= a < |rest| ==> rest[a] == if a < k then xs[a] else xs[a + 1];
        Pigeonhole(rest, n - 1);
        assert forall x :: x in rest ==> x in xs;
      } else {
        Pigeonhole(xs, n - 1);
      }
    }
  }

  /** Once as many results have arrived as there are jobs, every job has reported. */
  lemma AllReported(op: Op)
    requires ResultsInv(op) && op.taken <= |op.results| && op.taken == |op.jobs|
    ensures |op.results| == |op.jobs|
    ensures forall j :: 0 <= j < |op.jobs| ==> op.jobs[j].Reported? && Delivered(op, j)
  {
    var xs := seq(|op.results|, k requires 0 <= k < |op.results| => op.results[k].job);
    forall k | 0 <= k < |xs| ensures xs[k] < |op.jobs| {
      assert ResultInv(op, k);
    }
    Pigeonhole(xs, |op.jobs|);
    forall j | 0 <= j < |op.jobs| ensures op.jobs[j].Reported? && Delivered(op, j) {
      assert j in xs;
      var k :| 0 <= k < |xs| && xs[k] == j;
      assert ResultInv(op, k);
    }
  }

  lemma ResultsSame(a: Op, b: Op)
    requires ResultsInv(a) && a.jobs == b.jobs && a.results == b.results
    ensures ResultsInv(b)
  {
    forall k | 0 <= k < |b.results| ensures ResultInv(b, k) {
      assert ResultInv(a, k);
    }
    forall j | 0 <= j < |b.jobs| && b.jobs[j].Reported? ensures Delivered(b, j) {
      assert Delivered(a, j);
    }
  }

  lemma ReturnKeepsOther(s: Loop, op: nat, failed: bool, i: nat)
    requires Inv(s) && Enabled(s, Return(op, failed)) && i < |s.ops| && i != op
    ensures OpInv(Apply(s, Return(op, failed)), i)
  {
    var t := Apply(s, Return(op, failed));
    assert OpInv(s, i) && OpInv(s, op);
    var k := s.ops[i].kind;
    if k.Turn? && Unfinished(s.ops[i]) && k.stage == op {
      AllReported(s.ops[op]);
    }
    OpSurvives(s, t, i);
  }

  lemma ReturnKeepsItself(s: Loop, op: nat, failed: bool)
    requires Inv(s) && Enabled(s, Return(op, failed))
    ensures OpInv(Apply(s, Return(op, failed)), op)
  {
    var t := Apply(s, Return(op, failed));
    assert OpInv(s, op);
    forall j | 0 <= j < |t.ops[op].jobs| ensures JobInv(t, op, j) {
      assert JobInv(s, op, j);
    }
    ResultsSame(s.ops[op], t.ops[op]);
  }

  lemma ReturnKeeps(s: Loop, op: nat, failed: bool)
    requires Inv(s) && Enabled(s, Return(op, failed))
    ensures Inv(Apply(s, Return(op, failed)))
  {
    var t := Apply(s, Return(op, failed));
    OutstandingUpdate(s.ops, op, t.ops[op]);
    forall i | 0 <= i < |t.ops| ensures OpInv(t, i) {
      if i == op {
        ReturnKeepsItself(s, op, failed);
      } else {
        ReturnKeepsOther(s, op, failed, i);
      }
    }
  }
}
