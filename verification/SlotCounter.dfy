/** The execution slot counter of server/execution.go at the grain of its atomic
    operations: the CanExecute check, the counter increment and the wait-group increment
    of dispatchRun are separate steps of any number of concurrent dispatchers, and an
    execution leaves the wait group before it gives its slot back. */
module SlotCounter {
  import opened Runs

  /** Passed: CanExecute returned true. Counted: the counter was incremented, the wait
      group not yet. */
  datatype Dispatcher = Outside | Passed | Counted

  /** Drained: wg.Done has run, the slot is still held. */
  datatype Execution = Live | Drained | Released

  datatype Slots = Slots(max: nat, dispatchers: seq<Dispatcher>, inFlight: int, wg: int, executions: seq<Execution>)

  datatype Step = Check(d: nat) | Abandon(d: nat) | AddSlot(d: nat) | Launch(d: nat) | Drain(e: nat) | Release(e: nat)

  predicate Enabled(s: Slots, step: Step) {
    match step
    case Check(d) => d < |s.dispatchers| && s.dispatchers[d].Outside?
    case Abandon(d) => d < |s.dispatchers| && s.dispatchers[d].Passed?
    case AddSlot(d) => d < |s.dispatchers| && s.dispatchers[d].Passed?
    case Launch(d) => d < |s.dispatchers| && s.dispatchers[d].Counted?
    case Drain(e) => e < |s.executions| && s.executions[e].Live?
    case Release(e) => e < |s.executions| && s.executions[e].Drained?
  }

  function Apply(s: Slots, step: Step): Slots
    requires Enabled(s, step)
  {
    match step
    case Check(d) => if s.inFlight < s.max then s.(dispatchers := s.dispatchers[d := Passed]) else s
    case Abandon(d) => s.(dispatchers := s.dispatchers[d := Outside])
    case AddSlot(d) => s.(dispatchers := s.dispatchers[d := Counted], inFlight := s.inFlight + 1)
    case Launch(d) =>
      s.(dispatchers := s.dispatchers[d := Outside], wg := s.wg + 1, executions := s.executions + [Live])
    case Drain(e) => s.(executions := s.executions[e := Drained], wg := s.wg - 1)
    case Release(e) => s.(executions := s.executions[e := Released], inFlight := s.inFlight - 1)
  }

  function Idle(max: nat, k: nat): Slots {
    Slots(max, seq(k, _ => Outside), 0, 0, [])
  }

  predicate LegalRun(s: Slots, steps: seq<Step>)
    decreases |steps|, 0
  {
    steps == [] ||
    (LegalRun(s, steps[..|steps| - 1]) && Enabled(RunSteps(s, steps[..|steps| - 1]), steps[|steps| - 1]))
  }

  function RunSteps(s: Slots, steps: seq<Step>): Slots
    requires LegalRun(s, steps)
    decreases |steps|, 1
  {
    if steps == [] then s else Apply(RunSteps(s, steps[..|steps| - 1]), steps[|steps| - 1])
  }

  ghost predicate Reachable(max: nat, k: nat, s: Slots) {
    exists steps :: LegalRun(Idle(max, k), steps) && RunSteps(Idle(max, k), steps) == s
  }

  // ---------------------------------------------------------------- invariant

  function Dispatchers(s: Slots, phase: Dispatcher): nat { Count(s.dispatchers, phase) }

  function Executions(s: Slots, phase: Execution): nat { Count(s.executions, phase) }

  /** Slots held: increments made for executions not started yet, and executions whose
      final decrement has not run. */
  function Held(s: Slots): nat { Dispatchers(s, Counted) + Executions(s, Live) + Executions(s, Drained) }

  predicate Inv(max: nat, k: nat, s: Slots) {
    && s.max == max && |s.dispatchers| == k
    && s.inFlight == Held(s)
    && s.wg == Executions(s, Live)
    && s.inFlight + Dispatchers(s, Passed) <= max - 1 + k
  }

  lemma StepKeeps(max: nat, k: nat, s: Slots, step: Step)
    requires Inv(max, k, s) && Enabled(s, step)
    ensures Inv(max, k, Apply(s, step))
  {
    var t := Apply(s, step);
    match step {
      case Drain(e) => CountMoves(s.executions, e, Drained);
      case Release(e) => CountMoves(s.executions, e, Released);
      case Launch(d) =>
        CountMoves(s.dispatchers, d, Outside);
        CountAppend(s.executions, Live, Live);
        CountAppend(s.executions, Live, Drained);
      case Check(d) =>
        CountMoves(s.dispatchers, d, Passed);
        CountAtMost(t.dispatchers, Passed);
      case Abandon(d) => CountMoves(s.dispatchers, d, Outside);
      case AddSlot(d) => CountMoves(s.dispatchers, d, Counted);
    }
  }

  lemma {:induction false} RunKeeps(max: nat, k: nat, s: Slots, steps: seq<Step>)
    requires Inv(max, k, s) && LegalRun(s, steps)
    ensures Inv(max, k, RunSteps(s, steps))
    decreases |steps|
  {
    if steps != [] {
      RunKeeps(max, k, s, steps[..|steps| - 1]);
      StepKeeps(max, k, RunSteps(s, steps[..|steps| - 1]), steps[|steps| - 1]);
    }
  }

  /** With at most k concurrent dispatchers the counter never exceeds max - 1 + k, never
      goes negative, is never below the wait-group count, and is exactly the slots whose
      final decrement has not run. One dispatcher keeps the configured limit. */
  lemma CounterBounds(max: nat, k: nat, s: Slots)
    requires max > 0 && Reachable(max, k, s)
    ensures 0 <= s.inFlight <= max - 1 + k
    ensures s.inFlight == Held(s)
    ensures 0 <= s.wg == Executions(s, Live) <= s.inFlight
    ensures s.inFlight - s.wg == Dispatchers(s, Counted) + Executions(s, Drained)
  {
    var steps :| LegalRun(Idle(max, k), steps) && RunSteps(Idle(max, k), steps) == s;
    CountAtMost(Idle(max, k).dispatchers, Passed);
    CountAtMost(Idle(max, k).dispatchers, Counted);
    RunKeeps(max, k, Idle(max, k), steps);
  }

  // ---------------------------------------------------------------- tightness

  lemma Extend(max: nat, k: nat, s: Slots, step: Step)
    requires Reachable(max, k, s) && Enabled(s, step)
    ensures Reachable(max, k, Apply(s, step))
  {
    var steps :| LegalRun(Idle(max, k), steps) && RunSteps(Idle(max, k), steps) == s;
    assert (steps + [step])[..|steps|] == steps;
    assert RunSteps(Idle(max, k), steps + [step]) == Apply(s, step);
  }

  /** `n` executions were started one after the other. */
  function Filled(max: nat, k: nat, n: nat): Slots {
    Slots(max, seq(k, _ => Outside), n, n, seq(n, _ => Live))
  }

  /** One slot is left; the first `passed` dispatchers have read the counter, and the
      first `added` of those have added to it. */
  function Racing(max: nat, k: nat, passed: nat, added: nat): Slots
    requires max > 0
  {
    Filled(max, k, max - 1).(
      dispatchers := seq(k, d => if d < added then Counted else if d < passed then Passed else Outside),
      inFlight := max - 1 + added)
  }

  lemma {:induction false} FilledReachable(max: nat, k: nat, n: nat)
    requires k > 0 && n <= max
    ensures Reachable(max, k, Filled(max, k, n))
    decreases n
  {
    if n == 0 {
      assert LegalRun(Idle(max, k), []) && RunSteps(Idle(max, k), []) == Filled(max, k, 0);
    } else {
      var s := Filled(max, k, n - 1);
      FilledReachable(max, k, n - 1);
      Extend(max, k, s, Check(0));
      var checked := Apply(s, Check(0));
      Extend(max, k, checked, AddSlot(0));
      var added := Apply(checked, AddSlot(0));
      Extend(max, k, added, Launch(0));
      assert Apply(added, Launch(0)) == Filled(max, k, n);
    }
  }

  /** All dispatchers read the counter before any of them adds to it. */
  lemma {:induction false} RacingReachable(max: nat, k: nat, passed: nat, added: nat)
    requires max > 0 && k > 0 && passed <= k && (added > 0 ==> added <= passed == k)
    ensures Reachable(max, k, Racing(max, k, passed, added))
    decreases passed + added
  {
    if added > 0 {
      RacingReachable(max, k, k, added - 1);
      Extend(max, k, Racing(max, k, k, added - 1), AddSlot(added - 1));
      assert Apply(Racing(max, k, k, added - 1), AddSlot(added - 1)) == Racing(max, k, k, added);
    } else if passed > 0 {
      RacingReachable(max, k, passed - 1, 0);
      Extend(max, k, Racing(max, k, passed - 1, 0), Check(passed - 1));
      assert Apply(Racing(max, k, passed - 1, 0), Check(passed - 1)) == Racing(max, k, passed, 0);
    } else {
      FilledReachable(max, k, max - 1);
      assert Racing(max, k, 0, 0) == Filled(max, k, max - 1);
    }
  }

  /** The bound is met for every limit and every number of dispatchers: the check and the
      add are not one step, so k dispatchers can overshoot the limit by k - 1. */
  lemma BoundIsReached(max: nat, k: nat)
    requires max > 0 && k > 0
    ensures exists s :: Reachable(max, k, s) && s.inFlight == max - 1 + k
  {
    RacingReachable(max, k, k, k);
    assert Racing(max, k, k, k).inFlight == max - 1 + k;
  }
}
