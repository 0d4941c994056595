/** What becomes of a trigger, told from the pipeline's settings and the runs in flight
    alone (server/execution_concurrency.go, server/execution.go). */
module AdmissionOutcome {
  import opened Runs
  import opened Admission
  import opened GroupInvariant
  import opened AdmissionEffects

  // ---------------------------------------------------------------- group keys

  /** When the group key of a trigger is an error, and what it is otherwise. */
  lemma GroupKeyIs(p: Pipeline, input: TriggerInput)
    ensures ResolveGroup(p, input).Err? <==>
            p.mode.UnknownMode?
            || (p.mode.Grouped? && (!p.hasTemplate || input.rendered.Err? || input.rendered == Ok("")))
    ensures ResolveGroup(p, input).Ok? ==>
              var group := ResolveGroup(p, input).value;
              && (group == "" <==> p.mode.Unlimited?)
              && (p.mode.Serial? || p.mode.SkipIfRunning? ==> group == "pipeline:" + p.id)
              && (p.mode.Grouped? ==> input.rendered == Ok(group))
    ensures p.mode.Grouped? && p.hasTemplate && input.rendered.Err? ==> ResolveGroup(p, input) == input.rendered
  {
  }

  // ------------------------------------------------------------------ capacity

  lemma {:induction false} FilteredQueued(runs: seq<Run>)
    ensures |Filter((r: Run) => r.status == Queued, runs)| == multiset(Statuses(runs))[Queued]
    decreases |runs|
  {
    if runs != [] {
      FilteredQueued(runs[1..]);
      assert Statuses(runs) == [runs[0].status] + Statuses(runs[1..]);
    }
  }

  function Statuses(runs: seq<Run>): seq<RunStatus> {
    seq(|runs|, i requires 0 <= i < |runs| => runs[i].status)
  }

  predicate HasRoom(s: Service) {
    s.inFlight < s.maxInFlight || (s.maxQueueSize > 0 && multiset(Statuses(s.runs))[Queued] < s.maxQueueSize)
  }

  /** A trigger can be accepted exactly with a free slot, or with fewer queued runs than a
      positive queue size. */
  lemma AcceptsExactly(s: Service)
    ensures CanAccept(s) <==> HasRoom(s)
  {
    FilteredQueued(s.runs);
    ReverseMembers(Filter((r: Run) => r.status == Queued, s.runs));
  }

  // ------------------------------------------------------------------ decision

  /** A queued or running run of the same pipeline or, in group mode, of the same group. */
  predicate InTheWay(p: Pipeline, input: TriggerInput, r: Run) {
    && (r.status.Queued? || r.status.Running?)
    && (if p.mode.Grouped? then input.rendered == Ok(r.group)
        else (p.mode.Serial? || p.mode.SkipIfRunning?) && r.pipeline == p.id)
  }

  predicate SomethingInTheWay(s: Service, p: Pipeline, input: TriggerInput) {
    exists r :: r in s.runs && InTheWay(p, input, r)
  }

  /** The oldest of the runs in the way. */
  predicate OldestInTheWay(s: Service, p: Pipeline, input: TriggerInput, q: Run) {
    q in s.runs && InTheWay(p, input, q) && forall r :: r in s.runs && InTheWay(p, input, r) ==> q.id <= r.id
  }

  predicate MustWait(s: Service, p: Pipeline, input: TriggerInput) {
    ResolveGroup(p, input).Ok? && SomethingInTheWay(s, p, input) && (p.mode.Serial? || (p.mode.Grouped? && !p.cancelRunning))
  }

  lemma PeersInTheWay(s: Service, p: Pipeline, input: TriggerInput)
    requires Ordered(s.runs, s.nextId, s.clock) && !p.mode.Unlimited? && ResolveGroup(p, input).Ok?
    ensures var peers := Peers(s, p, ResolveGroup(p, input).value);
            && (peers == [] <==> !SomethingInTheWay(s, p, input))
            && (peers != [] ==> OldestInTheWay(s, p, input, peers[0]))
  {
    var group := ResolveGroup(p, input).value;
    var peers := Peers(s, p, group);
    PeersMembers(s, p, group);
    forall r | r in s.runs ensures InTheWay(p, input, r) <==> r in peers {}
    var older := (a: Run, b: Run) => a.id < b.id;
    FilterPairwise((r: Run) => r.group == group && r.status.IsActive(), older, s.runs);
    FilterPairwise((r: Run) => r.pipeline == p.id && r.status.IsActive(), older, s.runs);
    if peers != [] {
      assert peers[0] in peers;
      forall r | r in s.runs && InTheWay(p, input, r) ensures peers[0].id <= r.id {
        var k :| 0 <= k < |peers| && peers[k] == r;
      }
    }
  }

  /** A trigger whose key cannot be resolved is a failed run. A skip-if-running trigger with
      a run in the way is a skipped run that names the oldest one. Any other trigger is
      queued; it must wait in the queue exactly if something is in the way and it neither
      skips nor takes over. */
  lemma AdmitOutcome(s: Service, p: Pipeline, trigger: TriggerType, input: TriggerInput)
    requires Ordered(s.runs, s.nextId, s.clock)
    ensures var a := AdmitRun(s, p, trigger, input);
            && |a.service.runs| == |s.runs| + 1
            && var r := a.service.runs[|s.runs|];
            var blocked := ResolveGroup(p, input).Ok? && SomethingInTheWay(s, p, input);
            && (ResolveGroup(p, input).Err? ==> r.status.Failed? && r.error == Message(ResolveGroup(p, input).message))
            && (a.terminal <==> ResolveGroup(p, input).Err? || (p.mode.SkipIfRunning? && blocked))
            && (a.queueOnly <==> MustWait(s, p, input))
            && (a.terminal && ResolveGroup(p, input).Ok? ==>
                  r.status.Skipped? && exists q :: OldestInTheWay(s, p, input, q) && r.error == SkippedBehind(q.id))
            && (!a.terminal ==> r.status.Queued? && r.error == NoReason)
  {
    AdmitRecords(s, p, trigger, input);
    AdmitNewRun(s, p, trigger, input);
    if ResolveGroup(p, input).Ok? && !p.mode.Unlimited? {
      PeersInTheWay(s, p, input);
    }
  }

  /** Whether the run of a trigger is dispatched at once, given a slot. */
  predicate NeedNotWait(s: Service, p: Pipeline, input: TriggerInput) {
    ResolveGroup(p, input).Ok? && (!SomethingInTheWay(s, p, input) || (p.mode.Grouped? && p.cancelRunning))
  }

  /** An accepted trigger leaves one more record: running exactly with a free slot and no
      need to wait, queued if it only lacks the slot or must wait behind a run, and
      finished if it is refused by its pipeline's own rules. */
  lemma TriggerOutcome(s: Service, p: Pipeline, trigger: TriggerType, input: TriggerInput)
    requires Ordered(s.runs, s.nextId, s.clock)
    ensures var t := Trigger(s, p, trigger, input);
            if !HasRoom(s) then t == s
            else
              && |t.runs| == |s.runs| + 1
              && var r := t.runs[|s.runs|];
              && r.id == s.nextId && r.pipeline == p.id && r.trigger == trigger
              && r.jobs == input.jobs && r.upstream == input.upstream && r.created == s.clock
              && (ResolveGroup(p, input).Ok? ==> r.group == ResolveGroup(p, input).value)
              && (r.status.Running? <==> s.inFlight < s.maxInFlight && NeedNotWait(s, p, input))
              && (r.status.Failed? <==> ResolveGroup(p, input).Err?)
              && (r.status.Skipped? <==> p.mode.SkipIfRunning? && SomethingInTheWay(s, p, input))
              && !r.status.Success?
              && t.inFlight == s.inFlight + (if r.status.Running? then 1 else 0)
              && t.executing == s.executing + (if r.status.Running? then {r.id} else {})
  {
    AcceptsExactly(s);
    AdmitOutcome(s, p, trigger, input);
    AdmitNewRun(s, p, trigger, input);
    AdmitRecords(s, p, trigger, input);
  }
}
