/** What one tick of the queue processor (server/execution.go) does to every record, for
    any selection that obeys the greedy rule of QueueOrder.dfy. */
module QueueTicks {
  import opened Runs
  import opened Admission
  import opened QueueOrder
  import opened GroupInvariant
  import opened FailedLookup

  /** The groups a tick must not add to: those of running runs, or none when the query failed. */
  ghost predicate HeldGroups(runs: seq<Run>, lookup: bool, busy: set<string>) {
    forall g :: g in busy <==> lookup && g != "" && exists r :: r in runs && r.status.Running? && r.group == g
  }

  /** The queue as the store lists it: every queued run, newest first. */
  ghost predicate NewestFirst(runs: seq<Run>, queue: seq<Run>) {
    && (forall r :: r in queue <==> r in runs && r.status.Queued?)
    && forall a, b :: 0 <= a < b < |queue| ==> queue[a].id > queue[b].id
  }

  function SlotsLeft(s: Service): nat { if s.inFlight < s.maxInFlight then s.maxInFlight - s.inFlight else 0 }

  /** An entry that was taken runs, or is failed if its pipeline is gone; every other
      record is as it was. */
  ghost predicate Ticked(s: Service, t: Service, queue: seq<Run>, picks: seq<bool>, existing: set<string>) {
    && |t.runs| == |s.runs| && |picks| == |queue|
    && (forall i :: 0 <= i < |s.runs| && !s.runs[i].status.Queued? ==> t.runs[i] == s.runs[i])
    && forall i, k :: 0 <= i < |s.runs| && 0 <= k < |queue| && queue[k] == s.runs[i] ==>
         t.runs[i] == if !picks[k] then s.runs[i]
                      else if s.runs[i].pipeline in existing then s.runs[i].(status := Running)
                      else s.runs[i].(status := Failed, error := PipelineNotFound)
  }

  lemma {:induction false} ReverseOrder(runs: seq<Run>)
    requires forall i, j :: 0 <= i < j < |runs| ==> runs[i].id < runs[j].id
    ensures forall a, b :: 0 <= a < b < |Reverse(runs)| ==> Reverse(runs)[a].id > Reverse(runs)[b].id
  {
    if runs != [] {
      ReverseOrder(runs[1..]);
      ReverseMembers(runs[1..]);
      var rest := Reverse(runs[1..]);
      assert forall r :: r in rest ==> r.id > runs[0].id;
    }
  }

  lemma QueueIsNewestFirst(runs: seq<Run>, nextId: nat, clock: nat)
    requires Ordered(runs, nextId, clock)
    ensures NewestFirst(runs, ByStatus(runs, Queued))
  {
    ByStatusMembers(runs, Queued);
    FilterPairwise((r: Run) => r.status == Queued, (a: Run, b: Run) => a.id < b.id, runs);
    ReverseOrder(Filter((r: Run) => r.status == Queued, runs));
  }

  /** Two lists that name the same runs newest first are the same list. */
  lemma {:induction false} NewestFirstIsUnique(a: seq<Run>, b: seq<Run>)
    requires forall r :: r in a <==> r in b
    requires forall i, j :: 0 <= i < j < |a| ==> a[i].id > a[j].id
    requires forall i, j :: 0 <= i < j < |b| ==> b[i].id > b[j].id
    ensures a == b
    decreases |a|
  {
    assert forall k :: 0 <= k < |a| ==> a[k] in b;
    assert forall k :: 0 <= k < |b| ==> b[k] in a;
    if a != [] && b != [] {
      assert a[0] in b && b[0] in a;
      assert a[0] == b[0];
      forall r | r in a[1..] ensures r in b[1..] {
        assert r in a && r != a[0];
      }
      forall r | r in b[1..] ensures r in a[1..] {
        assert r in b && r != b[0];
      }
      NewestFirstIsUnique(a[1..], b[1..]);
    }
  }

  /** The runs that were given a slot. */
  function Started(queue: seq<Run>, picks: seq<bool>, existing: set<string>): set<nat>
    requires |picks| == |queue|
  {
    set k | 0 <= k < |queue| && picks[k] && queue[k].pipeline in existing :: queue[k].id
  }

  lemma StartedSplits(queue: seq<Run>, picks: seq<bool>, existing: set<string>)
    requires |picks| == |queue| > 0
    ensures Started(queue, picks, existing) ==
            (if picks[0] && queue[0].pipeline in existing then {queue[0].id} else {})
            + Started(queue[1..], picks[1..], existing)
  {
    forall k | 0 < k < |queue| ensures queue[1..][k - 1] == queue[k] && picks[1..][k - 1] == picks[k] {}
  }

  lemma {:induction false} PickedCounts(s: Service, queue: seq<Run>, picks: seq<bool>, existing: set<string>)
    requires |picks| == |queue|
    ensures var t := DispatchPicked(s, queue, picks, existing);
            && t.inFlight == s.inFlight + SlotsUsed(picks, queue, existing, |queue|)
            && t.executing == s.executing + Started(queue, picks, existing)
    decreases |queue|
  {
    if queue != [] {
      StartedSplits(queue, picks, existing);
      PickedCounts(if picks[0] then DispatchQueuedRun(s, queue[0], existing) else s, queue[1..], picks[1..], existing);
      SlotsUsedTail(picks, queue, existing, |queue|);
    }
  }

  lemma PickedRecord(s: Service, queue: seq<Run>, picks: seq<bool>, existing: set<string>, i: nat)
    requires Ordered(s.runs, s.nextId, s.clock) && NewestFirst(s.runs, queue) && |picks| == |queue| && i < |s.runs|
    ensures var t := DispatchPicked(s, queue, picks, existing);
            && |t.runs| == |s.runs|
            && (!s.runs[i].status.Queued? ==> t.runs[i] == s.runs[i])
            && forall k :: 0 <= k < |queue| && queue[k] == s.runs[i] ==>
                 t.runs[i] == if !picks[k] then s.runs[i]
                              else if s.runs[i].pipeline in existing then s.runs[i].(status := Running)
                              else s.runs[i].(status := Failed, error := PipelineNotFound)
  {
    forall k | 0 <= k < |queue| && queue[k].id == s.runs[i].id ensures queue[k] == s.runs[i] {
      assert queue[k] in queue;
      var m :| 0 <= m < |s.runs| && s.runs[m] == queue[k];
    }
    PickedPointwise(s, queue, picks, existing, i);
    forall k | 0 <= k < |queue| && queue[k] == s.runs[i] ensures s.runs[i].status.Queued? {
      assert queue[k] in queue;
    }
  }

  lemma PickedRecords(s: Service, queue: seq<Run>, picks: seq<bool>, existing: set<string>)
    requires Ordered(s.runs, s.nextId, s.clock) && NewestFirst(s.runs, queue) && |picks| == |queue|
    ensures Ticked(s, DispatchPicked(s, queue, picks, existing), queue, picks, existing)
  {
    var t := DispatchPicked(s, queue, picks, existing);
    PickedLength(s, queue, picks, existing);
    forall i | 0 <= i < |s.runs|
      ensures !s.runs[i].status.Queued? ==> t.runs[i] == s.runs[i]
      ensures forall k :: 0 <= k < |queue| && queue[k] == s.runs[i] ==>
                t.runs[i] == if !picks[k] then s.runs[i]
                             else if s.runs[i].pipeline in existing then s.runs[i].(status := Running)
                             else s.runs[i].(status := Failed, error := PipelineNotFound)
    {
      PickedRecord(s, queue, picks, existing, i);
    }
  }

  lemma {:induction false} CountIsTaken(picks: seq<bool>)
    ensures CountTrue(picks) == multiset(picks)[true]
    decreases |picks|
  {
    if picks != [] {
      CountIsTaken(picks[1..]);
      assert picks == [picks[0]] + picks[1..];
    }
  }

  /** A tick takes exactly the entries the greedy rule names, whoever computes them: each is
      started on a slot of its own or, without its pipeline, failed; nothing else changes. */
  lemma TickIsGreedy(s: Service, existing: set<string>, lookup: bool, queue: seq<Run>, busy: set<string>, picks: seq<bool>)
    requires Ordered(s.runs, s.nextId, s.clock) && NewestFirst(s.runs, queue) && HeldGroups(s.runs, lookup, busy)
    requires Greedy(SlotsLeft(s), queue, busy, existing, picks)
    ensures var t := QueueTick(s, existing, lookup);
            && Ticked(s, t, queue, picks, existing)
            && t.inFlight == s.inFlight + SlotsUsed(picks, queue, existing, |queue|)
            && t.executing == s.executing + Started(queue, picks, existing)
    ensures DispatchEligible(s, queue, busy, existing).1 == multiset(picks)[true]
  {
    QueueIsNewestFirst(s.runs, s.nextId, s.clock);
    NewestFirstIsUnique(queue, ByStatus(s.runs, Queued));
    assert busy == (if lookup then BusyGroups(s.runs) else {});
    DispatchRefinesPicks(s, queue, busy, existing);
    PicksAreGreedy(FreeSlots(s), queue, busy, existing);
    var own := Picks(FreeSlots(s), queue, busy, existing);
    GreedyIsUnique(SlotsLeft(s), queue, busy, existing, picks, own, |queue|);
    assert picks[..|queue|] == picks && own[..|queue|] == own;
    PickedCounts(s, queue, picks, existing);
    CountIsTaken(picks);
    PickedRecords(s, queue, picks, existing);
  }
}
