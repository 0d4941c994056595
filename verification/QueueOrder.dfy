/** What one pass of dispatchEligible (server/execution.go) takes from the queue,
    stated without reference to the loop: a run is taken exactly when a slot is
    left for it and its group is neither busy nor taken earlier in the pass. */
module QueueOrder {
  import opened Runs
  import opened Admission

  function FreeSlots(s: Service): nat {
    if CanExecute(s) then s.maxInFlight - s.inFlight else 0
  }

  /** Which entries of the queue one pass takes, entry by entry. */
  function Picks(free: nat, queue: seq<Run>, busy: set<string>, existing: set<string>): seq<bool>
    decreases |queue|
  {
    if queue == [] then []
    else if free == 0 || Blocked(queue[0].group, busy) then [false] + Picks(free, queue[1..], busy, existing)
    else
      [true] + Picks(if queue[0].pipeline in existing then free - 1 else free, queue[1..],
                     Hold(busy, queue[0].group), existing)
  }

  /** Slots used by the first `n` entries: a taken run whose pipeline is gone is
      failed on the spot and uses none. */
  function SlotsUsed(picks: seq<bool>, queue: seq<Run>, existing: set<string>, n: nat): nat
    requires n <= |picks| == |queue|
  {
    if n == 0 then 0
    else SlotsUsed(picks, queue, existing, n - 1) + if picks[n - 1] && queue[n - 1].pipeline in existing then 1 else 0
  }

  ghost predicate TakenBefore(picks: seq<bool>, queue: seq<Run>, group: string, n: nat)
    requires n <= |picks| == |queue|
  {
    exists j :: 0 <= j < n && picks[j] && queue[j].group == group
  }

  /** The greedy rule for entry `i`. */
  ghost predicate Eligible(free: nat, queue: seq<Run>, busy: set<string>, existing: set<string>, picks: seq<bool>, i: nat)
    requires i < |picks| == |queue|
  {
    && SlotsUsed(picks, queue, existing, i) < free
    && !Blocked(queue[i].group, busy)
    && (queue[i].group == "" || !TakenBefore(picks, queue, queue[i].group, i))
  }

  ghost predicate Greedy(free: nat, queue: seq<Run>, busy: set<string>, existing: set<string>, picks: seq<bool>) {
    && |picks| == |queue|
    && forall i :: 0 <= i < |queue| ==> (picks[i] <==> Eligible(free, queue, busy, existing, picks, i))
  }

  lemma {:induction false} SlotsUsedTail(picks: seq<bool>, queue: seq<Run>, existing: set<string>, n: nat)
    requires 1 <= n <= |picks| == |queue|
    ensures SlotsUsed(picks, queue, existing, n) ==
            SlotsUsed(picks[1..], queue[1..], existing, n - 1) + if picks[0] && queue[0].pipeline in existing then 1 else 0
  {
    if n > 1 {
      SlotsUsedTail(picks, queue, existing, n - 1);
    } else {
      assert SlotsUsed(picks, queue, existing, 0) == 0;
    }
  }

  lemma {:induction false} PicksLength(free: nat, queue: seq<Run>, busy: set<string>, existing: set<string>)
    ensures |Picks(free, queue, busy, existing)| == |queue|
    decreases |queue|
  {
    if queue != [] {
      if free == 0 || Blocked(queue[0].group, busy) {
        PicksLength(free, queue[1..], busy, existing);
      } else {
        PicksLength(if queue[0].pipeline in existing then free - 1 else free, queue[1..], Hold(busy, queue[0].group), existing);
      }
    }
  }

  /** The pass is greedy and work-conserving: what it takes obeys the slot bound and
      the group rule, and what it passes over was blocked or met a full slot count. */
  lemma {:induction false} PicksAreGreedy(free: nat, queue: seq<Run>, busy: set<string>, existing: set<string>)
    ensures Greedy(free, queue, busy, existing, Picks(free, queue, busy, existing))
    decreases |queue|
  {
    PicksLength(free, queue, busy, existing);
    if queue != [] {
      var taken := free > 0 && !Blocked(queue[0].group, busy);
      var rest := if taken && queue[0].pipeline in existing then free - 1 else free;
      var held := if taken then Hold(busy, queue[0].group) else busy;
      PicksAreGreedy(rest, queue[1..], held, existing);
      var tail := Picks(rest, queue[1..], held, existing);
      var picks := Picks(free, queue, busy, existing);
      assert picks == [taken] + tail;
      forall i | 0 <= i < |queue| ensures picks[i] <==> Eligible(free, queue, busy, existing, picks, i) {
        if i > 0 {
          SlotsUsedTail(picks, queue, existing, i);
          assert picks[1..] == tail;
          TakenBeforeTail(picks, queue, queue[i].group, i);
          assert picks[i] <==> Eligible(rest, queue[1..], held, existing, tail, i - 1);
        }
      }
    }
  }

  lemma TakenBeforeTail(picks: seq<bool>, queue: seq<Run>, group: string, n: nat)
    requires 1 <= n <= |picks| == |queue|
    ensures TakenBefore(picks, queue, group, n) <==>
            (picks[0] && queue[0].group == group) || TakenBefore(picks[1..], queue[1..], group, n - 1)
  {
    if TakenBefore(picks[1..], queue[1..], group, n - 1) {
      var j :| 0 <= j < n - 1 && picks[1..][j] && queue[1..][j].group == group;
      assert picks[j + 1] && queue[j + 1].group == group;
    }
    if TakenBefore(picks, queue, group, n) {
      var j :| 0 <= j < n && picks[j] && queue[j].group == group;
      if j > 0 {
        assert picks[1..][j - 1] && queue[1..][j - 1].group == group;
      }
    }
  }

  /** The greedy rule leaves no choice: any selection that obeys it is the pass's. */
  lemma {:induction false} GreedyIsUnique(free: nat, queue: seq<Run>, busy: set<string>, existing: set<string>,
                                          a: seq<bool>, b: seq<bool>, n: nat)
    requires Greedy(free, queue, busy, existing, a) && Greedy(free, queue, busy, existing, b)
    requires n <= |queue|
    ensures a[..n] == b[..n]
    ensures SlotsUsed(a, queue, existing, n) == SlotsUsed(b, queue, existing, n)
  {
    if n > 0 {
      GreedyIsUnique(free, queue, busy, existing, a, b, n - 1);
      forall j | 0 <= j < n - 1 ensures a[j] == b[j] {
        assert a[..n - 1][j] == b[..n - 1][j];
      }
      assert a[n - 1] == b[n - 1];
    }
  }

  function CountTrue(picks: seq<bool>): nat {
    if picks == [] then 0 else (if picks[0] then 1 else 0) + CountTrue(picks[1..])
  }

  /** Dispatch of exactly the picked entries, in store order. */
  function DispatchPicked(s: Service, queue: seq<Run>, picks: seq<bool>, existing: set<string>): Service
    requires |picks| == |queue|
    decreases |queue|
  {
    if queue == [] then s
    else
      DispatchPicked(if picks[0] then DispatchQueuedRun(s, queue[0], existing) else s, queue[1..], picks[1..], existing)
  }

  lemma {:induction false} NothingPickedWhenFull(s: Service, queue: seq<Run>, busy: set<string>, existing: set<string>)
    requires |Picks(0, queue, busy, existing)| == |queue|
    ensures DispatchPicked(s, queue, Picks(0, queue, busy, existing), existing) == s
    ensures CountTrue(Picks(0, queue, busy, existing)) == 0
    decreases |queue|
  {
    if queue != [] {
      PicksLength(0, queue[1..], busy, existing);
      NothingPickedWhenFull(s, queue[1..], busy, existing);
      assert Picks(0, queue, busy, existing)[1..] == Picks(0, queue[1..], busy, existing);
    }
  }

  /** dispatchEligible refines the greedy selection. */
  lemma {:induction false} DispatchRefinesPicks(s: Service, queue: seq<Run>, busy: set<string>, existing: set<string>)
    ensures var picks := Picks(FreeSlots(s), queue, busy, existing);
            |picks| == |queue| &&
            DispatchEligible(s, queue, busy, existing) ==
            (DispatchPicked(s, queue, picks, existing), CountTrue(picks))
    decreases |queue|
  {
    var picks := Picks(FreeSlots(s), queue, busy, existing);
    PicksLength(FreeSlots(s), queue, busy, existing);
    if queue == [] {
    } else if !CanExecute(s) {
      NothingPickedWhenFull(s, queue, busy, existing);
    } else if Blocked(queue[0].group, busy) {
      DispatchRefinesPicks(s, queue[1..], busy, existing);
      assert picks[1..] == Picks(FreeSlots(s), queue[1..], busy, existing);
    } else {
      var t := DispatchQueuedRun(s, queue[0], existing);
      DispatchRefinesPicks(t, queue[1..], Hold(busy, queue[0].group), existing);
      assert picks[1..] == Picks(FreeSlots(t), queue[1..], Hold(busy, queue[0].group), existing);
    }
  }

  /** Two entries taken in one pass are of different groups, or of none. */
  lemma PickedGroupsDiffer(free: nat, queue: seq<Run>, busy: set<string>, existing: set<string>, a: nat, b: nat)
    requires a < b < |queue|
    ensures var picks := Picks(free, queue, busy, existing);
            |picks| == |queue| && (picks[a] && picks[b] && queue[a].group == queue[b].group ==> queue[a].group == "")
  {
    PicksAreGreedy(free, queue, busy, existing);
    var picks := Picks(free, queue, busy, existing);
    assert picks[b] ==> Eligible(free, queue, busy, existing, picks, b);
  }
}
