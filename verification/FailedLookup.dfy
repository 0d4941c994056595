/** A queue tick whose busy-group query failed (server/execution.go:166-170) goes on
    with an empty busy set: exactly when that breaks a concurrency group. */
module FailedLookup {
  import opened Runs
  import opened Admission
  import opened QueueOrder
  import opened GroupInvariant

  /** Some run the pass would start belongs to a group that is already running. */
  ghost predicate StartsHeldGroup(s: Service, existing: set<string>) {
    var queue := ByStatus(s.runs, Queued);
    var picks := Picks(FreeSlots(s), queue, {}, existing);
    exists i :: 0 <= i < |queue| && i < |picks| && picks[i] && queue[i].pipeline in existing &&
                queue[i].group in BusyGroups(s.runs)
  }

  /** What a pass does to the record behind a queue entry. */
  function PickMark(r: Run, picked: bool, existing: set<string>): Run {
    if !picked then r
    else if r.pipeline in existing then Moved(r, Running, NoReason)
    else Moved(r, Failed, PipelineNotFound)
  }

  lemma {:induction false} PickedPointwise(s: Service, queue: seq<Run>, picks: seq<bool>, existing: set<string>, i: int)
    requires |picks| == |queue| && DistinctIds(queue) && 0 <= i < |s.runs|
    requires forall q :: q in queue && q.id == s.runs[i].id ==> q.pipeline == s.runs[i].pipeline
    ensures var t := DispatchPicked(s, queue, picks, existing);
            && |t.runs| == |s.runs|
            && ((forall k :: 0 <= k < |queue| ==> queue[k].id != s.runs[i].id) ==> t.runs[i] == s.runs[i])
            && forall k :: 0 <= k < |queue| && queue[k].id == s.runs[i].id ==>
                 t.runs[i] == PickMark(s.runs[i], picks[k], existing)
    decreases |queue|
  {
    if queue != [] {
      var u := if picks[0] then DispatchQueuedRun(s, queue[0], existing) else s;
      assert queue[0] in queue;
      PickedPointwise(u, queue[1..], picks[1..], existing, i);
      var t := DispatchPicked(s, queue, picks, existing);
      forall k | 0 <= k < |queue| && queue[k].id == s.runs[i].id
        ensures t.runs[i] == PickMark(s.runs[i], picks[k], existing)
      {
        if k > 0 {
          assert queue[1..][k - 1] == queue[k] && u.runs[i] == s.runs[i];
        } else {
          assert forall m :: 0 <= m < |queue[1..]| ==> queue[1..][m].id != queue[0].id;
        }
      }
    }
  }

  lemma {:induction false} ReverseDistinct(runs: seq<Run>)
    requires DistinctIds(runs)
    ensures DistinctIds(Reverse(runs))
  {
    if runs != [] {
      ReverseDistinct(runs[1..]);
      ReverseMembers(runs[1..]);
      var rest := Reverse(runs[1..]);
      assert forall r :: r in rest ==> r.id != runs[0].id;
    }
  }

  lemma QueueDistinct(s: Service)
    requires Exclusive(s)
    ensures DistinctIds(ByStatus(s.runs, Queued))
  {
    var queued := (r: Run) => r.status == Queued;
    FilterPairwise(queued, (a: Run, b: Run) => a.id != b.id, s.runs);
    ReverseDistinct(Filter(queued, s.runs));
  }

  /** The record at `i` after the tick. */
  lemma BlindTickRecord(s: Service, existing: set<string>, i: int)
    requires Exclusive(s) && 0 <= i < |s.runs|
    ensures var queue := ByStatus(s.runs, Queued);
            var picks := Picks(FreeSlots(s), queue, {}, existing);
            var t := QueueTick(s, existing, false);
            && |t.runs| == |s.runs| && |picks| == |queue|
            && (!s.runs[i].status.Queued? ==> t.runs[i] == s.runs[i])
            && forall k :: 0 <= k < |queue| && queue[k] == s.runs[i] ==>
                 t.runs[i] == PickMark(s.runs[i], picks[k], existing)
  {
    var queue := ByStatus(s.runs, Queued);
    DispatchRefinesPicks(s, queue, {}, existing);
    ByStatusMembers(s.runs, Queued);
    QueueDistinct(s);
    forall q | q in queue && q.id == s.runs[i].id ensures q == s.runs[i] {
      var m :| 0 <= m < |s.runs| && s.runs[m] == q;
    }
    PickedPointwise(s, queue, Picks(FreeSlots(s), queue, {}, existing), existing, i);
    if !s.runs[i].status.Queued? {
      forall k | 0 <= k < |queue| ensures queue[k].id != s.runs[i].id {
        assert queue[k] in queue;
      }
    }
  }

  /** A run that is running after the tick was running before, or is a picked entry. */
  lemma RunningAfterBlindTick(s: Service, existing: set<string>, i: int) returns (k: int)
    requires Exclusive(s) && 0 <= i < |s.runs|
    ensures var queue := ByStatus(s.runs, Queued);
            var picks := Picks(FreeSlots(s), queue, {}, existing);
            var t := QueueTick(s, existing, false);
            && |t.runs| == |s.runs| && |picks| == |queue|
            && SameIdentity(s.runs[i], t.runs[i])
            && (s.runs[i].status.Queued? ==> 0 <= k < |queue| && queue[k] == s.runs[i])
            && (t.runs[i].status.Running? ==>
                  s.runs[i].status.Running? ||
                  (s.runs[i].status.Queued? && picks[k] && queue[k].pipeline in existing))
  {
    BlindTickRecord(s, existing, i);
    var queue := ByStatus(s.runs, Queued);
    k := 0;
    if s.runs[i].status.Queued? {
      ByStatusMembers(s.runs, Queued);
      assert s.runs[i] in queue;
      k :| 0 <= k < |queue| && queue[k] == s.runs[i];
    }
  }

  lemma StartedBesideHolder(s: Service, existing: set<string>, i: int, j: int, k: int)
    requires Exclusive(s) && 0 <= i < |s.runs| && 0 <= j < |s.runs|
    requires var queue := ByStatus(s.runs, Queued);
             var picks := Picks(FreeSlots(s), queue, {}, existing);
             && 0 <= k < |queue| && k < |picks| && picks[k] && queue[k] == s.runs[i] && s.runs[i].pipeline in existing
             && s.runs[i].status.Queued? && s.runs[j].status.Running? && s.runs[j].group == s.runs[i].group != ""
    ensures !OnePerGroup(QueueTick(s, existing, false).runs)
  {
    var t := QueueTick(s, existing, false);
    BlindTickRecord(s, existing, i);
    BlindTickRecord(s, existing, j);
    assert Clash(t.runs[i], t.runs[j]) && Clash(t.runs[j], t.runs[i]);
  }

  lemma BlindTickClashes(s: Service, existing: set<string>)
    requires Exclusive(s) && StartsHeldGroup(s, existing)
    ensures !OnePerGroup(QueueTick(s, existing, false).runs)
  {
    var queue := ByStatus(s.runs, Queued);
    var picks := Picks(FreeSlots(s), queue, {}, existing);
    ByStatusMembers(s.runs, Queued);
    var k :| 0 <= k < |queue| && k < |picks| && picks[k] && queue[k].pipeline in existing &&
      queue[k].group in BusyGroups(s.runs);
    assert queue[k] in queue;
    var i :| 0 <= i < |s.runs| && s.runs[i] == queue[k];
    var holder :| holder in s.runs && holder.status.Running? && holder.group != "" && holder.group == queue[k].group;
    var j :| 0 <= j < |s.runs| && s.runs[j] == holder;
    StartedBesideHolder(s, existing, i, j, k);
  }

  lemma BlindTickKeeps(s: Service, existing: set<string>)
    requires Exclusive(s) && !StartsHeldGroup(s, existing)
    ensures StaysExclusive(s, QueueTick(s, existing, false))
  {
    var t := QueueTick(s, existing, false);
    var queue := ByStatus(s.runs, Queued);
    var picks := Picks(FreeSlots(s), queue, {}, existing);
    DispatchRefinesPicks(s, queue, {}, existing);
    PickedLength(s, queue, picks, existing);
    forall i | 0 <= i < |s.runs| ensures SameIdentity(s.runs[i], t.runs[i]) {
      var _ := RunningAfterBlindTick(s, existing, i);
    }
    OrderedUnderStatuses(s.runs, t.runs, s.nextId, s.clock);
    DispatchFrame(s, queue, {}, existing);
    forall i, j | 0 <= i < j < |t.runs| && Clash(t.runs[i], t.runs[j]) ensures t.runs[i].group == "" {
      NoClashAfterBlindTick(s, existing, i, j);
    }
  }

  lemma {:induction false} PickedLength(s: Service, queue: seq<Run>, picks: seq<bool>, existing: set<string>)
    requires |picks| == |queue|
    ensures |DispatchPicked(s, queue, picks, existing).runs| == |s.runs|
    decreases |queue|
  {
    if queue != [] {
      PickedLength(if picks[0] then DispatchQueuedRun(s, queue[0], existing) else s, queue[1..], picks[1..], existing);
    }
  }

  lemma NoClashAfterBlindTick(s: Service, existing: set<string>, i: int, j: int)
    requires Exclusive(s) && !StartsHeldGroup(s, existing) && 0 <= i < j < |s.runs|
    ensures var t := QueueTick(s, existing, false);
            |t.runs| == |s.runs| && (Clash(t.runs[i], t.runs[j]) ==> t.runs[i].group == "")
  {
    var a := RunningAfterBlindTick(s, existing, i);
    var b := RunningAfterBlindTick(s, existing, j);
    var queue := ByStatus(s.runs, Queued);
    assert s.runs[i].status.Running? && s.runs[i].group != "" ==> s.runs[i].group in BusyGroups(s.runs) by {
      assert s.runs[i] in s.runs;
    }
    assert s.runs[j].status.Running? && s.runs[j].group != "" ==> s.runs[j].group in BusyGroups(s.runs) by {
      assert s.runs[j] in s.runs;
    }
    if s.runs[i].status.Queued? && s.runs[j].status.Queued? {
      PickedGroupsDiffer(FreeSlots(s), queue, {}, existing, if a < b then a else b, if a < b then b else a);
    }
  }

  /** With an empty busy set the tick keeps groups exclusive exactly when it starts
      no run of a group that is already running. */
  lemma BlindTickExact(s: Service, existing: set<string>)
    requires Exclusive(s)
    ensures OnePerGroup(QueueTick(s, existing, false).runs) <==> !StartsHeldGroup(s, existing)
    ensures !StartsHeldGroup(s, existing) ==> StaysExclusive(s, QueueTick(s, existing, false))
  {
    if StartsHeldGroup(s, existing) {
      BlindTickClashes(s, existing);
    } else {
      BlindTickKeeps(s, existing);
    }
  }
}
