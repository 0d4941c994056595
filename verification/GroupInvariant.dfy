/** Exclusive concurrency groups, and how status writes and one pass of the queue
    processor keep them (server/execution.go, server/execution_concurrency.go). */
module GroupInvariant {
  import opened Runs
  import opened Admission
  import opened QueueOrder

  // ---------------------------------------------------------------- invariant

  /** Two stores with the same records up to status and error message. */
  ghost predicate StatusesOnly(a: seq<Run>, b: seq<Run>) {
    |a| == |b| && forall i :: 0 <= i < |a| ==> SameIdentity(a[i], b[i])
  }

  predicate Clash(a: Run, b: Run) {
    a.status.Running? && b.status.Running? && a.group == b.group
  }

  ghost predicate OnePerGroup(runs: seq<Run>) {
    forall i, j :: 0 <= i < j < |runs| && Clash(runs[i], runs[j]) ==> runs[i].group == ""
  }

  predicate OwnKey(pipeline: string, group: string) {
    PIPELINE_PREFIX <= group ==> group == PipelineKey(pipeline)
  }

  /** A key of the form "pipeline:..." is only ever held by its own pipeline's runs. */
  ghost predicate KeysOwned(runs: seq<Run>) {
    forall i :: 0 <= i < |runs| ==> OwnKey(runs[i].pipeline, runs[i].group)
  }

  predicate GroupHeldByOther(runs: seq<Run>, id: nat) {
    exists i, j :: 0 <= i < |runs| && 0 <= j < |runs| && runs[i].id == id && runs[j].id != id &&
                   runs[j].status.Running? && runs[j].group == runs[i].group && runs[i].group != ""
  }

  ghost predicate Exclusive(s: Service) {
    Ordered(s.runs, s.nextId, s.clock) && OnePerGroup(s.runs)
  }

  ghost predicate Safe(s: Service) {
    Exclusive(s) && KeysOwned(s.runs)
  }

  ghost predicate StaysExclusive(s: Service, t: Service) {
    Exclusive(t) && (KeysOwned(s.runs) ==> KeysOwned(t.runs))
  }

  // ----------------------------------------------------------- status writes

  lemma OrderedUnderStatuses(a: seq<Run>, b: seq<Run>, nextId: nat, clock: nat)
    requires Ordered(a, nextId, clock) && StatusesOnly(a, b)
    ensures Ordered(b, nextId, clock)
    ensures KeysOwned(a) ==> KeysOwned(b)
  {
    forall i | 0 <= i < |b| ensures b[i].id == a[i].id && b[i].created == a[i].created && b[i].group == a[i].group &&
                                    b[i].pipeline == a[i].pipeline {
      assert SameIdentity(a[i], b[i]);
    }
  }

  /** A write of anything but running starts nothing. */
  lemma SettingOther(runs: seq<Run>, id: nat, to: RunStatus, message: Reason)
    requires OnePerGroup(runs) && !to.Running?
    ensures OnePerGroup(UpdateStatus(runs, id, to, message))
    ensures StatusesOnly(runs, UpdateStatus(runs, id, to, message))
  {
    var after := UpdateStatus(runs, id, to, message);
    forall i, j | 0 <= i < j < |after| && Clash(after[i], after[j]) ensures after[i].group == "" {
      assert Clash(runs[i], runs[j]);
    }
  }

  /** A write of running keeps groups exclusive if nothing else holds the group. */
  lemma SettingRunning(runs: seq<Run>, id: nat, nextId: nat, clock: nat)
    requires Ordered(runs, nextId, clock)
    ensures StatusesOnly(runs, UpdateStatus(runs, id, Running, NoReason))
    ensures OnePerGroup(runs) && !GroupHeldByOther(runs, id) ==> OnePerGroup(UpdateStatus(runs, id, Running, NoReason))
  {
    var after := UpdateStatus(runs, id, Running, NoReason);
    if OnePerGroup(runs) && !GroupHeldByOther(runs, id) {
      forall i, j | 0 <= i < j < |after| && Clash(after[i], after[j])
        ensures after[i].group == ""
      {
        if runs[i].id == id {
          assert runs[j].id != id && after[j] == runs[j];
        } else if runs[j].id == id {
          assert after[i] == runs[i];
        } else {
          assert after[i] == runs[i] && after[j] == runs[j];
        }
      }
    }
  }

  // ------------------------------------------------------------------- queue

  /** The queue is a snapshot of records of the store. */
  ghost predicate Snapshot(runs: seq<Run>, queue: seq<Run>) {
    forall i, q :: 0 <= i < |runs| && q in queue && q.id == runs[i].id ==> runs[i].group == q.group
  }

  /** What one dispatch needs and keeps while the pass goes through the queue. */
  ghost predicate PassReady(runs: seq<Run>, nextId: nat, clock: nat, queue: seq<Run>, busy: set<string>) {
    && Ordered(runs, nextId, clock)
    && OnePerGroup(runs)
    && BusyGroups(runs) <= busy
    && Snapshot(runs, queue)
  }

  lemma DispatchOneKeeps(s: Service, q: Run, rest: seq<Run>, busy: set<string>, existing: set<string>)
    requires PassReady(s.runs, s.nextId, s.clock, [q] + rest, busy) && !Blocked(q.group, busy)
    ensures var t := DispatchQueuedRun(s, q, existing);
            StatusesOnly(s.runs, t.runs) && PassReady(t.runs, s.nextId, s.clock, rest, Hold(busy, q.group))
  {
    var t := DispatchQueuedRun(s, q, existing);
    assert q in [q] + rest;
    assert Snapshot(s.runs, [q]);
    if q.pipeline in existing {
      SettingRunning(s.runs, q.id, s.nextId, s.clock);
    }
    OrderedUnderStatuses(s.runs, t.runs, s.nextId, s.clock);
    forall i, r | 0 <= i < |t.runs| && r in rest && r.id == t.runs[i].id ensures t.runs[i].group == r.group {
      assert SameIdentity(s.runs[i], t.runs[i]) && r in [q] + rest;
    }
  }

  lemma {:induction false} DispatchKeepsGroups(s: Service, queue: seq<Run>, busy: set<string>, existing: set<string>)
    requires PassReady(s.runs, s.nextId, s.clock, queue, busy)
    ensures var t := DispatchEligible(s, queue, busy, existing).0;
            StatusesOnly(s.runs, t.runs) && OnePerGroup(t.runs)
    decreases |queue|
  {
    if queue == [] || !CanExecute(s) {
    } else if Blocked(queue[0].group, busy) {
      DispatchKeepsGroups(s, queue[1..], busy, existing);
    } else {
      var t := DispatchQueuedRun(s, queue[0], existing);
      assert queue == [queue[0]] + queue[1..];
      DispatchOneKeeps(s, queue[0], queue[1..], busy, existing);
      DispatchKeepsGroups(t, queue[1..], Hold(busy, queue[0].group), existing);
    }
  }

  lemma QueueIsSnapshot(s: Service, status: RunStatus)
    requires Ordered(s.runs, s.nextId, s.clock)
    ensures Snapshot(s.runs, ByStatus(s.runs, status))
  {
    ByStatusMembers(s.runs, status);
  }

  lemma {:induction false} DispatchFrame(s: Service, queue: seq<Run>, busy: set<string>, existing: set<string>)
    ensures var t := DispatchEligible(s, queue, busy, existing).0;
            t == s.(runs := t.runs, inFlight := t.inFlight, executing := t.executing, cancelled := t.cancelled)
    decreases |queue|
  {
    if queue == [] || !CanExecute(s) {
    } else if Blocked(queue[0].group, busy) {
      DispatchFrame(s, queue[1..], busy, existing);
    } else {
      DispatchFrame(DispatchQueuedRun(s, queue[0], existing), queue[1..], Hold(busy, queue[0].group), existing);
    }
  }
}
