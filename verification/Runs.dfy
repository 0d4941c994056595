/** Pipeline runs and the store they live in: the statuses and records of
    storage/storage.go, and the query and update rules that the SQLite driver
    (storage/sqlite/runs.go) gives them. The store is a sequence, oldest run first. */
module Runs {

  datatype Option<+T> = None | Some(value: T)

  datatype Result<+T> = Ok(value: T) | Err(message: string)

  datatype RunStatus = Queued | Running | Success | Failed | Skipped {
    predicate IsTerminal() { Success? || Failed? || Skipped? }

    predicate IsActive() { Queued? || Running? }
  }

  datatype TriggerType = Manual | Webhook | Cli | Schedule | PassedTrigger

  /** The error_message column, kept structured: the messages the service composes
      itself are constructors, every other text is a `Message`. */
  datatype Reason =
    | NoReason
    | StoppedByUser
    | SupersededBy(id: nat)
    | SkippedBehind(id: nat)
    | SyncGroupBusy
    | PipelineNotFound
    | PipelineLost
    | ResumeRefused
    | ServerRestarted
    | Message(text: string)

  datatype Run = Run(
    id: nat,
    pipeline: string,
    status: RunStatus,
    trigger: TriggerType,
    jobs: seq<string>,
    upstream: seq<nat>,
    group: string,
    error: Reason,
    created: nat)

  /** What never changes in a record once it is saved. */
  predicate SameIdentity(a: Run, b: Run) {
    a == b.(status := a.status, error := a.error)
  }

  /** The state machine of UpdateRunStatus: failed and queued may be written over
      anything, every other status only over an active one; a blocked write is a
      silent no-op. */
  predicate MayMove(from: RunStatus, to: RunStatus) {
    to.Failed? || to.Queued? || from.IsActive()
  }

  function Moved(r: Run, to: RunStatus, message: Reason): Run {
    if MayMove(r.status, to) then
      r.(status := to, error := if to.IsTerminal() then message else r.error)
    else r
  }

  function UpdateStatus(runs: seq<Run>, id: nat, to: RunStatus, message: Reason): seq<Run> {
    seq(|runs|, i requires 0 <= i < |runs| => if runs[i].id == id then Moved(runs[i], to, message) else runs[i])
  }

  function Filter<T>(p: T -> bool, s: seq<T>): seq<T> {
    if s == [] then []
    else (if p(s[0]) then [s[0]] else []) + Filter(p, s[1..])
  }

  function Reverse<T>(s: seq<T>): seq<T> {
    if s == [] then [] else Reverse(s[1..]) + [s[0]]
  }

  predicate Stored(runs: seq<Run>, id: nat) { exists r :: r in runs && r.id == id }

  /** GetActiveRunsByPipeline. */
  function ActiveByPipeline(runs: seq<Run>, pipeline: string): seq<Run> {
    Filter((r: Run) => r.pipeline == pipeline && r.status.IsActive(), runs)
  }

  /** GetActiveRunsByGroup; the empty key never matches. */
  function ActiveByGroup(runs: seq<Run>, group: string): seq<Run> {
    if group == "" then [] else Filter((r: Run) => r.group == group && r.status.IsActive(), runs)
  }

  /** GetRunsByStatus: newest first. */
  function ByStatus(runs: seq<Run>, status: RunStatus): seq<Run> {
    Reverse(Filter((r: Run) => r.status == status, runs))
  }

  /** Records are in creation order, with increasing identifiers below `nextId`
      and creation times that never decrease and never pass the clock. */
  ghost predicate Ordered(runs: seq<Run>, nextId: nat, clock: nat) {
    && (forall i :: 0 <= i < |runs| ==> runs[i].id < nextId && runs[i].created <= clock)
    && (forall i, j :: 0 <= i < j < |runs| ==> runs[i].id < runs[j].id && runs[i].created <= runs[j].created)
  }

  lemma {:induction false} FilterMembers<T(!new)>(p: T -> bool, s: seq<T>)
    ensures forall x :: x in Filter(p, s) <==> x in s && p(x)
  {
    if s != [] {
      FilterMembers(p, s[1..]);
      assert s == [s[0]] + s[1..];
    }
  }

  lemma {:induction false} FilterNone<T>(p: T -> bool, s: seq<T>)
    requires forall i :: 0 <= i < |s| ==> !p(s[i])
    ensures Filter(p, s) == []
    decreases |s|
  {
    if s != [] {
      FilterNone(p, s[1..]);
    }
  }

  lemma {:induction false} ReverseMembers<T(!new)>(s: seq<T>)
    ensures |Reverse(s)| == |s|
    ensures forall x :: x in Reverse(s) <==> x in s
  {
    if s != [] {
      ReverseMembers(s[1..]);
      assert s == [s[0]] + s[1..];
    }
  }

  lemma ByStatusMembers(runs: seq<Run>, status: RunStatus)
    ensures forall r :: r in ByStatus(runs, status) <==> r in runs && r.status == status
  {
    var p := (r: Run) => r.status == status;
    FilterMembers(p, runs);
    ReverseMembers(Filter(p, runs));
  }

  ghost predicate DistinctIds(runs: seq<Run>) {
    forall i, j :: 0 <= i < j < |runs| ==> runs[i].id != runs[j].id
  }

  ghost predicate Pairwise<T>(related: (T, T) -> bool, s: seq<T>) {
    forall i, j :: 0 <= i < j < |s| ==> related(s[i], s[j])
  }

  /** Filtering keeps every relation that holds of all pairs in order. */
  lemma {:induction false} FilterPairwise<T(!new)>(p: T -> bool, related: (T, T) -> bool, s: seq<T>)
    requires Pairwise(related, s)
    ensures Pairwise(related, Filter(p, s))
  {
    if s != [] {
      FilterPairwise(p, related, s[1..]);
      FilterMembers(p, s[1..]);
      var rest := Filter(p, s[1..]);
      assert forall x :: x in rest ==> x in s[1..] && related(s[0], x);
      if p(s[0]) {
        assert Filter(p, s) == [s[0]] + rest;
      } else {
        assert Filter(p, s) == rest;
      }
    }
  }

  function Count<T(==)>(s: seq<T>, x: T): nat {
    if s == [] then 0 else Count(s[..|s| - 1], x) + if s[|s| - 1] == x then 1 else 0
  }

  lemma {:induction false} CountUpdate<T>(s: seq<T>, i: nat, y: T, x: T)
    requires i < |s|
    ensures Count(s[i := y], x) == Count(s, x) - (if s[i] == x then 1 else 0) + if y == x then 1 else 0
    decreases |s|
  {
    var n := |s| - 1;
    if i == n {
      assert s[i := y][..n] == s[..n];
    } else {
      assert s[i := y][..n] == s[..n][i := y];
      CountUpdate(s[..n], i, y, x);
    }
  }

  lemma CountAppend<T>(s: seq<T>, y: T, x: T)
    ensures Count(s + [y], x) == Count(s, x) + if y == x then 1 else 0
  {
    assert (s + [y])[..|s|] == s;
  }

  lemma {:induction false} CountAtMost<T>(s: seq<T>, x: T)
    ensures Count(s, x) <= |s|
    ensures x !in s ==> Count(s, x) == 0
    decreases |s|
  {
    if s != [] {
      CountAtMost(s[..|s| - 1], x);
    }
  }

  /** One element takes another value. */
  lemma CountMoves<T(!new)>(s: seq<T>, i: nat, y: T)
    requires i < |s|
    ensures forall x :: Count(s[i := y], x) == Count(s, x) - (if s[i] == x then 1 else 0) + if y == x then 1 else 0
  {
    forall x ensures Count(s[i := y], x) == Count(s, x) - (if s[i] == x then 1 else 0) + if y == x then 1 else 0 {
      CountUpdate(s, i, y, x);
    }
  }
}
