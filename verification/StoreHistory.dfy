/** What the run queries of the scanner return, and how the records of the store
    evolve under any step of the service. */
module StoreHistory {
  import opened Runs
  import opened Admission
  import opened GroupInvariant
  import opened AdmissionEffects
  import opened GroupSafety
  import opened GroupHistories
  import opened PassedTriggers

  // ------------------------------------------------------------------ queries

  lemma {:induction false} LatestIsLatest(p: Run -> bool, runs: seq<Run>)
    requires forall i, j :: 0 <= i < j < |runs| ==> runs[i].created <= runs[j].created
    ensures match Latest(p, runs)
            case None => forall r :: r in runs ==> !p(r)
            case Some(x) => x in runs && p(x) && forall r :: r in runs && p(r) ==> r.created <= x.created
  {
    if runs != [] {
      var last := runs[|runs| - 1];
      assert runs == runs[..|runs| - 1] + [last];
      LatestIsLatest(p, runs[..|runs| - 1]);
    }
  }

  lemma SinceBounds(runs: seq<Run>, nextId: nat, clock: nat, pipeline: string, job: string)
    requires Ordered(runs, nextId, clock) && job != ""
    ensures forall r :: r in runs && Targets(r, pipeline, job) ==>
              Since(runs, pipeline, job).Some? && r.created <= Since(runs, pipeline, job).value
  {
    LatestIsLatest((r: Run) => Targets(r, pipeline, job), runs);
  }

  lemma {:induction false} FreshUpstreamsAre(runs: seq<Run>, nextId: nat, clock: nat, pipeline: string,
                                             passed: seq<string>, since: Option<nat>)
    requires Ordered(runs, nextId, clock)
    ensures match FreshUpstreams(runs, pipeline, passed, since)
            case Some(list) =>
              && |list| == |passed|
              && forall k :: 0 <= k < |list| ==>
                   list[k] in runs && Targets(list[k], pipeline, passed[k]) && list[k].status.Success? &&
                   CreatedAfter(list[k], since)
            case None =>
              exists k :: 0 <= k < |passed| &&
                (passed[k] == "" ||
                 forall r :: r in runs && Targets(r, pipeline, passed[k]) && r.status.Success? ==> !CreatedAfter(r, since))
  {
    if passed != [] {
      LatestIsLatest((r: Run) => Targets(r, pipeline, passed[0]) && r.status.Success? && CreatedAfter(r, since), runs);
      FreshUpstreamsAre(runs, nextId, clock, pipeline, passed[1..], since);
      assert forall k :: 0 <= k < |passed[1..]| ==> passed[1..][k] == passed[k + 1];
    }
  }

  /** Of several successes of one name the most recent is taken. */
  lemma {:induction false} FreshUpstreamsAreLatest(runs: seq<Run>, nextId: nat, clock: nat, pipeline: string,
                                                   passed: seq<string>, since: Option<nat>)
    requires Ordered(runs, nextId, clock) && FreshUpstreams(runs, pipeline, passed, since).Some?
    ensures var list := FreshUpstreams(runs, pipeline, passed, since).value;
            && |list| == |passed|
            && forall k, r :: 0 <= k < |list| && r in runs && Targets(r, pipeline, passed[k]) && r.status.Success? ==>
                 r.created <= list[k].created
  {
    if passed != [] {
      LatestIsLatest((r: Run) => Targets(r, pipeline, passed[0]) && r.status.Success? && CreatedAfter(r, since), runs);
      FreshUpstreamsAreLatest(runs, nextId, clock, pipeline, passed[1..], since);
      assert forall k :: 0 <= k < |passed[1..]| ==> passed[1..][k] == passed[k + 1];
    }
  }

  // ------------------------------------------------------------------ history

  /** What a step may do to the record of a store: keep its identity, or be new. */
  ghost predicate Evolved(s: Service, t: Service) {
    && Ordered(t.runs, t.nextId, t.clock)
    && s.nextId <= t.nextId && s.clock <= t.clock
    && forall r :: r in t.runs ==>
         (r.id >= s.nextId && r.created == t.clock) || exists q :: q in s.runs && SameIdentity(q, r)
  }

  ghost predicate KeepsAll(s: Service, t: Service) {
    forall q :: q in s.runs ==> exists r :: r in t.runs && SameIdentity(q, r)
  }

  lemma StatusesEvolve(s: Service, t: Service)
    requires Ordered(s.runs, s.nextId, s.clock) && StatusesOnly(s.runs, t.runs)
    requires s.nextId <= t.nextId && s.clock <= t.clock
    ensures Evolved(s, t) && KeepsAll(s, t)
  {
  }

  /** The same records up to status, and one new record at the end. */
  ghost predicate Grown(s: Service, t: Service) {
    && |t.runs| == |s.runs| + 1
    && (forall i :: 0 <= i < |s.runs| ==> SameIdentity(s.runs[i], t.runs[i]))
    && t.runs[|s.runs|].id == s.nextId && t.runs[|s.runs|].created == s.clock
    && t.nextId == s.nextId + 1 && t.clock == s.clock
  }

  lemma GrownKeepsAll(s: Service, t: Service)
    requires Grown(s, t)
    ensures KeepsAll(s, t)
  {
    forall q | q in s.runs ensures exists r :: r in t.runs && SameIdentity(q, r) {
      var k :| 0 <= k < |s.runs| && s.runs[k] == q;
      assert t.runs[k] in t.runs && SameIdentity(q, t.runs[k]);
    }
  }

  lemma AppendEvolves(s: Service, step: Step, t: Service)
    requires Ordered(s.runs, s.nextId, s.clock) && Admits(step) && Appended(s, step, t)
    ensures Evolved(s, t) && KeepsAll(s, t)
  {
    GrownKeepsAll(s, t);
  }

  lemma StepEvolves(s: Service, step: Step)
    requires Ordered(s.runs, s.nextId, s.clock) && Enabled(s, step)
    ensures Evolved(s, Apply(s, step))
    ensures !step.Delete? ==> KeepsAll(s, Apply(s, step))
  {
    var t := Apply(s, step);
    if Quiet(step) {
      QuietRevivesNothing(s, step);
      QuietCounters(s, step);
      StatusesEvolve(s, t);
    } else if Admits(step) {
      AdmissionAppends(s, step);
      if Appended(s, step, t) {
        AppendEvolves(s, step, t);
      } else {
        StatusesEvolve(s, t);
      }
    } else if step.Resume? {
      StatusesEvolve(s, t);
    } else {
      var kept := (r: Run) => r.pipeline != step.pipeline || r.id in step.keep;
      FilterMembers(kept, s.runs);
      FilterPairwise(kept, (a: Run, b: Run) => a.id < b.id && a.created <= b.created, s.runs);
      forall i | 0 <= i < |t.runs| ensures t.runs[i] in s.runs { assert t.runs[i] in t.runs; }
    }
  }

  lemma QuietCounters(s: Service, step: Step)
    requires Quiet(step)
    ensures Apply(s, step).nextId == s.nextId && s.clock <= Apply(s, step).clock
  {
    match step
    case Tick(existing, lookup) =>
      DispatchFrame(s, ByStatus(s.runs, Queued), if lookup then BusyGroups(s.runs) else {}, existing);
    case Boot(existing, resumable) =>
      var booted := s.(inFlight := 0, executing := {}, syncing := {}, cancelled := {});
      RecoveryCounters(booted, ByStatus(s.runs, Running), existing, resumable);
    case _ =>
  }

  lemma {:induction false} RecoveryCounters(s: Service, orphans: seq<Run>, existing: set<string>, resumable: set<string>)
    ensures var t := RecoverRuns(s, orphans, existing, resumable); t.nextId == s.nextId && t.clock == s.clock
    decreases |orphans|
  {
    if orphans != [] {
      RecoveryCounters(RecoverRun(s, orphans[0], existing, resumable), orphans[1..], existing, resumable);
    }
  }
}
