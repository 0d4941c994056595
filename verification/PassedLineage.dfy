/** Fan-in lineage over whole histories: between two runs the scanner fires for one
    downstream job, every upstream succeeds with a run created in between, so no
    upstream run is ever used twice. Histories mix scans with every other step of the
    service and with retention deletes at an instant. */
module PassedLineage {
  import opened Runs
  import opened Admission
  import opened GroupInvariant
  import opened AdmissionEffects
  import opened AdmissionOutcome
  import opened GroupSafety
  import opened GroupHistories
  import opened PassedTriggers
  import opened StoreHistory

  /** One firing: the run it created, the job it targets, and the upstream runs it
      was credited to, as they were then. */
  datatype Fired = Fired(id: nat, pipeline: string, job: string, upstream: seq<Run>, created: nat)

  datatype World = World(service: Service, fired: seq<Fired>)

  datatype WorldStep =
    | Other(step: Step)
    | ScanFor(w: Workflow, run: Run, order: seq<string>)

  function EvaluateLogged(x: World, w: Workflow, job: Job): World {
    match Firing(x.service, w, job)
    case None => x
    case Some(upstream) =>
      World(Evaluate(x.service, w, job),
            x.fired + [Fired(x.service.nextId, w.pipeline.id, job.name, upstream, x.service.clock)])
  }

  function EvaluateAllLogged(x: World, w: Workflow, completed: seq<string>, order: seq<string>): World
    decreases |order|
  {
    if order == [] then x
    else
      var job := JobNamed(w.jobs, order[0], completed);
      EvaluateAllLogged(if job.Some? then EvaluateLogged(x, w, job.value) else x, w, completed, order[1..])
  }

  function Advance(x: World, step: WorldStep): World {
    match step
    case Other(inner) => x.(service := Apply(x.service, inner))
    case ScanFor(w, run, order) => EvaluateAllLogged(x, w, CompletedJobs(run, w), order)
  }

  /** The deleted runs of the pipeline are exactly those created before one instant. */
  ghost predicate AtInstant(s: Service, pipeline: string, keep: set<nat>) {
    exists instant: nat :: instant <= s.clock && KeepsFrom(s.runs, pipeline, keep, instant)
  }

  predicate KeepsFrom(runs: seq<Run>, pipeline: string, keep: set<nat>, instant: nat) {
    forall r :: r in runs && r.pipeline == pipeline ==> (r.id in keep <==> r.created >= instant)
  }

  /** Job names are non-empty, as pipeline validation demands. */
  predicate Named(w: Workflow) { forall k :: 0 <= k < |w.jobs| ==> w.jobs[k].name != "" }

  ghost predicate Legal(x: World, step: WorldStep) {
    match step
    case Other(inner) =>
      && Enabled(x.service, inner)
      && (inner.Triggered? ==> !inner.trigger.PassedTrigger?)
      && (inner.Delete? ==> AtInstant(x.service, inner.pipeline, inner.keep))
    case ScanFor(w, _, _) => Named(w)
  }

  function RunWorld(x: World, steps: seq<WorldStep>): World
    decreases |steps|
  {
    if steps == [] then x else RunWorld(Advance(x, steps[0]), steps[1..])
  }

  ghost predicate WorldHistory(x: World, steps: seq<WorldStep>)
    decreases |steps|
  {
    steps == [] || (Legal(x, steps[0]) && WorldHistory(Advance(x, steps[0]), steps[1..]))
  }

  // ---------------------------------------------------------------- invariant

  /** Whenever the store still has a run as old as the firing, it also has a run of
      the same job at least as young. */
  predicate Shadowed(runs: seq<Run>, e: Fired) {
    forall x :: x in runs && x.pipeline == e.pipeline && x.created <= e.created ==> HasSince(runs, e)
  }

  predicate HasSince(runs: seq<Run>, e: Fired) {
    exists r :: r in runs && Targets(r, e.pipeline, e.job) && r.created >= e.created
  }

  predicate Dated(runs: seq<Run>, e: Fired) {
    forall x :: x in runs && x.id <= e.id ==> x.created <= e.created
  }

  predicate SameTarget(a: Fired, b: Fired) { a.pipeline == b.pipeline && a.job == b.job }

  /** The credits of `b` are all younger than the firing `a`. */
  predicate FreshAfter(a: Fired, b: Fired) {
    SameTarget(a, b) ==> forall u :: u in b.upstream ==> u.created > a.created && u.id > a.id
  }

  ghost predicate Credited(s: Service, e: Fired) {
    && e.id < s.nextId && e.created <= s.clock && e.job != ""
    && (forall u :: u in e.upstream ==> u.created <= e.created && u.id < e.id)
    && Shadowed(s.runs, e) && Dated(s.runs, e)
    && (e.created < s.clock || HasSince(s.runs, e))
  }

  predicate RecordOf(r: Run, e: Fired) {
    r.id == e.id && r.pipeline == e.pipeline && r.jobs == [e.job] && r.upstream == Ids(e.upstream)
  }

  predicate Logged(r: Run, fired: seq<Fired>) {
    r.trigger.PassedTrigger? ==> exists k :: 0 <= k < |fired| && RecordOf(r, fired[k])
  }

  ghost predicate Lineage(x: World) {
    && Ordered(x.service.runs, x.service.nextId, x.service.clock)
    && (forall k :: 0 <= k < |x.fired| ==> Credited(x.service, x.fired[k]))
    && (forall i, j :: 0 <= i < j < |x.fired| ==> FreshAfter(x.fired[i], x.fired[j]))
    && (forall r :: r in x.service.runs ==> Logged(r, x.fired))
  }

  // ------------------------------------------------------------- preservation

  lemma HasSinceSurvives(s: Service, t: Service, e: Fired)
    requires KeepsAll(s, t) && HasSince(s.runs, e)
    ensures HasSince(t.runs, e)
  {
    var q :| q in s.runs && Targets(q, e.pipeline, e.job) && q.created >= e.created;
    var r :| r in t.runs && SameIdentity(q, r);
  }

  lemma DatedSurvives(s: Service, t: Service, e: Fired)
    requires Evolved(s, t) && Dated(s.runs, e) && e.id < s.nextId
    ensures Dated(t.runs, e)
  {
    forall x | x in t.runs && x.id <= e.id ensures x.created <= e.created {
      var q :| q in s.runs && SameIdentity(q, x);
    }
  }

  lemma NothingAsOld(s: Service, t: Service, e: Fired)
    requires Evolved(s, t) && Credited(s, e) && !HasSince(s.runs, e)
    ensures forall x :: x in t.runs && x.pipeline == e.pipeline ==> x.created > e.created
  {
    forall x | x in t.runs && x.pipeline == e.pipeline ensures x.created > e.created {
      if x.created != t.clock {
        var q :| q in s.runs && SameIdentity(q, x);
        assert q.pipeline == e.pipeline && q.created == x.created;
      }
    }
  }

  lemma CreditSurvives(s: Service, t: Service, e: Fired)
    requires Evolved(s, t) && KeepsAll(s, t) && Credited(s, e)
    ensures Credited(t, e)
  {
    DatedSurvives(s, t, e);
    if HasSince(s.runs, e) {
      HasSinceSurvives(s, t, e);
      assert Credited(t, e);
    } else {
      NothingAsOld(s, t, e);
      assert Shadowed(t.runs, e);
    }
  }

  /** A retention delete at an instant never removes the firing's shadow alone. */
  lemma CreditSurvivesDelete(s: Service, pipeline: string, keep: set<nat>, e: Fired)
    requires Ordered(s.runs, s.nextId, s.clock) && AtInstant(s, pipeline, keep) && Credited(s, e)
    ensures Credited(Prune(s, pipeline, keep), e)
  {
    var t := Prune(s, pipeline, keep);
    FilterMembers((r: Run) => r.pipeline != pipeline || r.id in keep, s.runs);
    var instant: nat :| instant <= s.clock && KeepsFrom(s.runs, pipeline, keep, instant);
    if HasSince(s.runs, e) {
      var r :| r in s.runs && Targets(r, e.pipeline, e.job) && r.created >= e.created;
      if r !in t.runs {
        assert r.created < instant;
      }
    }
  }

  lemma OtherStepTriggers(s: Service, step: Step)
    requires Ordered(s.runs, s.nextId, s.clock) && Enabled(s, step)
    requires step.Triggered? ==> !step.trigger.PassedTrigger?
    ensures forall r :: r in Apply(s, step).runs && r.id >= s.nextId ==> !r.trigger.PassedTrigger?
  {
    var t := Apply(s, step);
    if Admits(step) {
      AdmissionAppends(s, step);
    } else if Quiet(step) {
      QuietRevivesNothing(s, step);
      forall k | 0 <= k < |t.runs| ensures t.runs[k].id < s.nextId {
        assert SameIdentity(s.runs[k], t.runs[k]);
      }
    } else if step.Delete? {
      FilterMembers((r: Run) => r.pipeline != step.pipeline || r.id in step.keep, s.runs);
    }
  }

  lemma OtherKeepsLineage(x: World, step: Step)
    requires Lineage(x) && Legal(x, Other(step))
    ensures Lineage(Advance(x, Other(step)))
  {
    var s := x.service;
    var t := Apply(s, step);
    StepEvolves(s, step);
    OtherStepTriggers(s, step);
    forall k | 0 <= k < |x.fired| ensures Credited(t, x.fired[k]) {
      if step.Delete? {
        CreditSurvivesDelete(s, step.pipeline, step.keep, x.fired[k]);
      } else {
        CreditSurvives(s, t, x.fired[k]);
      }
    }
  }

  /** The upstream runs that fire a job now are younger than every earlier firing of it. */
  lemma FiringIsFresh(s: Service, w: Workflow, job: Job, e: Fired)
    requires Ordered(s.runs, s.nextId, s.clock) && Credited(s, e)
    requires e.pipeline == w.pipeline.id && e.job == job.name && Firing(s, w, job).Some?
    ensures forall u :: u in Firing(s, w, job).value ==> u.created > e.created && u.id > e.id
  {
    var since := Since(s.runs, e.pipeline, e.job);
    FreshUpstreamsAre(s.runs, s.nextId, s.clock, e.pipeline, job.passed, since);
    SinceBounds(s.runs, s.nextId, s.clock, e.pipeline, e.job);
    forall u | u in Firing(s, w, job).value ensures u.created > e.created && u.id > e.id {
      assert u in s.runs && u.pipeline == e.pipeline && CreatedAfter(u, since);
    }
  }

  function FiringStep(w: Workflow, job: Job, upstream: seq<Run>): Step {
    Triggered(w.pipeline, PassedTrigger, PassedInput(w, job, upstream))
  }

  /** A firing credits the new run, and the record that carries the credit is saved. */
  lemma AppendIsCredited(s: Service, w: Workflow, job: Job, upstream: seq<Run>, t: Service, e: Fired)
    requires Ordered(s.runs, s.nextId, s.clock) && job.name != ""
    requires Appended(s, FiringStep(w, job, upstream), t)
    requires e == Fired(s.nextId, w.pipeline.id, job.name, upstream, s.clock)
    requires forall u :: u in upstream ==> u in s.runs
    ensures Credited(t, e)
    ensures forall r :: r in t.runs && r.id >= s.nextId ==> RecordOf(r, e)
  {
    var n := |s.runs|;
    assert t.runs[n] in t.runs && Targets(t.runs[n], e.pipeline, e.job);
    assert HasSince(t.runs, e);
    assert forall k :: 0 <= k < n ==> t.runs[k].id == s.runs[k].id && t.runs[k].created == s.runs[k].created;
  }

  lemma AppendKeepsLog(x: World, t: Service, e: Fired)
    requires Evolved(x.service, t)
    requires forall r :: r in x.service.runs ==> Logged(r, x.fired)
    requires forall r :: r in t.runs && r.id >= x.service.nextId ==> RecordOf(r, e)
    ensures forall r :: r in t.runs ==> Logged(r, x.fired + [e])
  {
    var s := x.service;
    var fired := x.fired + [e];
    forall r | r in t.runs && r.trigger.PassedTrigger? ensures Logged(r, fired) {
      if r.id >= s.nextId {
        assert RecordOf(r, fired[|x.fired|]);
      } else {
        var q :| q in s.runs && SameIdentity(q, r);
        assert Logged(q, x.fired);
        var k :| 0 <= k < |x.fired| && RecordOf(q, x.fired[k]);
        assert RecordOf(r, fired[k]);
      }
    }
  }

  lemma CreditsSurvive(s: Service, t: Service, fired: seq<Fired>)
    requires Evolved(s, t) && KeepsAll(s, t)
    requires forall k :: 0 <= k < |fired| ==> Credited(s, fired[k])
    ensures forall k :: 0 <= k < |fired| ==> Credited(t, fired[k])
  {
    forall k | 0 <= k < |fired| ensures Credited(t, fired[k]) {
      CreditSurvives(s, t, fired[k]);
    }
  }

  lemma ExtendLineage(t: Service, fired: seq<Fired>, e: Fired)
    requires Ordered(t.runs, t.nextId, t.clock)
    requires (forall k :: 0 <= k < |fired| ==> Credited(t, fired[k])) && Credited(t, e)
    requires forall i, j :: 0 <= i < j < |fired| ==> FreshAfter(fired[i], fired[j])
    requires forall k :: 0 <= k < |fired| ==> FreshAfter(fired[k], e)
    requires forall r :: r in t.runs ==> Logged(r, fired + [e])
    ensures Lineage(World(t, fired + [e]))
  {
  }

  lemma AppendKeepsLineage(x: World, w: Workflow, job: Job, upstream: seq<Run>, t: Service, e: Fired)
    requires Lineage(x) && job.name != ""
    requires Appended(x.service, FiringStep(w, job, upstream), t)
    requires e == Fired(x.service.nextId, w.pipeline.id, job.name, upstream, x.service.clock)
    requires forall u :: u in upstream ==> u in x.service.runs
    requires forall k :: 0 <= k < |x.fired| ==> FreshAfter(x.fired[k], e)
    ensures Lineage(World(t, x.fired + [e]))
  {
    AppendEvolves(x.service, FiringStep(w, job, upstream), t);
    AppendIsCredited(x.service, w, job, upstream, t, e);
    AppendKeepsLog(x, t, e);
    CreditsSurvive(x.service, t, x.fired);
    ExtendLineage(t, x.fired, e);
  }

  lemma EvaluateKeepsLineage(x: World, w: Workflow, job: Job)
    requires Lineage(x) && job.name != ""
    ensures Lineage(EvaluateLogged(x, w, job))
  {
    var s := x.service;
    if Firing(s, w, job).Some? {
      var upstream := Firing(s, w, job).value;
      var e := Fired(s.nextId, w.pipeline.id, job.name, upstream, s.clock);
      FreshUpstreamsAre(s.runs, s.nextId, s.clock, w.pipeline.id, job.passed, Since(s.runs, w.pipeline.id, job.name));
      AdmissionAppends(s, FiringStep(w, job, upstream));
      forall k | 0 <= k < |x.fired| ensures FreshAfter(x.fired[k], e) {
        if SameTarget(x.fired[k], e) {
          FiringIsFresh(s, w, job, x.fired[k]);
        }
      }
      AppendKeepsLineage(x, w, job, upstream, Evaluate(s, w, job), e);
    }
  }

  lemma {:induction false} ScanKeepsLineage(x: World, w: Workflow, completed: seq<string>, order: seq<string>)
    requires Lineage(x) && Named(w)
    ensures Lineage(EvaluateAllLogged(x, w, completed, order))
    decreases |order|
  {
    if order != [] {
      var job := JobNamed(w.jobs, order[0], completed);
      if job.Some? {
        CandidateIsJob(w.jobs, order[0], completed);
        EvaluateKeepsLineage(x, w, job.value);
      }
      ScanKeepsLineage(if job.Some? then EvaluateLogged(x, w, job.value) else x, w, completed, order[1..]);
    }
  }

  lemma {:induction false} HistoryKeepsLineage(x: World, steps: seq<WorldStep>)
    requires Lineage(x) && WorldHistory(x, steps)
    ensures Lineage(RunWorld(x, steps))
    decreases |steps|
  {
    if steps != [] {
      match steps[0] {
        case Other(inner) => OtherKeepsLineage(x, inner);
        case ScanFor(w, run, order) => ScanKeepsLineage(x, w, CompletedJobs(run, w), order);
      }
      HistoryKeepsLineage(Advance(x, steps[0]), steps[1..]);
    }
  }

  // ----------------------------------------------------------------- theorems

  /** Of two firings of one job, the later is credited only to upstream runs created
      after the earlier; so the two share no upstream run. */
  lemma EveryFiringIsFresh(maxInFlight: nat, maxQueueSize: int, steps: seq<WorldStep>)
    requires WorldHistory(World(Fresh(maxInFlight, maxQueueSize), []), steps)
    ensures var fired := RunWorld(World(Fresh(maxInFlight, maxQueueSize), []), steps).fired;
            forall i, j :: 0 <= i < j < |fired| && SameTarget(fired[i], fired[j]) ==>
              && (forall u :: u in fired[j].upstream ==> u.created > fired[i].created)
              && (forall u, v :: u in fired[i].upstream && v in fired[j].upstream ==> u.id < v.id)
  {
    var x := World(Fresh(maxInFlight, maxQueueSize), []);
    HistoryKeepsLineage(x, steps);
    var y := RunWorld(x, steps);
    forall i, j | 0 <= i < j < |y.fired| && SameTarget(y.fired[i], y.fired[j])
      ensures (forall u :: u in y.fired[j].upstream ==> u.created > y.fired[i].created)
      ensures forall u, v :: u in y.fired[i].upstream && v in y.fired[j].upstream ==> u.id < v.id
    {
      assert FreshAfter(y.fired[i], y.fired[j]) && Credited(y.service, y.fired[i]);
    }
  }

  /** Whatever happened since a firing, with its run finished or even deleted: while one
      upstream name has no success created after the firing, the job does not fire again. */
  lemma FiredJobWaits(maxInFlight: nat, maxQueueSize: int, steps: seq<WorldStep>, k: nat, w: Workflow, job: Job, u: string)
    requires WorldHistory(World(Fresh(maxInFlight, maxQueueSize), []), steps)
    requires var y := RunWorld(World(Fresh(maxInFlight, maxQueueSize), []), steps);
             && k < |y.fired| && y.fired[k].pipeline == w.pipeline.id && y.fired[k].job == job.name
             && u in job.passed
             && forall r :: r in y.service.runs && Targets(r, w.pipeline.id, u) && r.status.Success? ==>
                  r.created <= y.fired[k].created
    ensures Firing(RunWorld(World(Fresh(maxInFlight, maxQueueSize), []), steps).service, w, job).None?
  {
    HistoryKeepsLineage(World(Fresh(maxInFlight, maxQueueSize), []), steps);
    var y := RunWorld(World(Fresh(maxInFlight, maxQueueSize), []), steps);
    if Firing(y.service, w, job).Some? {
      FiringIsFresh(y.service, w, job, y.fired[k]);
      FiringCredits(y.service, w, job, u);
    }
  }

  /** What a firing stores: one run that targets the job alone and names the runs it is
      credited to, in the order of the job's list, under the group key of that target. */
  lemma FiringStores(s: Service, w: Workflow, job: Job)
    requires Ordered(s.runs, s.nextId, s.clock) && Firing(s, w, job).Some?
    ensures var upstream := Firing(s, w, job).value;
            var t := Evaluate(s, w, job);
            && |t.runs| == |s.runs| + 1 && |upstream| == |job.passed|
            && var r := t.runs[|s.runs|];
            && r.id == s.nextId && r.pipeline == w.pipeline.id && r.trigger.PassedTrigger? && r.jobs == [job.name]
            && |r.upstream| == |job.passed|
            && (forall k :: 0 <= k < |job.passed| ==> r.upstream[k] == upstream[k].id && Targets(upstream[k], r.pipeline, job.passed[k]))
            && (w.pipeline.mode.Grouped? && !r.status.Failed? ==> w.render(job.name) == Ok(r.group))
  {
    var upstream := Firing(s, w, job).value;
    FreshUpstreamsAre(s.runs, s.nextId, s.clock, w.pipeline.id, job.passed, Since(s.runs, w.pipeline.id, job.name));
    TriggerOutcome(s, w.pipeline, PassedTrigger, PassedInput(w, job, upstream));
    GroupKeyIs(w.pipeline, PassedInput(w, job, upstream));
    AcceptsExactly(s);
  }

  /** Each name a firing job awaits is among the targets of a run it is credited to. */
  lemma FiringCredits(s: Service, w: Workflow, job: Job, u: string)
    requires Ordered(s.runs, s.nextId, s.clock) && Firing(s, w, job).Some? && u in job.passed
    ensures exists r :: r in Firing(s, w, job).value && r in s.runs && Targets(r, w.pipeline.id, u) && r.status.Success?
  {
    FreshUpstreamsAre(s.runs, s.nextId, s.clock, w.pipeline.id, job.passed, Since(s.runs, w.pipeline.id, job.name));
    var i :| 0 <= i < |job.passed| && job.passed[i] == u;
    assert Firing(s, w, job).value[i] in Firing(s, w, job).value;
  }

  /** In the store: no upstream run ID appears in the lineage of two passed-triggered
      runs of one job. */
  lemma UpstreamUsedOnce(maxInFlight: nat, maxQueueSize: int, steps: seq<WorldStep>, a: Run, b: Run, id: nat)
    requires WorldHistory(World(Fresh(maxInFlight, maxQueueSize), []), steps)
    requires var runs := RunWorld(World(Fresh(maxInFlight, maxQueueSize), []), steps).service.runs;
             a in runs && b in runs
    requires a.trigger.PassedTrigger? && b.trigger.PassedTrigger? && a.pipeline == b.pipeline && a.jobs == b.jobs
    requires id in a.upstream && id in b.upstream
    ensures a.id == b.id
  {
    var x := World(Fresh(maxInFlight, maxQueueSize), []);
    HistoryKeepsLineage(x, steps);
    SharedUpstreamIsOneRun(RunWorld(x, steps), a, b, id);
  }

  lemma SharedUpstreamIsOneRun(y: World, a: Run, b: Run, id: nat)
    requires Lineage(y) && a in y.service.runs && b in y.service.runs
    requires a.trigger.PassedTrigger? && b.trigger.PassedTrigger? && a.pipeline == b.pipeline && a.jobs == b.jobs
    requires id in a.upstream && id in b.upstream
    ensures a.id == b.id
  {
    forall i, j | 0 <= i < j < |y.fired| && SameTarget(y.fired[i], y.fired[j])
      ensures !(id in Ids(y.fired[i].upstream) && id in Ids(y.fired[j].upstream))
    {
      FiringsShareNothing(y, i, j, id);
    }
    OneFiringPerUpstream(y.fired, a, b, id);
  }

  lemma OneFiringPerUpstream(fired: seq<Fired>, a: Run, b: Run, id: nat)
    requires Logged(a, fired) && Logged(b, fired)
    requires a.trigger.PassedTrigger? && b.trigger.PassedTrigger? && a.pipeline == b.pipeline && a.jobs == b.jobs
    requires id in a.upstream && id in b.upstream
    requires forall i, j :: 0 <= i < j < |fired| && SameTarget(fired[i], fired[j]) ==>
               !(id in Ids(fired[i].upstream) && id in Ids(fired[j].upstream))
    ensures a.id == b.id
  {
    var i :| 0 <= i < |fired| && RecordOf(a, fired[i]);
    var j :| 0 <= j < |fired| && RecordOf(b, fired[j]);
    assert [fired[i].job][0] == [fired[j].job][0];
    assert i == j;
  }

  lemma FiringsShareNothing(y: World, i: nat, j: nat, id: nat)
    requires Lineage(y) && i < j < |y.fired| && SameTarget(y.fired[i], y.fired[j])
    ensures !(id in Ids(y.fired[i].upstream) && id in Ids(y.fired[j].upstream))
  {
    assert FreshAfter(y.fired[i], y.fired[j]) && Credited(y.service, y.fired[i]);
    forall m, n | 0 <= m < |y.fired[i].upstream| && 0 <= n < |y.fired[j].upstream|
      ensures y.fired[i].upstream[m].id < y.fired[j].upstream[n].id
    {
      assert y.fired[i].upstream[m] in y.fired[i].upstream && y.fired[j].upstream[n] in y.fired[j].upstream;
    }
  }
}
