/** Fan-in under concurrency: any number of upstream runs complete, each committing
    its success and then scanning under the scanner lock, in any interleaving with one
    another and with unrelated work. Exactly one downstream run comes of it. */
module FanIn {
  import opened Runs
  import opened Admission
  import opened GroupInvariant
  import opened AdmissionEffects
  import opened GroupSafety
  import opened GroupHistories
  import opened PassedTriggers
  import opened StoreHistory
  import opened PassedLineage
  import opened PassedEdges

  /** The downstream job, the upstream runs that are in flight, and the first
      identifier not yet given out when they start to complete. */
  datatype Scene = Scene(w: Workflow, job: Job, upstreams: set<nat>, firstNew: nat)

  datatype Phase = Executing | Committed | Scanned

  datatype Completions = Completions(service: Service, phase: map<nat, Phase>)

  predicate ForJob(c: Scene, r: Run) { Targets(r, c.w.pipeline.id, c.job.name) }

  predicate Feeds(c: Scene, r: Run) {
    r.pipeline == c.w.pipeline.id && exists u :: u in c.job.passed && u in r.jobs
  }

  /** A downstream run created since the completions began. */
  predicate NewForJob(c: Scene, r: Run) { ForJob(c, r) && r.id >= c.firstNew }

  predicate HasFired(s: Service, c: Scene) { exists r :: r in s.runs && NewForJob(c, r) }

  // ------------------------------------------------------------------ premises

  /** Names are non-empty and distinct, the job awaits something, and no job that
      awaits one of the completing jobs is itself awaited by the downstream. */
  ghost predicate WellPosed(c: Scene, s: Service) {
    && c.job in c.w.jobs && c.job.passed != [] && c.job.name !in c.job.passed
    && (forall u :: u in c.job.passed ==> u != "")
    && Named(c.w)
    && (forall i, j :: 0 <= i < j < |c.w.jobs| ==> c.w.jobs[i].name != c.w.jobs[j].name)
    && (forall r, j :: r in s.runs && r.id in c.upstreams && j in c.w.jobs && Awaits(j, r.jobs) ==>
          j.name !in c.job.passed)
  }

  /** An upstream record: older than every new run, younger than every old downstream run. */
  ghost predicate UpstreamOk(s: Service, c: Scene, r: Run) {
    && Feeds(c, r)
    && forall q :: q in s.runs && ForJob(c, q) && q.id < c.firstNew ==> q.created < r.created
  }

  /** `settled` are the upstream runs that have committed their success. */
  ghost predicate Ground(s: Service, c: Scene, settled: set<nat>) {
    && Ordered(s.runs, s.nextId, s.clock) && c.firstNew <= s.nextId
    && (forall id :: id in c.upstreams ==> id < c.firstNew) && (forall id :: id in settled ==> id < c.firstNew)
    && (forall r :: r in s.runs && r.id in c.upstreams ==> UpstreamOk(s, c, r))
    && (forall r :: r in s.runs && r.id in settled ==> r.status.Success?)
    && (forall r :: r in s.runs && ForJob(c, r) && r.id < c.firstNew ==> !r.status.IsActive())
    && (forall r :: r in s.runs && r.id >= c.firstNew ==> !Feeds(c, r))
  }

  ghost predicate FiredAtMostOnce(s: Service, c: Scene) {
    forall a, b :: a in s.runs && b in s.runs && NewForJob(c, a) && NewForJob(c, b) ==> a.id == b.id
  }

  ghost predicate Stage(s: Service, c: Scene, settled: set<nat>) {
    Ground(s, c, settled) && FiredAtMostOnce(s, c)
  }

  /** The records the fan-in is about. Everything else may be deleted at any time. */
  predicate InScene(c: Scene, r: Run) { r.id in c.upstreams || NewForJob(c, r) }

  ghost predicate KeepsScene(s: Service, t: Service, c: Scene) {
    forall q :: q in s.runs && InScene(c, q) ==> exists r :: r in t.runs && SameIdentity(q, r)
  }

  /** A change that leaves settled upstreams and finished old downstream runs alone,
      deletes nothing of the scene, and whose new runs feed nothing. */
  ghost predicate Benign(s: Service, t: Service, c: Scene, settled: set<nat>) {
    && Evolved(s, t) && KeepsScene(s, t, c)
    && (forall r :: r in t.runs && r.id >= s.nextId ==> !Feeds(c, r))
    && StatusesHeld(s, t, c, settled)
  }

  ghost predicate StatusesHeld(s: Service, t: Service, c: Scene, settled: set<nat>) {
    forall q, r :: q in s.runs && r in t.runs && q.id == r.id ==>
      && (q.id in settled ==> r.status == q.status)
      && (ForJob(c, q) && q.id < c.firstNew && !q.status.IsActive() ==> !r.status.IsActive())
  }

  /** What everything outside the scene may do: a benign change that starts no
      downstream run. */
  ghost predicate Unrelated(s: Service, t: Service, c: Scene, settled: set<nat>) {
    Benign(s, t, c, settled) && forall r :: r in t.runs && r.id >= s.nextId ==> !ForJob(c, r)
  }

  lemma OldRecord(s: Service, t: Service, r: Run) returns (q: Run)
    requires Evolved(s, t) && r in t.runs && r.id < s.nextId
    ensures q in s.runs && SameIdentity(q, r)
  {
    q :| q in s.runs && SameIdentity(q, r);
  }

  lemma UpstreamSurvives(s: Service, t: Service, c: Scene, q: Run, r: Run)
    requires Evolved(s, t) && c.firstNew <= s.nextId
    requires SameIdentity(q, r) && UpstreamOk(s, c, q)
    ensures UpstreamOk(t, c, r)
  {
    forall d | d in t.runs && ForJob(c, d) && d.id < c.firstNew ensures d.created < r.created {
      var e := OldRecord(s, t, d);
      assert ForJob(c, e);
    }
  }

  lemma BenignKeepsGround(s: Service, t: Service, c: Scene, settled: set<nat>)
    requires Ground(s, c, settled) && Benign(s, t, c, settled)
    ensures Ground(t, c, settled)
  {
    forall r | r in t.runs && r.id in c.upstreams ensures UpstreamOk(t, c, r) {
      var q := OldRecord(s, t, r);
      UpstreamSurvives(s, t, c, q, r);
    }
    forall r | r in t.runs
      ensures (r.id in settled ==> r.status.Success?) && (r.id >= c.firstNew ==> !Feeds(c, r))
      ensures ForJob(c, r) && r.id < c.firstNew ==> !r.status.IsActive()
    {
    }
  }

  lemma OldFiring(s: Service, t: Service, c: Scene, a: Run) returns (q: Run)
    requires Evolved(s, t) && a in t.runs && a.id < s.nextId && NewForJob(c, a)
    ensures q in s.runs && NewForJob(c, q) && q.id == a.id
  {
    q := OldRecord(s, t, a);
  }

  lemma FiringSurvives(s: Service, t: Service, c: Scene)
    requires KeepsScene(s, t, c) && HasFired(s, c)
    ensures HasFired(t, c)
  {
    var q :| q in s.runs && NewForJob(c, q);
    var r :| r in t.runs && SameIdentity(q, r);
    assert NewForJob(c, r);
  }

  /** Unrelated work keeps the stage, and neither makes nor removes a new downstream run. */
  lemma UnrelatedKeepsStage(s: Service, t: Service, c: Scene, settled: set<nat>)
    requires Stage(s, c, settled) && Unrelated(s, t, c, settled)
    ensures Stage(t, c, settled)
    ensures HasFired(t, c) <==> HasFired(s, c)
  {
    BenignKeepsGround(s, t, c, settled);
    forall a, b | a in t.runs && b in t.runs && NewForJob(c, a) && NewForJob(c, b) ensures a.id == b.id {
      var q := OldFiring(s, t, c, a);
      var r := OldFiring(s, t, c, b);
    }
    if HasFired(s, c) {
      FiringSurvives(s, t, c);
    }
    if HasFired(t, c) {
      var a :| a in t.runs && NewForJob(c, a);
      var q := OldFiring(s, t, c, a);
    }
  }

  // --------------------------------------------------------------- evaluation

  /** Once a downstream run exists, no feeding run is younger: nothing is fresh. */
  lemma NothingFreshAfterFiring(s: Service, c: Scene, settled: set<nat>)
    requires Stage(s, c, settled) && WellPosed(c, s) && HasFired(s, c)
    ensures Firing(s, c.w, c.job).None?
  {
    var id, job := c.w.pipeline.id, c.job.name;
    var since := Since(s.runs, id, job);
    var f :| f in s.runs && NewForJob(c, f);
    var i :| 0 <= i < |c.w.jobs| && c.w.jobs[i] == c.job;
    SinceBounds(s.runs, s.nextId, s.clock, id, job);
    FreshUpstreamsAre(s.runs, s.nextId, s.clock, id, c.job.passed, since);
    var found := FreshUpstreams(s.runs, id, c.job.passed, since);
    if found.Some? {
      var u := found.value[0];
      assert Feeds(c, u);
    }
  }

  /** Some upstream name has no settled run yet. */
  ghost predicate Missing(s: Service, c: Scene, settled: set<nat>) {
    exists u :: u in c.job.passed &&
      forall r :: r in s.runs && r.id in c.upstreams && r.id in settled ==> u !in r.jobs
  }

  /** Before the first firing the job fires as soon as every upstream name has a settled
      run and the queue has room. */
  lemma FiresWhenCovered(s: Service, c: Scene, settled: set<nat>)
    requires Stage(s, c, settled) && WellPosed(c, s) && !HasFired(s, c) && CanAccept(s)
    ensures Firing(s, c.w, c.job).Some? || Missing(s, c, settled)
  {
    var id, job := c.w.pipeline.id, c.job.name;
    var since := Since(s.runs, id, job);
    LatestIsLatest((r: Run) => Targets(r, id, job), s.runs);
    FreshUpstreamsAre(s.runs, s.nextId, s.clock, id, c.job.passed, since);
    forall r | r in s.runs && Targets(r, id, job) ensures !r.status.IsActive() {
      assert ForJob(c, r) && !NewForJob(c, r);
    }
    if Firing(s, c.w, c.job).None? {
      var k :| 0 <= k < |c.job.passed| && (c.job.passed[k] == "" ||
        forall r :: r in s.runs && Targets(r, id, c.job.passed[k]) && r.status.Success? ==> !CreatedAfter(r, since));
      assert c.job.passed[k] in c.job.passed;
      forall r | r in s.runs && r.id in c.upstreams && r.id in settled ensures c.job.passed[k] !in r.jobs {
        assert UpstreamOk(s, c, r) && r.status.Success?;
        if since.Some? {
          var q := MostRecentJobRun(s.runs, id, job).value;
          assert q in s.runs && ForJob(c, q) && (q.id < c.firstNew || NewForJob(c, q));
        }
        assert CreatedAfter(r, since);
      }
    }
  }

  lemma SameIdAfterAppend(s: Service, step: Step, t: Service, q: Run, r: Run)
    requires Ordered(t.runs, t.nextId, t.clock) && Admits(step) && Appended(s, step, t)
    requires q in s.runs && r in t.runs && q.id == r.id
    ensures r == AfterAdmission(step.p, step.input, s.nextId, q)
  {
    var k :| 0 <= k < |s.runs| && s.runs[k] == q;
    var m :| 0 <= m < |t.runs| && t.runs[m] == r;
    assert t.runs[k] == AfterAdmission(step.p, step.input, s.nextId, q);
    assert m == k;
  }

  lemma AppendHoldsStatuses(s: Service, step: Step, t: Service, c: Scene, settled: set<nat>)
    requires Ordered(t.runs, t.nextId, t.clock) && Admits(step) && Appended(s, step, t)
    requires forall r :: r in s.runs && r.id in settled ==> r.status.Success?
    ensures StatusesHeld(s, t, c, settled)
  {
    forall q, r | q in s.runs && r in t.runs && q.id == r.id && (q.id in settled || !q.status.IsActive())
      ensures r.status == q.status
    {
      SameIdAfterAppend(s, step, t, q, r);
    }
  }

  /** Admission of a run that feeds nothing is benign. */
  lemma AppendIsBenign(s: Service, step: Step, t: Service, c: Scene, settled: set<nat>)
    requires Ground(s, c, settled) && Admits(step) && Appended(s, step, t)
    requires forall u :: u in c.job.passed ==> u !in step.input.jobs
    ensures Benign(s, t, c, settled)
  {
    AppendEvolves(s, step, t);
    AppendHoldsStatuses(s, step, t, c, settled);
  }

  lemma OtherEvaluation(s: Service, c: Scene, settled: set<nat>, job: Job)
    requires Stage(s, c, settled) && job.name != c.job.name && job.name !in c.job.passed
    ensures var t := Evaluate(s, c.w, job); t == s || Unrelated(s, t, c, settled)
  {
    if Firing(s, c.w, job).Some? {
      OtherFiring(s, c, settled, job);
    }
  }

  lemma OtherFiring(s: Service, c: Scene, settled: set<nat>, job: Job)
    requires Ground(s, c, settled) && job.name != c.job.name && job.name !in c.job.passed
    requires Firing(s, c.w, job).Some?
    ensures Unrelated(s, Evaluate(s, c.w, job), c, settled)
  {
    var step := FiringStep(c.w, job, Firing(s, c.w, job).value);
    AdmissionAppends(s, step);
    AppendIsBenign(s, step, Evaluate(s, c.w, job), c, settled);
  }

  /** The downstream's own evaluation: it fires at most once, and does so as soon as
      every upstream name is covered. Room is needed for the first firing only. */
  lemma OwnEvaluation(s: Service, c: Scene, settled: set<nat>)
    requires Stage(s, c, settled) && WellPosed(c, s) && (HasFired(s, c) || CanAccept(s))
    ensures var t := Evaluate(s, c.w, c.job);
            && Stage(t, c, settled) && (t == s || Benign(s, t, c, settled))
            && (HasFired(s, c) ==> HasFired(t, c))
            && (HasFired(t, c) || Missing(s, c, settled))
  {
    if HasFired(s, c) {
      NothingFreshAfterFiring(s, c, settled);
    } else {
      FiresWhenCovered(s, c, settled);
      if Firing(s, c.w, c.job).Some? {
        OwnFiring(s, c, settled);
      }
    }
  }

  lemma OwnFiring(s: Service, c: Scene, settled: set<nat>)
    requires Stage(s, c, settled) && c.job.name !in c.job.passed && !HasFired(s, c) && Firing(s, c.w, c.job).Some?
    ensures var t := Evaluate(s, c.w, c.job); Stage(t, c, settled) && Benign(s, t, c, settled) && HasFired(t, c)
  {
    var t := Evaluate(s, c.w, c.job);
    var step := FiringStep(c.w, c.job, Firing(s, c.w, c.job).value);
    AdmissionAppends(s, step);
    AppendIsBenign(s, step, t, c, settled);
    BenignKeepsGround(s, t, c, settled);
    assert t.runs[|s.runs|] in t.runs && NewForJob(c, t.runs[|s.runs|]);
    forall a, b | a in t.runs && b in t.runs && NewForJob(c, a) && NewForJob(c, b) ensures a.id == b.id {
      if a.id < s.nextId {
        var q := OldFiring(s, t, c, a);
      }
      if b.id < s.nextId {
        var q := OldFiring(s, t, c, b);
      }
    }
  }

  // --------------------------------------------------------------------- scan

  lemma PremisesSurvive(s: Service, t: Service, c: Scene, settled: set<nat>)
    requires Ground(s, c, settled) && Benign(s, t, c, settled)
    ensures WellPosed(c, s) ==> WellPosed(c, t)
    ensures Missing(s, c, settled) ==> Missing(t, c, settled)
  {
    forall r | r in t.runs && r.id in c.upstreams ensures exists q :: q in s.runs && SameIdentity(q, r) {
      var q := OldRecord(s, t, r);
    }
  }

  /** Evaluation of any number of other candidates. */
  lemma {:induction false} OthersEvaluated(s: Service, c: Scene, settled: set<nat>, completed: seq<string>, order: seq<string>)
    requires Stage(s, c, settled) && WellPosed(c, s) && c.job.name !in order
    requires forall j :: j in c.w.jobs && Awaits(j, completed) ==> j.name !in c.job.passed
    ensures var t := EvaluateAll(s, c.w, completed, order);
            && Stage(t, c, settled) && WellPosed(c, t)
            && (HasFired(s, c) <==> HasFired(t, c))
            && (Missing(s, c, settled) ==> Missing(t, c, settled))
    decreases |order|
  {
    if order != [] {
      var job := JobNamed(c.w.jobs, order[0], completed);
      CandidatesAre(c.w.jobs, completed);
      var t := if job.Some? then Evaluate(s, c.w, job.value) else s;
      if job.Some? {
        OtherEvaluation(s, c, settled, job.value);
        if t != s {
          UnrelatedKeepsStage(s, t, c, settled);
          PremisesSurvive(s, t, c, settled);
        }
      }
      OthersEvaluated(t, c, settled, completed, order[1..]);
    }
  }

  lemma {:induction false} EvaluateAllSplit(s: Service, w: Workflow, completed: seq<string>, a: seq<string>, b: seq<string>)
    ensures EvaluateAll(s, w, completed, a + b) == EvaluateAll(EvaluateAll(s, w, completed, a), w, completed, b)
    decreases |a|
  {
    if a == [] {
      assert a + b == b;
    } else {
      assert (a + b)[1..] == a[1..] + b && (a + b)[0] == a[0];
      var job := JobNamed(w.jobs, a[0], completed);
      EvaluateAllSplit(if job.Some? then Evaluate(s, w, job.value) else s, w, completed, a[1..], b);
    }
  }

  lemma CandidateOfUpstream(s: Service, c: Scene, settled: set<nat>, run: Run)
    requires Ground(s, c, settled) && WellPosed(c, s) && run in s.runs && run.id in c.upstreams
    ensures CompletedJobs(run, c.w) == run.jobs
    ensures JobNamed(c.w.jobs, c.job.name, run.jobs) == Some(c.job)
    ensures forall j :: j in c.w.jobs && Awaits(j, run.jobs) ==> j.name !in c.job.passed
  {
    assert UpstreamOk(s, c, run);
    CandidatesAre(c.w.jobs, run.jobs);
    assert Awaits(c.job, run.jobs);
  }

  /** A scan in three parts: the candidates before the downstream, the downstream, the rest. */
  lemma ScanInThree(s: Service, w: Workflow, job: Job, completed: seq<string>, before: seq<string>, after: seq<string>)
    requires JobNamed(w.jobs, job.name, completed) == Some(job)
    ensures EvaluateAll(s, w, completed, before + [job.name] + after) ==
            EvaluateAll(Evaluate(EvaluateAll(s, w, completed, before), w, job), w, completed, after)
  {
    EvaluateAllSplit(s, w, completed, before, [job.name] + after);
    assert ([job.name] + after)[1..] == after;
    assert before + [job.name] + after == before + ([job.name] + after);
  }

  lemma ThreeParts(s: Service, c: Scene, settled: set<nat>, completed: seq<string>, before: seq<string>, after: seq<string>)
    requires Stage(s, c, settled) && WellPosed(c, s)
    requires c.job.name !in before && c.job.name !in after
    requires forall j :: j in c.w.jobs && Awaits(j, completed) ==> j.name !in c.job.passed
    requires HasFired(s, c) || CanAccept(EvaluateAll(s, c.w, completed, before))
    ensures var t := EvaluateAll(Evaluate(EvaluateAll(s, c.w, completed, before), c.w, c.job), c.w, completed, after);
            && Stage(t, c, settled) && WellPosed(c, t)
            && (HasFired(s, c) ==> HasFired(t, c))
            && (HasFired(t, c) || Missing(t, c, settled))
  {
    var s1 := EvaluateAll(s, c.w, completed, before);
    var s2 := Evaluate(s1, c.w, c.job);
    OthersEvaluated(s, c, settled, completed, before);
    OwnEvaluation(s1, c, settled);
    if s2 != s1 {
      PremisesSurvive(s1, s2, c, settled);
    }
    OthersEvaluated(s2, c, settled, completed, after);
  }

  /** One scan for a settled upstream run, in any visiting order that has room for the
      downstream when its turn comes, if it has not fired yet. */
  lemma ScanFiresOnce(s: Service, c: Scene, settled: set<nat>, run: Run, before: seq<string>, after: seq<string>)
    requires Stage(s, c, settled) && WellPosed(c, s)
    requires run in s.runs && run.id in c.upstreams
    requires c.job.name !in before && c.job.name !in after
    requires HasFired(s, c) || CanAccept(EvaluateAll(s, c.w, CompletedJobs(run, c.w), before))
    ensures var t := Scan(s, c.w, run, before + [c.job.name] + after);
            && Stage(t, c, settled) && WellPosed(c, t)
            && (HasFired(s, c) ==> HasFired(t, c))
            && (HasFired(t, c) || Missing(t, c, settled))
  {
    CandidateOfUpstream(s, c, settled, run);
    ScanInThree(s, c.w, c.job, run.jobs, before, after);
    ThreeParts(s, c, settled, run.jobs, before, after);
  }

  // ------------------------------------------------------------ interleavings

  datatype FanStep =
    | Commit(id: nat)
    | ScanUnderLock(id: nat, before: seq<string>, after: seq<string>)
    | Retention(pipeline: string, keep: set<nat>)
    | Environment(next: Service)

  function Settled(x: Completions): set<nat> {
    set id | id in x.phase && x.phase[id] != Executing
  }

  function RecordWith(runs: seq<Run>, id: nat): Option<Run> {
    if runs == [] then None
    else if runs[|runs| - 1].id == id then Some(runs[|runs| - 1])
    else RecordWith(runs[..|runs| - 1], id)
  }

  /** Retention spares the completing upstream runs and their downstream run. */
  ghost predicate SparesScene(s: Service, c: Scene, pipeline: string, keep: set<nat>) {
    forall r :: r in s.runs && r.pipeline == pipeline && InScene(c, r) ==> r.id in keep
  }

  /** An upstream commits its success on a record that is still active; a settled one
      scans, alone, with room for the downstream unless it has fired; retention, with which every completion
      ends, spares the scene; anything unrelated may happen. */
  ghost predicate FanEnabled(x: Completions, c: Scene, step: FanStep) {
    match step
    case Commit(id) =>
      && id in x.phase && x.phase[id] == Executing
      && RecordWith(x.service.runs, id).Some? && RecordWith(x.service.runs, id).value.status.IsActive()
    case ScanUnderLock(id, before, after) =>
      && id in x.phase && x.phase[id] == Committed
      && RecordWith(x.service.runs, id).Some?
      && c.job.name !in before && c.job.name !in after
      && (HasFired(x.service, c)
          || CanAccept(EvaluateAll(x.service, c.w, CompletedJobs(RecordWith(x.service.runs, id).value, c.w), before)))
    case Retention(pipeline, keep) => SparesScene(x.service, c, pipeline, keep)
    case Environment(next) => Unrelated(x.service, next, c, Settled(x))
  }

  function FanApply(x: Completions, c: Scene, step: FanStep): Completions {
    match step
    case Commit(id) =>
      Completions(SetStatus(x.service, id, Success, NoReason), x.phase[id := Committed])
    case ScanUnderLock(id, before, after) =>
      var run := RecordWith(x.service.runs, id);
      Completions(if run.Some? then Scan(x.service, c.w, run.value, before + [c.job.name] + after) else x.service,
                  x.phase[id := Scanned])
    case Retention(pipeline, keep) => x.(service := Prune(x.service, pipeline, keep))
    case Environment(next) => x.(service := next)
  }

  function FanRun(x: Completions, c: Scene, steps: seq<FanStep>): Completions
    decreases |steps|
  {
    if steps == [] then x else FanRun(FanApply(x, c, steps[0]), c, steps[1..])
  }

  ghost predicate FanHistory(x: Completions, c: Scene, steps: seq<FanStep>)
    decreases |steps|
  {
    steps == [] || (FanEnabled(x, c, steps[0]) && FanHistory(FanApply(x, c, steps[0]), c, steps[1..]))
  }

  /** Every upstream name is the target of one of the completing runs. */
  ghost predicate Covered(s: Service, c: Scene) {
    forall u :: u in c.job.passed ==> exists r :: r in s.runs && r.id in c.upstreams && u in r.jobs
  }

  /** Between steps: the stage holds, and until the job has fired either an upstream
      name is uncovered or a committed upstream has yet to scan. */
  ghost predicate FanInvariant(x: Completions, c: Scene) {
    && x.phase.Keys == c.upstreams && Covered(x.service, c)
    && Stage(x.service, c, Settled(x)) && WellPosed(c, x.service)
    && Awaiting(x, c)
  }

  ghost predicate Awaiting(x: Completions, c: Scene) {
    HasFired(x.service, c) || Missing(x.service, c, Settled(x)) || exists id :: id in x.phase && x.phase[id] == Committed
  }

  lemma {:induction false} RecordWithIs(runs: seq<Run>, id: nat)
    ensures match RecordWith(runs, id)
            case None => forall r :: r in runs ==> r.id != id
            case Some(r) => r in runs && r.id == id
  {
    if runs != [] {
      assert runs == runs[..|runs| - 1] + [runs[|runs| - 1]];
      RecordWithIs(runs[..|runs| - 1], id);
    }
  }

  lemma CommitRecord(s: Service, id: nat, q: Run, r: Run)
    requires Ordered(s.runs, s.nextId, s.clock)
    requires q in s.runs && r in SetStatus(s, id, Success, NoReason).runs && q.id == r.id
    ensures r == if q.id == id then Moved(q, Success, NoReason) else q
  {
    var t := SetStatus(s, id, Success, NoReason);
    var k :| 0 <= k < |s.runs| && s.runs[k] == q;
    var m :| 0 <= m < |t.runs| && t.runs[m] == r;
    assert t.runs[m].id == s.runs[m].id;
    assert k == m;
  }

  lemma CommitStatuses(s: Service, id: nat)
    requires Ordered(s.runs, s.nextId, s.clock)
    ensures var t := SetStatus(s, id, Success, NoReason);
            && (forall r :: r in t.runs ==> r.id < s.nextId)
            && forall q, r :: q in s.runs && r in t.runs && q.id == r.id ==>
                 (q.id != id ==> r.status == q.status) && (!q.status.IsActive() ==> !r.status.IsActive())
  {
    var t := SetStatus(s, id, Success, NoReason);
    forall k | 0 <= k < |t.runs| ensures t.runs[k].id < s.nextId {
      assert t.runs[k].id == s.runs[k].id;
    }
    forall q, r | q in s.runs && r in t.runs && q.id == r.id
      ensures (q.id != id ==> r.status == q.status) && (!q.status.IsActive() ==> !r.status.IsActive())
    {
      CommitRecord(s, id, q, r);
    }
  }

  lemma CommitIsUnrelated(s: Service, c: Scene, settled: set<nat>, id: nat)
    requires Ordered(s.runs, s.nextId, s.clock) && id !in settled
    ensures Unrelated(s, SetStatus(s, id, Success, NoReason), c, settled)
  {
    StatusesEvolve(s, SetStatus(s, id, Success, NoReason));
    CommitStatuses(s, id);
  }

  lemma CommitSettles(s: Service, id: nat)
    requires Ordered(s.runs, s.nextId, s.clock)
    requires RecordWith(s.runs, id).Some? && RecordWith(s.runs, id).value.status.IsActive()
    ensures forall r :: r in SetStatus(s, id, Success, NoReason).runs && r.id == id ==> r.status.Success?
  {
    RecordWithIs(s.runs, id);
    forall r | r in SetStatus(s, id, Success, NoReason).runs && r.id == id ensures r.status.Success? {
      CommitRecord(s, id, RecordWith(s.runs, id).value, r);
    }
  }

  lemma CommitStage(s: Service, c: Scene, settled: set<nat>, id: nat)
    requires Stage(s, c, settled) && WellPosed(c, s) && Covered(s, c)
    requires id in c.upstreams && id !in settled
    requires RecordWith(s.runs, id).Some? && RecordWith(s.runs, id).value.status.IsActive()
    ensures var t := SetStatus(s, id, Success, NoReason);
            Stage(t, c, settled + {id}) && WellPosed(c, t) && Covered(t, c)
  {
    var t := SetStatus(s, id, Success, NoReason);
    CommitIsUnrelated(s, c, settled, id);
    UnrelatedKeepsStage(s, t, c, settled);
    PremisesSurvive(s, t, c, settled);
    CommitSettles(s, id);
    SettleOne(t, c, settled, id);
  }

  lemma SettleOne(t: Service, c: Scene, settled: set<nat>, id: nat)
    requires Ground(t, c, settled) && id in c.upstreams
    requires forall r :: r in t.runs && r.id == id ==> r.status.Success?
    ensures Ground(t, c, settled + {id})
  {
  }

  lemma CommitKeepsInvariant(x: Completions, c: Scene, id: nat)
    requires FanInvariant(x, c) && FanEnabled(x, c, Commit(id))
    ensures FanInvariant(FanApply(x, c, Commit(id)), c)
  {
    var y := FanApply(x, c, Commit(id));
    assert Settled(y) == Settled(x) + {id};
    assert id in y.phase && y.phase[id] == Committed;
    CommitStage(x.service, c, Settled(x), id);
  }

  lemma ScanStage(s: Service, c: Scene, settled: set<nat>, id: nat, before: seq<string>, after: seq<string>)
    requires Stage(s, c, settled) && WellPosed(c, s) && Covered(s, c)
    requires id in c.upstreams && RecordWith(s.runs, id).Some?
    requires c.job.name !in before && c.job.name !in after
    requires HasFired(s, c) || CanAccept(EvaluateAll(s, c.w, CompletedJobs(RecordWith(s.runs, id).value, c.w), before))
    ensures var t := Scan(s, c.w, RecordWith(s.runs, id).value, before + [c.job.name] + after);
            Stage(t, c, settled) && WellPosed(c, t) && Covered(t, c) && (HasFired(t, c) || Missing(t, c, settled))
  {
    RecordWithIs(s.runs, id);
    ScanFiresOnce(s, c, settled, RecordWith(s.runs, id).value, before, after);
    ScanCovers(s, c, RecordWith(s.runs, id).value, before + [c.job.name] + after);
  }

  lemma ScanKeepsInvariant(x: Completions, c: Scene, id: nat, before: seq<string>, after: seq<string>)
    requires FanInvariant(x, c) && FanEnabled(x, c, ScanUnderLock(id, before, after))
    ensures FanInvariant(FanApply(x, c, ScanUnderLock(id, before, after)), c)
  {
    var y := FanApply(x, c, ScanUnderLock(id, before, after));
    assert Settled(y) == Settled(x);
    ScanStage(x.service, c, Settled(x), id, before, after);
  }

  /** A scan removes no record. */
  lemma ScanCovers(s: Service, c: Scene, run: Run, order: seq<string>)
    requires Ordered(s.runs, s.nextId, s.clock) && Covered(s, c)
    ensures Covered(Scan(s, c.w, run, order), c)
  {
    EvaluationsCover(s, c, CompletedJobs(run, c.w), order);
  }

  lemma {:induction false} EvaluationsCover(s: Service, c: Scene, completed: seq<string>, order: seq<string>)
    requires Ordered(s.runs, s.nextId, s.clock) && Covered(s, c)
    ensures Covered(EvaluateAll(s, c.w, completed, order), c)
    decreases |order|
  {
    if order != [] {
      var job := JobNamed(c.w.jobs, order[0], completed);
      var t := if job.Some? then Evaluate(s, c.w, job.value) else s;
      if job.Some? && Firing(s, c.w, job.value).Some? {
        var step := FiringStep(c.w, job.value, Firing(s, c.w, job.value).value);
        AdmissionAppends(s, step);
        AppendEvolves(s, step, t);
      }
      EvaluationsCover(t, c, completed, order[1..]);
    }
  }

  lemma SceneStaysCovered(s: Service, t: Service, c: Scene)
    requires Covered(s, c) && KeepsScene(s, t, c)
    ensures Covered(t, c)
  {
    forall u | u in c.job.passed ensures exists r :: r in t.runs && r.id in c.upstreams && u in r.jobs {
      var q :| q in s.runs && q.id in c.upstreams && u in q.jobs;
      assert InScene(c, q);
      var r :| r in t.runs && SameIdentity(q, r);
    }
  }

  lemma EnvironmentStage(s: Service, next: Service, c: Scene, settled: set<nat>)
    requires Stage(s, c, settled) && WellPosed(c, s) && Covered(s, c) && Unrelated(s, next, c, settled)
    ensures Stage(next, c, settled) && WellPosed(c, next) && Covered(next, c)
    ensures HasFired(s, c) || Missing(s, c, settled) ==> HasFired(next, c) || Missing(next, c, settled)
  {
    UnrelatedKeepsStage(s, next, c, settled);
    PremisesSurvive(s, next, c, settled);
    SceneStaysCovered(s, next, c);
  }

  lemma EnvironmentKeepsInvariant(x: Completions, c: Scene, next: Service)
    requires FanInvariant(x, c) && FanEnabled(x, c, Environment(next))
    ensures FanInvariant(FanApply(x, c, Environment(next)), c)
  {
    var y := FanApply(x, c, Environment(next));
    EnvironmentStage(x.service, next, c, Settled(x));
    assert Settled(y) == Settled(x);
    assert y.phase == x.phase;
  }

  lemma PruneIsUnrelated(s: Service, c: Scene, settled: set<nat>, pipeline: string, keep: set<nat>)
    requires Ordered(s.runs, s.nextId, s.clock) && SparesScene(s, c, pipeline, keep)
    ensures Unrelated(s, Prune(s, pipeline, keep), c, settled)
  {
    var t := Prune(s, pipeline, keep);
    StepEvolves(s, Delete(pipeline, keep));
    FilterMembers((r: Run) => r.pipeline != pipeline || r.id in keep, s.runs);
    forall q, r | q in s.runs && r in t.runs && q.id == r.id ensures q == r {
      SameIdSameRecord(s, q, r);
    }
  }

  lemma SameIdSameRecord(s: Service, q: Run, r: Run)
    requires Ordered(s.runs, s.nextId, s.clock) && q in s.runs && r in s.runs && q.id == r.id
    ensures q == r
  {
    var k :| 0 <= k < |s.runs| && s.runs[k] == q;
    var m :| 0 <= m < |s.runs| && s.runs[m] == r;
    assert k == m;
  }

  /** Retention by count spares the scene once it keeps an upstream run that is the oldest
      of them and splits no second: what it deletes is older than all it keeps. */
  lemma CountRetentionSpares(s: Service, c: Scene, keep: set<nat>, oldest: Run)
    requires Ordered(s.runs, s.nextId, s.clock) && (forall id :: id in c.upstreams ==> id < c.firstNew)
    requires NewestKept(s.runs, c.w.pipeline.id, keep) && NoTieSplit(s.runs, c.w.pipeline.id, keep)
    requires oldest in s.runs && oldest.pipeline == c.w.pipeline.id && oldest.id in keep && oldest.id in c.upstreams
    requires forall r :: r in s.runs && r.id in c.upstreams ==> oldest.id <= r.id
    ensures SparesScene(s, c, c.w.pipeline.id, keep)
  {
    forall r | r in s.runs && r.pipeline == c.w.pipeline.id && InScene(c, r) ensures r.id in keep {
      var k :| 0 <= k < |s.runs| && s.runs[k] == oldest;
      var m :| 0 <= m < |s.runs| && s.runs[m] == r;
      assert k <= m;
      assert r.id !in keep ==> KeptOverDeleted(c.w.pipeline.id, keep, oldest, r);
    }
  }

  lemma RetentionKeepsInvariant(x: Completions, c: Scene, pipeline: string, keep: set<nat>)
    requires FanInvariant(x, c) && FanEnabled(x, c, Retention(pipeline, keep))
    ensures FanInvariant(FanApply(x, c, Retention(pipeline, keep)), c)
  {
    var next := Prune(x.service, pipeline, keep);
    PruneIsUnrelated(x.service, c, Settled(x), pipeline, keep);
    assert FanApply(x, c, Retention(pipeline, keep)) == FanApply(x, c, Environment(next));
    EnvironmentKeepsInvariant(x, c, next);
  }

  lemma {:induction false} FanKeepsInvariant(x: Completions, c: Scene, steps: seq<FanStep>)
    requires FanInvariant(x, c) && FanHistory(x, c, steps)
    ensures FanInvariant(FanRun(x, c, steps), c)
    decreases |steps|
  {
    if steps != [] {
      match steps[0] {
        case Commit(id) => CommitKeepsInvariant(x, c, id);
        case ScanUnderLock(id, before, after) => ScanKeepsInvariant(x, c, id, before, after);
        case Retention(pipeline, keep) => RetentionKeepsInvariant(x, c, pipeline, keep);
        case Environment(next) => EnvironmentKeepsInvariant(x, c, next);
      }
      FanKeepsInvariant(FanApply(x, c, steps[0]), c, steps[1..]);
    }
  }

  function Begin(s: Service, c: Scene): Completions {
    Completions(s, map id | id in c.upstreams :: Executing)
  }

  lemma BeginsWell(s: Service, c: Scene)
    requires Stage(s, c, {}) && WellPosed(c, s) && Covered(s, c)
    ensures FanInvariant(Begin(s, c), c)
  {
    var x := Begin(s, c);
    assert c.job.passed[0] in c.job.passed;
    assert Missing(s, c, {});
    BeginKeys(s, c);
  }

  lemma BeginKeys(s: Service, c: Scene)
    ensures Begin(s, c).phase.Keys == c.upstreams && Settled(Begin(s, c)) == {}
  {
  }

  /** However the completions interleave, once every upstream has committed and scanned
      there is exactly one new run of the downstream. */
  lemma ExactlyOneDownstreamRun(s: Service, c: Scene, steps: seq<FanStep>)
    requires Stage(s, c, {}) && WellPosed(c, s) && Covered(s, c)
    requires FanHistory(Begin(s, c), c, steps)
    requires forall id :: id in FanRun(Begin(s, c), c, steps).phase ==> FanRun(Begin(s, c), c, steps).phase[id] == Scanned
    ensures var runs := FanRun(Begin(s, c), c, steps).service.runs;
            exists r :: r in runs && NewForJob(c, r) && forall q :: q in runs && NewForJob(c, q) ==> q.id == r.id
  {
    BeginsWell(s, c);
    FanKeepsInvariant(Begin(s, c), c, steps);
    var y := FanRun(Begin(s, c), c, steps);
    assert FiredAtMostOnce(y.service, c);
    assert Settled(y) == c.upstreams;
  }
}
