/** When the scanner fires, and the edges of its lineage law: retention that splits
    runs created in the same second. */
module PassedEdges {
  import opened Runs
  import opened Admission
  import opened GroupInvariant
  import opened AdmissionEffects
  import opened GroupSafety
  import opened GroupHistories
  import opened PassedTriggers
  import opened StoreHistory
  import opened PassedLineage

  /** A successful run that names the upstream job and was created after every run that
      names the downstream job. */
  ghost predicate HasFreshSuccess(runs: seq<Run>, pipeline: string, upstream: string, job: string) {
    exists r :: r in runs && Targets(r, pipeline, upstream) && r.status.Success? &&
      forall d :: d in runs && Targets(d, pipeline, job) ==> d.created < r.created
  }

  /** A downstream job fires exactly when none of its runs is queued or running, every
      named upstream has a fresh success, and the service can accept a run. */
  lemma FiresExactlyWhenSatisfied(s: Service, w: Workflow, job: Job)
    requires Ordered(s.runs, s.nextId, s.clock)
    requires job.name != "" && forall u :: u in job.passed ==> u != ""
    ensures Firing(s, w, job).Some? <==>
              && CanAccept(s)
              && (forall r :: r in s.runs && Targets(r, w.pipeline.id, job.name) ==> !r.status.IsActive())
              && forall u :: u in job.passed ==> HasFreshSuccess(s.runs, w.pipeline.id, u, job.name)
  {
    var id := w.pipeline.id;
    var since := Since(s.runs, id, job.name);
    LatestIsLatest((r: Run) => Targets(r, id, job.name), s.runs);
    FreshUpstreamsAre(s.runs, s.nextId, s.clock, id, job.passed, since);
    var found := FreshUpstreams(s.runs, id, job.passed, since);
    forall r | r in s.runs
      ensures CreatedAfter(r, since) <==> forall d :: d in s.runs && Targets(d, id, job.name) ==> d.created < r.created
    {
      if since.Some? && !CreatedAfter(r, since) {
        var d := MostRecentJobRun(s.runs, id, job.name).value;
        assert d in s.runs && Targets(d, id, job.name) && d.created >= r.created;
      }
    }
    if found.Some? {
      forall u | u in job.passed ensures HasFreshSuccess(s.runs, id, u, job.name) {
        var k :| 0 <= k < |job.passed| && job.passed[k] == u;
        assert found.value[k] in s.runs && CreatedAfter(found.value[k], since);
      }
    } else {
      var k :| 0 <= k < |job.passed| && (job.passed[k] == "" ||
        forall r :: r in s.runs && Targets(r, id, job.passed[k]) && r.status.Success? ==> !CreatedAfter(r, since));
      assert job.passed[k] in job.passed;
    }
  }

  /** Scanning again at once fires nothing: a run just created is the reference, and
      no upstream run is younger. */
  lemma RescanFiresNothing(s: Service, w: Workflow, job: Job)
    requires Ordered(s.runs, s.nextId, s.clock) && job.name != "" && job.passed != []
    ensures Firing(Evaluate(s, w, job), w, job).None?
  {
    if Firing(s, w, job).Some? {
      var upstream := Firing(s, w, job).value;
      var step := FiringStep(w, job, upstream);
      var t := Evaluate(s, w, job);
      AdmissionAppends(s, step);
      AppendEvolves(s, step, t);
      var r := t.runs[|s.runs|];
      assert r in t.runs && Targets(r, w.pipeline.id, job.name) && r.created == t.clock;
      SinceBounds(t.runs, t.nextId, t.clock, w.pipeline.id, job.name);
      FreshUpstreamsAre(t.runs, t.nextId, t.clock, w.pipeline.id, job.passed, Since(t.runs, w.pipeline.id, job.name));
    }
  }

  // ---------------------------------------------------------------- retention

  predicate KeptOverDeleted(pipeline: string, keep: set<nat>, a: Run, b: Run) {
    a.pipeline == pipeline && b.pipeline == pipeline && a.id in keep && b.id !in keep
  }

  /** The runs that ORDER BY created_at DESC LIMIT n keeps: as young as any deleted one. */
  ghost predicate NewestKept(runs: seq<Run>, pipeline: string, keep: set<nat>) {
    forall a, b :: a in runs && b in runs && KeptOverDeleted(pipeline, keep, a, b) ==> b.created <= a.created
  }

  ghost predicate NoTieSplit(runs: seq<Run>, pipeline: string, keep: set<nat>) {
    forall a, b :: a in runs && b in runs && KeptOverDeleted(pipeline, keep, a, b) ==> b.created != a.created
  }

  /** The oldest kept run of the pipeline. */
  lemma {:induction false} OldestKept(runs: seq<Run>, pipeline: string, keep: set<nat>) returns (oldest: Run)
    requires forall i, j :: 0 <= i < j < |runs| ==> runs[i].created <= runs[j].created
    requires exists r :: r in runs && r.pipeline == pipeline && r.id in keep
    ensures oldest in runs && oldest.pipeline == pipeline && oldest.id in keep
    ensures forall r :: r in runs && r.pipeline == pipeline && r.id in keep ==> oldest.created <= r.created
  {
    if runs[0].pipeline == pipeline && runs[0].id in keep {
      oldest := runs[0];
    } else {
      assert runs == [runs[0]] + runs[1..];
      oldest := OldestKept(runs[1..], pipeline, keep);
    }
  }

  /** Retention by count keeps the lineage law's premise exactly when it does not keep
      one and delete another of two runs created in the same second. */
  lemma CountRetentionExact(s: Service, pipeline: string, keep: set<nat>)
    requires Ordered(s.runs, s.nextId, s.clock) && NewestKept(s.runs, pipeline, keep)
    requires exists r :: r in s.runs && r.pipeline == pipeline && r.id in keep
    ensures AtInstant(s, pipeline, keep) <==> NoTieSplit(s.runs, pipeline, keep)
  {
    if NoTieSplit(s.runs, pipeline, keep) {
      var oldest := OldestKept(s.runs, pipeline, keep);
      assert KeepsFrom(s.runs, pipeline, keep, oldest.created);
    }
  }

  /** Retention by age is always at an instant. */
  lemma AgeRetentionIsAtInstant(s: Service, pipeline: string, keep: set<nat>, cutoff: nat)
    requires cutoff <= s.clock
    requires forall r :: r in s.runs && r.pipeline == pipeline ==> (r.id in keep <==> r.created >= cutoff)
    ensures AtInstant(s, pipeline, keep)
  {
    assert KeepsFrom(s.runs, pipeline, keep, cutoff);
  }
}
