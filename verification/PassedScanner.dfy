/** The scanner's methods (server/execution_passed.go) on an execution service, each
    tied to the functions of PassedTriggers.dfy. The scanner lock makes one scan one
    step, so no lock appears. */
module PassedScanner {
  import opened Runs
  import opened Admission
  import opened PassedTriggers
  import opened ExecutionServices

  method CompletedJobNames(run: Run, w: Workflow) returns (names: seq<string>)
    ensures names == CompletedJobs(run, w)
    ensures if run.jobs != [] then names == run.jobs
            else |names| == |w.jobs| && forall k :: 0 <= k < |names| ==> names[k] == w.jobs[k].name
  {
    if |run.jobs| > 0 {
      return run.jobs;
    }
    names := [];
    for i := 0 to |w.jobs|
      invariant |names| == i
      invariant forall k :: 0 <= k < i ==> names[k] == w.jobs[k].name
    {
      names := names + [w.jobs[i].name];
    }
  }

  function Listed(dependents: map<string, seq<Job>>, upstream: string): seq<Job> {
    if upstream in dependents then dependents[upstream] else []
  }

  lemma CopyNext(prior: seq<Job>, job: Job, k: nat, u: string)
    requires k < |job.passed|
    ensures prior + Copies(job, job.passed[..k], u) + (if u == job.passed[k] then [job] else []) ==
            prior + Copies(job, job.passed[..k + 1], u)
  {
    assert job.passed[..k + 1][..k] == job.passed[..k];
  }

  /** The inner loop: the job is appended under each name of its triggers.passed. */
  method IndexJob(dependents: map<string, seq<Job>>, job: Job) returns (extended: map<string, seq<Job>>)
    ensures forall u :: Listed(extended, u) == Listed(dependents, u) + Copies(job, job.passed, u)
  {
    extended := dependents;
    assert job.passed[..0] == [];
    for k := 0 to |job.passed|
      invariant forall u :: Listed(extended, u) == Listed(dependents, u) + Copies(job, job.passed[..k], u)
    {
      ghost var before := extended;
      extended := extended[job.passed[k] := Listed(extended, job.passed[k]) + [job]];
      forall u ensures Listed(extended, u) == Listed(dependents, u) + Copies(job, job.passed[..k + 1], u) {
        CopyNext(Listed(dependents, u), job, k, u);
        assert Listed(extended, u) == Listed(before, u) + if u == job.passed[k] then [job] else [];
      }
    }
    assert job.passed[..|job.passed|] == job.passed;
  }

  method BuildPassedDependents(w: Workflow) returns (dependents: map<string, seq<Job>>)
    ensures forall u :: Listed(dependents, u) == DependentsOf(w.jobs, u)
  {
    dependents := map[];
    assert w.jobs[..0] == [];
    for i := 0 to |w.jobs|
      invariant forall u :: Listed(dependents, u) == DependentsOf(w.jobs[..i], u)
    {
      assert w.jobs[..i + 1][..i] == w.jobs[..i];
      dependents := IndexJob(dependents, w.jobs[i]);
    }
    assert w.jobs[..|w.jobs|] == w.jobs;
  }

  /** A crash is the dereference of the missing completed run, which only the boot-time
      sweep passes. */
  method FirePassedDownstream(s: ExecutionService, w: Workflow, job: Job, completed: Option<nat>, upstream: seq<Run>)
    returns (crashed: bool)
    modifies s
    ensures crashed <==> completed.None? && old(CanAccept(s.State()))
    ensures s.State() == if completed.Some?
                         then old(Trigger(s.State(), w.pipeline, PassedTrigger, PassedInput(w, job, upstream)))
                         else old(s.State())
  {
    crashed := false;
    var queued := ByStatus(s.runs, Queued);
    if !(s.inFlight < s.maxInFlight || (s.maxQueueSize > 0 && |queued| < s.maxQueueSize)) {
      return;
    }
    if completed.None? {
      return true;
    }
    var _ := s.TriggerPipeline(w.pipeline, PassedTrigger, PassedInput(w, job, upstream));
  }

  /** The coalescing check: a queued or running run that targets the job. */
  method IsPending(s: ExecutionService, pipeline: string, job: string) returns (pending: bool)
    ensures pending == Pending(s.runs, pipeline, job)
  {
    var active := ActiveByPipeline(s.runs, pipeline);
    FilterMembers((r: Run) => r.pipeline == pipeline && r.status.IsActive(), s.runs);
    for i := 0 to |active|
      invariant forall k :: 0 <= k < i ==> job !in active[k].jobs
    {
      if job in active[i].jobs {
        assert active[i] in active;
        assert Targets(active[i], pipeline, job);
        return true;
      }
    }
    forall r | r in s.runs && r.pipeline == pipeline && r.status.IsActive() ensures job !in r.jobs {
      assert r in active;
    }
    pending := false;
  }

  /** The freshness loop: one successful run per upstream, all newer than `since`. */
  method FindFreshUpstreams(s: ExecutionService, pipeline: string, passed: seq<string>, since: Option<nat>)
    returns (found: Option<seq<Run>>)
    ensures found == FreshUpstreams(s.runs, pipeline, passed, since)
  {
    var upstream: seq<Run> := [];
    assert passed[0..] == passed;
    assert forall rest: seq<Run> :: [] + rest == rest;
    for i := 0 to |passed|
      invariant |upstream| == i
      invariant FreshUpstreams(s.runs, pipeline, passed, since) ==
                Prepend(upstream, FreshUpstreams(s.runs, pipeline, passed[i..], since))
    {
      assert passed[i..][1..] == passed[i + 1..];
      PrependNext(upstream, passed[i..], s.runs, pipeline, since);
      var run := SuccessfulJobRunSince(s.runs, pipeline, passed[i], since);
      if run.None? {
        return None;
      }
      upstream := upstream + [run.value];
    }
    assert upstream + [] == upstream;
    found := Some(upstream);
  }

  /** The missing run is dereferenced after every check, so the boot-time sweep crashes
      exactly when the job would have fired. */
  method EvaluatePassedDownstream(s: ExecutionService, w: Workflow, job: Job, completed: Option<nat>)
    returns (crashed: bool)
    modifies s
    ensures crashed <==> completed.None? && old(Firing(s.State(), w, job)).Some?
    ensures s.State() == if completed.Some? then old(Evaluate(s.State(), w, job)) else old(s.State())
  {
    crashed := false;
    var pending := IsPending(s, w.pipeline.id, job.name);
    if pending {
      return;
    }
    var lastRun := MostRecentJobRun(s.runs, w.pipeline.id, job.name);
    var since: Option<nat> := None;
    if lastRun.Some? {
      since := Some(lastRun.value.created);
    }
    assert since == Since(s.runs, w.pipeline.id, job.name);
    var upstream := FindFreshUpstreams(s, w.pipeline.id, job.passed, since);
    if upstream.None? {
      return;
    }
    crashed := FirePassedDownstream(s, w, job, completed, upstream.value);
  }

  function Prepend(a: seq<Run>, rest: Option<seq<Run>>): Option<seq<Run>> {
    if rest.None? then None else Some(a + rest.value)
  }

  lemma PrependNext(found: seq<Run>, passed: seq<string>, runs: seq<Run>, pipeline: string, since: Option<nat>)
    requires passed != []
    ensures var next := SuccessfulJobRunSince(runs, pipeline, passed[0], since);
            Prepend(found, FreshUpstreams(runs, pipeline, passed, since)) ==
            if next.None? then None
            else Prepend(found + [next.value], FreshUpstreams(runs, pipeline, passed[1..], since))
  {
    var next := SuccessfulJobRunSince(runs, pipeline, passed[0], since);
    var rest := FreshUpstreams(runs, pipeline, passed[1..], since);
    if next.Some? && rest.Some? {
      assert found + ([next.value] + rest.value) == found + [next.value] + rest.value;
    }
  }

  method AddCandidates(candidates: map<string, Job>, found: seq<Job>) returns (extended: map<string, Job>)
    ensures extended == AddAll(candidates, found)
  {
    extended := candidates;
    assert found[..0] == [];
    for k := 0 to |found|
      invariant extended == AddAll(candidates, found[..k])
    {
      assert found[..k + 1][..k] == found[..k];
      extended := extended[found[k].name := found[k]];
    }
    assert found[..|found|] == found;
  }

  method CollectCandidates(w: Workflow, completed: seq<string>) returns (candidates: map<string, Job>)
    ensures candidates == Candidates(w.jobs, completed)
  {
    var dependents := BuildPassedDependents(w);
    candidates := map[];
    assert completed[..0] == [];
    for i := 0 to |completed|
      invariant candidates == Candidates(w.jobs, completed[..i])
    {
      assert completed[..i + 1][..i] == completed[..i];
      candidates := AddCandidates(candidates, Listed(dependents, completed[i]));
    }
    assert completed[..|completed|] == completed;
  }

  /** The evaluation loop, in an order of the map's own choosing. */
  method EvaluateCandidates(s: ExecutionService, w: Workflow, completed: seq<string>, candidates: map<string, Job>, run: nat)
    returns (ghost order: seq<string>)
    requires candidates == Candidates(w.jobs, completed)
    modifies s
    ensures forall name :: name in order <==> name in candidates
    ensures forall i, j :: 0 <= i < j < |order| ==> order[i] != order[j]
    ensures s.State() == EvaluateAll(old(s.State()), w, completed, order)
  {
    order := [];
    var remaining := candidates.Keys;
    while remaining != {}
      invariant remaining <= candidates.Keys
      invariant forall name :: name in order <==> name in candidates && name !in remaining
      invariant forall i, j :: 0 <= i < j < |order| ==> order[i] != order[j]
      invariant s.State() == EvaluateAll(old(s.State()), w, completed, order)
      decreases |remaining|
    {
      var name :| name in remaining;
      remaining := remaining - {name};
      EvaluateAllSnoc(old(s.State()), w, completed, order, name);
      var _ := EvaluatePassedDownstream(s, w, candidates[name], Some(run));
      order := order + [name];
    }
  }

  /** One scan: candidates are collected by name, then evaluated. */
  method ScanPassedDownstreams(s: ExecutionService, w: Workflow, paused: bool, run: Run) returns (ghost order: seq<string>)
    modifies s
    ensures paused ==> s.State() == old(s.State())
    ensures !paused ==> VisitsCandidates(w, run, order) && s.State() == Scan(old(s.State()), w, run, order)
  {
    order := [];
    if paused {
      return;
    }
    var completed := CompletedJobNames(run, w);
    var candidates := CollectCandidates(w, completed);
    order := EvaluateCandidates(s, w, completed, candidates, run.id);
  }

  lemma {:induction false} EvaluateAllSnoc(s: Service, w: Workflow, completed: seq<string>, order: seq<string>, name: string)
    ensures EvaluateAll(s, w, completed, order + [name]) ==
            var t := EvaluateAll(s, w, completed, order);
            var job := JobNamed(w.jobs, name, completed);
            if job.Some? then Evaluate(t, w, job.value) else t
    decreases |order|
  {
    if order == [] {
      assert ([name])[1..] == [];
    } else {
      var job := JobNamed(w.jobs, order[0], completed);
      assert (order + [name])[1..] == order[1..] + [name] && (order + [name])[0] == order[0];
      EvaluateAllSnoc(if job.Some? then Evaluate(s, w, job.value) else s, w, completed, order[1..], name);
    }
  }
}
