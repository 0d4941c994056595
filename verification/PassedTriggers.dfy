/** The triggers.passed completion scanner of server/execution_passed.go, as
    transitions on a service value, with the run queries of storage/storage.go that
    it depends on. */
module PassedTriggers {
  import opened Runs
  import opened Admission

  /** The part of a job's configuration the scanner reads; `passed` is empty when the
      job has no triggers.passed. */
  datatype Job = Job(name: string, passed: seq<string>)

  /** A pipeline, its jobs, and the group key its template renders for a run that
      targets one job. */
  datatype Workflow = Workflow(pipeline: Pipeline, jobs: seq<Job>, render: string -> Result<string>)

  predicate Targets(r: Run, pipeline: string, job: string) {
    r.pipeline == pipeline && job in r.jobs
  }

  // ------------------------------------------------------------------ queries

  /** The last record of a store that satisfies `p`; with records in creation order,
      one with the greatest creation time. */
  function Latest(p: Run -> bool, runs: seq<Run>): Option<Run> {
    if runs == [] then None
    else if p(runs[|runs| - 1]) then Some(runs[|runs| - 1])
    else Latest(p, runs[..|runs| - 1])
  }

  /** GetMostRecentJobRun; the empty job name never matches. */
  function MostRecentJobRun(runs: seq<Run>, pipeline: string, job: string): Option<Run> {
    if job == "" then None else Latest((r: Run) => Targets(r, pipeline, job), runs)
  }

  predicate CreatedAfter(r: Run, since: Option<nat>) { since.Some? ==> r.created > since.value }

  /** GetSuccessfulJobRunSince. Only runs that name the job explicitly count. */
  function SuccessfulJobRunSince(runs: seq<Run>, pipeline: string, job: string, since: Option<nat>): Option<Run> {
    if job == "" then None
    else Latest((r: Run) => Targets(r, pipeline, job) && r.status.Success? && CreatedAfter(r, since), runs)
  }

  /** The successful upstream runs, one per name, or None when one is missing. */
  function FreshUpstreams(runs: seq<Run>, pipeline: string, passed: seq<string>, since: Option<nat>): Option<seq<Run>> {
    if passed == [] then Some([])
    else
      match SuccessfulJobRunSince(runs, pipeline, passed[0], since)
      case None => None
      case Some(r) =>
        match FreshUpstreams(runs, pipeline, passed[1..], since)
        case None => None
        case Some(rest) => Some([r] + rest)
  }

  // ------------------------------------------------------------------ scanner

  predicate Pending(runs: seq<Run>, pipeline: string, job: string) {
    exists r :: r in runs && Targets(r, pipeline, job) && r.status.IsActive()
  }

  function Since(runs: seq<Run>, pipeline: string, job: string): Option<nat> {
    match MostRecentJobRun(runs, pipeline, job)
    case None => None
    case Some(r) => Some(r.created)
  }

  /** The upstream runs that would fire the job now; None while one is pending, an
      upstream is not fresh, or nothing can be accepted. */
  function Firing(s: Service, w: Workflow, job: Job): Option<seq<Run>> {
    if Pending(s.runs, w.pipeline.id, job.name) then None
    else
      var found := FreshUpstreams(s.runs, w.pipeline.id, job.passed, Since(s.runs, w.pipeline.id, job.name));
      if found.None? || !CanAccept(s) then None else found
  }

  function Ids(runs: seq<Run>): seq<nat> {
    seq(|runs|, i requires 0 <= i < |runs| => runs[i].id)
  }

  function PassedInput(w: Workflow, job: Job, upstream: seq<Run>): TriggerInput {
    TriggerInput([job.name], Ids(upstream), w.render(job.name))
  }

  /** evaluatePassedDownstream. */
  function Evaluate(s: Service, w: Workflow, job: Job): Service {
    match Firing(s, w, job)
    case None => s
    case Some(upstream) => Trigger(s, w.pipeline, PassedTrigger, PassedInput(w, job, upstream))
  }

  function CompletedJobs(run: Run, w: Workflow): seq<string> {
    if |run.jobs| > 0 then run.jobs else seq(|w.jobs|, i requires 0 <= i < |w.jobs| => w.jobs[i].name)
  }

  predicate Awaits(job: Job, completed: seq<string>) {
    exists u :: u in job.passed && u in completed
  }

  /** One entry per occurrence of `upstream` among the job's triggers.passed. */
  function Copies(job: Job, passed: seq<string>, upstream: string): seq<Job> {
    if passed == [] then []
    else
      Copies(job, passed[..|passed| - 1], upstream) + if passed[|passed| - 1] == upstream then [job] else []
  }

  /** What buildPassedDependents stores under one upstream name. */
  function DependentsOf(jobs: seq<Job>, upstream: string): seq<Job> {
    if jobs == [] then []
    else
      var last := jobs[|jobs| - 1];
      DependentsOf(jobs[..|jobs| - 1], upstream) + Copies(last, last.passed, upstream)
  }

  function AddAll(candidates: map<string, Job>, found: seq<Job>): map<string, Job> {
    if found == [] then candidates
    else
      var last := found[|found| - 1];
      AddAll(candidates, found[..|found| - 1])[last.name := last]
  }

  /** The jobs one scan evaluates, by name; of several jobs with one name the one met
      last is evaluated. */
  function Candidates(jobs: seq<Job>, completed: seq<string>): map<string, Job> {
    if completed == [] then map[]
    else AddAll(Candidates(jobs, completed[..|completed| - 1]), DependentsOf(jobs, completed[|completed| - 1]))
  }

  function JobNamed(jobs: seq<Job>, name: string, completed: seq<string>): Option<Job> {
    var candidates := Candidates(jobs, completed);
    if name in candidates then Some(candidates[name]) else None
  }

  function EvaluateAll(s: Service, w: Workflow, completed: seq<string>, order: seq<string>): Service
    decreases |order|
  {
    if order == [] then s
    else
      var job := JobNamed(w.jobs, order[0], completed);
      EvaluateAll(if job.Some? then Evaluate(s, w, job.value) else s, w, completed, order[1..])
  }

  /** One scan for a completed run. Candidates are visited in map order, that is, in
      any order; `order` is the one taken. */
  function Scan(s: Service, w: Workflow, run: Run, order: seq<string>): Service {
    EvaluateAll(s, w, CompletedJobs(run, w), order)
  }

  /** A legal visiting order: every candidate once. */
  ghost predicate VisitsCandidates(w: Workflow, run: Run, order: seq<string>) {
    && (forall i, j :: 0 <= i < j < |order| ==> order[i] != order[j])
    && (forall name :: name in order <==> JobNamed(w.jobs, name, CompletedJobs(run, w)).Some?)
  }

  // --------------------------------------------------------------- candidates

  lemma {:induction false} CopiesAre(job: Job, passed: seq<string>, upstream: string)
    ensures forall j :: j in Copies(job, passed, upstream) <==> j == job && upstream in passed
  {
    if passed != [] {
      CopiesAre(job, passed[..|passed| - 1], upstream);
      assert passed == passed[..|passed| - 1] + [passed[|passed| - 1]];
    }
  }

  lemma {:induction false} DependentsAre(jobs: seq<Job>, upstream: string)
    ensures forall j :: j in DependentsOf(jobs, upstream) <==> j in jobs && upstream in j.passed
  {
    if jobs != [] {
      var last := jobs[|jobs| - 1];
      DependentsAre(jobs[..|jobs| - 1], upstream);
      CopiesAre(last, last.passed, upstream);
      assert jobs == jobs[..|jobs| - 1] + [last];
    }
  }

  lemma {:induction false} AddAllIs(candidates: map<string, Job>, found: seq<Job>)
    ensures var c := AddAll(candidates, found);
            && (forall j :: j in found ==> j.name in c)
            && (forall name :: name in candidates ==> name in c)
            && forall name :: name in c ==>
                 (c[name] in found && c[name].name == name) || (name in candidates && c[name] == candidates[name])
  {
    if found != [] {
      AddAllIs(candidates, found[..|found| - 1]);
      assert found == found[..|found| - 1] + [found[|found| - 1]];
    }
  }

  ghost predicate CandidatesRight(c: map<string, Job>, jobs: seq<Job>, completed: seq<string>) {
    && (forall name :: name in c ==> c[name] in jobs && c[name].name == name && Awaits(c[name], completed))
    && forall j :: j in jobs && Awaits(j, completed) ==> j.name in c
  }

  lemma AddAllRight(c: map<string, Job>, jobs: seq<Job>, completed: seq<string>, last: string)
    requires CandidatesRight(c, jobs, completed)
    ensures CandidatesRight(AddAll(c, DependentsOf(jobs, last)), jobs, completed + [last])
  {
    var found := DependentsOf(jobs, last);
    DependentsAre(jobs, last);
    AddAllIs(c, found);
    forall j | j in jobs ensures Awaits(j, completed + [last]) <==> Awaits(j, completed) || last in j.passed {
    }
  }

  /** Every candidate is a job that awaits a completed one, under its own name, and the
      name of every such job is a candidate. */
  lemma {:induction false} CandidatesAre(jobs: seq<Job>, completed: seq<string>)
    ensures CandidatesRight(Candidates(jobs, completed), jobs, completed)
  {
    if completed != [] {
      var last := completed[|completed| - 1];
      var prior := completed[..|completed| - 1];
      CandidatesAre(jobs, prior);
      AddAllRight(Candidates(jobs, prior), jobs, prior, last);
      assert completed == prior + [last];
    }
  }

  lemma CandidateIsJob(jobs: seq<Job>, name: string, completed: seq<string>)
    requires JobNamed(jobs, name, completed).Some?
    ensures JobNamed(jobs, name, completed).value in jobs
  {
    CandidatesAre(jobs, completed);
    assert Candidates(jobs, completed)[name] in jobs;
    var k :| 0 <= k < |jobs| && jobs[k] == Candidates(jobs, completed)[name];
    assert jobs[k] == JobNamed(jobs, name, completed).value;
  }
}
