/** Where the lineage law ends: creation times have whole seconds, and retention by
    count may keep one and delete another run of one second. What such a deletion makes
    usable again, and a history from the empty store that uses one upstream run twice. */
module PassedTies {
  import opened Runs
  import opened Admission
  import opened GroupSafety
  import opened PassedTriggers
  import opened StoreHistory
  import opened PassedLineage
  import opened PassedEdges

  /** A kept run that the downstream's runs had made unusable is fresh again after
      retention by count exactly when every run of the downstream created since was
      deleted; all of them then date from the second of the kept run itself. */
  lemma CountRetentionRevives(s: Service, pipeline: string, keep: set<nat>, job: string, u: Run)
    requires Ordered(s.runs, s.nextId, s.clock) && NewestKept(s.runs, pipeline, keep) && job != ""
    requires u in s.runs && u.pipeline == pipeline && u.id in keep
    requires !CreatedAfter(u, Since(s.runs, pipeline, job))
    ensures var t := Prune(s, pipeline, keep);
            u in t.runs &&
            (CreatedAfter(u, Since(t.runs, pipeline, job)) <==>
             forall d :: d in s.runs && Targets(d, pipeline, job) && d.created >= u.created ==>
               d.created == u.created && d.id !in keep)
  {
    var t := Prune(s, pipeline, keep);
    FilterMembers((r: Run) => r.pipeline != pipeline || r.id in keep, s.runs);
    StepEvolves(s, Delete(pipeline, keep));
    SinceBounds(t.runs, t.nextId, t.clock, pipeline, job);
    LatestIsLatest((r: Run) => Targets(r, pipeline, job), t.runs);
    forall d | d in s.runs && Targets(d, pipeline, job) && d.id !in keep ensures d.created <= u.created {
      assert KeptOverDeleted(pipeline, keep, u, d);
    }
  }

  // ----------------------------------------------------- histories with count retention

  /** As `Legal`, but for deletions, which may be any that retention by count makes. */
  ghost predicate LegalByCount(x: World, step: WorldStep) {
    match step
    case Other(inner) =>
      && Enabled(x.service, inner)
      && (inner.Triggered? ==> !inner.trigger.PassedTrigger?)
      && (inner.Delete? ==> NewestKept(x.service.runs, inner.pipeline, inner.keep))
    case ScanFor(w, _, _) => Named(w)
  }

  /** The steps are allowed one after the other and lead from `x` to `y`. */
  ghost predicate Path<W, S>(allowed: (W, S) -> bool, next: (W, S) -> W, x: W, steps: seq<S>, y: W)
    decreases |steps|
  {
    if steps == [] then x == y else allowed(x, steps[0]) && Path(allowed, next, next(x, steps[0]), steps[1..], y)
  }

  lemma {:induction false} PathsJoin<W, S>(allowed: (W, S) -> bool, next: (W, S) -> W, x: W, a: seq<S>, y: W, b: seq<S>, z: W)
    requires Path(allowed, next, x, a, y) && Path(allowed, next, y, b, z)
    ensures Path(allowed, next, x, a + b, z)
    decreases |a|
  {
    if a == [] {
      assert a + b == b;
    } else {
      assert (a + b)[0] == a[0] && (a + b)[1..] == a[1..] + b;
      PathsJoin(allowed, next, next(x, a[0]), a[1..], y, b, z);
    }
  }

  ghost predicate Leads(x: World, steps: seq<WorldStep>, y: World) {
    Path(LegalByCount, Advance, x, steps, y)
  }

  lemma LeadsOn(x: World, a: seq<WorldStep>, y: World, b: seq<WorldStep>, z: World)
    requires Leads(x, a, y) && Leads(y, b, z)
    ensures Leads(x, a + b, z)
  {
    PathsJoin(LegalByCount, Advance, x, a, y, b, z);
  }

  lemma {:induction false} LeadsRuns(x: World, steps: seq<WorldStep>, y: World)
    requires Leads(x, steps, y)
    ensures RunWorld(x, steps) == y
    decreases |steps|
  {
    if steps != [] {
      LeadsRuns(Advance(x, steps[0]), steps[1..], y);
    }
  }

  lemma OneStep(x: World, step: WorldStep)
    requires LegalByCount(x, step)
    ensures Leads(x, [step], Advance(x, step))
  {
  }

  // ------------------------------------------------------------------- the history

  const PIPE := Pipeline("p", Unlimited, false, false)

  const SHIP := Job("ship", ["build", "tests"])

  function Release(): Workflow {
    Workflow(PIPE, [Job("build", []), Job("tests", []), SHIP], _ => Ok(""))
  }

  function Done(id: nat, job: string, created: nat): Run {
    Run(id, "p", Success, Manual, [job], [], "", NoReason, created)
  }

  function Shipped(id: nat, upstream: seq<nat>, created: nat): Run {
    Run(id, "p", Success, PassedTrigger, ["ship"], upstream, "", NoReason, created)
  }

  /** A quiet service with room for a run. */
  predicate Idle(s: Service) {
    s.inFlight == 0 < s.maxInFlight && s.executing == {} && s.cancelled == {} &&
    forall i :: 0 <= i < |s.runs| ==> s.runs[i].id < s.nextId
  }

  function With(s: Service, r: Run): Service { s.(runs := s.runs + [r], nextId := s.nextId + 1) }

  /** A triggered run starts; when it has succeeded the service is idle again. */
  lemma TriggerThenEnd(s: Service, trigger: TriggerType, input: TriggerInput)
    requires Idle(s)
    ensures var t := Trigger(s, PIPE, trigger, input);
            && s.nextId in t.executing
            && Finish(t, s.nextId, Success, NoReason) ==
               With(s, Run(s.nextId, "p", Success, trigger, input.jobs, input.upstream, "", NoReason, s.clock))
  {
    var r := Run(s.nextId, "p", Success, trigger, input.jobs, input.upstream, "", NoReason, s.clock);
    var u := Finish(Trigger(s, PIPE, trigger, input), s.nextId, Success, NoReason);
    assert u.runs == s.runs + [r];
    assert u.executing == {} && u.cancelled == {};
  }

  function Succeeds(s: Service, job: string): seq<WorldStep> {
    [Other(Triggered(PIPE, Manual, TriggerInput([job], [], Ok("")))), Other(End(s.nextId, Success, NoReason))]
  }

  lemma JobSucceeds(x: World, job: string)
    requires Idle(x.service)
    ensures Leads(x, Succeeds(x.service, job), x.(service := With(x.service, Done(x.service.nextId, job, x.service.clock))))
  {
    var input := TriggerInput([job], [], Ok(""));
    TriggerThenEnd(x.service, Manual, input);
    var steps := Succeeds(x.service, job);
    var y := Advance(x, steps[0]);
    OneStep(x, steps[0]);
    OneStep(y, steps[1]);
    LeadsOn(x, [steps[0]], y, [steps[1]], Advance(y, steps[1]));
    assert steps == [steps[0]] + [steps[1]];
  }

  /** The scan for a finished "build" or "tests" run evaluates "ship". */
  lemma ScanEvaluatesShip(x: World, run: Run)
    requires run.jobs == ["build"] || run.jobs == ["tests"]
    ensures Advance(x, ScanFor(Release(), run, ["ship"])) == EvaluateLogged(x, Release(), SHIP)
  {
    var jobs := Release().jobs;
    CandidatesAre(jobs, run.jobs);
    assert SHIP.passed[0] == "build" && SHIP.passed[1] == "tests" && run.jobs[0] in run.jobs && run.jobs[0] in SHIP.passed;
    assert jobs[2] == SHIP && Awaits(SHIP, run.jobs);
    assert "ship" in Candidates(jobs, run.jobs);
    assert JobNamed(jobs, "ship", run.jobs) == Some(SHIP);
    assert ["ship"][1..] == [];
  }

  lemma Releases(x: World, run: Run, upstream: seq<Run>)
    requires Idle(x.service) && (run.jobs == ["build"] || run.jobs == ["tests"])
    requires Firing(x.service, Release(), SHIP) == Some(upstream)
    ensures var s := x.service;
            Leads(x, [ScanFor(Release(), run, ["ship"]), Other(End(s.nextId, Success, NoReason))],
                  World(With(s, Shipped(s.nextId, Ids(upstream), s.clock)),
                        x.fired + [Fired(s.nextId, "p", "ship", upstream, s.clock)]))
  {
    var scan, end := ScanFor(Release(), run, ["ship"]), Other(End(x.service.nextId, Success, NoReason));
    ScanEvaluatesShip(x, run);
    TriggerThenEnd(x.service, PassedTrigger, PassedInput(Release(), SHIP, upstream));
    var y := Advance(x, scan);
    OneStep(x, scan);
    OneStep(y, end);
    LeadsOn(x, [scan], y, [end], Advance(y, end));
    assert [scan] + [end] == [scan, end];
  }

  /** A store without runs of "ship" whose last "build" and "tests" successes are `b` and `t`. */
  lemma ShipFires(s: Service, b: Run, t: Run)
    requires Idle(s) && (forall r :: r in s.runs ==> !Targets(r, "p", "ship"))
    requires Latest((r: Run) => Targets(r, "p", "build") && r.status.Success? && CreatedAfter(r, None), s.runs) == Some(b)
    requires Latest((r: Run) => Targets(r, "p", "tests") && r.status.Success? && CreatedAfter(r, None), s.runs) == Some(t)
    ensures Firing(s, Release(), SHIP) == Some([b, t])
  {
    LatestNone((r: Run) => Targets(r, "p", "ship"), s.runs);
    var none: Option<nat> := None;
    assert SHIP.passed[1..] == ["tests"] && SHIP.passed[1..][1..] == [];
    assert FreshUpstreams(s.runs, "p", SHIP.passed[1..][1..], none) == Some([]);
    assert FreshUpstreams(s.runs, "p", SHIP.passed[1..], none) == Some([t] + []);
    assert FreshUpstreams(s.runs, "p", SHIP.passed, none) == Some([b] + ([t] + []));
    assert [b] + ([t] + []) == [b, t];
  }

  lemma {:induction false} LatestNone(p: Run -> bool, runs: seq<Run>)
    requires forall r :: r in runs ==> !p(r)
    ensures Latest(p, runs) == None
    decreases |runs|
  {
    if runs != [] {
      LatestNone(p, runs[..|runs| - 1]);
    }
  }

  lemma ShipWaits(s: Service)
    requires forall r :: r in s.runs ==> !Targets(r, "p", "ship") && !Targets(r, "p", "tests")
    ensures Firing(s, Release(), SHIP) == None
  {
    var since := Since(s.runs, "p", "ship");
    LatestNone((r: Run) => Targets(r, "p", "tests") && r.status.Success? && CreatedAfter(r, since), s.runs);
    assert SHIP.passed[1..] == ["tests"];
    assert FreshUpstreams(s.runs, "p", SHIP.passed[1..], since) == None;
  }

  function At(maxInFlight: nat, clock: nat, nextId: nat, runs: seq<Run>): Service {
    Fresh(maxInFlight, 0).(clock := clock, nextId := nextId, runs := runs)
  }

  function Build(): Run { Done(0, "build", 0) }

  function Tests(): Run { Done(1, "tests", 0) }

  /** Second 0: "build" succeeds, which does not yet fire "ship". */
  function FirstBuild(maxInFlight: nat): seq<WorldStep> {
    Succeeds(Fresh(maxInFlight, 0), "build") + [ScanFor(Release(), Build(), ["ship"])]
  }

  /** Second 0: "tests" succeeds, which fires "ship"; that succeeds and fires nothing. */
  function FirstShip(maxInFlight: nat): seq<WorldStep> {
    Succeeds(At(maxInFlight, 0, 1, [Build()]), "tests")
    + [ScanFor(Release(), Tests(), ["ship"]), Other(End(2, Success, NoReason))]
    + [ScanFor(Release(), Shipped(2, [0, 1], 0), [])]
  }

  /** Retention keeps two of the three runs of second 0, and the second passes. */
  function Retained(): seq<WorldStep> { [Other(Delete("p", {0, 1})), Other(Elapse(1))] }

  /** "build" succeeds again, which fires "ship". */
  function SecondShip(maxInFlight: nat): seq<WorldStep> {
    Succeeds(At(maxInFlight, 1, 3, [Build(), Tests()]), "build")
    + [ScanFor(Release(), Done(3, "build", 1), ["ship"]), Other(End(4, Success, NoReason))]
  }

  function ShipOf(build: Run, id: nat, created: nat): Fired {
    Fired(id, "p", "ship", [build, Tests()], created)
  }

  lemma ScanWaits(x: World)
    requires x.service.runs == [Build()]
    ensures Leads(x, [ScanFor(Release(), Build(), ["ship"])], x)
  {
    ScanEvaluatesShip(x, Build());
    ShipWaits(x.service);
    OneStep(x, ScanFor(Release(), Build(), ["ship"]));
  }

  lemma FirstBuildLeads(maxInFlight: nat)
    requires maxInFlight > 0
    ensures Leads(World(Fresh(maxInFlight, 0), []), FirstBuild(maxInFlight), World(At(maxInFlight, 0, 1, [Build()]), []))
  {
    var x0 := World(Fresh(maxInFlight, 0), []);
    var x1 := World(At(maxInFlight, 0, 1, [Build()]), []);
    JobSucceeds(x0, "build");
    assert [] + [Build()] == [Build()];
    ScanWaits(x1);
    LeadsOn(x0, Succeeds(x0.service, "build"), x1, [ScanFor(Release(), Build(), ["ship"])], x1);
  }

  lemma BothFire(maxInFlight: nat)
    requires maxInFlight > 0
    ensures Firing(At(maxInFlight, 0, 2, [Build(), Tests()]), Release(), SHIP) == Some([Build(), Tests()])
  {
    assert [Build(), Tests()][..1] == [Build()];
    ShipFires(At(maxInFlight, 0, 2, [Build(), Tests()]), Build(), Tests());
  }

  lemma ShippedStore(maxInFlight: nat)
    ensures Ids([Build(), Tests()]) == [0, 1]
    ensures With(At(maxInFlight, 0, 2, [Build(), Tests()]), Shipped(2, [0, 1], 0)) ==
            At(maxInFlight, 0, 3, [Build(), Tests(), Shipped(2, [0, 1], 0)])
    ensures [] + [ShipOf(Build(), 2, 0)] == [ShipOf(Build(), 2, 0)]
  {
    assert [Build(), Tests()] + [Shipped(2, [0, 1], 0)] == [Build(), Tests(), Shipped(2, [0, 1], 0)];
  }

  /** "tests" has succeeded: the scan for it fires "ship". */
  lemma ShipsFirst(maxInFlight: nat)
    requires maxInFlight > 0
    ensures Leads(World(At(maxInFlight, 0, 2, [Build(), Tests()]), []),
                  [ScanFor(Release(), Tests(), ["ship"]), Other(End(2, Success, NoReason))],
                  World(At(maxInFlight, 0, 3, [Build(), Tests(), Shipped(2, [0, 1], 0)]), [ShipOf(Build(), 2, 0)]))
  {
    var x2 := World(At(maxInFlight, 0, 2, [Build(), Tests()]), []);
    BothFire(maxInFlight);
    Releases(x2, Tests(), [Build(), Tests()]);
    ShippedStore(maxInFlight);
  }

  lemma TestsSucceed(maxInFlight: nat)
    requires maxInFlight > 0
    ensures Leads(World(At(maxInFlight, 0, 1, [Build()]), []), Succeeds(At(maxInFlight, 0, 1, [Build()]), "tests"),
                  World(At(maxInFlight, 0, 2, [Build(), Tests()]), []))
  {
    JobSucceeds(World(At(maxInFlight, 0, 1, [Build()]), []), "tests");
    assert [Build()] + [Tests()] == [Build(), Tests()];
  }

  lemma FirstShipLeads(maxInFlight: nat)
    requires maxInFlight > 0
    ensures Leads(World(At(maxInFlight, 0, 1, [Build()]), []), FirstShip(maxInFlight),
                  World(At(maxInFlight, 0, 3, [Build(), Tests(), Shipped(2, [0, 1], 0)]), [ShipOf(Build(), 2, 0)]))
  {
    var x1 := World(At(maxInFlight, 0, 1, [Build()]), []);
    var x2 := World(At(maxInFlight, 0, 2, [Build(), Tests()]), []);
    var x3 := World(At(maxInFlight, 0, 3, [Build(), Tests(), Shipped(2, [0, 1], 0)]), [ShipOf(Build(), 2, 0)]);
    var fires := [ScanFor(Release(), Tests(), ["ship"]), Other(End(2, Success, NoReason))];
    TestsSucceed(maxInFlight);
    ShipsFirst(maxInFlight);
    LeadsOn(x1, Succeeds(x1.service, "tests"), x2, fires, x3);
    OneStep(x3, ScanFor(Release(), Shipped(2, [0, 1], 0), []));
    LeadsOn(x1, Succeeds(x1.service, "tests") + fires, x3, [ScanFor(Release(), Shipped(2, [0, 1], 0), [])], x3);
  }

  lemma TieIsSplit(s: Service)
    requires s.runs == [Build(), Tests(), Shipped(2, [0, 1], 0)]
    ensures Prune(s, "p", {0, 1}) == s.(runs := [Build(), Tests()])
    ensures NewestKept(s.runs, "p", {0, 1}) && !AtInstant(s, "p", {0, 1})
  {
    var pipeline, keep := "p", {0, 1};
    var kept := (r: Run) => r.pipeline != pipeline || r.id in keep;
    var b, t, d := Build(), Tests(), Shipped(2, [0, 1], 0);
    assert [b, t, d][1..] == [t, d] && [t, d][1..] == [d] && [d][1..] == [];
    assert Filter(kept, [d]) == [];
    assert Filter(kept, [t, d]) == [t] + Filter(kept, [d]) == [t];
    assert Filter(kept, [b, t, d]) == [b] + Filter(kept, [t, d]) == [b, t];
    assert s.runs[0] == b && s.runs[2] == d && b in s.runs && d in s.runs;
    forall instant: nat ensures !KeepsFrom(s.runs, "p", {0, 1}, instant) {}
  }

  lemma RetainedLeads(s: Service, fired: seq<Fired>)
    requires s.runs == [Build(), Tests(), Shipped(2, [0, 1], 0)] && s.clock == 0
    ensures Leads(World(s, fired), Retained(), World(s.(runs := [Build(), Tests()], clock := 1), fired))
  {
    TieIsSplit(s);
    var x := World(s, fired);
    var y := Advance(x, Retained()[0]);
    OneStep(x, Retained()[0]);
    OneStep(y, Retained()[1]);
    LeadsOn(x, [Retained()[0]], y, [Retained()[1]], Advance(y, Retained()[1]));
    assert Retained() == [Retained()[0]] + [Retained()[1]];
  }

  lemma SecondShipLeads(maxInFlight: nat, fired: seq<Fired>) returns (y: World)
    requires maxInFlight > 0
    ensures Leads(World(At(maxInFlight, 1, 3, [Build(), Tests()]), fired), SecondShip(maxInFlight), y)
    ensures y.fired == fired + [ShipOf(Done(3, "build", 1), 4, 1)]
  {
    var b := Done(3, "build", 1);
    var x := World(At(maxInFlight, 1, 3, [Build(), Tests()]), fired);
    var x1 := World(At(maxInFlight, 1, 4, [Build(), Tests(), b]), fired);
    JobSucceeds(x, "build");
    assert [Build(), Tests()] + [b] == [Build(), Tests(), b];
    assert [Build(), Tests(), b][..2] == [Build(), Tests()];
    ShipFires(x1.service, b, Tests());
    Releases(x1, b, [b, Tests()]);
    y := World(With(x1.service, Shipped(4, Ids([b, Tests()]), 1)), fired + [ShipOf(b, 4, 1)]);
    LeadsOn(x, Succeeds(x.service, "build"), x1, [ScanFor(Release(), b, ["ship"]), Other(End(4, Success, NoReason))], y);
  }

  /** From the empty store, with nothing illegal but a retention by count that splits a
      second: "ship" fires twice, both times credited to the one run of "tests". */
  lemma TieSplitUsesUpstreamTwice(maxInFlight: nat)
    requires maxInFlight > 0
    ensures var x := World(Fresh(maxInFlight, 0), []);
            var steps := FirstBuild(maxInFlight) + FirstShip(maxInFlight) + Retained() + SecondShip(maxInFlight);
            var fired := RunWorld(x, steps).fired;
            && Leads(x, steps, RunWorld(x, steps))
            && !AtInstant(RunWorld(x, FirstBuild(maxInFlight) + FirstShip(maxInFlight)).service, "p", {0, 1})
            && |fired| == 2 && SameTarget(fired[0], fired[1]) && fired[0].id != fired[1].id
            && Tests() in fired[0].upstream && Tests() in fired[1].upstream
  {
    var x := World(Fresh(maxInFlight, 0), []);
    var x1 := World(At(maxInFlight, 0, 1, [Build()]), []);
    var x3 := World(At(maxInFlight, 0, 3, [Build(), Tests(), Shipped(2, [0, 1], 0)]), [ShipOf(Build(), 2, 0)]);
    var x4 := World(At(maxInFlight, 1, 3, [Build(), Tests()]), x3.fired);
    FirstBuildLeads(maxInFlight);
    FirstShipLeads(maxInFlight);
    RetainedLeads(x3.service, x3.fired);
    var y := SecondShipLeads(maxInFlight, x3.fired);
    LeadsOn(x, FirstBuild(maxInFlight), x1, FirstShip(maxInFlight), x3);
    LeadsRuns(x, FirstBuild(maxInFlight) + FirstShip(maxInFlight), x3);
    TieIsSplit(x3.service);
    LeadsOn(x, FirstBuild(maxInFlight) + FirstShip(maxInFlight), x3, Retained(), x4);
    LeadsOn(x, FirstBuild(maxInFlight) + FirstShip(maxInFlight) + Retained(), x4, SecondShip(maxInFlight), y);
    LeadsRuns(x, FirstBuild(maxInFlight) + FirstShip(maxInFlight) + Retained() + SecondShip(maxInFlight), y);
    assert ShipOf(Build(), 2, 0).upstream[1] == Tests() && ShipOf(Done(3, "build", 1), 4, 1).upstream[1] == Tests();
  }
}
