/** The input/output wiring check of backwards/pipeline.go: the outputs of a plan are
    collected into one mutable set, step by step and through nested steps, and every
    inline input is looked up in it. */
module Wiring {
  import opened Runs

  datatype TaskConfig = TaskConfig(inputs: seq<string>, outputs: seq<string>)

  /** The fields of a step the check reads; `try_` holds nested steps it never visits. */
  datatype Step = Step(
    get: string,
    put: string,
    task: string,
    agent: string,
    config: Option<TaskConfig>,
    file: string,
    uri: string,
    promptFile: string,
    do_: seq<Step>,
    inParallel: seq<Step>,
    try_: seq<Step>)

  datatype Job = Job(name: string, plan: seq<Step>)

  datatype WiringError = MissingInput(step: string, job: string, input: string)

  // ------------------------------------------------------- what one step says

  function Listed(names: seq<string>): set<string> { set n | n in names }

  function OwnOutputs(step: Step): set<string> {
    var declared := if step.config.Some? then Listed(step.config.value.outputs) else {};
    if step.get != "" then {step.get}
    else if step.put != "" then {step.put}
    else if step.task != "" then declared
    else if step.agent != "" then
      if step.config.Some? && |step.config.value.outputs| > 0 then declared else {step.agent}
    else {}
  }

  function StepName(step: Step): string { if step.task != "" then step.task else step.agent }

  /** The inputs the check looks at: none when the configuration comes from a file. */
  function CheckedInputs(step: Step): seq<string> {
    if StepName(step) != "" && step.config.Some? && step.file == "" && step.uri == "" && step.promptFile == ""
    then step.config.value.inputs else []
  }

  // ----------------------------------------------------------- nested steps

  /** A step and everything nested in it through do and in_parallel, in pre-order. */
  function Nodes(step: Step): seq<Step>
    decreases step
  {
    [step] + NodesOf(step.do_) + NodesOf(step.inParallel)
  }

  function NodesOf(steps: seq<Step>): seq<Step>
    decreases steps
  {
    if steps == [] then [] else NodesOf(steps[..|steps| - 1]) + Nodes(steps[|steps| - 1])
  }

  function OutputsOf(nodes: seq<Step>): set<string> { set t, o | t in nodes && o in OwnOutputs(t) :: o }

  function Missing(step: Step, inputs: seq<string>, available: set<string>, job: string): seq<WiringError> {
    if inputs == [] then []
    else
      var last := inputs[|inputs| - 1];
      Missing(step, inputs[..|inputs| - 1], available, job)
      + if last in available then [] else [MissingInput(StepName(step), job, last)]
  }

  function FlatMap<A, B>(f: A -> seq<B>, s: seq<A>): seq<B> {
    if s == [] then [] else FlatMap(f, s[..|s| - 1]) + f(s[|s| - 1])
  }

  lemma FlatMapSnoc<A, B>(f: A -> seq<B>, s: seq<A>, x: A)
    ensures FlatMap(f, s + [x]) == FlatMap(f, s) + f(x)
  {
    assert (s + [x])[..|s|] == s;
  }

  lemma AppendAssociates<A>(a: seq<A>, b: seq<A>, c: seq<A>)
    ensures (a + b) + c == a + (b + c)
  {
  }

  lemma FlatMapOne<A, B>(f: A -> seq<B>, x: A)
    ensures FlatMap(f, [x]) == f(x)
  {
    FlatMapSnoc(f, [], x);
    assert [] + [x] == [x];
  }

  lemma {:induction false} FlatMapAppend<A, B>(f: A -> seq<B>, a: seq<A>, b: seq<A>)
    ensures FlatMap(f, a + b) == FlatMap(f, a) + FlatMap(f, b)
    decreases |b|
  {
    if b == [] {
      assert a + b == a;
    } else {
      var c, x := b[..|b| - 1], b[|b| - 1];
      FlatMapAppend(f, a, c);
      FlatMapSnoc(f, a + c, x);
      AppendAssociates(a, c, [x]);
      assert c + [x] == b;
      AppendAssociates(FlatMap(f, a), FlatMap(f, c), f(x));
    }
  }

  function MissingIn(available: set<string>, job: string): Step -> seq<WiringError> {
    (t: Step) => Missing(t, CheckedInputs(t), available, job)
  }

  function Violations(nodes: seq<Step>, available: set<string>, job: string): seq<WiringError> {
    FlatMap(MissingIn(available, job), nodes)
  }

  // ------------------------------------------------------------------ methods

  class Available {
    var names: set<string>

    constructor ()
      ensures names == {}
    {
      names := {};
    }

    method AddAll(outputs: seq<string>)
      modifies this
      ensures names == old(names) + Listed(outputs)
    {
      for i := 0 to |outputs|
        invariant names == old(names) + Listed(outputs[..i])
      {
        assert outputs[..i + 1] == outputs[..i] + [outputs[i]];
        names := names + {outputs[i]};
      }
      assert outputs[..|outputs|] == outputs;
    }

    /** The switch of collectStepOutputs. */
    method CollectOwn(step: Step)
      modifies this
      ensures names == old(names) + OwnOutputs(step)
      ensures forall x :: x in names <==> x in old(names) || Provides(step, x)
    {
      if step.get != "" {
        names := names + {step.get};
      } else if step.put != "" {
        names := names + {step.put};
      } else if step.task != "" {
        if step.config.Some? {
          AddAll(step.config.value.outputs);
        }
      } else if step.agent != "" {
        if step.config.Some? && |step.config.value.outputs| > 0 {
          AddAll(step.config.value.outputs);
        } else {
          names := names + {step.agent};
        }
      }
    }

    method CollectStepOutputs(step: Step)
      modifies this
      ensures names == old(names) + Outputs(step)
      ensures forall x :: x in names <==> x in old(names) || exists u :: u in Nodes(step) && Provides(u, x)
      decreases step
    {
      CollectOwn(step);
      CollectNested(step.do_);
      CollectNested(step.inParallel);
      OutputsAreProvided(step);
    }

    method CollectNested(steps: seq<Step>)
      modifies this
      ensures names == old(names) + OutputsOf(NodesOf(steps))
      decreases steps
    {
      for i := 0 to |steps|
        invariant names == old(names) + OutputsOf(NodesOf(steps[..i]))
      {
        assert steps[..i + 1][..i] == steps[..i];
        assert NodesOf(steps[..i + 1]) == NodesOf(steps[..i]) + Nodes(steps[i]);
        CollectStepOutputs(steps[i]);
      }
      assert steps[..|steps|] == steps;
    }

    method CheckOwn(step: Step, job: string) returns (errs: seq<WiringError>)
      ensures errs == Missing(step, CheckedInputs(step), names, job)
    {
      errs := [];
      var stepName := step.task;
      if stepName == "" {
        stepName := step.agent;
      }
      if stepName != "" && step.config.Some? && step.file == "" && step.uri == "" && step.promptFile == "" {
        var inputs := step.config.value.inputs;
        for i := 0 to |inputs|
          invariant errs == Missing(step, inputs[..i], names, job)
        {
          assert inputs[..i + 1][..i] == inputs[..i];
          if inputs[i] !in names {
            errs := errs + [MissingInput(stepName, job, inputs[i])];
          }
        }
        assert inputs[..|inputs|] == inputs;
      }
    }

    method CheckStepInputs(step: Step, job: string) returns (errs: seq<WiringError>)
      ensures errs == Violations(Nodes(step), names, job)
      decreases step
    {
      errs := CheckOwn(step, job);
      var inDo := CheckNested(step.do_, job);
      var inParallel := CheckNested(step.inParallel, job);
      errs := errs + inDo + inParallel;
      FlatMapOne(MissingIn(names, job), step);
      FlatMapAppend(MissingIn(names, job), [step], NodesOf(step.do_));
      FlatMapAppend(MissingIn(names, job), [step] + NodesOf(step.do_), NodesOf(step.inParallel));
    }

    method CheckNested(steps: seq<Step>, job: string) returns (errs: seq<WiringError>)
      ensures errs == Violations(NodesOf(steps), names, job)
      decreases steps
    {
      errs := [];
      for i := 0 to |steps|
        invariant errs == Violations(NodesOf(steps[..i]), names, job)
      {
        assert steps[..i + 1][..i] == steps[..i];
        FlatMapAppend(MissingIn(names, job), NodesOf(steps[..i]), Nodes(steps[i]));
        var nested := CheckStepInputs(steps[i], job);
        errs := errs + nested;
      }
      assert steps[..|steps|] == steps;
    }
  }

  // ----------------------------------------------------- what it decides

  function Outputs(step: Step): set<string> { OutputsOf(Nodes(step)) }

  /** The checked inputs at or below a step. */
  function Needs(step: Step): set<string> { set t, x | t in Nodes(step) && x in CheckedInputs(t) :: x }

  function OutputsPerStep(plan: seq<Step>): seq<set<string>> {
    seq(|plan|, i requires 0 <= i < |plan| => Outputs(plan[i]))
  }

  function UnionOf(sets: seq<set<string>>): set<string> {
    if sets == [] then {} else UnionOf(sets[..|sets| - 1]) + sets[|sets| - 1]
  }

  function AvailableAt(plan: seq<Step>, n: nat): set<string>
    requires n <= |plan|
  {
    UnionOf(OutputsPerStep(plan)[..n])
  }

  predicate StepWired(plan: seq<Step>, i: nat, given: set<string>)
    requires i < |plan|
  {
    Needs(plan[i]) <= given + AvailableAt(plan, i + 1)
  }

  ghost predicate WiredUpTo(plan: seq<Step>, n: nat, given: set<string>) {
    forall i :: 0 <= i < n && i < |plan| ==> StepWired(plan, i, given)
  }

  /** Every checked input at or below a plan step is given, or an output at or below that
      step or an earlier one. */
  ghost predicate WiredFrom(plan: seq<Step>, given: set<string>) { WiredUpTo(plan, |plan|, given) }

  ghost predicate WellWired(plan: seq<Step>) { WiredFrom(plan, {}) }

  lemma {:induction false} UnionIs(sets: seq<set<string>>, x: string)
    ensures x in UnionOf(sets) <==> exists k :: 0 <= k < |sets| && x in sets[k]
    decreases |sets|
  {
    if sets != [] {
      var before := sets[..|sets| - 1];
      UnionIs(before, x);
      assert forall k :: 0 <= k < |before| ==> before[k] == sets[k];
    }
  }

  predicate Produced(plan: seq<Step>, i: nat, input: string) {
    exists k, u :: 0 <= k <= i && k < |plan| && u in Nodes(plan[k]) && input in OwnOutputs(u)
  }

  lemma AvailableIs(plan: seq<Step>, i: nat, input: string)
    requires i < |plan|
    ensures input in AvailableAt(plan, i + 1) <==> Produced(plan, i, input)
  {
    var sets := OutputsPerStep(plan)[..i + 1];
    UnionIs(sets, input);
    assert forall k :: 0 <= k <= i ==> sets[k] == Outputs(plan[k]);
    if Produced(plan, i, input) {
      var k, u :| 0 <= k <= i && k < |plan| && u in Nodes(plan[k]) && input in OwnOutputs(u);
      assert input in sets[k];
    }
  }

  /** Well wired, spelled out through the nodes of the plan. */
  lemma WellWiredMeans(plan: seq<Step>)
    ensures WellWired(plan) <==>
            forall i, t, input :: 0 <= i < |plan| && t in Nodes(plan[i]) && input in CheckedInputs(t) ==> Produced(plan, i, input)
  {
    forall i, input | 0 <= i < |plan| ensures input in AvailableAt(plan, i + 1) <==> Produced(plan, i, input) {
      AvailableIs(plan, i, input);
    }
    if WellWired(plan) {
      forall i, t, input | 0 <= i < |plan| && t in Nodes(plan[i]) && input in CheckedInputs(t) ensures Produced(plan, i, input) {
        assert StepWired(plan, i, {}) && input in Needs(plan[i]);
      }
    }
  }

  /** The names one step provides: a get or put step its own name, a task what its
      configuration declares, an agent the same or, without any, its own name. */
  predicate Provides(u: Step, x: string) {
    || (u.get != "" && x == u.get)
    || (u.get == "" && u.put != "" && x == u.put)
    || (u.get == "" && u.put == "" && u.task != "" && u.config.Some? && x in u.config.value.outputs)
    || (u.get == "" && u.put == "" && u.task == "" && u.agent != ""
        && if u.config.Some? && u.config.value.outputs != [] then x in u.config.value.outputs else x == u.agent)
  }

  lemma OutputsAreProvided(step: Step)
    ensures forall x :: x in Outputs(step) <==> exists u :: u in Nodes(step) && Provides(u, x)
  {
    forall u, x ensures x in OwnOutputs(u) <==> Provides(u, x) {}
  }

  /** A task or agent step with inline configuration, loaded from no file. */
  predicate Checks(t: Step, x: string) {
    && (t.task != "" || t.agent != "") && t.file == "" && t.uri == "" && t.promptFile == ""
    && t.config.Some? && x in t.config.value.inputs
  }

  /** What the check accepts, in the fields of the steps alone. */
  lemma AcceptedMeans(plan: seq<Step>)
    ensures WellWired(plan) <==>
            forall i, t, x :: 0 <= i < |plan| && t in Nodes(plan[i]) && Checks(t, x) ==>
              exists k, u :: 0 <= k <= i && u in Nodes(plan[k]) && Provides(u, x)
  {
    forall t, x ensures x in CheckedInputs(t) <==> Checks(t, x) {}
    forall u, x ensures x in OwnOutputs(u) <==> Provides(u, x) {}
    WellWiredMeans(plan);
    forall i, x | 0 <= i < |plan|
      ensures Produced(plan, i, x) <==> exists k, u :: 0 <= k <= i && u in Nodes(plan[k]) && Provides(u, x)
    {
      if k, u :| 0 <= k <= i && u in Nodes(plan[k]) && Provides(u, x) {
        assert k < |plan| && x in OwnOutputs(u);
      }
    }
  }

  predicate AllIn(inputs: seq<string>, available: set<string>) { forall x :: x in inputs ==> x in available }

  predicate NodesWired(nodes: seq<Step>, available: set<string>) {
    forall t :: t in nodes ==> AllIn(CheckedInputs(t), available)
  }

  /** The error is that of the first missing input, reading nodes in pre-order and each
      node's inputs in order. */
  ghost predicate FirstMissing(nodes: seq<Step>, available: set<string>, job: string, err: WiringError) {
    exists n, k :: 0 <= n < |nodes| && 0 <= k < |CheckedInputs(nodes[n])| && MissingAt(nodes, available, job, err, n, k)
  }

  predicate MissingAt(nodes: seq<Step>, available: set<string>, job: string, err: WiringError, n: nat, k: nat)
    requires n < |nodes| && k < |CheckedInputs(nodes[n])|
  {
    var input := CheckedInputs(nodes[n])[k];
    && input !in available
    && err == MissingInput(if nodes[n].task != "" then nodes[n].task else nodes[n].agent, job, input)
    && NodesWired(nodes[..n], available)
    && AllIn(CheckedInputs(nodes[n])[..k], available)
  }

  lemma {:induction false} MissingIs(step: Step, inputs: seq<string>, available: set<string>, job: string)
    ensures var errs := Missing(step, inputs, available, job);
            && (errs == [] <==> AllIn(inputs, available))
            && (errs != [] ==> exists k :: 0 <= k < |inputs| && inputs[k] !in available && AllIn(inputs[..k], available)
                                           && errs[0] == MissingInput(StepName(step), job, inputs[k]))
    decreases |inputs|
  {
    if inputs != [] {
      var n := |inputs| - 1;
      var before := inputs[..n];
      MissingIs(step, before, available, job);
      assert inputs == before + [inputs[n]];
      var errs := Missing(step, before, available, job);
      if errs != [] {
        var k :| 0 <= k < |before| && before[k] !in available && AllIn(before[..k], available)
                 && errs[0] == MissingInput(StepName(step), job, before[k]);
        assert inputs[..k] == before[..k] && inputs[k] == before[k];
      } else if inputs[n] !in available {
        assert AllIn(inputs[..n], available);
      }
    }
  }

  lemma FirstMissingExtends(before: seq<Step>, t: Step, available: set<string>, job: string, err: WiringError)
    requires FirstMissing(before, available, job, err)
    ensures FirstMissing(before + [t], available, job, err)
  {
    var m, k :| 0 <= m < |before| && 0 <= k < |CheckedInputs(before[m])| && MissingAt(before, available, job, err, m, k);
    var nodes := before + [t];
    assert nodes[..m] == before[..m] && nodes[m] == before[m];
    assert MissingAt(nodes, available, job, err, m, k);
  }

  lemma LastIsFirstMissing(before: seq<Step>, t: Step, available: set<string>, job: string)
    requires NodesWired(before, available)
    ensures var own := Missing(t, CheckedInputs(t), available, job);
            && (own == [] <==> AllIn(CheckedInputs(t), available))
            && (own != [] ==> FirstMissing(before + [t], available, job, own[0]))
  {
    var inputs := CheckedInputs(t);
    var own := Missing(t, inputs, available, job);
    MissingIs(t, inputs, available, job);
    if own != [] {
      var k :| 0 <= k < |inputs| && inputs[k] !in available && AllIn(inputs[..k], available)
               && own[0] == MissingInput(StepName(t), job, inputs[k]);
      var nodes := before + [t];
      assert nodes[..|before|] == before && nodes[|before|] == t;
      assert MissingAt(nodes, available, job, own[0], |before|, k);
    }
  }

  lemma {:induction false} ViolationsAre(nodes: seq<Step>, available: set<string>, job: string)
    ensures var errs := Violations(nodes, available, job);
            && (errs == [] <==> NodesWired(nodes, available))
            && (errs != [] ==> FirstMissing(nodes, available, job, errs[0]))
    decreases |nodes|
  {
    if nodes != [] {
      var n := |nodes| - 1;
      var before := nodes[..n];
      assert nodes == before + [nodes[n]];
      ViolationsAre(before, available, job);
      FlatMapSnoc(MissingIn(available, job), before, nodes[n]);
      var errs := Violations(before, available, job);
      if errs != [] {
        FirstMissingExtends(before, nodes[n], available, job, errs[0]);
      } else {
        LastIsFirstMissing(before, nodes[n], available, job);
      }
    }
  }

  lemma NodesWiredIs(step: Step, available: set<string>)
    ensures NodesWired(Nodes(step), available) <==> Needs(step) <= available
  {
    if Needs(step) <= available {
      forall t | t in Nodes(step) ensures AllIn(CheckedInputs(t), available) {
        assert forall x :: x in CheckedInputs(t) ==> x in Needs(step);
      }
    }
  }

  lemma AvailableNext(plan: seq<Step>, n: nat)
    requires n < |plan|
    ensures AvailableAt(plan, n + 1) == AvailableAt(plan, n) + Outputs(plan[n])
  {
    var sets := OutputsPerStep(plan);
    assert sets[..n + 1][..n] == sets[..n];
  }

  ghost predicate FailsAt(job: Job, err: WiringError, i: nat) {
    && i < |job.plan| && WiredUpTo(job.plan, i, {}) && !StepWired(job.plan, i, {})
    && FirstMissing(Nodes(job.plan[i]), AvailableAt(job.plan, i + 1), job.name, err)
  }

  /** The error is the first of its job: every earlier plan step is wired. */
  ghost predicate FirstOfPlan(job: Job, err: WiringError) { exists i :: FailsAt(job, err, i) }

  lemma StepVerdict(job: Job, i: nat, errs: seq<WiringError>)
    requires i < |job.plan| && WiredUpTo(job.plan, i, {})
    requires errs == Violations(Nodes(job.plan[i]), AvailableAt(job.plan, i + 1), job.name)
    ensures errs == [] ==> WiredUpTo(job.plan, i + 1, {})
    ensures errs != [] ==> FirstOfPlan(job, errs[0]) && !WellWired(job.plan)
  {
    var available := AvailableAt(job.plan, i + 1);
    ViolationsAre(Nodes(job.plan[i]), available, job.name);
    NodesWiredIs(job.plan[i], available);
    assert {} + available == available;
    if errs != [] {
      assert FailsAt(job, errs[0], i);
    }
  }

  method ValidateJob(job: Job) returns (err: Option<WiringError>)
    ensures err.None? <==> WellWired(job.plan)
    ensures err.Some? ==> FirstOfPlan(job, err.value)
  {
    var available := new Available();
    for i := 0 to |job.plan|
      invariant available.names == AvailableAt(job.plan, i)
      invariant WiredUpTo(job.plan, i, {})
    {
      available.CollectStepOutputs(job.plan[i]);
      AvailableNext(job.plan, i);
      var errs := available.CheckStepInputs(job.plan[i], job.name);
      StepVerdict(job, i, errs);
      if |errs| > 0 {
        return Some(errs[0]);
      }
    }
    err := None;
  }

  /** Accepted exactly when every job is well wired; otherwise the error is the first
      one of the first job that is not. */
  method ValidateInputOutputWiring(jobs: seq<Job>) returns (err: Option<WiringError>)
    ensures err.None? <==> forall j :: 0 <= j < |jobs| ==> WellWired(jobs[j].plan)
    ensures err.Some? ==> exists j :: 0 <= j < |jobs| && FirstOfPlan(jobs[j], err.value)
                                      && forall h :: 0 <= h < j ==> WellWired(jobs[h].plan)
  {
    for j := 0 to |jobs|
      invariant forall h :: 0 <= h < j ==> WellWired(jobs[h].plan)
    {
      err := ValidateJob(jobs[j]);
      if err.Some? {
        return;
      }
    }
    err := None;
  }

  // ------------------------------------------------------------- prepending

  lemma {:induction false} UnionAppend(a: seq<set<string>>, b: seq<set<string>>)
    ensures UnionOf(a + b) == UnionOf(a) + UnionOf(b)
    decreases |b|
  {
    if b == [] {
      assert a + b == a;
    } else {
      assert (a + b)[..|a| + |b| - 1] == a + b[..|b| - 1];
      UnionAppend(a, b[..|b| - 1]);
    }
  }

  lemma AvailableAppend(p: seq<Step>, q: seq<Step>, n: nat)
    requires n <= |q|
    ensures AvailableAt(p + q, |p| + n) == AvailableAt(p, |p|) + AvailableAt(q, n)
  {
    var a, b := OutputsPerStep(p), OutputsPerStep(q);
    UnionAppend(a, b[..n]);
    assert OutputsPerStep(p + q)[..|p| + n] == a + b[..n] && a[..|p|] == a;
  }

  lemma AvailablePrefix(p: seq<Step>, q: seq<Step>, n: nat)
    requires n <= |p|
    ensures AvailableAt(p + q, n) == AvailableAt(p, n)
  {
    assert OutputsPerStep(p + q)[..n] == OutputsPerStep(p)[..n];
  }

  /** A plan put before another one is exactly a plan that gives it all its outputs. */
  lemma PrependExact(p: seq<Step>, q: seq<Step>, given: set<string>)
    ensures WiredFrom(p + q, given) <==> WiredFrom(p, given) && WiredFrom(q, given + AvailableAt(p, |p|))
  {
    forall i | 0 <= i < |p| ensures StepWired(p + q, i, given) <==> StepWired(p, i, given) {
      AvailablePrefix(p, q, i + 1);
    }
    forall i | 0 <= i < |q|
      ensures StepWired(p + q, |p| + i, given) <==> StepWired(q, i, given + AvailableAt(p, |p|))
    {
      AvailableAppend(p, q, i + 1);
    }
    if WiredFrom(p + q, given) {
      forall i | 0 <= i < |q| ensures StepWired(q, i, given + AvailableAt(p, |p|)) {
        assert StepWired(p + q, |p| + i, given);
      }
    } else if WiredFrom(p, given) {
      var i :| 0 <= i < |p + q| && !StepWired(p + q, i, given);
      assert |p| + (i - |p|) == i;
      assert !StepWired(q, i - |p|, given + AvailableAt(p, |p|));
    }
  }

  /** Acceptance survives putting accepted steps in front. */
  lemma PrependKeeps(p: seq<Step>, q: seq<Step>)
    requires WellWired(p) && WellWired(q)
    ensures WellWired(p + q)
  {
    PrependExact(p, q, {});
    forall i | 0 <= i < |q| ensures StepWired(q, i, {} + AvailableAt(p, |p|)) {
      assert StepWired(q, i, {});
    }
  }

  // -------------------------------------------------- where it is lenient

  /** What lies at or below a step, as reachability through do and in_parallel only. */
  lemma NodesAre(step: Step, t: Step)
    ensures t in Nodes(step) <==> t == step || exists c :: (c in step.do_ || c in step.inParallel) && t in Nodes(c)
  {
    NodesOfAre(step.do_, t);
    NodesOfAre(step.inParallel, t);
  }

  lemma {:induction false} NodesOfAre(steps: seq<Step>, t: Step)
    ensures t in NodesOf(steps) <==> exists c :: c in steps && t in Nodes(c)
    decreases |steps|
  {
    if steps != [] {
      var n := |steps| - 1;
      NodesOfAre(steps[..n], t);
      assert steps == steps[..n] + [steps[n]];
      assert NodesOf(steps) == NodesOf(steps[..n]) + Nodes(steps[n]);
      assert steps[n] in steps;
      assert forall c :: c in steps <==> c in steps[..n] || c == steps[n];
    }
  }

  const EMPTY := Step("", "", "", "", None, "", "", "", [], [], [])

  function Task(name: string, inputs: seq<string>, outputs: seq<string>): Step {
    EMPTY.(task := name, config := Some(TaskConfig(inputs, outputs)))
  }

  /** The check asks for a prior step, but a step's own outputs satisfy its inputs. */
  lemma OwnOutputSatisfiesInput(name: string, volume: string)
    ensures WellWired([Task(name, [volume], [volume])])
  {
    var step := Task(name, [volume], [volume]);
    if name != "" {
      assert NodesOf([]) == [] && Nodes(step) == [step];
      assert step in Nodes(step) && volume in OwnOutputs(step);
      assert OutputsOf([step]) == {volume};
      assert OutputsPerStep([step])[..1] == [{volume}];
      UnionIs([{volume}], volume);
    } else {
      assert NodesOf([]) == [] && Nodes(step) == [step] && CheckedInputs(step) == [];
    }
  }

  /** Steps nested under try are skipped both ways: their inputs are not checked, and
      their outputs do not count. */
  lemma TryIsSkipped(name: string, volume: string, nested: seq<Step>)
    requires name != ""
    ensures WellWired([EMPTY.(try_ := nested)])
    ensures !WellWired([EMPTY.(try_ := nested), Task(name, [volume], [])])
  {
    var outer := EMPTY.(try_ := nested);
    var step := Task(name, [volume], []);
    assert NodesOf([]) == [];
    assert Nodes(outer) == [outer] && CheckedInputs(outer) == [] && OwnOutputs(outer) == {};
    assert Nodes(step) == [step] && OwnOutputs(step) == {} && volume in CheckedInputs(step);
    var plan := [outer, step];
    assert plan[0] == outer && plan[1] == step;
    assert OutputsOf([outer]) == {} && OutputsOf([step]) == {};
    assert OutputsPerStep(plan)[..2] == [{}, {}] && OutputsPerStep([outer])[..1] == [{}];
    UnionIs([{}, {}], volume);
    assert volume in Needs(plan[1]) && !StepWired(plan, 1, {});
  }
}
