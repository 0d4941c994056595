/** How far the wiring check of backwards/pipeline.go is from what its comment and its
    message promise: that every input of a task or agent is an output of an earlier step. */
module WiringOrder {
  import opened Runs
  import opened Wiring

  // ------------------------------------------------------------------ order

  /** Every checked input at or below the step that is one of `names` is given, or an
      output of a step that runs before its own: of do an earlier one, of in_parallel none. */
  predicate Prior(step: Step, given: set<string>, names: set<string>)
    decreases step
  {
    && Listed(CheckedInputs(step)) * names <= given
    && PriorInDo(step.do_, given, names)
    && forall c :: c in step.inParallel ==> Prior(c, given, names)
  }

  predicate PriorInDo(steps: seq<Step>, given: set<string>, names: set<string>)
    decreases steps
  {
    steps == [] ||
    var before := steps[..|steps| - 1];
    && PriorInDo(before, given, names)
    && Prior(steps[|steps| - 1], given + OutputsOf(NodesOf(before)), names)
  }

  /** Every checked input of the plan is an output of an earlier step. */
  ghost predicate InOrder(plan: seq<Step>) {
    forall i :: 0 <= i < |plan| ==> Prior(plan[i], AvailableAt(plan, i), Needs(plan[i]))
  }

  /** No step consumes an output that, at or below its plan step, only itself, a later or
      a parallel step produces, and that no earlier plan step does. */
  ghost predicate NothingLate(plan: seq<Step>) {
    forall i :: 0 <= i < |plan| ==> Prior(plan[i], AvailableAt(plan, i), Outputs(plan[i]))
  }

  lemma Below(step: Step, c: Step)
    requires c in step.do_ || c in step.inParallel
    ensures Needs(c) <= Needs(step) && Outputs(c) <= Outputs(step)
  {
    forall t | t in Nodes(c) ensures t in Nodes(step) {
      NodesAre(step, t);
    }
  }

  lemma OwnNeeds(step: Step)
    ensures Listed(CheckedInputs(step)) <= Needs(step)
  {
    NodesAre(step, step);
  }

  /** Only the names that matter matter: those needed, and not given from the start. */
  lemma {:induction false} PriorForFewer(step: Step, given: set<string>, fewer: set<string>, names: set<string>)
    requires Needs(step) * fewer <= names + given && Prior(step, given, names)
    ensures Prior(step, given, fewer)
    decreases step
  {
    OwnNeeds(step);
    forall x | x in Listed(CheckedInputs(step)) * fewer ensures x in given {
      assert x in Needs(step) * fewer;
      assert x in names ==> x in Listed(CheckedInputs(step)) * names;
    }
    forall c | c in step.do_ ensures Needs(c) * fewer <= names + given {
      Below(step, c);
    }
    PriorInDoForFewer(step.do_, given, fewer, names);
    forall c | c in step.inParallel ensures Prior(c, given, fewer) {
      Below(step, c);
      PriorForFewer(c, given, fewer, names);
    }
  }

  lemma {:induction false} PriorInDoForFewer(steps: seq<Step>, given: set<string>, fewer: set<string>, names: set<string>)
    requires PriorInDo(steps, given, names) && forall c :: c in steps ==> Needs(c) * fewer <= names + given
    ensures PriorInDo(steps, given, fewer)
    decreases steps
  {
    if steps != [] {
      var before, last := steps[..|steps| - 1], steps[|steps| - 1];
      PriorInDoForFewer(before, given, fewer, names);
      assert last in steps;
      PriorForFewer(last, given + OutputsOf(NodesOf(before)), fewer, names);
    }
  }

  /** What runs before a step lies at or below the plan step too. */
  lemma {:induction false} PriorIsProduced(step: Step, given: set<string>, names: set<string>)
    requires Prior(step, given, names)
    ensures Needs(step) * names <= given + Outputs(step)
    decreases step
  {
    PriorInDoIsProduced(step.do_, given, names);
    forall c | c in step.do_ || c in step.inParallel ensures Needs(c) * names <= given + Outputs(step) {
      Below(step, c);
      if c in step.inParallel {
        PriorIsProduced(c, given, names);
      } else {
        OutputsOfDo(step);
      }
    }
    forall x | x in Needs(step) * names ensures x in given + Outputs(step) {
      var t :| t in Nodes(step) && x in CheckedInputs(t);
      NodesAre(step, t);
      if t == step {
        assert x in Listed(CheckedInputs(step)) * names;
      } else {
        var c :| (c in step.do_ || c in step.inParallel) && t in Nodes(c);
        assert x in Needs(c) * names;
      }
    }
  }

  lemma OutputsOfDo(step: Step)
    ensures OutputsOf(NodesOf(step.do_)) <= Outputs(step)
  {
    forall t | t in NodesOf(step.do_) ensures t in Nodes(step) {}
  }

  lemma {:induction false} PriorInDoIsProduced(steps: seq<Step>, given: set<string>, names: set<string>)
    requires PriorInDo(steps, given, names)
    ensures forall c :: c in steps ==> Needs(c) * names <= given + OutputsOf(NodesOf(steps))
    decreases steps
  {
    if steps != [] {
      var before, last := steps[..|steps| - 1], steps[|steps| - 1];
      PriorInDoIsProduced(before, given, names);
      PriorIsProduced(last, given + OutputsOf(NodesOf(before)), names);
      assert NodesOf(steps) == NodesOf(before) + Nodes(last);
      assert steps == before + [last];
      assert Outputs(last) <= OutputsOf(NodesOf(steps)) && OutputsOf(NodesOf(before)) <= OutputsOf(NodesOf(steps));
    }
  }

  /** What the check promises, and when it keeps it: every input comes from an earlier
      step exactly when the plan is accepted and no step consumes a late output. */
  lemma InOrderExactly(plan: seq<Step>)
    ensures InOrder(plan) <==> WellWired(plan) && NothingLate(plan)
  {
    forall i | 0 <= i < |plan| && Prior(plan[i], AvailableAt(plan, i), Needs(plan[i]))
      ensures StepWired(plan, i, {}) && Prior(plan[i], AvailableAt(plan, i), Outputs(plan[i]))
    {
      AvailableNext(plan, i);
      PriorIsProduced(plan[i], AvailableAt(plan, i), Needs(plan[i]));
      PriorForFewer(plan[i], AvailableAt(plan, i), Outputs(plan[i]), Needs(plan[i]));
    }
    forall i | 0 <= i < |plan| && StepWired(plan, i, {}) && Prior(plan[i], AvailableAt(plan, i), Outputs(plan[i]))
      ensures Prior(plan[i], AvailableAt(plan, i), Needs(plan[i]))
    {
      AvailableNext(plan, i);
      PriorForFewer(plan[i], AvailableAt(plan, i), Needs(plan[i]), Outputs(plan[i]));
    }
    if WellWired(plan) {
      forall i | 0 <= i < |plan| ensures StepWired(plan, i, {}) {}
    }
  }

  /** The same by whole plan steps: every input comes from an earlier plan step exactly
      when the plan is accepted and no plan step needs an output of its own. */
  lemma EarlierStepsExactly(plan: seq<Step>)
    ensures (forall i :: 0 <= i < |plan| ==> Needs(plan[i]) <= AvailableAt(plan, i)) <==>
            WellWired(plan) && forall i :: 0 <= i < |plan| ==> Needs(plan[i]) * Outputs(plan[i]) <= AvailableAt(plan, i)
  {
    forall i | 0 <= i < |plan| ensures StepWired(plan, i, {}) <==> Needs(plan[i]) <= AvailableAt(plan, i) + Outputs(plan[i]) {
      AvailableNext(plan, i);
    }
    if WellWired(plan) {
      forall i | 0 <= i < |plan| ensures StepWired(plan, i, {}) {}
    }
  }

  predicate Leaf(step: Step) { step.do_ == [] && step.inParallel == [] }

  lemma PairNodes(first: Step, second: Step)
    requires Leaf(first) && Leaf(second)
    ensures var step := EMPTY.(do_ := [first, second]); Nodes(step) == [step, first, second]
    ensures NodesOf([first]) == [first]
  {
    assert NodesOf([]) == [] && Nodes(first) == [first] && Nodes(second) == [second];
    assert [first, second][..1] == [first] && [first][..0] == [];
    assert NodesOf([first, second]) == [first, second];
  }

  lemma PairPrior(first: Step, second: Step, given: set<string>, names: set<string>)
    requires PriorInDo([first, second], given, names)
    ensures Prior(first, given, names)
  {
    assert [first, second][..1] == [first] && [first][..0] == [];
    assert PriorInDo([first], given, names);
    assert OutputsOf(NodesOf([])) == {} && given + {} == given;
  }

  lemma PairNeeds(consumer: string, producer: string, volume: string)
    requires consumer != "" && producer != ""
    ensures var step := EMPTY.(do_ := [Task(consumer, [volume], []), Task(producer, [], [volume])]);
            Needs(step) == {volume} && volume in Outputs(step)
  {
    var first, second := Task(consumer, [volume], []), Task(producer, [], [volume]);
    PairNodes(first, second);
    var nodes := [EMPTY.(do_ := [first, second]), first, second];
    assert nodes[1] in nodes && nodes[2] in nodes && volume in OwnOutputs(second) && volume in CheckedInputs(first);
    assert CheckedInputs(nodes[0]) == [] && CheckedInputs(second) == [];
  }

  /** A do step whose first step consumes what its second produces is accepted, too. */
  lemma LaterOutputSatisfiesInput(consumer: string, producer: string, volume: string)
    requires consumer != "" && producer != ""
    ensures var plan := [EMPTY.(do_ := [Task(consumer, [volume], []), Task(producer, [], [volume])])];
            WellWired(plan) && !InOrder(plan)
  {
    var first, second := Task(consumer, [volume], []), Task(producer, [], [volume]);
    var plan := [EMPTY.(do_ := [first, second])];
    PairNeeds(consumer, producer, volume);
    AvailableNext(plan, 0);
    assert StepWired(plan, 0, {});
    assert AvailableAt(plan, 0) == {};
    assert volume in Listed(CheckedInputs(first)) * {volume};
    if Prior(plan[0], {}, {volume}) {
      PairPrior(first, second, {}, {volume});
    }
  }

  // -------------------------------------------------------------------- try

  /** A step and everything nested in it, through try as well. */
  function AllNodes(step: Step): seq<Step>
    decreases step
  {
    [step] + AllOf(step.do_) + AllOf(step.inParallel) + AllOf(step.try_)
  }

  function AllOf(steps: seq<Step>): seq<Step>
    decreases steps
  {
    if steps == [] then [] else AllOf(steps[..|steps| - 1]) + AllNodes(steps[|steps| - 1])
  }

  /** What the check never visits: the nodes at or below the try steps of a visited one. */
  ghost predicate UnderTry(step: Step, t: Step) {
    exists n, c :: n in Nodes(step) && c in n.try_ && t in AllNodes(c)
  }

  lemma {:induction false} AllOfAre(steps: seq<Step>, t: Step)
    ensures t in AllOf(steps) <==> exists c :: c in steps && t in AllNodes(c)
    decreases |steps|
  {
    if steps != [] {
      var n := |steps| - 1;
      AllOfAre(steps[..n], t);
      assert steps == steps[..n] + [steps[n]];
      assert AllOf(steps) == AllOf(steps[..n]) + AllNodes(steps[n]);
      assert steps[n] in steps;
      assert forall c :: c in steps <==> c in steps[..n] || c == steps[n];
    }
  }

  lemma AllNodesAre(step: Step, t: Step)
    ensures t in AllNodes(step) <==>
            t == step || exists c :: (c in step.do_ || c in step.inParallel || c in step.try_) && t in AllNodes(c)
  {
    AllOfAre(step.do_, t);
    AllOfAre(step.inParallel, t);
    AllOfAre(step.try_, t);
  }

  /** Every node is visited or lies under a try step of a visited one. */
  lemma {:induction false} VisitedOrUnderTry(step: Step, t: Step)
    ensures t in AllNodes(step) <==> t in Nodes(step) || UnderTry(step, t)
    decreases step
  {
    AllNodesAre(step, t);
    NodesAre(step, t);
    NodesAre(step, step);
    forall c | c in step.do_ || c in step.inParallel
      ensures t in AllNodes(c) <==> t in Nodes(c) || UnderTry(c, t)
      ensures forall n :: n in Nodes(c) ==> n in Nodes(step)
    {
      VisitedOrUnderTry(c, t);
      forall n | n in Nodes(c) ensures n in Nodes(step) {
        NodesAre(step, n);
      }
    }
    if UnderTry(step, t) {
      var n, d :| n in Nodes(step) && d in n.try_ && t in AllNodes(d);
      NodesAre(step, n);
      if n != step {
        var c :| (c in step.do_ || c in step.inParallel) && n in Nodes(c);
        assert UnderTry(c, t);
      }
    }
  }

  function AllNeeds(step: Step): set<string> { set t, x | t in AllNodes(step) && x in CheckedInputs(t) :: x }

  ghost function TryNeeds(step: Step): set<string> {
    set t, x | t in AllNodes(step) && UnderTry(step, t) && x in CheckedInputs(t) :: x
  }

  ghost function TryOutputs(step: Step): set<string> {
    set t, x | t in AllNodes(step) && UnderTry(step, t) && x in OwnOutputs(t) :: x
  }

  /** The outputs at or below the first `n` plan steps, through try as well. */
  function AllAvailableAt(plan: seq<Step>, n: nat): set<string>
    requires n <= |plan|
  {
    if n == 0 then {} else AllAvailableAt(plan, n - 1) + OutputsOf(AllNodes(plan[n - 1]))
  }

  ghost function TryAvailableAt(plan: seq<Step>, n: nat): set<string>
    requires n <= |plan|
  {
    if n == 0 then {} else TryAvailableAt(plan, n - 1) + TryOutputs(plan[n - 1])
  }

  /** Every input with inline configuration, under try or not, is an output of the same or
      an earlier plan step, under try or not. */
  ghost predicate FullyWired(plan: seq<Step>) { forall i :: 0 <= i < |plan| ==> FullyWiredAt(plan, i) }

  predicate FullyWiredAt(plan: seq<Step>, i: nat)
    requires i < |plan|
  {
    AllNeeds(plan[i]) <= AllAvailableAt(plan, i + 1)
  }

  /** What lies under the try steps of a plan step has its inputs. */
  ghost predicate TrySupplied(plan: seq<Step>, i: nat)
    requires i < |plan|
  {
    TryNeeds(plan[i]) <= AllAvailableAt(plan, i + 1)
  }

  /** No visited step relies on outputs that only try steps produce. */
  ghost predicate TryUnneeded(plan: seq<Step>, i: nat)
    requires i < |plan|
  {
    Needs(plan[i]) * TryAvailableAt(plan, i + 1) <= AvailableAt(plan, i + 1)
  }

  lemma SplitByTry(step: Step)
    ensures AllNeeds(step) == Needs(step) + TryNeeds(step)
    ensures OutputsOf(AllNodes(step)) == Outputs(step) + TryOutputs(step)
  {
    forall t ensures t in AllNodes(step) <==> t in Nodes(step) || UnderTry(step, t) {
      VisitedOrUnderTry(step, t);
    }
  }

  lemma {:induction false} AvailableByTry(plan: seq<Step>, n: nat)
    requires n <= |plan|
    ensures AllAvailableAt(plan, n) == AvailableAt(plan, n) + TryAvailableAt(plan, n)
    decreases n
  {
    if n == 0 {
      assert OutputsPerStep(plan)[..0] == [];
    } else {
      AvailableByTry(plan, n - 1);
      AvailableNext(plan, n - 1);
      SplitByTry(plan[n - 1]);
      Regroup(AvailableAt(plan, n - 1), TryAvailableAt(plan, n - 1), Outputs(plan[n - 1]), TryOutputs(plan[n - 1]));
    }
  }

  lemma Regroup(a: set<string>, b: set<string>, c: set<string>, d: set<string>)
    ensures (a + b) + (c + d) == (a + c) + (b + d)
  {
  }

  lemma OneStepByTry(plan: seq<Step>, i: nat)
    requires i < |plan|
    ensures StepWired(plan, i, {}) ==> (FullyWiredAt(plan, i) <==> TrySupplied(plan, i))
    ensures FullyWiredAt(plan, i) ==> (StepWired(plan, i, {}) <==> TryUnneeded(plan, i))
  {
    SplitByTry(plan[i]);
    AvailableByTry(plan, i + 1);
    BySets(Needs(plan[i]), TryNeeds(plan[i]), AvailableAt(plan, i + 1), TryAvailableAt(plan, i + 1));
    assert {} + AvailableAt(plan, i + 1) == AvailableAt(plan, i + 1);
  }

  lemma BySets(needs: set<string>, tryNeeds: set<string>, available: set<string>, tryAvailable: set<string>)
    ensures needs <= available ==>
              (needs + tryNeeds <= available + tryAvailable <==> tryNeeds <= available + tryAvailable)
    ensures needs + tryNeeds <= available + tryAvailable ==>
              (needs <= available <==> needs * tryAvailable <= available)
  {
  }

  ghost predicate WithoutTry(plan: seq<Step>) {
    forall i, n :: 0 <= i < |plan| && n in Nodes(plan[i]) ==> n.try_ == []
  }

  /** What skipping try costs. An accepted plan is wired through its try steps exactly when
      the inputs under them are available; a plan that is wired through them is accepted
      exactly when no visited step relies on outputs under try alone; without try the
      check is the whole truth. */
  lemma TryExactly(plan: seq<Step>)
    ensures WellWired(plan) ==> (FullyWired(plan) <==> forall i :: 0 <= i < |plan| ==> TrySupplied(plan, i))
    ensures FullyWired(plan) ==> (WellWired(plan) <==> forall i :: 0 <= i < |plan| ==> TryUnneeded(plan, i))
    ensures WithoutTry(plan) ==> (WellWired(plan) <==> FullyWired(plan))
  {
    forall i | 0 <= i < |plan|
      ensures StepWired(plan, i, {}) ==> (FullyWiredAt(plan, i) <==> TrySupplied(plan, i))
      ensures FullyWiredAt(plan, i) ==> (StepWired(plan, i, {}) <==> TryUnneeded(plan, i))
      ensures WithoutTry(plan) ==> TrySupplied(plan, i) && TryUnneeded(plan, i)
    {
      OneStepByTry(plan, i);
      if WithoutTry(plan) {
        NothingUnderTry(plan, i + 1);
      }
    }
  }

  lemma {:induction false} NothingUnderTry(plan: seq<Step>, n: nat)
    requires n <= |plan| && WithoutTry(plan)
    ensures TryAvailableAt(plan, n) == {}
    ensures n > 0 ==> TryNeeds(plan[n - 1]) == {}
    decreases n
  {
    if n > 0 {
      NothingUnderTry(plan, n - 1);
      assert forall m :: m in Nodes(plan[n - 1]) ==> m.try_ == [];
      assert TryNeeds(plan[n - 1]) == {} && TryOutputs(plan[n - 1]) == {};
    }
  }
}
