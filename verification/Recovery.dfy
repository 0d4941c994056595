/** What the boot sweep makes of every run that was in flight when the process died
    (RecoverOrphanedRuns of server/execution.go). */
module Recovery {
  import opened Runs
  import opened Admission
  import opened GroupInvariant

  /** A recovered record, against the one found at boot. A run holds a slot exactly while it
      is running; a resumable orphan runs unless all slots are taken, and then it is queued,
      or failed for want of room. */
  predicate Settled(q: Run, r: Run, s: Service, existing: set<string>, resumable: set<string>) {
    && (r.status.Running? <==> q.id in s.executing)
    && if !q.status.Running? then r == q
       else if q.pipeline !in existing then r == q.(status := Failed, error := PipelineLost)
       else if q.pipeline !in resumable then r == q.(status := Failed, error := ServerRestarted)
       else
         r == q || (s.inFlight == s.maxInFlight
                    && (r == q.(status := Queued) || r == q.(status := Failed, error := ResumeRefused)))
  }

  predicate Slots(s: Service) { s.inFlight == |s.executing| <= s.maxInFlight }

  /** Midway: the orphans still to come are as they were, every other record is settled. */
  ghost predicate Midway(base: seq<Run>, s: Service, todo: seq<Run>, existing: set<string>, resumable: set<string>) {
    && Slots(s) && |s.runs| == |base|
    && forall i :: 0 <= i < |base| ==>
         if base[i] in todo then s.runs[i] == base[i] && base[i].id !in s.executing
         else Settled(base[i], s.runs[i], s, existing, resumable)
  }

  ghost predicate Orphans(base: seq<Run>, todo: seq<Run>) {
    && DistinctIds(base) && DistinctIds(todo)
    && forall o :: o in todo ==> o in base && o.status.Running?
  }

  /** One step of the sweep: the orphan's record is settled, no other record changes, and
      slots are only ever taken, for the orphan. */
  ghost predicate Swept(s: Service, t: Service, k: nat, existing: set<string>, resumable: set<string>) {
    && k < |s.runs| == |t.runs| && Slots(t)
    && Settled(s.runs[k], t.runs[k], t, existing, resumable)
    && (forall i :: 0 <= i < |s.runs| && i != k ==> t.runs[i] == s.runs[i])
    && s.executing <= t.executing <= s.executing + {s.runs[k].id}
    && t.maxInFlight == s.maxInFlight && (s.inFlight == s.maxInFlight ==> t.inFlight == t.maxInFlight)
  }

  lemma RecoverRunSweeps(s: Service, k: nat, existing: set<string>, resumable: set<string>)
    requires k < |s.runs| && s.runs[k].status.Running? && s.runs[k].id !in s.executing && Slots(s)
    requires forall i :: 0 <= i < |s.runs| && i != k ==> s.runs[i].id != s.runs[k].id
    ensures Swept(s, RecoverRun(s, s.runs[k], existing, resumable), k, existing, resumable)
  {
    assert s.runs[k] in s.runs;
  }

  lemma SettledStays(q: Run, r: Run, s: Service, t: Service, k: nat, existing: set<string>, resumable: set<string>)
    requires Settled(q, r, s, existing, resumable) && Swept(s, t, k, existing, resumable) && q.id != s.runs[k].id
    ensures Settled(q, r, t, existing, resumable)
  {
  }

  lemma TodoShrinks(base: seq<Run>, todo: seq<Run>, k: nat)
    requires Orphans(base, todo) && todo != [] && k < |base| && base[k] == todo[0]
    ensures Orphans(base, todo[1..])
    ensures forall i :: 0 <= i < |base| ==> (base[i] in todo[1..] <==> base[i] in todo && i != k)
  {
    forall i | 0 <= i < |base| && base[i] in todo && i != k ensures base[i] in todo[1..] {
      var m :| 0 <= m < |todo| && todo[m] == base[i];
      assert base[i].id != base[k].id;
      assert todo[1..][m - 1] == base[i];
    }
    forall r | r in todo[1..] ensures r.id != todo[0].id {}
  }

  lemma OneRecovered(base: seq<Run>, s: Service, todo: seq<Run>, existing: set<string>, resumable: set<string>)
    requires Orphans(base, todo) && todo != [] && Midway(base, s, todo, existing, resumable)
    ensures Orphans(base, todo[1..])
    ensures Midway(base, RecoverRun(s, todo[0], existing, resumable), todo[1..], existing, resumable)
  {
    var t := RecoverRun(s, todo[0], existing, resumable);
    assert todo[0] in todo;
    var k :| 0 <= k < |base| && base[k] == todo[0];
    TodoShrinks(base, todo, k);
    forall i | 0 <= i < |base| && i != k ensures s.runs[i].id == base[i].id != base[k].id {}
    RecoverRunSweeps(s, k, existing, resumable);
    forall i | 0 <= i < |base| && base[i] !in todo ensures Settled(base[i], t.runs[i], t, existing, resumable) {
      SettledStays(base[i], s.runs[i], s, t, k, existing, resumable);
    }
  }

  lemma {:induction false} SweepSettles(base: seq<Run>, s: Service, todo: seq<Run>, existing: set<string>, resumable: set<string>)
    requires Orphans(base, todo) && Midway(base, s, todo, existing, resumable)
    ensures Midway(base, RecoverRuns(s, todo, existing, resumable), [], existing, resumable)
    decreases |todo|
  {
    if todo != [] {
      OneRecovered(base, s, todo, existing, resumable);
      SweepSettles(base, RecoverRun(s, todo[0], existing, resumable), todo[1..], existing, resumable);
    }
  }

  lemma RunningAreOrphans(runs: seq<Run>, nextId: nat, clock: nat)
    requires Ordered(runs, nextId, clock)
    ensures Orphans(runs, ByStatus(runs, Running))
    ensures forall r :: r in runs ==> (r in ByStatus(runs, Running) <==> r.status.Running?)
  {
    ByStatusMembers(runs, Running);
    var distinct := (a: Run, b: Run) => a.id != b.id;
    FilterPairwise((r: Run) => r.status == Running, distinct, runs);
    ReversePairwise(distinct, Filter((r: Run) => r.status == Running, runs));
  }

  /** Reversing keeps a symmetric relation between all pairs. */
  lemma {:induction false} ReversePairwise<T(!new)>(related: (T, T) -> bool, s: seq<T>)
    requires Pairwise(related, s) && forall a, b :: related(a, b) ==> related(b, a)
    ensures Pairwise(related, Reverse(s))
  {
    if s != [] {
      ReversePairwise(related, s[1..]);
      ReverseMembers(s[1..]);
      forall x | x in s[1..] ensures related(x, s[0]) {}
    }
  }

  lemma BootIsMidway(s: Service, existing: set<string>, resumable: set<string>)
    requires Ordered(s.runs, s.nextId, s.clock)
    ensures Orphans(s.runs, ByStatus(s.runs, Running))
    ensures Midway(s.runs, s.(inFlight := 0, executing := {}, syncing := {}, cancelled := {}), ByStatus(s.runs, Running),
                   existing, resumable)
  {
    RunningAreOrphans(s.runs, s.nextId, s.clock);
    forall i | 0 <= i < |s.runs| ensures s.runs[i] in s.runs {}
  }

  ghost predicate AllSettled(base: seq<Run>, t: Service, existing: set<string>, resumable: set<string>) {
    && |t.runs| == |base| && Slots(t)
    && forall i :: 0 <= i < |base| ==> Settled(base[i], t.runs[i], t, existing, resumable)
  }

  /** After a restart every record is settled, a run is running exactly when it was resumed
      into a slot, and the slot counter counts the registry again. */
  lemma RestartSettles(s: Service, existing: set<string>, resumable: set<string>)
    requires Ordered(s.runs, s.nextId, s.clock)
    ensures var t := Restart(s, existing, resumable);
            AllSettled(s.runs, t, existing, resumable) && t.syncing == {} && t.cancelled == {}
  {
    BootIsMidway(s, existing, resumable);
    var booted := s.(inFlight := 0, executing := {}, syncing := {}, cancelled := {});
    var orphans := ByStatus(s.runs, Running);
    SweepSettles(s.runs, booted, orphans, existing, resumable);
    SweepFrame(booted, orphans, existing, resumable);
  }

  lemma {:induction false} SweepFrame(s: Service, todo: seq<Run>, existing: set<string>, resumable: set<string>)
    requires s.syncing == {} && s.cancelled == {}
    ensures var t := RecoverRuns(s, todo, existing, resumable); t.syncing == {} && t.cancelled == {}
    decreases |todo|
  {
    if todo != [] {
      SweepFrame(RecoverRun(s, todo[0], existing, resumable), todo[1..], existing, resumable);
    }
  }
}
