/** What admission does to the store, record by record: supersedePeers and admitRun
    of server/execution_concurrency.go. */
module AdmissionEffects {
  import opened Runs
  import opened Admission
  import opened GroupInvariant

  // -------------------------------------------------------------- superseding

  /** What superseding one peer does to one record. */
  function PeerMark(r: Run, peer: Run, newRun: nat): Run {
    if peer.id != r.id then r
    else
      match peer.status
      case Running => r.(status := Failed, error := SupersededBy(newRun))
      case Queued => Moved(r, RunStatus.Skipped, SupersededBy(newRun))
      case _ => r
  }

  function PeerMarks(r: Run, peers: seq<Run>, newRun: nat): Run
    decreases |peers|
  {
    if peers == [] then r else PeerMarks(PeerMark(r, peers[0], newRun), peers[1..], newRun)
  }

  lemma {:induction false} SupersedePointwise(s: Service, peers: seq<Run>, newRun: nat)
    ensures var t := SupersedePeers(s, peers, newRun);
            |t.runs| == |s.runs| && t == s.(runs := t.runs, cancelled := t.cancelled) &&
            forall i :: 0 <= i < |s.runs| ==> t.runs[i] == PeerMarks(s.runs[i], peers, newRun)
    decreases |peers|
  {
    if peers != [] {
      var u := SupersedePeer(s, peers[0], newRun);
      assert |u.runs| == |s.runs| && forall i :: 0 <= i < |s.runs| ==> u.runs[i] == PeerMark(s.runs[i], peers[0], newRun);
      SupersedePointwise(u, peers[1..], newRun);
    }
  }

  lemma {:induction false} MarksUntouched(r: Run, peers: seq<Run>, newRun: nat)
    requires forall q :: q in peers ==> q.id != r.id
    ensures PeerMarks(r, peers, newRun) == r
    decreases |peers|
  {
    if peers != [] {
      assert peers[0] in peers;
      MarksUntouched(r, peers[1..], newRun);
    }
  }

  /** A record that is one of the peers gets exactly its own mark. */
  lemma {:induction false} MarksOfPeer(r: Run, peers: seq<Run>, newRun: nat)
    requires r in peers && DistinctIds(peers) && r.status.IsActive()
    ensures PeerMarks(r, peers, newRun) ==
            r.(status := if r.status.Running? then Failed else RunStatus.Skipped, error := SupersededBy(newRun))
    decreases |peers|
  {
    if peers[0] == r {
      MarksUntouched(PeerMark(r, peers[0], newRun), peers[1..], newRun);
    } else {
      var k :| 0 <= k < |peers| && peers[k] == r;
      assert peers[1..][k - 1] == r;
      MarksOfPeer(r, peers[1..], newRun);
    }
  }

  // ---------------------------------------------------------------- admission

  lemma PeersMembers(s: Service, p: Pipeline, group: string)
    ensures forall r :: r in Peers(s, p, group) <==>
              r in s.runs && r.status.IsActive() &&
              (if p.mode.Grouped? then r.group == group && group != "" else r.pipeline == p.id)
  {
    FilterMembers((r: Run) => r.group == group && r.status.IsActive(), s.runs);
    FilterMembers((r: Run) => r.pipeline == p.id && r.status.IsActive(), s.runs);
  }

  /** The record is an in-flight run that a trigger with this group key must not join. */
  predicate Collides(p: Pipeline, group: string, r: Run) {
    r.status.IsActive() && !p.mode.Unlimited? && if p.mode.Grouped? then r.group == group else r.pipeline == p.id
  }

  /** A trigger proceeds exactly when nothing it collides with is in flight. */
  lemma PeersCollide(s: Service, p: Pipeline, input: TriggerInput)
    requires !p.mode.Unlimited? && ResolveGroup(p, input).Ok?
    ensures var group := ResolveGroup(p, input).value;
            && (forall r :: r in Peers(s, p, group) <==> r in s.runs && Collides(p, group, r))
            && (Peers(s, p, group) == [] <==> forall r :: r in s.runs ==> !Collides(p, group, r))
  {
    var group := ResolveGroup(p, input).value;
    PeersMembers(s, p, group);
    if Peers(s, p, group) != [] {
      assert Peers(s, p, group)[0] in Peers(s, p, group);
    }
  }

  /** The run is taken over by a cancel-running trigger of its group. */
  predicate TakenOver(p: Pipeline, input: TriggerInput, r: Run) {
    && p.mode.Grouped? && p.cancelRunning
    && ResolveGroup(p, input).Ok? && r.group == ResolveGroup(p, input).value
    && r.status.IsActive()
  }

  /** An older record after admission of the run `newRun`. */
  function AfterAdmission(p: Pipeline, input: TriggerInput, newRun: nat, r: Run): Run {
    if TakenOver(p, input, r) then
      r.(status := if r.status.Running? then Failed else RunStatus.Skipped, error := SupersededBy(newRun))
    else r
  }

  lemma PeersDistinct(s: Service, p: Pipeline, group: string)
    requires Ordered(s.runs, s.nextId, s.clock)
    ensures DistinctIds(Peers(s, p, group))
  {
    var distinct := (a: Run, b: Run) => a.id != b.id;
    FilterPairwise((r: Run) => r.group == group && r.status.IsActive(), distinct, s.runs);
    FilterPairwise((r: Run) => r.pipeline == p.id && r.status.IsActive(), distinct, s.runs);
  }

  lemma MarkedRecord(s: Service, p: Pipeline, input: TriggerInput, newRun: nat, r: Run)
    requires Ordered(s.runs, s.nextId, s.clock) && r in s.runs
    requires p.mode.Grouped? && p.cancelRunning && ResolveGroup(p, input).Ok?
    ensures PeerMarks(r, Peers(s, p, ResolveGroup(p, input).value), newRun) == AfterAdmission(p, input, newRun, r)
  {
    var peers := Peers(s, p, ResolveGroup(p, input).value);
    PeersMembers(s, p, ResolveGroup(p, input).value);
    PeersDistinct(s, p, ResolveGroup(p, input).value);
    if r in peers {
      MarksOfPeer(r, peers, newRun);
    } else {
      forall q | q in peers ensures q.id != r.id {
        assert q in s.runs && q != r;
      }
      MarksUntouched(r, peers, newRun);
    }
  }

  /** Admission appends one record and touches no older one, except that a
      cancel-running trigger fails the running and skips the queued runs of its group. */
  lemma AdmitRecords(s: Service, p: Pipeline, trigger: TriggerType, input: TriggerInput)
    requires Ordered(s.runs, s.nextId, s.clock)
    ensures var t := AdmitRun(s, p, trigger, input).service;
            && |t.runs| == |s.runs| + 1
            && t == s.(runs := t.runs, nextId := s.nextId + 1, cancelled := t.cancelled)
            && forall i :: 0 <= i < |s.runs| ==> t.runs[i] == AfterAdmission(p, input, s.nextId, s.runs[i])
  {
    match ResolveConcurrency(s, p, input)
    case Err(_) =>
    case Ok(d) =>
      if !p.mode.Unlimited? {
        var group := ResolveGroup(p, input).value;
        PeersMembers(s, p, group);
        var saved := SaveRun(s, p.id, trigger, input, d.group, Queued, NoReason);
        if d.action.CancelPeers? {
          SupersedePointwise(saved, d.peers, s.nextId);
          forall i | 0 <= i < |s.runs|
            ensures PeerMarks(saved.runs[i], d.peers, s.nextId) == AfterAdmission(p, input, s.nextId, s.runs[i])
          {
            assert saved.runs[i] == s.runs[i];
            MarkedRecord(s, p, input, s.nextId, s.runs[i]);
          }
        } else {
          forall i | 0 <= i < |s.runs| ensures !TakenOver(p, input, s.runs[i]) {
            assert s.runs[i] in s.runs;
          }
        }
      }
  }

  /** The record that admission appends. */
  lemma AdmitNewRun(s: Service, p: Pipeline, trigger: TriggerType, input: TriggerInput)
    requires Ordered(s.runs, s.nextId, s.clock)
    ensures var a := AdmitRun(s, p, trigger, input);
            && a.id == s.nextId
            && |a.service.runs| == |s.runs| + 1
            && var r := a.service.runs[|s.runs|];
            && r == Run(s.nextId, p.id, r.status, trigger, input.jobs, input.upstream, r.group, r.error, s.clock)
            && (r.status.Queued? <==> !a.terminal) && !r.status.Running? && !r.status.Success?
            && (!a.terminal ==> r.error == NoReason)
            && (ResolveGroup(p, input).Ok? ==> r.group == ResolveGroup(p, input).value)
            && (ResolveGroup(p, input).Err? ==> r.group == "" && r.status.Failed?)
  {
    AdmitRecords(s, p, trigger, input);
    if ResolveConcurrency(s, p, input).Ok? {
      SupersedingSparesNew(s, p, trigger, input);
    }
  }

  /** The peers were looked up before the new run was saved. */
  lemma SupersedingSparesNew(s: Service, p: Pipeline, trigger: TriggerType, input: TriggerInput)
    requires Ordered(s.runs, s.nextId, s.clock) && ResolveConcurrency(s, p, input).Ok?
    ensures var d := ResolveConcurrency(s, p, input).value;
            var saved := SaveRun(s, p.id, trigger, input, d.group, Queued, NoReason);
            var t := SupersedePeers(saved, d.peers, s.nextId);
            |t.runs| == |saved.runs| && t.runs[|s.runs|] == saved.runs[|s.runs|]
  {
    var d := ResolveConcurrency(s, p, input).value;
    var saved := SaveRun(s, p.id, trigger, input, d.group, Queued, NoReason);
    if d.peers != [] {
      PeersMembers(s, p, ResolveGroup(p, input).value);
    }
    SupersedePointwise(saved, d.peers, s.nextId);
    MarksUntouched(saved.runs[|s.runs|], d.peers, s.nextId);
  }

  /** A run admitted without having to queue finds no active run in its group: the
      peers it looked up were all there are, and any it found it took over. */
  lemma AdmitFindsGroupFree(s: Service, p: Pipeline, trigger: TriggerType, input: TriggerInput, i: int)
    requires Ordered(s.runs, s.nextId, s.clock) && KeysOwned(s.runs)
    requires 0 <= i < |s.runs|
    ensures var a := AdmitRun(s, p, trigger, input);
            && |a.service.runs| == |s.runs| + 1
            && var r := a.service.runs[i];
            && (!a.terminal && !a.queueOnly && r.status.IsActive() && r.group == a.service.runs[|s.runs|].group
                ==> r.group == "")
  {
    AdmitRecords(s, p, trigger, input);
    AdmitNewRun(s, p, trigger, input);
    var a := AdmitRun(s, p, trigger, input);
    var r := s.runs[i];
    if !a.terminal && !a.queueOnly && !p.mode.Unlimited? && a.service.runs[i].group == a.service.runs[|s.runs|].group {
      var group := ResolveGroup(p, input).value;
      PeersMembers(s, p, group);
      assert r in s.runs && OwnKey(r.pipeline, r.group);
      if !p.mode.Grouped? {
        SameKeySamePipeline(r.pipeline, p.id);
      }
    }
  }

  lemma SameKeySamePipeline(a: string, b: string)
    ensures PIPELINE_PREFIX <= PipelineKey(b)
    ensures PipelineKey(a) == PipelineKey(b) ==> a == b
  {
    assert PipelineKey(a)[|PIPELINE_PREFIX|..] == a && PipelineKey(b)[|PIPELINE_PREFIX|..] == b;
  }
}
