/** Approval gates: the guarded update of storage/sqlite/gates.go, the approve and reject
    requests of server/api_gates_controller.go, and pollGate of runtime/pipeline_ns.go
    running while everybody else acts on the same gates. */
module Gates {
  import opened Runs

  datatype GateStatus = Pending | Approved | Rejected | TimedOut

  datatype Gate = Gate(status: GateStatus, approvedBy: string)

  type Store = map<nat, Gate>

  /** What anybody can do to the store. A resolution names any status but pending:
      requests approve or reject, a poller past its deadline times the gate out. */
  datatype Event = Save(id: nat) | Resolve(id: nat, status: GateStatus, actor: string)

  predicate Legal(store: Store, e: Event) {
    match e
    case Save(id) => id !in store
    case Resolve(_, status, _) => !status.Pending?
  }

  /** The update is guarded by `status = 'pending'`; false stands for ErrNotFound. */
  function ResolveGate(store: Store, id: nat, status: GateStatus, actor: string): (Store, bool) {
    if id in store && store[id].status.Pending? then (store[id := Gate(status, actor)], true)
    else (store, false)
  }

  function Apply(store: Store, e: Event): Store {
    match e
    case Save(id) => store[id := Gate(Pending, "")]
    case Resolve(id, status, actor) => ResolveGate(store, id, status, actor).0
  }

  predicate History(store: Store, events: seq<Event>)
    decreases |events|
  {
    events == [] || (Legal(store, events[0]) && History(Apply(store, events[0]), events[1..]))
  }

  function After(store: Store, events: seq<Event>): Store
    decreases |events|
  {
    if events == [] then store else After(Apply(store, events[0]), events[1..])
  }

  /** Gates are never dropped, and one that left pending is never written again. */
  predicate Follows(before: Store, after: Store) {
    forall id :: id in before ==> id in after && (before[id].status.Pending? || after[id] == before[id])
  }

  /** Along every history of approvals, rejections and timeouts a gate leaves pending at
      most once, and its resolution and resolver never change after that. */
  lemma {:induction false} ResolutionIsFinal(store: Store, events: seq<Event>)
    requires History(store, events)
    ensures Follows(store, After(store, events))
    decreases |events|
  {
    if events != [] {
      ResolutionIsFinal(Apply(store, events[0]), events[1..]);
    }
  }

  /** The number of events of a history whose guarded update takes effect on the gate. */
  function Wins(store: Store, events: seq<Event>, id: nat): nat
    decreases |events|
  {
    if events == [] then 0
    else
      var e := events[0];
      (if e.Resolve? && e.id == id && ResolveGate(store, id, e.status, e.actor).1 then 1 else 0)
      + Wins(Apply(store, e), events[1..], id)
  }

  /** Of all the approvers, rejecters and pollers of one gate, one at most is told that it
      resolved the gate; exactly one when the gate went from pending to resolved. */
  lemma {:induction false} OneResolverWins(store: Store, events: seq<Event>, id: nat)
    requires History(store, events) && id in store
    ensures id in After(store, events)
    ensures Wins(store, events, id) ==
            if store[id].status.Pending? && !After(store, events)[id].status.Pending? then 1 else 0
    decreases |events|
  {
    ResolutionIsFinal(store, events);
    if events != [] {
      ResolutionIsFinal(Apply(store, events[0]), events[1..]);
      OneResolverWins(Apply(store, events[0]), events[1..], id);
    }
  }

  // ------------------------------------------------------------------ polling

  datatype PollResult = PollApproved | PollRejected(actor: string) | PollTimedOut | PollFailed | PollCancelled

  predicate Waits(store: Store, id: nat) { id in store && store[id].status.Pending? }

  /** What one look at the gate tells the poller; it stops unless the gate is pending. */
  function Report(store: Store, id: nat): PollResult {
    if id !in store then PollFailed
    else
      match store[id].status
      case Approved => PollApproved
      case Rejected => PollRejected(store[id].approvedBy)
      case TimedOut => PollTimedOut
      case Pending => PollCancelled
  }

  class GateStore {
    var gates: Store

    method SaveGate(id: nat)
      requires id !in gates
      modifies this
      ensures gates == Apply(old(gates), Save(id)) == old(gates)[id := Gate(Pending, "")]
      ensures Follows(old(gates), gates)
    {
      gates := gates[id := Gate(Pending, "")];
    }

    method Resolve(id: nat, status: GateStatus, actor: string) returns (found: bool)
      requires !status.Pending?
      modifies this
      ensures (gates, found) == ResolveGate(old(gates), id, status, actor)
      ensures found <==> id in old(gates) && old(gates)[id].status.Pending?
      ensures gates == if found then old(gates)[id := Gate(status, actor)] else old(gates)
      ensures Follows(old(gates), gates)
    {
      if id !in gates || !gates[id].status.Pending? {
        return false;
      }
      gates := gates[id := Gate(status, actor)];
      found := true;
    }

    /** Everybody else: the events between two actions of a poller leave the store `next`. */
    method Interfere(next: Store)
      requires Follows(gates, next)
      modifies this
      ensures gates == next
    {
      gates := next;
    }

    /** Whatever else happens before anyone looks. */
    method Elapse()
      modifies this
      ensures Follows(old(gates), gates)
    {
      assert Follows(gates, gates);
      var next: Store :| Follows(gates, next);
      gates := next;
    }

    /** pollGate over `now`, the times at which it reaches the top of its loop; the
        context is cancelled after the last of them. Others act all the time: `others[k]`
        is the store they have made by the k-th of these times, and they go on acting
        before the poller's caller looks. The first time that is past the deadline, or at
        which the gate is not pending, decides. */
    method PollGate(id: nat, deadline: Option<nat>, now: seq<nat>, others: seq<Store>) returns (result: PollResult)
      requires |others| == |now| && Chained([gates] + others)
      modifies this
      ensures result.PollCancelled? <==> forall k :: 0 <= k < |now| ==>
                !(deadline.Some? && now[k] > deadline.value) && id in others[k] && others[k][id].status.Pending?
      ensures forall k :: 0 <= k < |now| && FirstStop(others, now, id, deadline, k) ==>
                && result == Verdict(others[k], now[k], id, deadline)
                && Tells(result, others[k], id, deadline.Some? && now[k] > deadline.value)
                && (deadline.Some? && now[k] > deadline.value && id in others[k] && others[k][id].status.Pending? ==>
                      id in gates && gates[id] == Gate(TimedOut, "timeout"))
                && Follows(Resolution(others[k], now[k], id, deadline), gates)
                && (result.PollTimedOut? && id in others[k] ==>
                      id in gates && (gates[id].status.TimedOut? <==> TimeoutHolds(others[k], id)))
      ensures result.PollCancelled? ==> Follows(([old(gates)] + others)[|others|], gates)
      ensures |now| > 0 && !PastDeadline(now[0], deadline) ==>
                (id in old(gates) && !old(gates)[id].status.Pending? ==> result == Report(old(gates), id))
      ensures result.PollApproved? ==> id in gates && gates[id].status.Approved?
      ensures result.PollRejected? ==> id in gates && gates[id] == Gate(Rejected, result.actor)
      ensures result.PollFailed? ==> id !in old(gates)
      ensures Follows(old(gates), gates)
    {
      ghost var stores := [gates] + others;
      for i := 0 to |now|
        invariant gates == stores[i]
        invariant forall k :: 0 <= k < i ==> !Stops(others[k], now[k], id, deadline)
        invariant Follows(old(gates), gates)
      {
        assert Follows(stores[i], stores[i + 1]) && stores[i + 1] == others[i];
        Interfere(others[i]);
        if deadline.Some? && now[i] > deadline.value {
          assert Stops(others[i], now[i], id, deadline);
          var _ := Resolve(id, TimedOut, "timeout");
          Elapse();
          return PollTimedOut;
        }
        var known := id in gates;
        var gate := if known then gates[id] else Gate(Pending, "");
        assert Stops(others[i], now[i], id, deadline) <==> !known || !gate.status.Pending?;
        if !known {
          Elapse();
          return PollFailed;
        }
        match gate.status {
          case Approved =>
            Elapse();
            return PollApproved;
          case Rejected =>
            Elapse();
            return PollRejected(gate.approvedBy);
          case TimedOut =>
            Elapse();
            return PollTimedOut;
          case Pending =>
        }
      }
      Elapse();
      result := PollCancelled;
    }

    /** pipeline.gate: the gate is created and then polled, so it is never reported missing. */
    method OpenGate(id: nat, deadline: Option<nat>, now: seq<nat>, others: seq<Store>) returns (result: PollResult)
      requires id !in gates && |others| == |now| && Chained([Apply(gates, Save(id))] + others)
      modifies this
      ensures !result.PollFailed? && id in gates
      ensures result.PollCancelled? <==> forall k :: 0 <= k < |now| ==>
                !(deadline.Some? && now[k] > deadline.value) && id in others[k] && others[k][id].status.Pending?
      ensures forall k :: 0 <= k < |now| && FirstStop(others, now, id, deadline, k) ==>
                && result == Verdict(others[k], now[k], id, deadline)
                && Tells(result, others[k], id, deadline.Some? && now[k] > deadline.value)
      ensures Follows(old(gates), gates)
    {
      SaveGate(id);
      result := PollGate(id, deadline, now, others);
    }
  }

  ghost predicate Chained(stores: seq<Store>) { forall k :: 0 < k < |stores| ==> Follows(stores[k - 1], stores[k]) }

  predicate PastDeadline(now: nat, deadline: Option<nat>) { deadline.Some? && now > deadline.value }

  /** The poller does not go round its loop again. */
  predicate Stops(store: Store, now: nat, id: nat, deadline: Option<nat>) {
    PastDeadline(now, deadline) || !Waits(store, id)
  }

  predicate FirstStop(others: seq<Store>, now: seq<nat>, id: nat, deadline: Option<nat>, k: nat) {
    && k < |now| == |others| && Stops(others[k], now[k], id, deadline)
    && forall h :: 0 <= h < k ==> !Stops(others[h], now[h], id, deadline)
  }

  /** What a poller that stops at this store must tell its caller: past the deadline that it
      timed out, otherwise what became of the gate, and by whose hand it was rejected. */
  predicate Tells(result: PollResult, store: Store, id: nat, late: bool) {
    && (late ==> result.PollTimedOut?)
    && (!late ==> (result.PollFailed? <==> id !in store))
    && (!late && id in store ==>
          && (result.PollApproved? <==> store[id].status.Approved?)
          && (result.PollRejected? <==> store[id].status.Rejected?)
          && (result.PollRejected? ==> result.actor == store[id].approvedBy)
          && (result.PollTimedOut? <==> store[id].status.TimedOut?))
  }

  function Verdict(store: Store, now: nat, id: nat, deadline: Option<nat>): PollResult {
    if PastDeadline(now, deadline) then PollTimedOut else Report(store, id)
  }

  /** What the poller leaves: past its deadline it times a pending gate out. */
  function Resolution(store: Store, now: nat, id: nat, deadline: Option<nat>): Store {
    if PastDeadline(now, deadline) then ResolveGate(store, id, TimedOut, "timeout").0 else store
  }

  /** The guard of the timeout branch at the moment its update runs. */
  predicate TimeoutHolds(store: Store, id: nat) {
    id in store && (store[id].status.Pending? || store[id].status.TimedOut?)
  }

  /** A poller that wakes past its deadline reports a timeout without reading the gate.
      The report is true in the end exactly when the gate was not already approved or
      rejected at that moment. */
  lemma TimeoutReportExact(store: Store, id: nat, events: seq<Event>)
    requires id in store
    requires History(ResolveGate(store, id, TimedOut, "timeout").0, events)
    ensures var end := After(ResolveGate(store, id, TimedOut, "timeout").0, events);
            id in end && (end[id].status.TimedOut? <==> TimeoutHolds(store, id))
  {
    ResolutionIsFinal(ResolveGate(store, id, TimedOut, "timeout").0, events);
  }

  /** An approval that lands after the last poll and before the deadline is lost to the
      pipeline: the gate stays approved while the poller reports a timeout. */
  lemma ApprovedGateReportedTimedOut(id: nat, actor: string)
    ensures var events := [Save(id), Resolve(id, Approved, actor)];
            && History(map[], events)
            && var store := After(map[], events);
            && !TimeoutHolds(store, id)
            && ResolveGate(store, id, TimedOut, "timeout") == (store, false)
            && id in store && store[id] == Gate(Approved, actor)
  {
    var events := [Save(id), Resolve(id, Approved, actor)];
    var saved := Apply(map[], events[0]);
    assert events[1..] == [events[1]] && [events[1]][1..] == [];
    assert History(saved, events[1..]);
    assert After(saved, events[1..]) == Apply(saved, events[1]);
  }
}
