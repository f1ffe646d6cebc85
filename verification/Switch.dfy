/** ForwardPackets: the switch as a client of the circuit map. */
module Switch {
  import opened Common
  import opened Verdicts
  import opened CircuitState
  import opened CircuitEffects
  import opened CircuitMaps

  /** An HTLC packet: an add carrying what its circuit will record, or a settle or fail. */
  datatype Packet = AddPacket(id: nat, circuit: CircuitRecord) | ResponsePacket(id: nat)

  ghost function Adds(packets: seq<Packet>): (r: seq<Packet>)
    ensures forall p :: p in r ==> p.AddPacket?
  {
    if packets == [] then [] else
      var last := packets[|packets| - 1];
      Adds(packets[..|packets| - 1]) + (if last.AddPacket? then [last] else [])
  }

  ghost function Responses(packets: seq<Packet>): (r: seq<Packet>) {
    if packets == [] then [] else
      var last := packets[|packets| - 1];
      Responses(packets[..|packets| - 1]) + (if last.ResponsePacket? then [last] else [])
  }

  /** A batch taken in two parts: of each part first its own, so both kinds keep their order. */
  lemma {:induction false} KindsAppend(a: seq<Packet>, b: seq<Packet>)
    ensures Adds(a + b) == Adds(a) + Adds(b) && Responses(a + b) == Responses(a) + Responses(b)
    decreases |b|
  {
    if b == [] {
      assert a + b == a;
    } else {
      var front, last := b[..|b| - 1], b[|b| - 1];
      KindsAppend(a, front);
      assert (a + b)[..|a + b| - 1] == a + front && (a + b)[|a + b| - 1] == last;
    }
  }

  /** Every packet is of one kind. */
  lemma {:induction false} KindsCover(packets: seq<Packet>)
    ensures forall p :: multiset(Adds(packets))[p] == (if p.AddPacket? then multiset(packets)[p] else 0)
    ensures forall p :: multiset(Responses(packets))[p] == (if p.ResponsePacket? then multiset(packets)[p] else 0)
  {
    if packets != [] {
      var front, last := packets[..|packets| - 1], packets[|packets| - 1];
      KindsCover(front);
      assert packets == front + [last];
    }
  }

  /** The circuits newPaymentCircuit allocates for the adds, at addresses from `base` on. */
  ghost function NewCircuits(adds: seq<Packet>, base: nat): (r: seq<CircuitPtr>)
    requires forall p :: p in adds ==> p.AddPacket?
    ensures |r| == |adds| && forall i :: 0 <= i < |r| ==> r[i] == CircuitPtr(base + i, adds[i].circuit)
  {
    seq(|adds|, i requires 0 <= i < |adds| => CircuitPtr(base + i, adds[i].circuit))
  }

  /** Whether the n-th packet handed to the router is taken; it is not once the link or the switch stops. */
  type Router = nat -> bool

  /** The packets routed from the n-th on: up to the first that is not taken. */
  function Sent(packets: seq<Packet>, n: nat, route: Router): (r: seq<Packet>)
    ensures r <= packets
    ensures |r| < |packets| ==> !route(n + |r|)
    ensures forall j :: n <= j < n + |r| ==> route(j)
  {
    if packets == [] || !route(n) then [] else
      [packets[0]] + Sent(packets[1..], n + 1, route)
  }

  /** What is sent is decided by the router alone. */
  lemma {:induction false} SentIs(packets: seq<Packet>, n: nat, route: Router, m: nat)
    requires m <= |packets| && (forall j :: n <= j < n + m ==> route(j)) && (m < |packets| ==> !route(n + m))
    ensures Sent(packets, n, route) == packets[..m]
  {
    assert |Sent(packets, n, route)| == m;
  }

  lemma {:induction false} ResponsesPrefix(packets: seq<Packet>, n: nat)
    requires n <= |packets|
    ensures Responses(packets[..n]) <= Responses(packets)
    decreases |packets|
  {
    if n == |packets| {
      assert packets[..n] == packets;
    } else {
      ResponsesPrefix(packets[..|packets| - 1], n);
      assert packets[..|packets| - 1][..n] == packets[..n];
    }
  }

  /** First pass: settles and fails are forwarded, adds get a circuit. It stops where a packet cannot be routed. */
  method FirstPass(packets: seq<Packet>, base: nat, route: Router)
    returns (responses: seq<Packet>, addBatch: seq<Packet>, circuits: seq<CircuitPtr>, ok: bool)
    ensures responses == Sent(Responses(packets), 0, route)
    ensures ok <==> responses == Responses(packets)
    ensures ok ==> addBatch == Adds(packets) && circuits == NewCircuits(addBatch, base)
    ensures ok ==> Distinct(circuits)
  {
    responses, addBatch, circuits, ok := [], [], [], true;
    for i := 0 to |packets|
      invariant responses == Responses(packets[..i]) && addBatch == Adds(packets[..i])
      invariant circuits == NewCircuits(addBatch, base)
      invariant forall j :: 0 <= j < |responses| ==> route(j)
    {
      assert packets[..i + 1][..i] == packets[..i];
      match packets[i]
      case AddPacket(_, rec) =>
        circuits := circuits + [CircuitPtr(base + |circuits|, rec)];
        addBatch := addBatch + [packets[i]];
      case ResponsePacket(_) =>
        if !route(|responses|) {
          ResponsesPrefix(packets, i + 1);
          SentIs(Responses(packets), 0, route, |responses|);
          ok := false;
          return;
        }
        responses := responses + [packets[i]];
    }
    assert packets[..|packets|] == packets;
    SentIs(responses, 0, route, |responses|);
  }

  /** The verdicts as reported: a failed commit turns every add into a fail. */
  ghost function Outcome(vs: seq<Verdict>, err: Option<Error>): (r: seq<Verdict>) {
    if err.None? then vs else Downgrade(vs)
  }

  /** Routes packets one after the other, as long as they are taken. */
  method RouteAll(packets: seq<Packet>, n: nat, route: Router) returns (sent: seq<Packet>)
    ensures sent == Sent(packets, n, route)
  {
    sent := [];
    for i := 0 to |packets|
      invariant sent == packets[..i] && forall j :: n <= j < n + i ==> route(j)
    {
      if !route(n + i) {
        SentIs(packets, n, route, i);
        return;
      }
      sent := sent + [packets[i]];
    }
    SentIs(packets, n, route, |packets|);
  }

  /** The verdicts of a batch of new circuits, as the switch learns them. */
  ghost function BatchVerdicts(s: State, packets: seq<Packet>, base: nat, encodable: CircuitRecord -> bool, writeOk: bool)
    : (vs: seq<Verdict>)
    ensures |vs| == |Adds(packets)|
  {
    var circuits := NewCircuits(Adds(packets), base);
    Outcome(VerdictsOf(s, circuits), CommitError(s, circuits, encodable, writeOk))
  }

  /** What is routed and failed back once the circuits are committed. */
  ghost predicate Forwarded(packets: seq<Packet>, vs: seq<Verdict>, route: Router, routed: seq<Packet>, failed: seq<Packet>, ok: bool)
    requires |vs| == |Adds(packets)|
  {
    var n, added := |Responses(packets)|, Select(Adds(packets), vs, Add);
    && routed == Responses(packets) + Sent(added, n, route)
    && (ok <==> Sent(added, n, route) == added)
    && failed == if ok then Select(Adds(packets), vs, Fail) else []
  }

  /**
    Forwards a batch.  If a response cannot be routed, or the link or switch is stopping already,
    nothing is committed.  Otherwise the circuits of the adds are; an add is routed exactly if its
    circuit was added, failed back exactly if its circuit was failed, and otherwise dropped; if an
    add cannot be routed, the later ones and the failed ones are left alone.
   */
  method ForwardPackets(cm: CircuitMap, packets: seq<Packet>, base: nat, encodable: CircuitRecord -> bool, writeOk: bool,
                        stopping: bool, route: Router)
    returns (routed: seq<Packet>, failed: seq<Packet>, ok: bool)
    modifies cm`pending, cm`adds
    ensures stopping ==> cm.View() == old(cm.View()) && routed == failed == [] && ok
    ensures !stopping && Sent(Responses(packets), 0, route) != Responses(packets) ==>
              cm.View() == old(cm.View()) && routed == Sent(Responses(packets), 0, route) && failed == [] && !ok
    ensures !stopping && Sent(Responses(packets), 0, route) == Responses(packets) ==>
              && cm.View() == Commit(old(cm.View()), NewCircuits(Adds(packets), base),
                                     CommitError(old(cm.View()), NewCircuits(Adds(packets), base), encodable, writeOk))
              && Forwarded(packets, BatchVerdicts(old(cm.View()), packets, base, encodable, writeOk), route, routed, failed, ok)
  {
    if stopping {
      return [], [], true;
    }
    var responses, addBatch, circuits;
    responses, addBatch, circuits, ok := FirstPass(packets, base, route);
    if !ok {
      return responses, [], false;
    }
    ghost var vs := BatchVerdicts(cm.View(), packets, base, encodable, writeOk);
    if |circuits| == 0 {
      assert Forwarded(packets, vs, route, responses, [], true);
      return responses, [], true;
    }
    var added, fails := CommitAndSplit(cm, addBatch, circuits, encodable, writeOk);
    var sent := RouteAll(added, |responses|, route);
    routed := responses + sent;
    ok := |sent| == |added|;
    failed := if ok then fails else [];
  }

  /** Commits the circuits and splits the packets by verdict. */
  method CommitAndSplit(cm: CircuitMap, addBatch: seq<Packet>, circuits: seq<CircuitPtr>, encodable: CircuitRecord -> bool, writeOk: bool)
    returns (added: seq<Packet>, fails: seq<Packet>)
    requires |addBatch| == |circuits| && Distinct(circuits)
    modifies cm`pending, cm`adds
    ensures var err := CommitError(old(cm.View()), circuits, encodable, writeOk);
      var vs := Outcome(VerdictsOf(old(cm.View()), circuits), err);
      && cm.View() == Commit(old(cm.View()), circuits, err)
      && added == Select(addBatch, vs, Add) && fails == Select(addBatch, vs, Fail)
  {
    ghost var vs := VerdictsOf(cm.View(), circuits);
    var actions, err := cm.CommitCircuits(circuits, encodable, writeOk);
    DowngradedLists(circuits, vs);
    var restAdds, restDrops, restFails;
    added, fails, restAdds, restDrops, restFails :=
      SplitPackets(addBatch, circuits, actions.adds, actions.drops, actions.fails, Outcome(vs, err));
  }

  /* ---------- what becomes of each add ---------- */

  /** The key of the i-th add is held by a circuit that was loaded from disk and has no keystone. */
  ghost predicate HeldFromDisk(s: State, adds: seq<Packet>, i: nat)
    requires i < |adds| && adds[i].AddPacket?
  {
    var k := adds[i].circuit.incoming;
    k in s.pending && s.pending[k] in s.fromDisk && s.pending[k] !in s.outgoing
  }

  /** Nothing holds it. */
  ghost predicate IsFirst(s: State, adds: seq<Packet>, i: nat)
    requires i < |adds| && forall p :: p in adds ==> p.AddPacket?
  {
    && adds[i].circuit.incoming !in s.pending
    && forall j :: 0 <= j < i ==> adds[j].circuit.incoming != adds[i].circuit.incoming
  }

  /** The verdict on each add, from the map before the batch; the new circuits are objects that were not loaded from disk. */
  lemma AddVerdict(s: State, packets: seq<Packet>, base: nat, encodable: CircuitRecord -> bool, writeOk: bool, i: nat)
    requires i < |Adds(packets)| && forall c :: c in s.fromDisk ==> c.id < base
    ensures var adds, v := Adds(packets), BatchVerdicts(s, packets, base, encodable, writeOk)[i];
      var err := CommitError(s, NewCircuits(adds, base), encodable, writeOk);
      && (v == Add <==> err.None? && IsFirst(s, adds, i))
      && (v == Fail <==> HeldFromDisk(s, adds, i) || (err.Some? && IsFirst(s, adds, i)))
  {
    var adds := Adds(packets);
    var circuits := NewCircuits(adds, base);
    VerdictExact(s, circuits, i);
    assert IsNew(s, circuits, i) <==> IsFirst(s, adds, i);
    if HeldFromDisk(s, adds, i) {
      assert HoldsKey(s, circuits, i, s.pending[InKey(circuits[i])]);
    }
  }

  /**
    When all packets are taken: an add is routed exactly if the commit succeeded and nothing held its key, and
    failed back exactly if a circuit loaded from disk and not yet opened holds it, or if the commit failed and
    nothing held it. In particular none whose circuit is open downstream is ever failed back.
   */
  lemma ForwardedExact(s: State, packets: seq<Packet>, base: nat, encodable: CircuitRecord -> bool, writeOk: bool, route: Router,
                       routed: seq<Packet>, failed: seq<Packet>, p: Packet)
    requires Forwarded(packets, BatchVerdicts(s, packets, base, encodable, writeOk), route, routed, failed, true)
    requires forall c :: c in s.fromDisk ==> c.id < base
    ensures var adds := Adds(packets);
      var err := CommitError(s, NewCircuits(adds, base), encodable, writeOk);
      && (p in routed <==>
          p in Responses(packets) || (err.None? && exists i :: 0 <= i < |adds| && adds[i] == p && IsFirst(s, adds, i)))
      && (p in failed <==>
          exists i :: 0 <= i < |adds| && adds[i] == p && (HeldFromDisk(s, adds, i) || (err.Some? && IsFirst(s, adds, i))))
  {
    var adds, vs := Adds(packets), BatchVerdicts(s, packets, base, encodable, writeOk);
    forall i | 0 <= i < |adds|
      ensures vs[i] == Add <==> CommitError(s, NewCircuits(adds, base), encodable, writeOk).None? && IsFirst(s, adds, i)
      ensures vs[i] == Fail <==>
              HeldFromDisk(s, adds, i) || (CommitError(s, NewCircuits(adds, base), encodable, writeOk).Some? && IsFirst(s, adds, i))
    {
      AddVerdict(s, packets, base, encodable, writeOk, i);
    }
    SelectedIff(adds, vs, Add, p);
    SelectedIff(adds, vs, Fail, p);
  }
}
