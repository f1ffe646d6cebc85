/**
  What the circuit map keeps.  `Valid` holds after every operation, whatever failed;
  `Coherent` says that memory and disk tell the same story, and is lost on exactly the
  two paths that leave a change in memory only.
 */
module CircuitInvariants {
  import opened Common
  import opened Verdicts
  import opened CircuitState

  ghost predicate Valid(s: State) {
    && (forall k :: k in s.pending ==> InKey(s.pending[k]) == k)
    && (forall k :: k in s.adds ==> s.adds[k].incoming == k && k in s.pending && s.pending[k].rec == s.adds[k])
    && EMPTY_KEY !in s.openedBy && EMPTY_KEY !in s.keystones && EMPTY_KEY !in s.outgoing.Values
  }

  /** Each opened circuit is the pending object with that same Outgoing key, and the other way round. */
  ghost predicate Linked(s: State) {
    && (forall o :: o in s.openedBy ==>
          && InKey(s.openedBy[o]) in s.pending && s.pending[InKey(s.openedBy[o])] == s.openedBy[o]
          && s.openedBy[o] in s.outgoing && s.outgoing[s.openedBy[o]] == o)
    && (forall k :: k in s.pending && s.pending[k] in s.outgoing ==>
          && s.outgoing[s.pending[k]] in s.openedBy
          && s.openedBy[s.outgoing[s.pending[k]]] == s.pending[k])
    && s.closed <= s.pending.Keys
  }

  /** Every opened circuit is found by its payment hash. */
  ghost predicate IndexComplete(s: State) {
    forall o :: o in s.openedBy ==> (s.openedBy[o].rec.paymentHash, o) in s.hashIndex
  }

  /** Nothing else is. */
  ghost predicate IndexSound(s: State) {
    forall h, o :: (h, o) in s.hashIndex ==> o in s.openedBy && s.openedBy[o].rec.paymentHash == h
  }

  /** The indexes equal the buckets. */
  ghost predicate Mirrored(s: State) {
    && s.pending.Keys == s.adds.Keys
    && s.openedBy.Keys == s.keystones.Keys
    && forall o :: o in s.openedBy ==> s.keystones[o] == InKey(s.openedBy[o])
  }

  ghost predicate Coherent(s: State) {
    Linked(s) && IndexComplete(s) && Mirrored(s)
  }

  /* ---------- CommitCircuits ---------- */

  ghost predicate DistinctKeys(circuits: seq<CircuitPtr>) {
    forall i, j :: 0 <= i < j < |circuits| ==> InKey(circuits[i]) != InKey(circuits[j])
  }

  /** Which keys are pending after n circuits, without naming the scan. */
  lemma {:induction false} ReconciledKeys(pending: map<CircuitKey, CircuitPtr>, batch: seq<CircuitPtr>, n: nat)
    requires n <= |batch|
    ensures forall k :: k in Reconciled(pending, batch, n) <==>
              k in pending || exists j :: 0 <= j < n && InKey(batch[j]) == k
    ensures forall k :: k in pending ==> Reconciled(pending, batch, n)[k] == pending[k]
    ensures forall k :: k in Reconciled(pending, batch, n) && k !in pending ==>
              Reconciled(pending, batch, n)[k] in batch && InKey(Reconciled(pending, batch, n)[k]) == k
  {
    if n > 0 {
      ReconciledKeys(pending, batch, n - 1);
    }
  }

  /** A circuit is added exactly when its key was not pending and no earlier circuit of the batch carries it. */
  lemma AddedIffFirst(s: State, batch: seq<CircuitPtr>, i: nat)
    requires i < |batch|
    ensures VerdictsOf(s, batch)[i] == Add <==>
            && InKey(batch[i]) !in s.pending
            && forall j :: 0 <= j < i ==> InKey(batch[j]) != InKey(batch[i])
  {
    ReconciledKeys(s.pending, batch, i);
  }

  lemma {:induction false} SelectedKeysDistinct(batch: seq<CircuitPtr>, vs: seq<Verdict>)
    requires |batch| == |vs|
    requires forall i, j :: 0 <= i < j < |batch| && vs[i] == Add && vs[j] == Add ==> InKey(batch[i]) != InKey(batch[j])
    ensures DistinctKeys(Select(batch, vs, Add))
  {
    if batch != [] {
      SelectedKeysDistinct(batch[1..], vs[1..]);
      if vs[0] == Add {
        var rest := Select(batch[1..], vs[1..], Add);
        forall j | 0 <= j < |rest|
          ensures InKey(rest[j]) != InKey(batch[0])
        {
          var i := SelectedAt(batch[1..], vs[1..], Add, rest[j]);
          assert batch[i + 1] == rest[j] && vs[i + 1] == Add;
        }
      }
    }
  }

  /** The added circuits have distinct keys, none of which was pending. */
  lemma AddsAreFresh(s: State, batch: seq<CircuitPtr>)
    ensures DistinctKeys(Added(s, batch)) && KeysOf(Added(s, batch)) !! s.pending.Keys
  {
    var vs := VerdictsOf(s, batch);
    forall i | 0 <= i < |batch|
      ensures vs[i] == Add <==>
              InKey(batch[i]) !in s.pending && forall j :: 0 <= j < i ==> InKey(batch[j]) != InKey(batch[i])
    {
      AddedIffFirst(s, batch, i);
    }
    SelectedKeysDistinct(batch, vs);
    forall c | c in Added(s, batch)
      ensures InKey(c) !in s.pending
    {
      var i := SelectedAt(batch, vs, Add, c);
    }
  }

  /** The pending index holds these very objects under their keys. */
  ghost predicate Holds(pending: map<CircuitKey, CircuitPtr>, circuits: seq<CircuitPtr>) {
    forall c :: c in circuits ==> InKey(c) in pending && pending[InKey(c)] == c
  }

  lemma KeysOfSnoc(batch: seq<CircuitPtr>, n: nat)
    requires 0 < n <= |batch|
    ensures batch[..n] == batch[..n - 1] + [batch[n - 1]]
    ensures KeysOf(batch[..n]) == KeysOf(batch[..n - 1]) + {InKey(batch[n - 1])}
  {
    assert batch[..n] == batch[..n - 1] + [batch[n - 1]];
  }

  lemma AddedStep(batch: seq<CircuitPtr>, vs: seq<Verdict>, n: nat)
    requires 0 < n <= |batch| == |vs|
    ensures Select(batch[..n], vs[..n], Add) ==
            Select(batch[..n - 1], vs[..n - 1], Add) + (if vs[n - 1] == Add then [batch[n - 1]] else [])
    ensures KeysOf(Select(batch[..n], vs[..n], Add)) ==
            KeysOf(Select(batch[..n - 1], vs[..n - 1], Add)) + (if vs[n - 1] == Add then {InKey(batch[n - 1])} else {})
  {
    assert batch[..n] == batch[..n - 1] + [batch[n - 1]] && vs[..n] == vs[..n - 1] + [vs[n - 1]];
    SelectSnoc(batch[..n - 1], vs[..n - 1], batch[n - 1], vs[n - 1], Add);
  }

  lemma HoldsMore(pending: map<CircuitKey, CircuitPtr>, circuits: seq<CircuitPtr>, c: CircuitPtr)
    requires Holds(pending, circuits) && InKey(c) !in pending
    ensures Holds(pending[InKey(c) := c], circuits + [c])
  {
  }

  /** Reconciling puts exactly the added circuits into the pending index. */
  lemma {:induction false} ReconciledAdds(s: State, batch: seq<CircuitPtr>, vs: seq<Verdict>, n: nat)
    requires n <= |batch| && vs == VerdictsOf(s, batch)
    ensures Reconciled(s.pending, batch, n).Keys == s.pending.Keys + KeysOf(Select(batch[..n], vs[..n], Add))
    ensures Holds(Reconciled(s.pending, batch, n), Select(batch[..n], vs[..n], Add))
  {
    if n > 0 {
      ReconciledAdds(s, batch, vs, n - 1);
      AddedStep(batch, vs, n);
      assert vs[n - 1] == VerdictAt(s, batch, n - 1);
      var before, added := Reconciled(s.pending, batch, n - 1), Select(batch[..n - 1], vs[..n - 1], Add);
      var r := Reconciled(s.pending, batch, n);
      if vs[n - 1] == Add {
        assert r == before[InKey(batch[n - 1]) := batch[n - 1]];
        HoldsMore(before, added, batch[n - 1]);
      } else {
        assert r == before && added + [] == added;
      }
    }
  }

  /** The bucket holds the records of these circuits. */
  ghost predicate Records(bucket: map<CircuitKey, CircuitRecord>, circuits: seq<CircuitPtr>) {
    forall c :: c in circuits ==> InKey(c) in bucket && bucket[InKey(c)] == c.rec
  }

  lemma {:induction false} PutCircuitsKeys(adds: map<CircuitKey, CircuitRecord>, batch: seq<CircuitPtr>, n: nat)
    requires n <= |batch|
    ensures PutCircuits(adds, batch, n).Keys == adds.Keys + KeysOf(batch[..n])
  {
    if n > 0 {
      PutCircuitsKeys(adds, batch, n - 1);
      KeysOfSnoc(batch, n);
    }
  }

  lemma {:induction false} PutCircuitsAt(adds: map<CircuitKey, CircuitRecord>, batch: seq<CircuitPtr>, n: nat, i: nat)
    requires i < n <= |batch| && DistinctKeys(batch)
    ensures var r := PutCircuits(adds, batch, n); InKey(batch[i]) in r && r[InKey(batch[i])] == batch[i].rec
  {
    if i < n - 1 {
      PutCircuitsAt(adds, batch, n - 1, i);
    }
  }

  lemma {:induction false} PutCircuitsElse(adds: map<CircuitKey, CircuitRecord>, batch: seq<CircuitPtr>, n: nat, k: CircuitKey)
    requires n <= |batch| && k in adds && forall i :: 0 <= i < n ==> InKey(batch[i]) != k
    ensures var r := PutCircuits(adds, batch, n); k in r && r[k] == adds[k]
  {
    if n > 0 {
      PutCircuitsElse(adds, batch, n - 1, k);
    }
  }

  lemma PutCircuitsFacts(adds: map<CircuitKey, CircuitRecord>, batch: seq<CircuitPtr>)
    requires DistinctKeys(batch)
    ensures PutCircuits(adds, batch, |batch|).Keys == adds.Keys + KeysOf(batch)
    ensures Records(PutCircuits(adds, batch, |batch|), batch)
    ensures forall k :: k in adds && k !in KeysOf(batch) ==> PutCircuits(adds, batch, |batch|)[k] == adds[k]
  {
    PutCircuitsKeys(adds, batch, |batch|);
    assert batch[..|batch|] == batch;
    forall i | 0 <= i < |batch|
      ensures InKey(batch[i]) in PutCircuits(adds, batch, |batch|)
      ensures PutCircuits(adds, batch, |batch|)[InKey(batch[i])] == batch[i].rec
    {
      PutCircuitsAt(adds, batch, |batch|, i);
    }
    forall k | k in adds && k !in KeysOf(batch)
      ensures PutCircuits(adds, batch, |batch|)[k] == adds[k]
    {
      PutCircuitsElse(adds, batch, |batch|, k);
    }
  }

  /** A commit in terms of the added circuits alone. */
  lemma CommitFacts(s: State, batch: seq<CircuitPtr>)
    ensures var added := Added(s, batch);
      var r := Reconciled(s.pending, batch, |batch|);
      var bucket := PutCircuits(s.adds, added, |added|);
      && KeysOf(added) !! s.pending.Keys
      && r.Keys == s.pending.Keys + KeysOf(added)
      && (forall k :: k in s.pending ==> r[k] == s.pending[k])
      && (forall c :: c in added ==> r[InKey(c)] == c)
      && bucket.Keys == s.adds.Keys + KeysOf(added)
      && (forall c :: c in added ==> bucket[InKey(c)] == c.rec)
      && (forall k :: k in s.adds && k !in KeysOf(added) ==> bucket[k] == s.adds[k])
  {
    var added := Added(s, batch);
    AddsAreFresh(s, batch);
    ReconciledKeys(s.pending, batch, |batch|);
    var vs := VerdictsOf(s, batch);
    ReconciledAdds(s, batch, vs, |batch|);
    assert batch[..|batch|] == batch && vs[..|batch|] == vs;
    PutCircuitsFacts(s.adds, added);
  }

  lemma CommitKeepsValid(s: State, batch: seq<CircuitPtr>, err: Option<Error>)
    requires Valid(s)
    ensures Valid(Commit(s, batch, err))
  {
    CommitFacts(s, batch);
    var added := Added(s, batch);
    var r := Reconciled(s.pending, batch, |batch|);
    forall k | k in KeysOf(added)
      ensures InKey(r[k]) == k && r[k] in added
    {
      var c :| c in added && InKey(c) == k;
    }
    var bucket := PutCircuits(s.adds, added, |added|);
    forall k | k in bucket
      ensures k in r && r[k].rec == bucket[k] && bucket[k].incoming == k
    {
    }
  }

  /** New pending circuits without a keystone do not disturb the links. */
  lemma LinkedExtends(s: State, r: State)
    requires Linked(s) && r == s.(pending := r.pending, adds := r.adds)
    requires forall k :: k in s.pending ==> k in r.pending && r.pending[k] == s.pending[k]
    requires forall k :: k in r.pending && k !in s.pending ==> r.pending[k] !in s.outgoing
    ensures Linked(r)
  {
  }

  lemma CommitKeepsLinks(s: State, batch: seq<CircuitPtr>, err: Option<Error>)
    requires Valid(s) && Linked(s) && IndexComplete(s)
    requires forall c :: c in batch ==> c !in s.outgoing
    ensures Linked(Commit(s, batch, err)) && IndexComplete(Commit(s, batch, err))
  {
    ReconciledKeys(s.pending, batch, |batch|);
    LinkedExtends(s, Commit(s, batch, err));
  }

  /** The adds bucket follows memory unless the adds stayed in memory alone. */
  lemma CommitMirrors(s: State, batch: seq<CircuitPtr>, err: Option<Error>)
    requires Mirrored(s)
    ensures Mirrored(Commit(s, batch, err)) <==> !(err == Some(ErrEncode) && Added(s, batch) != [])
  {
    var added := Added(s, batch);
    CommitFacts(s, batch);
    if err == Some(ErrEncode) && added != [] {
      assert InKey(added[0]) in KeysOf(added);
    }
  }

  /** Coherence survives a commit unless it stopped at a circuit that does not serialize. */
  lemma CommitCoherence(s: State, batch: seq<CircuitPtr>, encodable: CircuitRecord -> bool, writeOk: bool)
    requires Valid(s) && Coherent(s)
    requires forall c :: c in batch ==> c !in s.outgoing
    ensures var err := CommitError(s, batch, encodable, writeOk);
      Coherent(Commit(s, batch, err)) <==> err != Some(ErrEncode)
  {
    var err := CommitError(s, batch, encodable, writeOk);
    CommitKeepsLinks(s, batch, err);
    CommitMirrors(s, batch, err);
  }

  /* ---------- OpenCircuits ---------- */

  /** The last of the first n keystones for outgoing key o. */
  ghost function LastOut(ks: seq<Keystone>, n: nat, o: CircuitKey): (r: Option<nat>)
    requires n <= |ks|
    ensures r.Some? ==> r.value < n && ks[r.value].outKey == o && forall j :: r.value < j < n ==> ks[j].outKey != o
    ensures r.None? ==> forall j :: 0 <= j < n ==> ks[j].outKey != o
  {
    if n == 0 then None else if ks[n - 1].outKey == o then Some(n - 1) else LastOut(ks, n - 1, o)
  }

  /** The last of the first n keystones for incoming key k. */
  ghost function LastIn(ks: seq<Keystone>, n: nat, k: CircuitKey): (r: Option<nat>)
    requires n <= |ks|
    ensures r.Some? ==> r.value < n && ks[r.value].inKey == k && forall j :: r.value < j < n ==> ks[j].inKey != k
    ensures r.None? ==> forall j :: 0 <= j < n ==> ks[j].inKey != k
  {
    if n == 0 then None else if ks[n - 1].inKey == k then Some(n - 1) else LastIn(ks, n - 1, k)
  }

  /**
    The batch pairs circuits and outgoing keys one to one: a keystone is the last for its
    circuit exactly when it is the last for its outgoing key.  Distinct keys are the ordinary case.
   */
  ghost predicate Pairs(ks: seq<Keystone>) {
    forall i :: 0 <= i < |ks| ==>
      (LastOut(ks, |ks|, ks[i].outKey) == Some(i) <==> LastIn(ks, |ks|, ks[i].inKey) == Some(i))
  }

  /** No circuit of the batch has a keystone yet. */
  ghost predicate Unopened(s: State, ks: seq<Keystone>)
    requires Known(s, ks)
  {
    forall i :: 0 <= i < |ks| ==> s.pending[ks[i].inKey] !in s.outgoing
  }

  /** After n keystones the last one for o decides what o opens. */
  lemma {:induction false} OpenedAt(s: State, ks: seq<Keystone>, n: nat, o: CircuitKey)
    requires n <= |ks| && Known(s, ks)
    ensures var r := OpenAll(s, ks, n);
      match LastOut(ks, n, o)
      case Some(i) => && o in r.openedBy && r.openedBy[o] == s.pending[ks[i].inKey]
                      && o in r.keystones && r.keystones[o] == ks[i].inKey
      case None => && (o in r.openedBy <==> o in s.openedBy) && (o in s.openedBy ==> r.openedBy[o] == s.openedBy[o])
                   && (o in r.keystones <==> o in s.keystones) && (o in s.keystones ==> r.keystones[o] == s.keystones[o])
  {
    if n > 0 {
      OpenedAt(s, ks, n - 1, o);
    }
  }

  /** After n keystones the last one for k decides the Outgoing key of its circuit. */
  lemma {:induction false} OutgoingAt(s: State, ks: seq<Keystone>, n: nat, k: CircuitKey)
    requires n <= |ks| && Known(s, ks) && k in s.pending && forall j :: j in s.pending ==> InKey(s.pending[j]) == j
    ensures var r := OpenAll(s, ks, n);
      var c := s.pending[k];
      match LastIn(ks, n, k)
      case Some(i) => c in r.outgoing && r.outgoing[c] == ks[i].outKey
      case None => (c in r.outgoing <==> c in s.outgoing) && (c in s.outgoing ==> r.outgoing[c] == s.outgoing[c])
  {
    if n > 0 {
      OutgoingAt(s, ks, n - 1, k);
    }
  }

  lemma {:induction false} OpenKeepsIndex(s: State, ks: seq<Keystone>, n: nat)
    requires n <= |ks| && Known(s, ks) && IndexComplete(s)
    ensures IndexComplete(OpenAll(s, ks, n)) && s.hashIndex <= OpenAll(s, ks, n).hashIndex
  {
    if n > 0 {
      OpenKeepsIndex(s, ks, n - 1);
    }
  }

  lemma OpenMirrors(s: State, ks: seq<Keystone>)
    requires Known(s, ks) && Valid(s) && Mirrored(s)
    ensures Mirrored(OpenAll(s, ks, |ks|))
  {
    var r := OpenAll(s, ks, |ks|);
    forall o
      ensures o in r.openedBy <==> o in r.keystones
      ensures o in r.openedBy ==> r.keystones[o] == InKey(r.openedBy[o])
    {
      OpenedAt(s, ks, |ks|, o);
    }
  }

  /** Opening unopened circuits under new keys, one to one, keeps the links. */
  lemma OpenKeepsLinks(s: State, ks: seq<Keystone>)
    requires Known(s, ks) && Valid(s) && Linked(s)
    requires forall i :: 0 <= i < |ks| ==> ks[i].outKey !in s.openedBy
    requires Unopened(s, ks) && Pairs(ks)
    ensures Linked(OpenAll(s, ks, |ks|))
  {
    var r := OpenAll(s, ks, |ks|);
    forall o | o in r.openedBy
      ensures && InKey(r.openedBy[o]) in r.pending && r.pending[InKey(r.openedBy[o])] == r.openedBy[o]
              && r.openedBy[o] in r.outgoing && r.outgoing[r.openedBy[o]] == o
    {
      OpenedAt(s, ks, |ks|, o);
      var k := match LastOut(ks, |ks|, o) case Some(i) => ks[i].inKey case None => InKey(s.openedBy[o]);
      OutgoingAt(s, ks, |ks|, k);
    }
    forall k | k in r.pending && r.pending[k] in r.outgoing
      ensures r.outgoing[r.pending[k]] in r.openedBy && r.openedBy[r.outgoing[r.pending[k]]] == r.pending[k]
    {
      OutgoingAt(s, ks, |ks|, k);
      OpenedAt(s, ks, |ks|, r.outgoing[r.pending[k]]);
    }
  }

  /** If the links survive, the circuits were unopened. */
  lemma LinksNeedUnopened(s: State, ks: seq<Keystone>)
    requires Known(s, ks) && Valid(s) && Linked(s)
    requires forall i :: 0 <= i < |ks| ==> ks[i].outKey !in s.openedBy
    requires Linked(OpenAll(s, ks, |ks|))
    ensures Unopened(s, ks)
  {
    forall i | 0 <= i < |ks|
      ensures s.pending[ks[i].inKey] !in s.outgoing
    {
      if s.pending[ks[i].inKey] in s.outgoing {
        OpenedAt(s, ks, |ks|, s.outgoing[s.pending[ks[i].inKey]]);
        OutgoingAt(s, ks, |ks|, ks[i].inKey);
      }
    }
  }

  /** If the links survive, the batch was one to one. */
  lemma LastForBoth(s: State, ks: seq<Keystone>, i: nat)
    requires i < |ks| && Known(s, ks) && Valid(s)
    requires Linked(OpenAll(s, ks, |ks|))
    ensures LastOut(ks, |ks|, ks[i].outKey) == Some(i) <==> LastIn(ks, |ks|, ks[i].inKey) == Some(i)
  {
    var r := OpenAll(s, ks, |ks|);
    var c := s.pending[ks[i].inKey];
    OpenedAt(s, ks, |ks|, ks[i].outKey);
    OutgoingAt(s, ks, |ks|, ks[i].inKey);
    if LastOut(ks, |ks|, ks[i].outKey) == Some(i) {
      assert r.outgoing[r.openedBy[ks[i].outKey]] == ks[i].outKey;
    }
    if LastIn(ks, |ks|, ks[i].inKey) == Some(i) {
      assert r.pending[ks[i].inKey] == c && r.outgoing[c] == ks[i].outKey;
      assert InKey(r.openedBy[ks[i].outKey]) == ks[i].inKey;
    }
  }

  lemma LinksNeedPairs(s: State, ks: seq<Keystone>)
    requires Known(s, ks) && Valid(s)
    requires Linked(OpenAll(s, ks, |ks|))
    ensures Pairs(ks)
  {
    forall i | 0 <= i < |ks|
      ensures LastOut(ks, |ks|, ks[i].outKey) == Some(i) <==> LastIn(ks, |ks|, ks[i].inKey) == Some(i)
    {
      LastForBoth(s, ks, i);
    }
  }

  /** A successful open keeps coherence exactly when its circuits were unopened and the batch is one to one. */
  lemma OpenCoherence(s: State, ks: seq<Keystone>)
    requires Valid(s) && Coherent(s) && OpenResult(s, ks, true).None?
    ensures Known(s, ks)
    ensures Coherent(Open(s, ks, true)) <==> Unopened(s, ks) && Pairs(ks)
  {
    CheckedAreKnown(s, ks, |ks|);
    OpenMirrors(s, ks);
    OpenKeepsIndex(s, ks, |ks|);
    if Unopened(s, ks) && Pairs(ks) {
      OpenKeepsLinks(s, ks);
    }
    if Linked(OpenAll(s, ks, |ks|)) {
      LinksNeedUnopened(s, ks);
      LinksNeedPairs(s, ks);
    }
  }

  /** Each outgoing key of the batch belongs to one circuit. */
  ghost predicate OneCircuitPerKey(ks: seq<Keystone>) {
    forall i, j :: 0 <= i < |ks| && 0 <= j < |ks| && ks[i].outKey == ks[j].outKey ==> ks[i].inKey == ks[j].inKey
  }

  lemma {:induction false} OpenKeepsIndexSound(s: State, ks: seq<Keystone>, n: nat)
    requires n <= |ks| && Known(s, ks) && IndexSound(s) && OneCircuitPerKey(ks)
    requires forall i :: 0 <= i < |ks| ==> ks[i].outKey !in s.openedBy
    ensures IndexSound(OpenAll(s, ks, n))
  {
    if n > 0 {
      OpenKeepsIndexSound(s, ks, n - 1);
      OpenedAt(s, ks, n - 1, ks[n - 1].outKey);
    }
  }

  /** The lookup finds every opened circuit with the hash, and nothing else while the index is sound. */
  lemma LookupExact(s: State, h: Hash, c: CircuitPtr)
    requires IndexComplete(s)
    ensures (exists o :: o in s.openedBy && s.openedBy[o] == c && c.rec.paymentHash == h) ==> c in Lookup(s, h)
    ensures IndexSound(s) && c in Lookup(s, h) ==> exists o :: o in s.openedBy && s.openedBy[o] == c && c.rec.paymentHash == h
  {
    if o :| o in s.openedBy && s.openedBy[o] == c && c.rec.paymentHash == h {
      assert (h, o) in s.hashIndex;
    }
  }

  lemma {:induction false} OpenKeepsValid(s: State, ks: seq<Keystone>, n: nat)
    requires Valid(s) && n <= |ks| && Known(s, ks)
    requires forall i :: 0 <= i < |ks| ==> ks[i].outKey != EMPTY_KEY
    ensures Valid(OpenAll(s, ks, n))
  {
    if n > 0 {
      OpenKeepsValid(s, ks, n - 1);
    }
  }

  /* ---------- TrimOpenCircuits ---------- */

  const MAX_ID: uint64 := 0xFFFF_FFFF_FFFF_FFFF

  /** The keys of the channel from i upwards. */
  ghost function Upward(open: set<CircuitKey>, chanID: uint64, i: uint64): (r: set<CircuitKey>) {
    set o | o in open && o.chanID == chanID && o.htlcID >= i
  }

  /** Outgoing HTLC IDs are assigned in order: no gap below an opened ID. */
  ghost predicate Contiguous(open: set<CircuitKey>, chanID: uint64, i: uint64) {
    forall o :: o in Upward(open, chanID, i) ==> forall j: uint64 :: i <= j <= o.htlcID ==> CircuitKey(chanID, j) in open
  }

  /** The scan stops at the first gap. */
  lemma {:induction false} TrimStopsAtGap(open: set<CircuitKey>, chanID: uint64, i: uint64, gap: uint64)
    requires i <= gap && CircuitKey(chanID, gap) !in open
    ensures forall o :: o in TrimRun(open, chanID, i) ==> o.chanID == chanID && i <= o.htlcID < gap
    decreases |open|
  {
    var outKey := CircuitKey(chanID, i);
    if outKey in open {
      assert |open - {outKey}| == |open| - 1;
      TrimStopsAtGap(open - {outKey}, chanID, NextID(i), gap);
    }
  }

  /** The scan only takes keys of its channel; from a positive ID it stays above unless key 0 is there to wrap to. */
  lemma {:induction false} TrimStaysAbove(open: set<CircuitKey>, chanID: uint64, i: uint64)
    ensures forall o :: o in TrimRun(open, chanID, i) ==> o.chanID == chanID
    ensures CircuitKey(chanID, 0) !in open ==> forall o :: o in TrimRun(open, chanID, i) ==> i <= o.htlcID
    decreases |open|
  {
    var outKey := CircuitKey(chanID, i);
    if outKey in open {
      assert |open - {outKey}| == |open| - 1;
      TrimStaysAbove(open - {outKey}, chanID, NextID(i));
    }
  }

  /** It reaches every ID it can walk to without a gap. */
  lemma {:induction false} TrimReaches(open: set<CircuitKey>, chanID: uint64, i: uint64, j: uint64)
    requires i <= j && forall m: uint64 :: i <= m <= j ==> CircuitKey(chanID, m) in open
    ensures CircuitKey(chanID, j) in TrimRun(open, chanID, i)
    decreases j - i
  {
    if i < j {
      TrimReaches(open - {CircuitKey(chanID, i)}, chanID, i + 1, j);
    }
  }

  /** From the largest ID it wraps around to key 0. */
  lemma {:induction false} TrimWraps(open: set<CircuitKey>, chanID: uint64, i: uint64)
    requires 0 < i && CircuitKey(chanID, 0) in open
    requires forall m: uint64 :: i <= m ==> CircuitKey(chanID, m) in open
    ensures CircuitKey(chanID, 0) in TrimRun(open, chanID, i)
    decreases MAX_ID - i
  {
    if i < MAX_ID {
      TrimWraps(open - {CircuitKey(chanID, i)}, chanID, i + 1);
    }
  }

  /** The keys from `start` upwards have no gap, and should they reach the largest ID, key 0 is not below `start`. */
  ghost predicate Trimmable(open: set<CircuitKey>, chanID: uint64, start: uint64) {
    && Contiguous(open, chanID, start)
    && (CircuitKey(chanID, MAX_ID) in open && start > 0 ==> CircuitKey(chanID, 0) !in open)
  }

  /** A trim takes exactly the keys of the channel from `start` upwards if and only if they are trimmable. */
  lemma {:induction false} TrimExact(open: set<CircuitKey>, chanID: uint64, start: uint64)
    ensures TrimRun(open, chanID, start) == Upward(open, chanID, start) <==> Trimmable(open, chanID, start)
  {
    TrimStaysAbove(open, chanID, start);
    if Contiguous(open, chanID, start) {
      forall o | o in Upward(open, chanID, start)
        ensures o in TrimRun(open, chanID, start)
      {
        TrimReaches(open, chanID, start, o.htlcID);
      }
      if CircuitKey(chanID, MAX_ID) !in open {
        TrimStopsAtGap(open, chanID, start, MAX_ID);
      } else if start > 0 && CircuitKey(chanID, 0) in open {
        assert CircuitKey(chanID, MAX_ID) in Upward(open, chanID, start);
        TrimWraps(open, chanID, start);
      }
    } else {
      var o :| o in Upward(open, chanID, start) && !forall j: uint64 :: start <= j <= o.htlcID ==> CircuitKey(chanID, j) in open;
      var gap: uint64 :| start <= gap <= o.htlcID && CircuitKey(chanID, gap) !in open;
      TrimStopsAtGap(open, chanID, start, gap);
    }
  }

  lemma TrimKeepsValid(s: State, chanID: uint64, start: uint64, writeOk: bool)
    requires Valid(s)
    ensures Valid(Trim(s, chanID, start, writeOk))
  {
  }

  lemma TrimKeepsLinks(s: State, chanID: uint64, start: uint64, writeOk: bool)
    requires Valid(s) && Linked(s) && IndexComplete(s)
    ensures Linked(Trim(s, chanID, start, writeOk)) && IndexComplete(Trim(s, chanID, start, writeOk))
  {
  }

  /** Coherence survives a trim exactly when the write succeeded or there was nothing to trim. */
  lemma TrimCoherence(s: State, chanID: uint64, start: uint64, writeOk: bool)
    requires Valid(s) && Coherent(s)
    ensures Coherent(Trim(s, chanID, start, writeOk)) <==> writeOk || TrimRun(s.openedBy.Keys, chanID, start) == {}
  {
    TrimKeepsLinks(s, chanID, start, writeOk);
  }

  /** A trim leaves stale hash index entries exactly when it trims something. */
  lemma TrimIndexSound(s: State, chanID: uint64, start: uint64, writeOk: bool)
    requires Valid(s) && IndexComplete(s) && IndexSound(s)
    ensures IndexSound(Trim(s, chanID, start, writeOk)) <==> TrimRun(s.openedBy.Keys, chanID, start) == {}
  {
    var run := TrimRun(s.openedBy.Keys, chanID, start);
    if run != {} {
      var o :| o in run;
      assert (s.openedBy[o].rec.paymentHash, o) in s.hashIndex;
    }
  }

  lemma OpenSingle(s: State, k: CircuitKey, o: CircuitKey)
    requires k in s.pending && o !in s.openedBy
    ensures Open(s, [Keystone(k, o)], true) == OpenOne(s, Keystone(k, o))
  {
    var ks := [Keystone(k, o)];
    assert OpenError(s, ks, 0).None? && OpenError(s, ks, 1).None?;
    assert OpenAll(s, ks, 1) == OpenOne(OpenAll(s, ks, 0), ks[0]);
  }

  /**
    The entry left behind misleads once its key is reused: after a trim and a new open of the
    same outgoing key, a lookup by the old payment hash returns the new circuit.
   */
  lemma StaleEntryMisleads(s: State, chanID: uint64, start: uint64, o: CircuitKey, k: CircuitKey)
    requires Valid(s) && Coherent(s) && o in TrimRun(s.openedBy.Keys, chanID, start)
    requires k in s.pending && s.pending[k] !in s.outgoing
    ensures s.pending[k] in Lookup(Open(Trim(s, chanID, start, true), [Keystone(k, o)], true), s.openedBy[o].rec.paymentHash)
  {
    var t := Trim(s, chanID, start, true);
    OpenSingle(t, k, o);
    assert (s.openedBy[o].rec.paymentHash, o) in t.hashIndex;
  }

  /* ---------- DeleteCircuits ---------- */

  /** Putting back never adds anything but removed circuits under their own keystone. */
  lemma {:induction false} PutBackWithin(outgoing: map<CircuitPtr, CircuitKey>, openedBy: map<CircuitKey, CircuitPtr>,
                                         removed: map<CircuitKey, CircuitPtr>, order: seq<CircuitKey>, n: nat)
    requires n <= |order| && forall k :: k in order ==> k in removed
    ensures var r := PutBack(outgoing, openedBy, removed, order, n);
      && (forall o :: o in openedBy ==> o in r)
      && (forall o :: o in r ==>
            || (o in openedBy && r[o] == openedBy[o])
            || exists k :: k in removed && r[o] == removed[k] && r[o] in outgoing && outgoing[r[o]] == o)
      && (forall i :: 0 <= i < n && removed[order[i]] in outgoing ==> outgoing[removed[order[i]]] in r)
  {
    if n > 0 {
      PutBackWithin(outgoing, openedBy, removed, order, n - 1);
    }
  }

  /** A delete whose write fails restores every index exactly. */
  lemma FailedDeleteRestores(s: State, inKeys: seq<CircuitKey>, order: seq<CircuitKey>)
    requires Linked(s) && IndexComplete(s) && Lists(order, Removed(s, inKeys).Keys)
    ensures Delete(s, inKeys, false, order) == s
  {
    var removed := Removed(s, inKeys);
    var base := s.openedBy - OutKeys(s.outgoing, removed);
    var r := PutBack(s.outgoing, base, removed, order, |order|);
    PutBackWithin(s.outgoing, base, removed, order, |order|);
    forall o | o in s.openedBy
      ensures o in r
    {
      if o in OutKeys(s.outgoing, removed) {
        var k :| k in removed && removed[k] in s.outgoing && s.outgoing[removed[k]] == o;
        var i :| 0 <= i < |order| && order[i] == k;
        assert s.outgoing[removed[order[i]]] in r;
      } else {
        assert o in base;
      }
    }
    assert r == s.openedBy;
    assert s.hashIndex + Entries(s.outgoing, removed) == s.hashIndex;
  }

  lemma DeleteKeepsValid(s: State, inKeys: seq<CircuitKey>, writeOk: bool, order: seq<CircuitKey>)
    requires Valid(s) && Lists(order, Removed(s, inKeys).Keys)
    ensures Valid(Delete(s, inKeys, writeOk, order))
  {
    var removed := Removed(s, inKeys);
    PutBackWithin(s.outgoing, s.openedBy - OutKeys(s.outgoing, removed), removed, order, |order|);
  }

  lemma DeleteKeepsLinks(s: State, inKeys: seq<CircuitKey>, order: seq<CircuitKey>)
    requires Valid(s) && Linked(s) && IndexComplete(s) && Lists(order, Removed(s, inKeys).Keys)
    ensures Linked(Delete(s, inKeys, true, order)) && IndexComplete(Delete(s, inKeys, true, order))
  {
    var r := Delete(s, inKeys, true, order);
    var removed := Removed(s, inKeys);
    forall o | o in r.openedBy
      ensures InKey(r.openedBy[o]) !in removed && (r.openedBy[o].rec.paymentHash, o) in r.hashIndex
    {
    }
    forall k | k in r.pending && r.pending[k] in r.outgoing
      ensures r.outgoing[r.pending[k]] in r.openedBy
    {
    }
  }

  /** Coherence survives every delete, successful or not. */
  lemma DeleteCoherence(s: State, inKeys: seq<CircuitKey>, writeOk: bool, order: seq<CircuitKey>)
    requires Valid(s) && Coherent(s) && Lists(order, Removed(s, inKeys).Keys)
    ensures Coherent(Delete(s, inKeys, writeOk, order))
    ensures IndexSound(s) ==> IndexSound(Delete(s, inKeys, writeOk, order))
  {
    if writeOk {
      DeleteKeepsLinks(s, inKeys, order);
      DeleteKeepsIndexSound(s, inKeys, order);
    } else {
      FailedDeleteRestores(s, inKeys, order);
    }
  }

  lemma DeleteKeepsIndexSound(s: State, inKeys: seq<CircuitKey>, order: seq<CircuitKey>)
    requires Valid(s) && Linked(s) && Lists(order, Removed(s, inKeys).Keys)
    ensures IndexSound(s) ==> IndexSound(Delete(s, inKeys, true, order))
  {
    var removed := Removed(s, inKeys);
    if IndexSound(s) {
      forall h, o | (h, o) in s.hashIndex && o in OutKeys(s.outgoing, removed)
        ensures (h, o) in Entries(s.outgoing, removed)
      {
        var k :| k in removed && removed[k] in s.outgoing && s.outgoing[removed[k]] == o;
        assert s.openedBy[o] == removed[k];
      }
    }
  }

  /* ---------- startup ---------- */

  /** What every operation leaves on disk. */
  ghost predicate DiskValid(s: State) {
    (forall k :: k in s.adds ==> s.adds[k].incoming == k) && EMPTY_KEY !in s.keystones
  }

  /** Every keystone names a circuit, and no two name the same. */
  ghost predicate DiskCoherent(s: State) {
    && (forall o :: o in s.keystones ==> s.keystones[o] in s.adds)
    && (forall o, p :: o in s.keystones && p in s.keystones && s.keystones[o] == s.keystones[p] ==> o == p)
  }

  lemma CoherentDisk(s: State)
    requires Valid(s) && Coherent(s)
    ensures DiskValid(s) && DiskCoherent(s)
  {
    forall o, p | o in s.keystones && p in s.keystones && s.keystones[o] == s.keystones[p]
      ensures o == p
    {
      assert s.openedBy[o] == s.openedBy[p];
    }
  }

  /** Cleaning up after closed channels leaves no keystone without its circuit. */
  lemma CleanKeepsDisk(s: State, closedChans: set<uint64>)
    requires DiskValid(s)
    ensures DiskValid(Clean(s, closedChans))
    ensures DiskCoherent(s) ==> DiskCoherent(Clean(s, closedChans))
  {
    var r := Clean(s, closedChans);
    if DiskCoherent(s) {
      forall o | o in r.keystones
        ensures r.keystones[o] in r.adds
      {
      }
    }
  }

  /** Keystone o of the bucket names the circuit loaded as c. */
  ghost predicate Names(adds: map<CircuitKey, CircuitRecord>, keystones: map<CircuitKey, CircuitKey>, o: CircuitKey, c: CircuitPtr) {
    o in keystones && keystones[o] in adds && Loaded(adds[keystones[o]]) == c
  }

  /** Every Outgoing key comes from a keystone naming that circuit. */
  ghost predicate AllNamed(adds: map<CircuitKey, CircuitRecord>, keystones: map<CircuitKey, CircuitKey>,
                           outgoing: map<CircuitPtr, CircuitKey>) {
    forall c :: c in outgoing ==> Names(adds, keystones, outgoing[c], c)
  }

  /** The loaded circuits that get a keystone, and where it comes from. */
  lemma {:induction false} ResurrectedFrom(adds: map<CircuitKey, CircuitRecord>, keystones: map<CircuitKey, CircuitKey>,
                                           order: seq<CircuitKey>, n: nat)
    requires n <= |order| && forall o :: o in order ==> o in keystones
    ensures AllNamed(adds, keystones, Resurrected(adds, keystones, order, n))
    ensures forall i :: 0 <= i < n && keystones[order[i]] in adds ==>
              Loaded(adds[keystones[order[i]]]) in Resurrected(adds, keystones, order, n)
  {
    if n > 0 {
      ResurrectedFrom(adds, keystones, order, n - 1);
      assert order[n - 1] in order;
    }
  }

  lemma RestoreValid(s: State, order: seq<CircuitKey>)
    requires DiskValid(s) && forall o :: o in order ==> o in s.keystones
    ensures Valid(Restore(s, order))
  {
    ResurrectedFrom(s.adds, s.keystones, order, |order|);
    var r := Restore(s, order);
    forall c | c in r.outgoing
      ensures r.outgoing[c] != EMPTY_KEY
    {
      assert Names(s.adds, s.keystones, r.outgoing[c], c);
    }
  }

  /** Among the keystones whose circuit exists, no two name the same circuit. */
  ghost predicate KeystonesUnique(s: State) {
    forall o, p :: o in s.keystones && p in s.keystones && s.keystones[o] == s.keystones[p] && s.keystones[o] in s.adds ==> o == p
  }

  /** Each restored object carries one of the keystones that name its circuit. */
  lemma RestoredKeystone(s: State, order: seq<CircuitKey>, o: CircuitKey)
    requires DiskValid(s) && Lists(order, s.keystones.Keys) && o in Restore(s, order).openedBy
    ensures var r := Restore(s, order);
      var c := r.openedBy[o];
      && c in r.outgoing && r.outgoing[c] in r.openedBy && r.openedBy[r.outgoing[c]] == c
      && s.keystones[r.outgoing[c]] == s.keystones[o]
  {
    ResurrectedFrom(s.adds, s.keystones, order, |order|);
    assert o in order;
    var c := Loaded(s.adds[s.keystones[o]]);
    assert s.adds[s.keystones[o]].incoming == s.keystones[o];
  }

  lemma RestoreLinks(s: State, order: seq<CircuitKey>)
    requires DiskValid(s) && Lists(order, s.keystones.Keys) && KeystonesUnique(s)
    ensures Linked(Restore(s, order)) && IndexComplete(Restore(s, order)) && IndexSound(Restore(s, order))
  {
    var r := Restore(s, order);
    forall o | o in r.openedBy
      ensures r.openedBy[o] in r.outgoing && r.outgoing[r.openedBy[o]] == o
    {
      RestoredKeystone(s, order, o);
    }
    ResurrectedFrom(s.adds, s.keystones, order, |order|);
    forall k | k in r.pending && r.pending[k] in r.outgoing
      ensures r.outgoing[r.pending[k]] in r.openedBy && r.openedBy[r.outgoing[r.pending[k]]] == r.pending[k]
    {
      assert Names(s.adds, s.keystones, r.outgoing[r.pending[k]], r.pending[k]);
    }
  }

  lemma LinksNeedUniqueKeystones(s: State, order: seq<CircuitKey>)
    requires DiskValid(s) && Lists(order, s.keystones.Keys) && Linked(Restore(s, order))
    ensures KeystonesUnique(s)
  {
    var r := Restore(s, order);
    forall o, p | o in s.keystones && p in s.keystones && s.keystones[o] == s.keystones[p] && s.keystones[o] in s.adds
      ensures o == p
    {
      assert r.openedBy[o] == r.openedBy[p];
    }
  }

  /**
    A restart re-establishes coherence exactly when no two keystones name the same circuit and
    the only stray keystones are those of the zero channel, which it prunes.
   */
  lemma RestoreCoherence(s: State, order: seq<CircuitKey>)
    requires DiskValid(s) && Lists(order, s.keystones.Keys)
    ensures Coherent(Restore(s, order)) <==>
            KeystonesUnique(s) && forall o :: o in s.keystones && Stray(s, o) ==> o.chanID == SOURCE
  {
    var r := Restore(s, order);
    if KeystonesUnique(s) {
      RestoreLinks(s, order);
    }
    if Linked(r) {
      LinksNeedUniqueKeystones(s, order);
    }
    RestoreMirrors(s, order);
  }

  lemma RestoreMirrors(s: State, order: seq<CircuitKey>)
    requires DiskValid(s) && forall o :: o in order ==> o in s.keystones
    ensures Mirrored(Restore(s, order)) <==> forall o :: o in s.keystones && Stray(s, o) ==> o.chanID == SOURCE
  {
    var r := Restore(s, order);
    assert forall o :: o in r.openedBy <==> o in s.keystones && !Stray(s, o);
    assert forall o :: o in r.keystones <==> o in s.keystones && !(Stray(s, o) && o.chanID == SOURCE);
  }

  lemma {:induction false} TrimAllValid(s: State, chans: seq<Channel>, n: nat)
    requires Valid(s) && n <= |chans|
    ensures Valid(TrimAll(s, chans, n).0)
    ensures TrimAll(s, chans, n).0.adds == s.adds
  {
    if n > 0 {
      TrimAllValid(s, chans, n - 1);
    }
  }

  lemma {:induction false} TrimAllCoherent(s: State, chans: seq<Channel>, n: nat)
    requires Valid(s) && Coherent(s) && n <= |chans| && TrimAll(s, chans, n).1
    ensures Coherent(TrimAll(s, chans, n).0)
  {
    if n > 0 {
      TrimAllValid(s, chans, n - 1);
      TrimAllCoherent(s, chans, n - 1);
      var before := TrimAll(s, chans, n - 1).0;
      var c := chans[n - 1];
      if Trims(c) {
        TrimCoherence(before, c.chanID, c.nextLocalHtlcIndex.value, c.trimOk);
      }
    }
  }

  /** A scan depends on the keys of its own channel only. */
  lemma {:induction false} TrimRunLocal(open: set<CircuitKey>, open': set<CircuitKey>, chanID: uint64, i: uint64)
    requires forall o: CircuitKey :: o.chanID == chanID ==> (o in open <==> o in open')
    ensures TrimRun(open, chanID, i) == TrimRun(open', chanID, i)
    decreases |open|
  {
    var outKey := CircuitKey(chanID, i);
    if outKey in open {
      assert |open - {outKey}| == |open| - 1;
      TrimRunLocal(open - {outKey}, open' - {outKey}, chanID, NextID(i));
    }
  }

  ghost predicate DistinctChannels(chans: seq<Channel>) {
    forall i, j :: 0 <= i < j < |chans| ==> chans[i].chanID != chans[j].chanID
  }

  /** After n channels a channel is trimmed if it was among them, and untouched otherwise. */
  lemma {:induction false} TrimAllAt(s: State, chans: seq<Channel>, n: nat, i: nat, o: CircuitKey)
    requires n <= |chans| && i < |chans| && DistinctChannels(chans) && TrimAll(s, chans, n).1
    requires Trims(chans[i]) && o.chanID == chans[i].chanID
    ensures i < n ==> chans[i].nextLocalHtlcIndex.Some?
    ensures o in TrimAll(s, chans, n).0.openedBy <==>
            o in s.openedBy && (i < n ==> o !in TrimRun(s.openedBy.Keys, o.chanID, chans[i].nextLocalHtlcIndex.value))
  {
    if n > 0 {
      TrimAllAt(s, chans, n - 1, i, o);
      var before := TrimAll(s, chans, n - 1).0;
      var c := chans[n - 1];
      if Trims(c) {
        if i == n - 1 {
          forall p: CircuitKey | p.chanID == c.chanID
            ensures p in before.openedBy <==> p in s.openedBy
          {
            TrimAllAt(s, chans, n - 1, i, p);
          }
          TrimRunLocal(before.openedBy.Keys, s.openedBy.Keys, c.chanID, c.nextLocalHtlcIndex.value);
        } else {
          TrimStaysAbove(before.openedBy.Keys, c.chanID, c.nextLocalHtlcIndex.value);
        }
      }
    }
  }

  /** The state of a startup after cleaning and restoring. */
  ghost function Rebuilt(s: State, u: Startup): (r: State)
    requires Possible(s, u)
  {
    Restore(Clean(Crashed(s), u.closedChans), u.order)
  }

  lemma RestoreOfCoherentDisk(d: State, order: seq<CircuitKey>)
    requires DiskValid(d) && DiskCoherent(d) && Lists(order, d.keystones.Keys)
    ensures Valid(Restore(d, order)) && Coherent(Restore(d, order))
    ensures Restore(d, order).keystones == d.keystones
  {
    RestoreValid(d, order);
    RestoreCoherence(d, order);
  }

  /** Cleaning and restoring a coherent disk gives a coherent map. */
  lemma RebuiltIsCoherent(s: State, u: Startup)
    requires DiskValid(s) && DiskCoherent(s) && Possible(s, u)
    ensures Valid(Rebuilt(s, u)) && Coherent(Rebuilt(s, u))
  {
    CleanKeepsDisk(Crashed(s), u.closedChans);
    RestoreOfCoherentDisk(Clean(Crashed(s), u.closedChans), u.order);
  }

  /** Of the keys of the channel exactly those below the index are left. */
  ghost predicate LeavesBelow(keys': set<CircuitKey>, keys: set<CircuitKey>, chanID: uint64, index: uint64) {
    forall o: CircuitKey :: o.chanID == chanID ==> (o in keys' <==> o in keys && o.htlcID < index)
  }

  lemma LeavesBelowIff(keys': set<CircuitKey>, keys: set<CircuitKey>, chanID: uint64, index: uint64)
    requires forall o: CircuitKey :: o.chanID == chanID ==> (o in keys' <==> o in keys && o !in TrimRun(keys, chanID, index))
    ensures LeavesBelow(keys', keys, chanID, index) <==> Trimmable(keys, chanID, index)
  {
    var run, upward := TrimRun(keys, chanID, index), Upward(keys, chanID, index);
    TrimExact(keys, chanID, index);
    TrimStaysAbove(keys, chanID, index);
    if LeavesBelow(keys', keys, chanID, index) {
      forall o ensures o in run <==> o in upward {
        assert o in run ==> o.chanID == chanID && o in keys;
      }
      assert run == upward;
    }
  }

  /** Restoring and trimming leaves a live channel exactly the keystones below its next HTLC index if and only if those above are trimmable. */
  lemma RestoreTrimsIff(d: State, order: seq<CircuitKey>, chans: seq<Channel>, i: nat)
    requires DiskValid(d) && DiskCoherent(d) && Lists(order, d.keystones.Keys)
    requires TrimAll(Restore(d, order), chans, |chans|).1
    requires i < |chans| && DistinctChannels(chans) && Trims(chans[i]) && chans[i].nextLocalHtlcIndex.Some?
    ensures var ch, index := chans[i].chanID, chans[i].nextLocalHtlcIndex.value;
      LeavesBelow(TrimAll(Restore(d, order), chans, |chans|).0.keystones.Keys, d.keystones.Keys, ch, index) <==>
      Trimmable(d.keystones.Keys, ch, index)
  {
    var r, ch, index := Restore(d, order), chans[i].chanID, chans[i].nextLocalHtlcIndex.value;
    var keys' := TrimAll(r, chans, |chans|).0.keystones.Keys;
    RestoreOfCoherentDisk(d, order);
    TrimAllCoherent(r, chans, |chans|);
    forall o: CircuitKey | o.chanID == ch ensures o in keys' <==> o in d.keystones && o !in TrimRun(d.keystones.Keys, ch, index) {
      TrimAllAt(r, chans, |chans|, i, o);
    }
    LeavesBelowIff(keys', d.keystones.Keys, ch, index);
  }

  /** A restart from a coherent disk that returns a circuit map returns a coherent one. */
  lemma RestartCoherence(s: State, u: Startup)
    requires DiskValid(s) && DiskCoherent(s) && Possible(s, u) && Restart(s, u).1
    ensures Valid(Restart(s, u).0) && Coherent(Restart(s, u).0)
  {
    RebuiltIsCoherent(s, u);
    TrimAllValid(Rebuilt(s, u), u.chans, |u.chans|);
    TrimAllCoherent(Rebuilt(s, u), u.chans, |u.chans|);
  }

  /**
    Startup after a crash leaves a live channel exactly the keystones below its next HTLC index, of
    those that cleaning leaves, if and only if these have no gap from the index upwards.
   */
  lemma RestartTrimsIff(s: State, u: Startup, i: nat)
    requires DiskValid(s) && DiskCoherent(s) && Possible(s, u) && Restart(s, u).1
    requires i < |u.chans| && DistinctChannels(u.chans) && Trims(u.chans[i]) && u.chans[i].nextLocalHtlcIndex.Some?
    ensures var ch, index, cleaned := u.chans[i].chanID, u.chans[i].nextLocalHtlcIndex.value, Clean(Crashed(s), u.closedChans).keystones.Keys;
      LeavesBelow(Restart(s, u).0.keystones.Keys, cleaned, ch, index) <==> Trimmable(cleaned, ch, index)
  {
    CleanKeepsDisk(Crashed(s), u.closedChans);
    RestoreTrimsIff(Clean(Crashed(s), u.closedChans), u.order, u.chans, i);
  }
}
