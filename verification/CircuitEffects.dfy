/**
  What each operation of the circuit map does, key by key, said without its loops: which circuits
  of a batch are added, dropped and failed, what an open, a trim and a delete leave in each index and
  bucket, what cleaning keeps, and when a startup succeeds.
 */
module CircuitEffects {
  import opened Common
  import opened Verdicts
  import opened CircuitState
  import opened CircuitInvariants

  /* ---------- CommitCircuits ---------- */

  /** Nothing holds the key of the i-th circuit when it is looked at. */
  ghost predicate IsNew(s: State, batch: seq<CircuitPtr>, i: nat)
    requires i < |batch|
  {
    InKey(batch[i]) !in s.pending && forall j :: 0 <= j < i ==> InKey(batch[j]) != InKey(batch[i])
  }

  /** c holds it: the circuit that is pending under the key, or else the first of the batch with it. */
  ghost predicate HoldsKey(s: State, batch: seq<CircuitPtr>, i: nat, c: CircuitPtr)
    requires i < |batch|
  {
    var k := InKey(batch[i]);
    if k in s.pending then c == s.pending[k]
    else exists j :: 0 <= j < i && FirstWith(batch, j, k) && batch[j] == c
  }

  ghost predicate FirstWith(batch: seq<CircuitPtr>, j: nat, k: CircuitKey)
    requires j < |batch|
  {
    InKey(batch[j]) == k && forall m :: 0 <= m < j ==> InKey(batch[m]) != k
  }

  /** The holder is on its way out, or was added since the last startup: there is nothing to do. */
  ghost predicate IsDropped(s: State, batch: seq<CircuitPtr>, i: nat)
    requires i < |batch|
  {
    exists c :: HoldsKey(s, batch, i, c) && (c in s.outgoing || c !in s.fromDisk)
  }

  /** The holder was loaded from disk and never got a keystone. */
  ghost predicate IsFailed(s: State, batch: seq<CircuitPtr>, i: nat)
    requires i < |batch|
  {
    exists c :: HoldsKey(s, batch, i, c) && c !in s.outgoing && c in s.fromDisk
  }

  lemma {:induction false} ReconciledHolds(s: State, batch: seq<CircuitPtr>, n: nat, k: CircuitKey)
    requires n <= |batch|
    ensures k in s.pending ==> k in Reconciled(s.pending, batch, n) && Reconciled(s.pending, batch, n)[k] == s.pending[k]
    ensures k !in s.pending && k in Reconciled(s.pending, batch, n) ==>
              exists j :: 0 <= j < n && FirstWith(batch, j, k) && batch[j] == Reconciled(s.pending, batch, n)[k]
    ensures k !in s.pending && k !in Reconciled(s.pending, batch, n) ==> forall j :: 0 <= j < n ==> InKey(batch[j]) != k
  {
    if n > 0 {
      ReconciledHolds(s, batch, n - 1, k);
      if k !in Reconciled(s.pending, batch, n - 1) && InKey(batch[n - 1]) == k {
        assert FirstWith(batch, n - 1, k);
      }
    }
  }

  lemma FirstIsUnique(batch: seq<CircuitPtr>, i: nat, j: nat, k: CircuitKey)
    requires i < |batch| && j < |batch| && FirstWith(batch, i, k) && FirstWith(batch, j, k)
    ensures i == j
  {
  }

  /** Each circuit of a batch is new, dropped or failed, and exactly one of these. */
  lemma VerdictExact(s: State, batch: seq<CircuitPtr>, i: nat)
    requires i < |batch|
    ensures VerdictsOf(s, batch)[i] == Add <==> IsNew(s, batch, i)
    ensures VerdictsOf(s, batch)[i] == Drop <==> IsDropped(s, batch, i)
    ensures VerdictsOf(s, batch)[i] == Fail <==> IsFailed(s, batch, i)
  {
    var k, before := InKey(batch[i]), Reconciled(s.pending, batch, i);
    ReconciledHolds(s, batch, i, k);
    if k in before {
      var c := before[k];
      assert HoldsKey(s, batch, i, c);
      forall d | HoldsKey(s, batch, i, d) ensures d == c {
        if k !in s.pending {
          var a :| 0 <= a < i && FirstWith(batch, a, k) && batch[a] == c;
          var b :| 0 <= b < i && FirstWith(batch, b, k) && batch[b] == d;
          FirstIsUnique(batch, a, b, k);
        }
      }
    }
  }

  lemma SelectedIff<T>(xs: seq<T>, vs: seq<Verdict>, v: Verdict, x: T)
    requires |xs| == |vs|
    ensures x in Select(xs, vs, v) <==> exists i :: 0 <= i < |xs| && xs[i] == x && vs[i] == v
  {
    if x in Select(xs, vs, v) {
      var i := SelectedAt(xs, vs, v, x);
    }
    if i :| 0 <= i < |xs| && xs[i] == x && vs[i] == v {
      SelectHas(xs, vs, v, i);
    }
  }

  lemma {:induction false} SelectHas<T>(xs: seq<T>, vs: seq<Verdict>, v: Verdict, i: nat)
    requires |xs| == |vs| && i < |xs| && vs[i] == v
    ensures xs[i] in Select(xs, vs, v)
  {
    if i > 0 {
      SelectHas(xs[1..], vs[1..], v, i - 1);
    }
  }

  /** What a commit reports, in the terms of the map and the batch alone; none of the batch is left out or reported twice. */
  lemma CommitReports(s: State, batch: seq<CircuitPtr>, encodable: CircuitRecord -> bool, writeOk: bool)
    ensures var err := CommitError(s, batch, encodable, writeOk);
      var a := Actions(s, batch, err);
      && (forall c :: c in a.adds <==> err.None? && exists i :: 0 <= i < |batch| && batch[i] == c && IsNew(s, batch, i))
      && (forall c :: c in a.drops <==> exists i :: 0 <= i < |batch| && batch[i] == c && IsDropped(s, batch, i))
      && (forall c :: c in a.fails <==>
            exists i :: 0 <= i < |batch| && batch[i] == c && (IsFailed(s, batch, i) || (err.Some? && IsNew(s, batch, i))))
      && multiset(a.adds) + multiset(a.drops) + multiset(a.fails) == multiset(batch)
  {
    var err, vs := CommitError(s, batch, encodable, writeOk), VerdictsOf(s, batch);
    var ws := if err.None? then vs else Downgrade(vs);
    DowngradedLists(batch, vs);
    SelectCovers(batch, vs);
    forall i | 0 <= i < |batch|
      ensures (vs[i] == Add <==> IsNew(s, batch, i)) && (vs[i] == Drop <==> IsDropped(s, batch, i)) && (vs[i] == Fail <==> IsFailed(s, batch, i))
    {
      VerdictExact(s, batch, i);
    }
    forall c, v ensures c in Select(batch, ws, v) <==> exists i :: 0 <= i < |batch| && batch[i] == c && ws[i] == v {
      SelectedIff(batch, ws, v, c);
    }
  }

  /** How a commit ends. */
  lemma CommitEnds(s: State, batch: seq<CircuitPtr>, encodable: CircuitRecord -> bool, writeOk: bool)
    ensures var err := CommitError(s, batch, encodable, writeOk);
      && (err == Some(ErrEncode) <==> exists i :: 0 <= i < |batch| && IsNew(s, batch, i) && !encodable(batch[i].rec))
      && (err == Some(ErrDatabase) <==>
          && err != Some(ErrEncode) && !writeOk && exists i :: 0 <= i < |batch| && IsNew(s, batch, i))
      && (err.None? || err == Some(ErrEncode) || err == Some(ErrDatabase))
  {
    var vs, added := VerdictsOf(s, batch), Added(s, batch);
    forall i | 0 <= i < |batch| ensures vs[i] == Add <==> IsNew(s, batch, i) {
      VerdictExact(s, batch, i);
    }
    forall c ensures c in added <==> exists i :: 0 <= i < |batch| && batch[i] == c && IsNew(s, batch, i) {
      SelectedIff(batch, vs, Add, c);
    }
    if added != [] {
      assert added[0] in added;
    }
    if i :| 0 <= i < |batch| && IsNew(s, batch, i) {
      assert batch[i] in added;
    }
  }

  ghost predicate NewUnder(s: State, batch: seq<CircuitPtr>, k: CircuitKey, c: CircuitPtr) {
    exists i :: 0 <= i < |batch| && IsNew(s, batch, i) && InKey(batch[i]) == k && batch[i] == c
  }

  /** The pending index has gained exactly the new circuits of the batch. */
  ghost predicate PendingGains(s: State, t: State, batch: seq<CircuitPtr>) {
    && (forall k :: k in t.pending <==> k in s.pending || exists c :: NewUnder(s, batch, k, c))
    && (forall k :: k in s.pending ==> t.pending[k] == s.pending[k])
    && (forall k, c :: NewUnder(s, batch, k, c) ==> t.pending[k] == c)
  }

  /** And so has the circuit bucket. */
  ghost predicate BucketGains(s: State, t: State, batch: seq<CircuitPtr>) {
    && (forall k :: k in t.adds <==> k in s.adds || exists c :: NewUnder(s, batch, k, c))
    && (forall k :: k in s.adds && k in s.pending ==> t.adds[k] == s.adds[k])
    && (forall k, c :: NewUnder(s, batch, k, c) ==> t.adds[k] == c.rec)
  }

  lemma AddedKeys(s: State, batch: seq<CircuitPtr>)
    ensures forall k, c :: NewUnder(s, batch, k, c) <==> c in Added(s, batch) && InKey(c) == k
  {
    forall k, c ensures NewUnder(s, batch, k, c) <==> c in Added(s, batch) && InKey(c) == k {
      SelectedIff(batch, VerdictsOf(s, batch), Add, c);
      forall i | 0 <= i < |batch| ensures VerdictsOf(s, batch)[i] == Add <==> IsNew(s, batch, i) {
        VerdictExact(s, batch, i);
      }
    }
  }

  lemma CommitGains(s: State, batch: seq<CircuitPtr>)
    ensures var t := Commit(s, batch, None); PendingGains(s, t, batch) && BucketGains(s, t, batch)
  {
    var added := Added(s, batch);
    CommitFacts(s, batch);
    AddedKeys(s, batch);
    forall k ensures k in KeysOf(added) <==> exists c :: NewUnder(s, batch, k, c) {
      if k in KeysOf(added) {
        var c :| c in added && InKey(c) == k;
        assert NewUnder(s, batch, k, c);
      }
    }
  }

  /**
    What a commit changes: nothing when the write fails, the pending index alone when a circuit does not
    serialize, and otherwise the index and the bucket.
   */
  lemma CommitEffect(s: State, batch: seq<CircuitPtr>, encodable: CircuitRecord -> bool, writeOk: bool)
    ensures var err := CommitError(s, batch, encodable, writeOk);
      var t := Commit(s, batch, err);
      && t == s.(pending := t.pending, adds := t.adds)
      && (err == Some(ErrDatabase) ==> t == s)
      && (err != Some(ErrDatabase) ==> PendingGains(s, t, batch))
      && (err == Some(ErrEncode) ==> t.adds == s.adds)
      && (err.None? ==> BucketGains(s, t, batch))
  {
    CommitGains(s, batch);
    var err := CommitError(s, batch, encodable, writeOk);
    if err == Some(ErrEncode) {
      assert Commit(s, batch, err).pending == Commit(s, batch, None).pending;
    }
  }

  /** A key whose circuit has a keystone is never failed back; the packet is dropped. */
  lemma OpenIsNeverFailed(s: State, batch: seq<CircuitPtr>, encodable: CircuitRecord -> bool, writeOk: bool, o: CircuitKey)
    requires Linked(s) && o in s.openedBy
    ensures var a := Actions(s, batch, CommitError(s, batch, encodable, writeOk));
      && InKey(s.openedBy[o]) !in KeysOf(a.fails)
      && forall c :: c in batch && InKey(c) == InKey(s.openedBy[o]) ==> c in a.drops
  {
    CommitReports(s, batch, encodable, writeOk);
    var k, held := InKey(s.openedBy[o]), s.openedBy[o];
    forall i | 0 <= i < |batch| && InKey(batch[i]) == k
      ensures !IsFailed(s, batch, i) && !IsNew(s, batch, i) && IsDropped(s, batch, i)
    {
      assert HoldsKey(s, batch, i, held);
    }
  }

  /* ---------- OpenCircuits ---------- */

  /** The i-th keystone is refused, and it is the first. */
  ghost predicate FirstRefused(s: State, ks: seq<Keystone>, i: nat)
    requires i < |ks|
  {
    && (ks[i].outKey in s.openedBy || ks[i].inKey !in s.pending)
    && forall j :: 0 <= j < i ==> ks[j].outKey !in s.openedBy && ks[j].inKey in s.pending
  }

  lemma {:induction false} OpenErrorAt(s: State, ks: seq<Keystone>, n: nat, i: nat)
    requires i < n <= |ks| && FirstRefused(s, ks, i)
    ensures OpenError(s, ks, n) == Some(if ks[i].outKey in s.openedBy then ErrDuplicateKeystone else ErrUnknownCircuit)
  {
    if i < n - 1 {
      OpenErrorAt(s, ks, n - 1, i);
    } else {
      CheckedAreKnown(s, ks, i);
    }
  }

  /** The first keystone that is refused decides the error, its outgoing key before its circuit. */
  lemma OpenEnds(s: State, ks: seq<Keystone>, writeOk: bool)
    ensures forall i :: 0 <= i < |ks| && FirstRefused(s, ks, i) ==>
              OpenResult(s, ks, writeOk) == Some(if ks[i].outKey in s.openedBy then ErrDuplicateKeystone else ErrUnknownCircuit)
    ensures (forall i :: 0 <= i < |ks| ==> ks[i].outKey !in s.openedBy && ks[i].inKey in s.pending) ==>
              OpenResult(s, ks, writeOk) == if writeOk || ks == [] then None else Some(ErrDatabase)
    ensures OpenResult(s, ks, writeOk).Some? ==> Open(s, ks, writeOk) == s
  {
    CheckedAreKnown(s, ks, |ks|);
    forall i | 0 <= i < |ks| && FirstRefused(s, ks, i)
      ensures OpenResult(s, ks, writeOk) == Some(if ks[i].outKey in s.openedBy then ErrDuplicateKeystone else ErrUnknownCircuit)
    {
      OpenErrorAt(s, ks, |ks|, i);
    }
  }

  /** No circuit and no outgoing key occurs twice. */
  ghost predicate OneToOne(ks: seq<Keystone>) {
    forall i, j :: 0 <= i < |ks| && 0 <= j < |ks| && (ks[i].inKey == ks[j].inKey || ks[i].outKey == ks[j].outKey) ==> i == j
  }

  lemma {:induction false} OpenAllIndex(s: State, ks: seq<Keystone>, n: nat, h: Hash, o: CircuitKey)
    requires n <= |ks| && Known(s, ks)
    ensures (h, o) in OpenAll(s, ks, n).hashIndex <==>
            (h, o) in s.hashIndex || exists i :: 0 <= i < n && ks[i].outKey == o && s.pending[ks[i].inKey].rec.paymentHash == h
  {
    if n > 0 {
      OpenAllIndex(s, ks, n - 1, h, o);
    }
  }

  /** The opened index and the keystone bucket have gained exactly these keystones. */
  ghost predicate KeysGain(s: State, t: State, ks: seq<Keystone>)
    requires Known(s, ks)
  {
    && (forall o :: o in t.openedBy <==> o in s.openedBy || IsOutKey(ks, o))
    && (forall o :: o in t.keystones <==> o in s.keystones || IsOutKey(ks, o))
    && (forall o :: o in s.openedBy && !IsOutKey(ks, o) ==> t.openedBy[o] == s.openedBy[o])
    && (forall o :: o in s.keystones && !IsOutKey(ks, o) ==> t.keystones[o] == s.keystones[o])
    && (forall i :: 0 <= i < |ks| ==> t.openedBy[ks[i].outKey] == s.pending[ks[i].inKey] && t.keystones[ks[i].outKey] == ks[i].inKey)
  }

  ghost predicate IsOutKey(ks: seq<Keystone>, o: CircuitKey) {
    exists i :: 0 <= i < |ks| && ks[i].outKey == o
  }

  /** Their circuits carry them, and no other circuit has changed. */
  ghost predicate CircuitsGain(s: State, t: State, ks: seq<Keystone>)
    requires Known(s, ks)
  {
    && (forall i :: 0 <= i < |ks| ==>
          s.pending[ks[i].inKey] in t.outgoing && t.outgoing[s.pending[ks[i].inKey]] == ks[i].outKey)
    && (forall c :: (forall i :: 0 <= i < |ks| ==> s.pending[ks[i].inKey] != c) ==>
          && (c in t.outgoing <==> c in s.outgoing)
          && (c in s.outgoing ==> t.outgoing[c] == s.outgoing[c]))
  }

  /** The hash index has gained exactly their entries. */
  ghost predicate IndexGains(s: State, t: State, ks: seq<Keystone>)
    requires Known(s, ks)
  {
    forall h, o :: (h, o) in t.hashIndex <==>
      (h, o) in s.hashIndex || exists i :: 0 <= i < |ks| && ks[i].outKey == o && s.pending[ks[i].inKey].rec.paymentHash == h
  }

  lemma {:induction false} OpenAllElse(s: State, ks: seq<Keystone>, n: nat, c: CircuitPtr)
    requires n <= |ks| && Known(s, ks) && forall i :: 0 <= i < n ==> s.pending[ks[i].inKey] != c
    ensures c in OpenAll(s, ks, n).outgoing <==> c in s.outgoing
    ensures c in s.outgoing ==> OpenAll(s, ks, n).outgoing[c] == s.outgoing[c]
  {
    if n > 0 {
      OpenAllElse(s, ks, n - 1, c);
    }
  }

  lemma OpenKeys(s: State, ks: seq<Keystone>)
    requires Known(s, ks) && OneToOne(ks)
    ensures KeysGain(s, OpenAll(s, ks, |ks|), ks)
  {
    var t := OpenAll(s, ks, |ks|);
    forall o
      ensures (o in t.openedBy <==> o in s.openedBy || IsOutKey(ks, o)) && (o in t.keystones <==> o in s.keystones || IsOutKey(ks, o))
      ensures o in s.openedBy && !IsOutKey(ks, o) ==> t.openedBy[o] == s.openedBy[o]
      ensures o in s.keystones && !IsOutKey(ks, o) ==> t.keystones[o] == s.keystones[o]
    {
      OpenedAt(s, ks, |ks|, o);
    }
    forall i | 0 <= i < |ks|
      ensures ks[i].outKey in t.openedBy && t.openedBy[ks[i].outKey] == s.pending[ks[i].inKey]
      ensures ks[i].outKey in t.keystones && t.keystones[ks[i].outKey] == ks[i].inKey
    {
      OpenedAt(s, ks, |ks|, ks[i].outKey);
    }
  }

  lemma OpenCircuitsGain(s: State, ks: seq<Keystone>)
    requires Valid(s) && Known(s, ks) && OneToOne(ks)
    ensures CircuitsGain(s, OpenAll(s, ks, |ks|), ks)
  {
    var t := OpenAll(s, ks, |ks|);
    forall i | 0 <= i < |ks|
      ensures s.pending[ks[i].inKey] in t.outgoing && t.outgoing[s.pending[ks[i].inKey]] == ks[i].outKey
    {
      OutgoingAt(s, ks, |ks|, ks[i].inKey);
    }
    forall c | forall i :: 0 <= i < |ks| ==> s.pending[ks[i].inKey] != c
      ensures (c in t.outgoing <==> c in s.outgoing) && (c in s.outgoing ==> t.outgoing[c] == s.outgoing[c])
    {
      OpenAllElse(s, ks, |ks|, c);
    }
  }

  /** A successful open of a batch that names no circuit and no key twice adds exactly its keystones. */
  lemma OpenEffect(s: State, ks: seq<Keystone>)
    requires Valid(s) && OneToOne(ks) && OpenResult(s, ks, true).None?
    ensures Known(s, ks)
    ensures var t := Open(s, ks, true);
      && t == s.(openedBy := t.openedBy, outgoing := t.outgoing, keystones := t.keystones, hashIndex := t.hashIndex)
      && KeysGain(s, t, ks) && CircuitsGain(s, t, ks) && IndexGains(s, t, ks)
  {
    CheckedAreKnown(s, ks, |ks|);
    var t := OpenAll(s, ks, |ks|);
    OpenKeys(s, ks);
    OpenCircuitsGain(s, ks);
    assert IndexGains(s, t, ks) by {
      forall h, o
        ensures (h, o) in t.hashIndex <==>
                (h, o) in s.hashIndex || exists i :: 0 <= i < |ks| && ks[i].outKey == o && s.pending[ks[i].inKey].rec.paymentHash == h
      {
        OpenAllIndex(s, ks, |ks|, h, o);
      }
    }
  }

  /* ---------- TrimOpenCircuits ---------- */

  /** A trim of a channel without gaps takes exactly its opened keys from the start upwards, and frees their circuits. */
  lemma TrimEffect(s: State, chanID: uint64, start: uint64, writeOk: bool)
    requires Linked(s) && Trimmable(s.openedBy.Keys, chanID, start)
    ensures var t := Trim(s, chanID, start, writeOk);
      && t == s.(openedBy := t.openedBy, outgoing := t.outgoing, keystones := t.keystones, hashIndex := t.hashIndex)
      && (forall o :: o in t.openedBy <==> o in s.openedBy && !(o.chanID == chanID && o.htlcID >= start))
      && (forall o :: o in t.openedBy ==> t.openedBy[o] == s.openedBy[o] && t.openedBy[o] in t.outgoing && t.outgoing[t.openedBy[o]] == o)
      && (forall o :: o in s.openedBy && o.chanID == chanID && o.htlcID >= start ==> s.openedBy[o] !in t.outgoing)
      && (forall o :: o in t.keystones <==>
            o in s.keystones && !(writeOk && o in s.openedBy && o.chanID == chanID && o.htlcID >= start))
  {
    TrimExact(s.openedBy.Keys, chanID, start);
    var run := TrimRun(s.openedBy.Keys, chanID, start);
    assert forall o :: o in run <==> o in s.openedBy && o.chanID == chanID && o.htlcID >= start;
    forall o | o in s.openedBy && o !in run ensures s.openedBy[o] !in (set p | p in run :: s.openedBy[p]) {
      forall p | p in run ensures s.openedBy[p] != s.openedBy[o] {
        assert s.outgoing[s.openedBy[p]] == p;
      }
    }
  }

  /* ---------- DeleteCircuits ---------- */

  /** o is the keystone of a circuit with one of these incoming keys. */
  ghost predicate OpensOneOf(s: State, inKeys: seq<CircuitKey>, o: CircuitKey) {
    o in s.openedBy && InKey(s.openedBy[o]) in inKeys
  }

  lemma LinkedKeystones(s: State, inKeys: seq<CircuitKey>)
    requires Valid(s) && Linked(s)
    ensures forall o :: o in OutKeys(s.outgoing, Removed(s, inKeys)) <==> OpensOneOf(s, inKeys, o)
    ensures forall h, o :: (h, o) in Entries(s.outgoing, Removed(s, inKeys)) <==>
              OpensOneOf(s, inKeys, o) && s.openedBy[o].rec.paymentHash == h
  {
    var removed := Removed(s, inKeys);
    forall o | OpensOneOf(s, inKeys, o)
      ensures o in OutKeys(s.outgoing, removed) && (s.openedBy[o].rec.paymentHash, o) in Entries(s.outgoing, removed)
    {
      var k := InKey(s.openedBy[o]);
      assert k in removed && removed[k] == s.openedBy[o] && s.outgoing[removed[k]] == o;
    }
  }

  /**
    A successful delete: the named circuits are gone from the pending index, the closed set and the circuit
    bucket, and their keystones from the opened index, the keystone bucket and the hash index; nothing else
    changes. A keystone on disk that memory no longer has, left by an unwritten trim, stays.
   */
  lemma DeleteEffect(s: State, inKeys: seq<CircuitKey>, order: seq<CircuitKey>)
    requires Valid(s) && Linked(s) && Lists(order, Removed(s, inKeys).Keys)
    ensures var t := Delete(s, inKeys, true, order);
      && t.outgoing == s.outgoing && t.fromDisk == s.fromDisk
      && (forall k :: k in t.pending <==> k in s.pending && k !in inKeys)
      && (forall k :: k in t.pending ==> t.pending[k] == s.pending[k])
      && (forall k :: k in t.closed <==> k in s.closed && k !in inKeys)
      && (forall k :: k in t.adds <==> k in s.adds && k !in inKeys)
      && (forall k :: k in t.adds ==> t.adds[k] == s.adds[k])
      && (forall o :: o in t.openedBy <==> o in s.openedBy && InKey(s.openedBy[o]) !in inKeys)
      && (forall o :: o in t.openedBy ==> t.openedBy[o] == s.openedBy[o])
      && (forall o :: o in t.keystones <==> o in s.keystones && !OpensOneOf(s, inKeys, o))
      && (forall o :: o in t.keystones ==> t.keystones[o] == s.keystones[o])
      && (forall h, o :: (h, o) in t.hashIndex <==>
            (h, o) in s.hashIndex && !(OpensOneOf(s, inKeys, o) && s.openedBy[o].rec.paymentHash == h))
  {
    LinkedKeystones(s, inKeys);
    assert forall k :: k in Removed(s, inKeys) <==> k in s.pending && k in inKeys;
  }

  /** Where memory and disk agree, the keystones that go are those that name a deleted circuit. */
  lemma DeleteTakesKeystones(s: State, inKeys: seq<CircuitKey>, order: seq<CircuitKey>)
    requires Valid(s) && Coherent(s) && Lists(order, Removed(s, inKeys).Keys)
    ensures forall o :: o in Delete(s, inKeys, true, order).keystones <==> o in s.keystones && s.keystones[o] !in inKeys
  {
    DeleteEffect(s, inKeys, order);
  }

  /** Otherwise one can be left without its circuit: a trim that is not written, and a delete of the circuit. */
  lemma DeleteLeavesStray(s: State, chanID: uint64, start: uint64, o: CircuitKey, order: seq<CircuitKey>)
    requires Valid(s) && Coherent(s) && o in TrimRun(s.openedBy.Keys, chanID, start)
    requires Lists(order, Removed(Trim(s, chanID, start, false), [s.keystones[o]]).Keys)
    ensures var t := Delete(Trim(s, chanID, start, false), [s.keystones[o]], true, order);
      o in t.keystones && t.keystones[o] !in t.adds
  {
    var t := Trim(s, chanID, start, false);
    TrimKeepsValid(s, chanID, start, false);
    TrimKeepsLinks(s, chanID, start, false);
    DeleteEffect(t, [s.keystones[o]], order);
    assert s.keystones[o] in [s.keystones[o]];
  }

  /** The key of a deleted circuit is new again: committing it reports an add. */
  lemma DeletedIsAdded(s: State, inKeys: seq<CircuitKey>, order: seq<CircuitKey>, batch: seq<CircuitPtr>, i: nat)
    requires Valid(s) && Linked(s) && Lists(order, Removed(s, inKeys).Keys)
    requires i < |batch| && InKey(batch[i]) in inKeys && forall j :: 0 <= j < i ==> InKey(batch[j]) != InKey(batch[i])
    ensures var t := Delete(s, inKeys, true, order);
      && CommitError(t, batch, (_: CircuitRecord) => true, true) == None
      && batch[i] in Actions(t, batch, None).adds
  {
    var t := Delete(s, inKeys, true, order);
    DeleteEffect(s, inKeys, order);
    CommitEnds(t, batch, (_: CircuitRecord) => true, true);
    CommitReports(t, batch, (_: CircuitRecord) => true, true);
    assert IsNew(t, batch, i);
  }

  /* ---------- startup ---------- */

  ghost predicate HasClosed(closedChans: set<uint64>, k: CircuitKey) {
    k.chanID != 0 && k.chanID in closedChans
  }

  /** Cleaning takes the keystones with a closed channel on either side, and the circuits with a closed channel or such a keystone. */
  lemma CleanEffect(s: State, closedChans: set<uint64>)
    requires DiskValid(s)
    ensures var t := Clean(s, closedChans);
      && t == s.(adds := t.adds, keystones := t.keystones)
      && (forall o :: o in t.keystones <==>
            o in s.keystones && !HasClosed(closedChans, o) && !HasClosed(closedChans, s.keystones[o]))
      && (forall o :: o in t.keystones ==> t.keystones[o] == s.keystones[o])
      && (forall k :: k in t.adds <==>
            && k in s.adds && !HasClosed(closedChans, k)
            && !exists o :: o in s.keystones && s.keystones[o] == k && HasClosed(closedChans, o))
      && (forall k :: k in t.adds ==> t.adds[k] == s.adds[k])
  {
    var t := Clean(s, closedChans);
    forall k | k in s.adds
      ensures k in t.adds <==> !HasClosed(closedChans, k) && !exists o :: o in s.keystones && s.keystones[o] == k && HasClosed(closedChans, o)
    {
      assert k == s.adds[k].incoming;
      assert HasClosed(closedChans, k) ==> k in StaleCircuits(s.adds, s.keystones, closedChans);
    }
  }

  lemma {:induction false} TrimAllRest(s: State, chans: seq<Channel>, n: nat)
    requires n <= |chans|
    ensures var t := TrimAll(s, chans, n).0;
      t == s.(openedBy := t.openedBy, outgoing := t.outgoing, keystones := t.keystones, hashIndex := t.hashIndex)
  {
    if n > 0 {
      TrimAllRest(s, chans, n - 1);
    }
  }

  /**
    A map that is up has loaded exactly the circuits that cleaning left, each marked as loaded from disk,
    and none of them is closing.
   */
  lemma StartupLoads(s: State, u: Startup)
    requires DiskValid(s) && Possible(s, u) && Restart(s, u).1
    ensures var t := Restart(s, u).0;
      && t.adds == Clean(Crashed(s), u.closedChans).adds
      && t.pending.Keys == t.adds.Keys && t.closed == {}
      && (forall k :: k in t.pending ==> t.pending[k].rec == s.adds[k] && t.pending[k] in t.fromDisk)
      && (forall c :: c in t.fromDisk ==> InKey(c) in t.pending && t.pending[InKey(c)] == c)
  {
    CleanEffect(Crashed(s), u.closedChans);
    TrimAllRest(Rebuilt(s, u), u.chans, |u.chans|);
  }

  /** What a failed startup leaves on disk: what was cleaned stays cleaned, and loading changes no circuit. */
  lemma StartupLeaves(s: State, u: Startup)
    requires DiskValid(s) && Possible(s, u)
    ensures var t := Restart(s, u).0;
      && (u.closedChans != {} && !u.cleanOk ==> t.adds == s.adds && t.keystones == s.keystones)
      && (u.closedChans == {} || u.cleanOk ==> t.adds == Clean(Crashed(s), u.closedChans).adds)
      && ((u.closedChans == {} || u.cleanOk) && !u.restoreOk ==> t.keystones == Clean(Crashed(s), u.closedChans).keystones)
  {
    TrimAllRest(Rebuilt(s, u), u.chans, |u.chans|);
  }

  /** A live channel whose next index is known, and nothing to trim there or a write that succeeds. */
  ghost predicate CanTrim(r: State, c: Channel) {
    c.isPending || c.chanID == 0 ||
    (c.nextLocalHtlcIndex.Some? && (c.trimOk || CircuitKey(c.chanID, c.nextLocalHtlcIndex.value) !in r.openedBy))
  }

  lemma {:induction false} TrimAllOkIff(s: State, chans: seq<Channel>, n: nat)
    requires n <= |chans| && DistinctChannels(chans)
    ensures TrimAll(s, chans, n).1 <==> forall i :: 0 <= i < n ==> CanTrim(s, chans[i])
  {
    if n > 0 {
      TrimAllOkIff(s, chans, n - 1);
      var before, c := TrimAll(s, chans, n - 1), chans[n - 1];
      if before.1 && Trims(c) && c.nextLocalHtlcIndex.Some? {
        TrimAllAt(s, chans, n - 1, n - 1, CircuitKey(c.chanID, c.nextLocalHtlcIndex.value));
      }
    }
  }

  /** When a startup returns a circuit map. */
  lemma StartupSucceedsIff(s: State, u: Startup)
    requires Possible(s, u) && DistinctChannels(u.chans)
    ensures Restart(s, u).1 <==>
            && (u.closedChans == {} || u.cleanOk) && u.restoreOk
            && forall i :: 0 <= i < |u.chans| ==> CanTrim(Rebuilt(s, u), u.chans[i])
  {
    TrimAllOkIff(Rebuilt(s, u), u.chans, |u.chans|);
  }

  lemma {:induction false} TrimAllSpares(s: State, chans: seq<Channel>, n: nat, o: CircuitKey)
    requires n <= |chans| && forall i :: 0 <= i < |chans| && chans[i].chanID == o.chanID ==> chans[i].isPending || o.chanID == 0
    ensures o in TrimAll(s, chans, n).0.openedBy <==> o in s.openedBy
    ensures o in TrimAll(s, chans, n).0.keystones <==> o in s.keystones
  {
    if n > 0 {
      TrimAllSpares(s, chans, n - 1, o);
      var before, c := TrimAll(s, chans, n - 1), chans[n - 1];
      if before.1 && Trims(c) && c.nextLocalHtlcIndex.Some? {
        TrimStaysAbove(before.0.openedBy.Keys, c.chanID, c.nextLocalHtlcIndex.value);
      }
    }
  }

  /** A channel that is still pending, that is not listed or that is the zero channel keeps every keystone that cleaning leaves. */
  lemma StartupSpares(s: State, u: Startup, o: CircuitKey)
    requires DiskValid(s) && DiskCoherent(s) && Possible(s, u) && Restart(s, u).1
    requires forall i :: 0 <= i < |u.chans| && u.chans[i].chanID == o.chanID ==> u.chans[i].isPending || o.chanID == 0
    ensures o in Restart(s, u).0.keystones <==>
            o in s.keystones && !HasClosed(u.closedChans, o) && !HasClosed(u.closedChans, s.keystones[o])
  {
    var d := Clean(Crashed(s), u.closedChans);
    CleanEffect(Crashed(s), u.closedChans);
    CleanKeepsDisk(Crashed(s), u.closedChans);
    RestoreOfCoherentDisk(d, u.order);
    TrimAllSpares(Rebuilt(s, u), u.chans, |u.chans|, o);
  }
}
