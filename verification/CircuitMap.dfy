/**
  The circuit map object: the loops, optimistic updates and rollbacks of the source, each
  proved to do what CircuitState says.  The outcome of a database transaction is a parameter.
 */
module CircuitMaps {
  import opened Common
  import opened Verdicts
  import opened CircuitState
  import CI = CircuitInvariants

  /* ---------- the hash index: buckets of outgoing keys ---------- */

  type HashIndex = map<Hash, set<CircuitKey>>

  function IndexEntries(index: HashIndex): (r: set<(Hash, CircuitKey)>)
    ensures forall h, o :: (h, o) in r <==> h in index && o in index[h]
  {
    set h, o | h in index && o in index[h] :: (h, o)
  }

  /** addCircuitToHashIndex */
  function IndexAdd(index: HashIndex, h: Hash, outKey: CircuitKey): (r: HashIndex)
    ensures IndexEntries(r) == IndexEntries(index) + {(h, outKey)}
  {
    index[h := (if h in index then index[h] else {}) + {outKey}]
  }

  /** removeCircuitFromHashIndex: drops the entry, and the bucket once nothing is left in it. */
  function IndexRemove(index: HashIndex, h: Hash, outKey: CircuitKey): (r: HashIndex)
    ensures IndexEntries(r) == IndexEntries(index) - {(h, outKey)}
    ensures h in index && index[h] <= {outKey} ==> h !in r
  {
    if h !in index then
      index
    else
      var rest := index[h] - {outKey};
      assert forall o :: o in index[h] ==> o in rest || o == outKey;
      if |rest| == 0 then index - {h} else index[h := rest]
  }

  class CircuitMap {
    var pending: map<CircuitKey, CircuitPtr>
    var openedBy: map<CircuitKey, CircuitPtr>
    var closed: set<CircuitKey>
    var hashIndex: HashIndex
    /** Outgoing and LoadedFromDisk of the circuit objects. */
    var outgoing: map<CircuitPtr, CircuitKey>
    var fromDisk: set<CircuitPtr>
    /** The circuit bucket and the keystone bucket. */
    var adds: map<CircuitKey, CircuitRecord>
    var keystones: map<CircuitKey, CircuitKey>

    ghost function View(): (s: State)
      reads this
    {
      State(pending, openedBy, closed, IndexEntries(hashIndex), outgoing, fromDisk, adds, keystones)
    }

    constructor (adds: map<CircuitKey, CircuitRecord>, keystones: map<CircuitKey, CircuitKey>)
      ensures View() == State(map[], map[], {}, {}, map[], {}, adds, keystones)
    {
      this.adds, this.keystones := adds, keystones;
      pending, openedBy, closed, hashIndex, outgoing, fromDisk := map[], map[], {}, map[], map[], {};
    }

    /* ---------- CommitCircuits ---------- */

    static lemma StepSelect(batch: seq<CircuitPtr>, vs: seq<Verdict>, i: nat, v: Verdict)
      requires |batch| == |vs| && i < |batch|
      ensures Select(batch[..i + 1], vs[..i + 1], v)
           == Select(batch[..i], vs[..i], v) + (if vs[i] == v then [batch[i]] else [])
    {
      assert batch[..i + 1] == batch[..i] + [batch[i]] && vs[..i + 1] == vs[..i] + [vs[i]];
      SelectSnoc(batch[..i], vs[..i], batch[i], vs[i], v);
    }

    /** What the verdict on the next circuit adds to each list. */
    static lemma StepLists(s: State, batch: seq<CircuitPtr>, i: nat)
      requires i < |batch|
      ensures var vs := VerdictsOf(s, batch);
        var ws := Downgrade(vs);
        var v := VerdictAt(s, batch, i);
        && (forall u :: Select(batch[..i + 1], vs[..i + 1], u) == Select(batch[..i], vs[..i], u) + (if v == u then [batch[i]] else []))
        && Select(batch[..i + 1], ws[..i + 1], Fail) == Select(batch[..i], ws[..i], Fail) + (if v == Drop then [] else [batch[i]])
    {
      var vs := VerdictsOf(s, batch);
      forall u ensures Select(batch[..i + 1], vs[..i + 1], u) == Select(batch[..i], vs[..i], u) + (if vs[i] == u then [batch[i]] else []) {
        StepSelect(batch, vs, i, u);
      }
      StepSelect(batch, Downgrade(vs), i, Fail);
    }

    /** Sorts the batch against the pending index, under the lock. */
    method Reconcile(batch: seq<CircuitPtr>)
      returns (adds: seq<CircuitPtr>, drops: seq<CircuitPtr>, fails: seq<CircuitPtr>, addFails: seq<CircuitPtr>)
      modifies this`pending
      ensures View() == old(View()).(pending := Reconciled(old(pending), batch, |batch|))
      ensures var vs := VerdictsOf(old(View()), batch);
        && adds == Select(batch, vs, Add) && drops == Select(batch, vs, Drop)
        && fails == Select(batch, vs, Fail) && addFails == Select(batch, Downgrade(vs), Fail)
    {
      ghost var s := View();
      ghost var vs := VerdictsOf(s, batch);
      ghost var ws := Downgrade(vs);
      adds, drops, fails, addFails := [], [], [], [];
      var index := pending;
      for i := 0 to |batch|
        modifies {}
        invariant index == Reconciled(pending, batch, i)
        invariant adds == Select(batch[..i], vs[..i], Add)
        invariant drops == Select(batch[..i], vs[..i], Drop)
        invariant fails == Select(batch[..i], vs[..i], Fail)
        invariant addFails == Select(batch[..i], ws[..i], Fail)
      {
        var circuit := batch[i];
        StepLists(s, batch, i);
        if InKey(circuit) in index {
          var found := index[InKey(circuit)];
          if found in outgoing {
            drops := drops + [circuit];
          } else if found !in fromDisk {
            drops := drops + [circuit];
          } else {
            fails := fails + [circuit];
            addFails := addFails + [circuit];
          }
        } else {
          index := index[InKey(circuit) := circuit];
          adds := adds + [circuit];
          addFails := addFails + [circuit];
        }
      }
      assert batch[..|batch|] == batch && vs[..|batch|] == vs && ws[..|batch|] == ws;
      pending := index;
    }

    /** Serializes the circuits one by one, stopping at the first that fails. */
    method EncodeAll(batch: seq<CircuitPtr>, encodable: CircuitRecord -> bool) returns (ok: bool)
      ensures ok <==> forall c :: c in batch ==> encodable(c.rec)
    {
      for i := 0 to |batch|
        invariant forall j :: 0 <= j < i ==> encodable(batch[j].rec)
      {
        if !encodable(batch[i].rec) {
          return false;
        }
      }
      return true;
    }

    /** Puts the whole batch into the circuit bucket in one transaction. */
    method WriteCircuits(batch: seq<CircuitPtr>, writeOk: bool)
      modifies this`adds
      ensures View() == old(View()).(adds := if writeOk then PutCircuits(old(adds), batch, |batch|) else old(adds))
    {
      var bucket := adds;
      for i := 0 to |batch|
        modifies {}
        invariant bucket == PutCircuits(adds, batch, i)
      {
        bucket := bucket[InKey(batch[i]) := batch[i].rec];
      }
      if writeOk {
        adds := bucket;
      }
    }

    /** Takes the added circuits out of the pending index again. */
    method Rollback(batch: seq<CircuitPtr>)
      modifies this`pending
      ensures View() == old(View()).(pending := old(pending) - KeysOf(batch))
    {
      var index := pending;
      for i := 0 to |batch|
        modifies {}
        invariant index == pending - KeysOf(batch[..i])
      {
        CI.KeysOfSnoc(batch, i + 1);
        index := index - {InKey(batch[i])};
      }
      assert batch[..|batch|] == batch;
      pending := index;
    }

    static lemma CommitNothing(s: State, batch: seq<CircuitPtr>, encodable: CircuitRecord -> bool, writeOk: bool)
      requires batch == []
      ensures CommitError(s, batch, encodable, writeOk) == None && Actions(s, batch, None) == FwdActions([], [], [])
      ensures Commit(s, batch, None) == s
    {
    }

    static lemma RolledBack(s: State, batch: seq<CircuitPtr>)
      ensures Reconciled(s.pending, batch, |batch|) - KeysOf(Added(s, batch)) == s.pending
    {
      CI.CommitFacts(s, batch);
    }

    method CommitCircuits(batch: seq<CircuitPtr>, encodable: CircuitRecord -> bool, writeOk: bool)
      returns (actions: FwdActions, err: Option<Error>)
      modifies this`pending, this`adds
      ensures err == CommitError(old(View()), batch, encodable, writeOk)
      ensures actions == Actions(old(View()), batch, err)
      ensures View() == Commit(old(View()), batch, err)
    {
      ghost var s := View();
      if |batch| == 0 {
        CommitNothing(s, batch, encodable, writeOk);
        return FwdActions([], [], []), None;
      }
      var adds, drops, fails, addFails := Reconcile(batch);
      if |adds| == 0 {
        return FwdActions([], drops, fails), None;
      }
      var encoded := EncodeAll(adds, encodable);
      if !encoded {
        return FwdActions([], drops, addFails), Some(ErrEncode);
      }
      WriteCircuits(adds, writeOk);
      if writeOk {
        return FwdActions(adds, drops, fails), None;
      }
      Rollback(adds);
      RolledBack(s, batch);
      return FwdActions([], drops, addFails), Some(ErrDatabase);
    }

    /* ---------- OpenCircuits ---------- */

    method OpenCircuits(ks: seq<Keystone>, writeOk: bool) returns (err: Option<Error>)
      modifies this`outgoing, this`openedBy, this`hashIndex, this`keystones
      ensures err == OpenResult(old(View()), ks, writeOk)
      ensures View() == Open(old(View()), ks, writeOk)
    {
      ghost var s := View();
      if |ks| == 0 {
        return None;
      }
      var circuits: seq<CircuitPtr> := [];
      for i := 0 to |ks|
        modifies {}
        invariant OpenError(s, ks, i).None?
        invariant |circuits| == i
        invariant forall j :: 0 <= j < i ==> ks[j].inKey in pending && circuits[j] == pending[ks[j].inKey]
      {
        if ks[i].outKey in openedBy {
          OpenErrorStays(s, ks, i + 1, |ks|);
          return Some(ErrDuplicateKeystone);
        }
        if ks[i].inKey !in pending {
          OpenErrorStays(s, ks, i + 1, |ks|);
          return Some(ErrUnknownCircuit);
        }
        circuits := circuits + [pending[ks[i].inKey]];
      }
      var bucket := keystones;
      for i := 0 to |ks|
        modifies {}
        invariant bucket == OpenAll(s, ks, i).keystones
      {
        bucket := bucket[ks[i].outKey := ks[i].inKey];
      }
      if !writeOk {
        return Some(ErrDatabase);
      }
      keystones := bucket;
      OpenIndexes(ks, circuits, s);
      return None;
    }

    static lemma {:induction false} OpenErrorStays(s: State, ks: seq<Keystone>, m: nat, n: nat)
      requires m <= n <= |ks| && OpenError(s, ks, m).Some?
      ensures OpenError(s, ks, n) == OpenError(s, ks, m)
    {
      if m < n {
        OpenErrorStays(s, ks, m, n - 1);
      }
    }

    /** Once the keystones are on disk: sets them on the circuits and updates both indexes. */
    method OpenIndexes(ks: seq<Keystone>, circuits: seq<CircuitPtr>, ghost s: State)
      requires |circuits| == |ks| && Known(s, ks)
      requires forall j :: 0 <= j < |ks| ==> circuits[j] == s.pending[ks[j].inKey]
      requires View() == s.(keystones := OpenAll(s, ks, |ks|).keystones)
      modifies this`outgoing, this`openedBy, this`hashIndex
      ensures View() == OpenAll(s, ks, |ks|)
    {
      var outs, open, index := outgoing, openedBy, hashIndex;
      ghost var t := s;
      for i := 0 to |ks|
        modifies {}
        invariant t == OpenAll(s, ks, i)
        invariant outs == t.outgoing && open == t.openedBy && IndexEntries(index) == t.hashIndex
      {
        var circuit := circuits[i];
        assert t.pending[ks[i].inKey] == circuit;
        t := OpenOne(t, ks[i]);
        outs := outs[circuit := ks[i].outKey];
        open := open[ks[i].outKey := circuit];
        index := IndexAdd(index, circuit.rec.paymentHash, ks[i].outKey);
      }
      outgoing, openedBy, hashIndex := outs, open, index;
    }

    /* ---------- TrimOpenCircuits ---------- */

    /** Deletes the keys from a bucket one by one. */
    static method DeleteKeys<V>(bucket: map<CircuitKey, V>, keys: set<CircuitKey>) returns (r: map<CircuitKey, V>)
      ensures r == bucket - keys
    {
      r := bucket;
      var rest := keys;
      while rest != {}
        invariant rest <= keys && r == bucket - (keys - rest)
        decreases |rest|
      {
        var key :| key in rest;
        r, rest := r - {key}, rest - {key};
      }
    }

    method TrimOpenCircuits(chanID: uint64, start: uint64, writeOk: bool) returns (err: Option<Error>)
      modifies this`outgoing, this`openedBy, this`hashIndex, this`keystones
      ensures err == if writeOk || TrimRun(old(openedBy.Keys), chanID, start) == {} then None else Some(ErrDatabase)
      ensures View() == Trim(old(View()), chanID, start, writeOk)
    {
      var trimmed := TrimIndexes(chanID, start);
      if trimmed == {} {
        assert keystones - trimmed == keystones;
        return None;
      }
      var bucket := DeleteKeys(keystones, trimmed);
      if writeOk {
        keystones := bucket;
        return None;
      }
      return Some(ErrDatabase);
    }

    /** The scan has trimmed `done` and stands at ID i. */
    static ghost predicate Scanned(all: set<CircuitKey>, chanID: uint64, start: uint64, done: set<CircuitKey>, i: uint64) {
      done <= all && TrimRun(all, chanID, start) == done + TrimRun(all - done, chanID, i)
    }

    static lemma ScanOneMore(s: State, chanID: uint64, start: uint64, done: set<CircuitKey>, i: uint64)
      requires Scanned(s.openedBy.Keys, chanID, start, done, i)
      requires CircuitKey(chanID, i) in s.openedBy && CircuitKey(chanID, i) !in done
      ensures var o, all := CircuitKey(chanID, i), s.openedBy.Keys;
        && Scanned(all, chanID, start, done + {o}, NextID(i))
        && |all - (done + {o})| < |all - done|
    {
      var o, all := CircuitKey(chanID, i), s.openedBy.Keys;
      assert all - (done + {o}) == all - done - {o};
      assert |all - done - {o}| == |all - done| - 1;
    }

    static lemma TrimOneMore(s: State, done: set<CircuitKey>, o: CircuitKey)
      requires done <= s.openedBy.Keys && o in s.openedBy && o !in done
      ensures var before, after := TrimKeys(s, done), TrimKeys(s, done + {o});
        && after.openedBy == before.openedBy - {o}
        && after.outgoing == before.outgoing - {s.openedBy[o]}
        && after.hashIndex == before.hashIndex - {(s.openedBy[o].rec.paymentHash, EMPTY_KEY)}
    {
    }

    static lemma ScanStart(s: State, chanID: uint64, start: uint64)
      ensures TrimKeys(s, {}) == s && Scanned(s.openedBy.Keys, chanID, start, {}, start)
    {
      assert s.openedBy.Keys - {} == s.openedBy.Keys;
    }

    /** The scan under the lock: from `start` upwards until a key is not opened. */
    method TrimIndexes(chanID: uint64, start: uint64) returns (trimmed: set<CircuitKey>)
      modifies this`outgoing, this`openedBy, this`hashIndex
      ensures trimmed == TrimRun(old(openedBy.Keys), chanID, start)
      ensures View() == TrimKeys(old(View()), TrimRun(old(openedBy.Keys), chanID, start))
    {
      ghost var s := View();
      trimmed := {};
      ScanStart(s, chanID, start);
      var outs, open, index := outgoing, openedBy, hashIndex;
      var i := start;
      while CircuitKey(chanID, i) in open
        modifies {}
        invariant Scanned(s.openedBy.Keys, chanID, start, trimmed, i)
        invariant open == TrimKeys(s, trimmed).openedBy && outs == TrimKeys(s, trimmed).outgoing
        invariant IndexEntries(index) == TrimKeys(s, trimmed).hashIndex
        decreases |s.openedBy.Keys - trimmed|
      {
        var outKey := CircuitKey(chanID, i);
        var circuit := open[outKey];
        TrimOneMore(s, trimmed, outKey);
        ScanOneMore(s, chanID, start, trimmed, i);
        outs := outs - {circuit};
        open := open - {outKey};
        trimmed := trimmed + {outKey};
        index := IndexRemove(index, circuit.rec.paymentHash, EMPTY_KEY);
        i := NextID(i);
      }
      outgoing, openedBy, hashIndex := outs, open, index;
    }

    /* ---------- lookups, FailCircuit, CloseCircuit ---------- */

    method LookupByPaymentHash(h: Hash) returns (circuits: seq<CircuitPtr>)
      ensures Elems(circuits) == Lookup(View(), h)
    {
      circuits := [];
      ghost var seen: set<CircuitKey> := {};
      if h in hashIndex {
        var keys := hashIndex[h];
        while keys != {}
          invariant keys + seen == hashIndex[h]
          invariant forall c :: c in circuits <==> exists o :: o in seen && o in openedBy && openedBy[o] == c
          decreases |keys|
        {
          var key :| key in keys;
          if key in openedBy {
            circuits := circuits + [openedBy[key]];
          }
          keys, seen := keys - {key}, seen + {key};
        }
      }
      forall c
        ensures c in Elems(circuits) <==> c in Lookup(View(), h)
      {
        if c in circuits {
          var o :| o in seen && o in openedBy && openedBy[o] == c;
          assert (h, o) in View().hashIndex;
        }
      }
    }

    method FailCircuit(inKey: CircuitKey) returns (circuit: Option<CircuitPtr>, err: Option<Error>)
      modifies this`closed
      ensures err == FailError(old(View()), inKey)
      ensures View() == if err.None? then old(View()).(closed := old(closed) + {inKey}) else old(View())
      ensures circuit == if err.None? then Some(pending[inKey]) else None
    {
      if inKey !in pending {
        return None, Some(ErrUnknownCircuit);
      }
      if inKey in closed {
        return None, Some(ErrCircuitClosing);
      }
      closed := closed + {inKey};
      return Some(pending[inKey]), None;
    }

    method CloseCircuit(outKey: CircuitKey) returns (circuit: Option<CircuitPtr>, err: Option<Error>)
      modifies this`closed
      ensures err == CloseError(old(View()), outKey)
      ensures View() == if err.None? then old(View()).(closed := old(closed) + {InKey(openedBy[outKey])}) else old(View())
      ensures circuit == if err.None? then Some(openedBy[outKey]) else None
    {
      if outKey !in openedBy {
        return None, Some(ErrUnknownCircuit);
      }
      var c := openedBy[outKey];
      if InKey(c) in closed {
        return None, Some(ErrCircuitClosing);
      }
      closed := closed + {InKey(c)};
      return Some(c), None;
    }

    /* ---------- DeleteCircuits ---------- */

    static lemma OneMoreRemoved(outgoing: map<CircuitPtr, CircuitKey>, m: map<CircuitKey, CircuitPtr>, k: CircuitKey, c: CircuitPtr)
      requires k !in m
      ensures OutKeys(outgoing, m[k := c]) == OutKeys(outgoing, m) + (if c in outgoing then {outgoing[c]} else {})
      ensures Entries(outgoing, m[k := c]) ==
              Entries(outgoing, m) + (if c in outgoing then {(c.rec.paymentHash, outgoing[c])} else {})
    {
      var m' := m[k := c];
      assert forall j :: j in m ==> j in m' && m'[j] == m[j];
      assert m'[k] == c;
    }

    /** Takes one circuit out of the four indexes. */
    static function TakeOut(t: State, k: CircuitKey): (r: State) {
      if k !in t.pending then t else
        var c := t.pending[k];
        t.(pending := t.pending - {k}, closed := t.closed - {k},
           openedBy := if c in t.outgoing then t.openedBy - {t.outgoing[c]} else t.openedBy,
           hashIndex := if c in t.outgoing then t.hashIndex - {(c.rec.paymentHash, t.outgoing[c])} else t.hashIndex)
    }

    static function TakeOutAll(s: State, inKeys: seq<CircuitKey>, n: nat): (r: State)
      requires n <= |inKeys|
    {
      if n == 0 then s else TakeOut(TakeOutAll(s, inKeys, n - 1), inKeys[n - 1])
    }

    /** Memory without the removed circuits. */
    static ghost function Without(s: State, removed: map<CircuitKey, CircuitPtr>): (r: State) {
      s.(pending := s.pending - removed.Keys, closed := s.closed - removed.Keys,
         openedBy := s.openedBy - OutKeys(s.outgoing, removed), hashIndex := s.hashIndex - Entries(s.outgoing, removed))
    }

    static lemma WithoutMore(s: State, removed: map<CircuitKey, CircuitPtr>, k: CircuitKey)
      requires k in s.pending && k !in removed
      ensures Without(s, removed[k := s.pending[k]]) == TakeOut(Without(s, removed), k)
    {
      var c := s.pending[k];
      var more := removed[k := c];
      OneMoreRemoved(s.outgoing, removed, k, c);
      assert more.Keys == removed.Keys + {k};
      MapMinus(s.pending, removed.Keys, {k});
      SetMinus(s.closed, removed.Keys, {k});
      if c in s.outgoing {
        MapMinus(s.openedBy, OutKeys(s.outgoing, removed), {s.outgoing[c]});
        SetMinus(s.hashIndex, Entries(s.outgoing, removed), {(c.rec.paymentHash, s.outgoing[c])});
      } else {
        assert OutKeys(s.outgoing, more) == OutKeys(s.outgoing, removed);
        assert Entries(s.outgoing, more) == Entries(s.outgoing, removed);
      }
    }

    static lemma RemovedMore(s: State, inKeys: seq<CircuitKey>, n: nat)
      requires 0 < n <= |inKeys|
      ensures var before, k := Removed(s, inKeys[..n - 1]), inKeys[n - 1];
        Removed(s, inKeys[..n]) == if k in s.pending then before[k := s.pending[k]] else before
    {
      assert inKeys[..n] == inKeys[..n - 1] + [inKeys[n - 1]];
    }

    static lemma {:induction false} TakenOut(s: State, inKeys: seq<CircuitKey>, n: nat)
      requires n <= |inKeys|
      ensures TakeOutAll(s, inKeys, n) == Without(s, Removed(s, inKeys[..n]))
    {
      if n == 0 {
        assert Removed(s, inKeys[..n]) == map[];
      } else {
        TakenOut(s, inKeys, n - 1);
        RemovedMore(s, inKeys, n);
        var before, k := Removed(s, inKeys[..n - 1]), inKeys[n - 1];
        if k in s.pending {
          if k in before {
            assert before[k := s.pending[k]] == before;
          } else {
            WithoutMore(s, before, k);
          }
        }
      }
    }

    /** One round of the removal loop: a key still pending is new to the removed circuits. */
    static lemma RemovalRound(s: State, inKeys: seq<CircuitKey>, n: nat)
      requires n < |inKeys|
      ensures var t, before, after, k := TakeOutAll(s, inKeys, n), Removed(s, inKeys[..n]), Removed(s, inKeys[..n + 1]), inKeys[n];
        if k in t.pending then
          && after == before[k := t.pending[k]]
          && s.closed * after.Keys == s.closed * before.Keys + (if k in t.closed then {k} else {})
        else after == before
    {
      TakenOut(s, inKeys, n);
      RemovedMore(s, inKeys, n + 1);
    }

    static lemma AbsentMinus(keys: set<CircuitKey>, k: CircuitKey)
      ensures k !in keys ==> keys - {k} == keys
    {
    }

    /** Takes the circuits out of memory, remembering them and which of them were closing. */
    method RemoveFromMemory(inKeys: seq<CircuitKey>) returns (removed: map<CircuitKey, CircuitPtr>, closing: set<CircuitKey>)
      modifies this`pending, this`closed, this`openedBy, this`hashIndex
      ensures removed == Removed(old(View()), inKeys) && closing == old(closed) * removed.Keys
      ensures View() == Without(old(View()), removed)
    {
      ghost var s := View();
      removed, closing := map[], {};
      var index, gone, open, hashes := pending, closed, openedBy, hashIndex;
      ghost var t := s;
      for i := 0 to |inKeys|
        modifies {}
        invariant t == TakeOutAll(s, inKeys, i)
        invariant t == s.(pending := index, closed := gone, openedBy := open, hashIndex := IndexEntries(hashes))
        invariant removed == Removed(s, inKeys[..i]) && closing == s.closed * removed.Keys
      {
        var inKey := inKeys[i];
        RemovalRound(s, inKeys, i);
        AbsentMinus(gone, inKey);
        if inKey in index {
          var circuit := index[inKey];
          index := index - {inKey};
          if inKey in gone {
            closing := closing + {inKey};
            gone := gone - {inKey};
          }
          if circuit in outgoing {
            open := open - {outgoing[circuit]};
            hashes := IndexRemove(hashes, circuit.rec.paymentHash, outgoing[circuit]);
          }
          removed := removed[inKey := circuit];
        }
        t := TakeOut(t, inKey);
      }
      TakenOut(s, inKeys, |inKeys|);
      assert inKeys[..|inKeys|] == inKeys;
      pending, closed, openedBy, hashIndex := index, gone, open, hashes;
    }

    /** The keystones of the removed circuits, gathered one by one. */
    method KeystonesOf(removed: map<CircuitKey, CircuitPtr>) returns (outs: set<CircuitKey>)
      ensures outs == OutKeys(outgoing, removed)
    {
      outs := {};
      var rest := removed.Keys;
      MapAll(removed);
      while rest != {}
        invariant rest <= removed.Keys
        invariant outs == OutKeys(outgoing, removed - rest)
        decreases |rest|
      {
        var k :| k in rest;
        MapTake(removed, rest, k);
        OneMoreRemoved(outgoing, removed - rest, k, removed[k]);
        if removed[k] in outgoing {
          outs := outs + {outgoing[removed[k]]};
        }
        rest := rest - {k};
      }
    }

    /** The delete transaction: the keystones of the removed circuits, and the circuits themselves. */
    method DeleteOnDisk(removed: map<CircuitKey, CircuitPtr>, writeOk: bool)
      modifies this`adds, this`keystones
      ensures adds == if writeOk then old(adds) - removed.Keys else old(adds)
      ensures keystones == if writeOk then old(keystones) - OutKeys(outgoing, removed) else old(keystones)
    {
      var outs := KeystonesOf(removed);
      var keystoneBkt := DeleteKeys(keystones, outs);
      var circuitBkt := DeleteKeys(adds, removed.Keys);
      if writeOk {
        adds, keystones := circuitBkt, keystoneBkt;
      }
    }

    /** Puts one circuit back into the four indexes. */
    static function PutIn(t: State, k: CircuitKey, c: CircuitPtr, closing: bool): (r: State) {
      t.(pending := t.pending[k := c], closed := if closing then t.closed + {k} else t.closed,
         openedBy := if c in t.outgoing then t.openedBy[t.outgoing[c] := c] else t.openedBy,
         hashIndex := if c in t.outgoing then t.hashIndex + {(c.rec.paymentHash, t.outgoing[c])} else t.hashIndex)
    }

    static function PutInAll(s: State, removed: map<CircuitKey, CircuitPtr>, closing: set<CircuitKey>,
                             order: seq<CircuitKey>, n: nat): (r: State)
      requires n <= |order| && forall k :: k in order ==> k in removed
    {
      if n == 0 then s else
        var k := order[n - 1];
        PutIn(PutInAll(s, removed, closing, order, n - 1), k, removed[k], k in closing)
    }

    /** The removed circuits among the first n of the order. */
    static ghost function Restored(removed: map<CircuitKey, CircuitPtr>, order: seq<CircuitKey>, n: nat): map<CircuitKey, CircuitPtr>
      requires n <= |order|
    {
      map k | k in removed && k in order[..n] :: removed[k]
    }

    /** s with these circuits added to the pending index, the closed set and the hash index. */
    static ghost function With(s: State, back: map<CircuitKey, CircuitPtr>, closing: set<CircuitKey>): (r: State) {
      s.(pending := s.pending + back, closed := s.closed + closing * back.Keys,
         hashIndex := s.hashIndex + Entries(s.outgoing, back))
    }

    static lemma WithMore(s: State, back: map<CircuitKey, CircuitPtr>, closing: set<CircuitKey>, k: CircuitKey, c: CircuitPtr)
      requires k !in back
      ensures With(s, back[k := c], closing).pending == With(s, back, closing).pending[k := c]
      ensures With(s, back[k := c], closing).closed ==
              if k in closing then With(s, back, closing).closed + {k} else With(s, back, closing).closed
    {
      MapPlus(s.pending, back, k, c);
      if k in closing {
        assert closing * back[k := c].Keys == closing * back.Keys + {k};
        SetPlus(s.closed, closing * back.Keys, {k});
      } else {
        assert closing * back[k := c].Keys == closing * back.Keys;
      }
    }

    static lemma WithMoreEntries(s: State, back: map<CircuitKey, CircuitPtr>, closing: set<CircuitKey>, k: CircuitKey, c: CircuitPtr)
      requires k !in back
      ensures With(s, back[k := c], closing).hashIndex ==
              if c in s.outgoing then With(s, back, closing).hashIndex + {(c.rec.paymentHash, s.outgoing[c])}
              else With(s, back, closing).hashIndex
    {
      OneMoreRemoved(s.outgoing, back, k, c);
      if c in s.outgoing {
        SetPlus(s.hashIndex, Entries(s.outgoing, back), {(c.rec.paymentHash, s.outgoing[c])});
      } else {
        assert Entries(s.outgoing, back[k := c]) == Entries(s.outgoing, back);
      }
    }

    static lemma RestoredMore(removed: map<CircuitKey, CircuitPtr>, order: seq<CircuitKey>, n: nat)
      requires 0 < n <= |order| && Distinct(order) && order[n - 1] in removed
      ensures order[n - 1] !in Restored(removed, order, n - 1)
      ensures Restored(removed, order, n) == Restored(removed, order, n - 1)[order[n - 1] := removed[order[n - 1]]]
    {
      assert order[..n] == order[..n - 1] + [order[n - 1]] && order[n - 1] !in order[..n - 1];
    }

    static lemma {:induction false} PutInside(s: State, removed: map<CircuitKey, CircuitPtr>, closing: set<CircuitKey>,
                                              order: seq<CircuitKey>, n: nat)
      requires n <= |order| && Distinct(order) && forall k :: k in order ==> k in removed
      ensures PutInAll(s, removed, closing, order, n) ==
              With(s, Restored(removed, order, n), closing).(openedBy := PutBack(s.outgoing, s.openedBy, removed, order, n))
      decreases n
    {
      if n == 0 {
        assert Restored(removed, order, n) == map[];
        WithNothing(s, closing);
      } else {
        PutInside(s, removed, closing, order, n - 1);
        RestoredMore(removed, order, n);
        var before, k := Restored(removed, order, n - 1), order[n - 1];
        PutInOne(s, before, closing, PutBack(s.outgoing, s.openedBy, removed, order, n - 1), k, removed[k]);
      }
    }

    static lemma WithNothing(s: State, closing: set<CircuitKey>)
      ensures With(s, map[], closing) == s
    {
      assert Entries(s.outgoing, map[]) == {};
    }

    static lemma PutInOne(s: State, before: map<CircuitKey, CircuitPtr>, closing: set<CircuitKey>,
                          open: map<CircuitKey, CircuitPtr>, k: CircuitKey, c: CircuitPtr)
      requires k !in before
      ensures PutIn(With(s, before, closing).(openedBy := open), k, c, k in closing) ==
              With(s, before[k := c], closing).(openedBy := if c in s.outgoing then open[s.outgoing[c] := c] else open)
    {
      WithMore(s, before, closing, k, c);
      WithMoreEntries(s, before, closing, k, c);
    }

    static lemma {:induction false} PutInPrefix(s: State, removed: map<CircuitKey, CircuitPtr>, closing: set<CircuitKey>,
                                                order: seq<CircuitKey>, k: CircuitKey, n: nat)
      requires n <= |order| && k in removed && forall x :: x in order ==> x in removed
      ensures PutInAll(s, removed, closing, order + [k], n) == PutInAll(s, removed, closing, order, n)
    {
      if n > 0 {
        PutInPrefix(s, removed, closing, order, k, n - 1);
      }
    }

    /** Puts everything back after a failed delete, in whatever order the removed circuits are walked. */
    method PutBackInMemory(removed: map<CircuitKey, CircuitPtr>, closing: set<CircuitKey>) returns (ghost order: seq<CircuitKey>)
      modifies this`pending, this`closed, this`openedBy, this`hashIndex
      ensures Lists(order, removed.Keys)
      ensures View() == PutInAll(old(View()), removed, closing, order, |order|)
    {
      ghost var s := View();
      order := [];
      var index, gone, open, hashes := pending, closed, openedBy, hashIndex;
      var rest := removed.Keys;
      ghost var t := s;
      while rest != {}
        modifies {}
        invariant rest <= removed.Keys && Distinct(order) && forall k :: k in order <==> k in removed && k !in rest
        invariant t == PutInAll(s, removed, closing, order, |order|)
        invariant t == s.(pending := index, closed := gone, openedBy := open, hashIndex := IndexEntries(hashes))
        decreases |rest|
      {
        var k :| k in rest;
        var circuit := removed[k];
        PutInPrefix(s, removed, closing, order, k, |order|);
        index := index[k := circuit];
        if k in closing {
          gone := gone + {k};
        }
        if circuit in outgoing {
          open := open[outgoing[circuit] := circuit];
          hashes := IndexAdd(hashes, circuit.rec.paymentHash, outgoing[circuit]);
        }
        t := PutIn(t, k, circuit, k in closing);
        rest, order := rest - {k}, order + [k];
      }
      pending, closed, openedBy, hashIndex := index, gone, open, hashes;
    }

    static lemma RestoredAll(removed: map<CircuitKey, CircuitPtr>, order: seq<CircuitKey>)
      requires Lists(order, removed.Keys)
      ensures Restored(removed, order, |order|) == removed
    {
      assert order[..|order|] == order;
    }

    static lemma WithoutWith(s: State, removed: map<CircuitKey, CircuitPtr>)
      requires forall k :: k in removed ==> k in s.pending && s.pending[k] == removed[k]
      ensures With(Without(s, removed), removed, s.closed * removed.Keys) ==
              Without(s, removed).(pending := s.pending, closed := s.closed, hashIndex := s.hashIndex + Entries(s.outgoing, removed))
    {
      MapBack(s.pending, removed);
      SetPlus(s.closed, removed.Keys, {});
      assert s.closed * removed.Keys * removed.Keys == s.closed * removed.Keys;
      SetPlus(s.hashIndex, Entries(s.outgoing, removed), {});
    }

    /** Taking out and putting back is what Delete says of a failed write. */
    static lemma BackAgain(s: State, inKeys: seq<CircuitKey>, order: seq<CircuitKey>)
      requires Lists(order, Removed(s, inKeys).Keys)
      ensures var removed := Removed(s, inKeys);
        PutInAll(Without(s, removed), removed, s.closed * removed.Keys, order, |order|) == Delete(s, inKeys, false, order)
    {
      var removed := Removed(s, inKeys);
      PutInside(Without(s, removed), removed, s.closed * removed.Keys, order, |order|);
      RestoredAll(removed, order);
      WithoutWith(s, removed);
    }

    method DeleteCircuits(inKeys: seq<CircuitKey>, writeOk: bool) returns (err: Option<Error>, ghost order: seq<CircuitKey>)
      requires CI.Valid(View())
      modifies this`pending, this`closed, this`openedBy, this`hashIndex, this`adds, this`keystones
      ensures err == if writeOk then None else Some(ErrDatabase)
      ensures Lists(order, Removed(old(View()), inKeys).Keys)
      ensures View() == Delete(old(View()), inKeys, writeOk, order)
    {
      ghost var s := View();
      var removed, closing := RemoveFromMemory(inKeys);
      DeleteOnDisk(removed, writeOk);
      if writeOk {
        order := Listing(removed.Keys);
        return None, order;
      }
      assert View() == Without(s, removed);
      order := PutBackInMemory(removed, closing);
      assert View() == Delete(s, inKeys, false, order) by { BackAgain(s, inKeys, order); }
      return Some(ErrDatabase), order;
    }

    /* ---------- startup ---------- */

    static ghost function ClosedSet(summaries: seq<ClosedChannel>): (r: set<uint64>) {
      set c | c in summaries && !c.isPending :: c.chanID
    }

    /** The circuits whose incoming channel is closed. */
    method StaleByIncoming(closedChans: set<uint64>) returns (keys: set<CircuitKey>)
      ensures keys == set k | k in adds && IsClosedChannel(closedChans, adds[k].incoming.chanID) :: adds[k].incoming
    {
      keys := {};
      var rest := adds.Keys;
      ghost var done: set<CircuitKey> := {};
      while rest != {}
        invariant rest <= adds.Keys && done == adds.Keys - rest
        invariant keys == set k | k in done && IsClosedChannel(closedChans, adds[k].incoming.chanID) :: adds[k].incoming
        decreases |rest|
      {
        var k :| k in rest;
        if IsClosedChannel(closedChans, adds[k].incoming.chanID) {
          keys := keys + {adds[k].incoming};
        }
        rest, done := rest - {k}, done + {k};
      }
    }

    /** The keystones whose incoming or outgoing channel is closed, and the circuits they name. */
    method StaleByKeystone(closedChans: set<uint64>) returns (outs: set<CircuitKey>, ins: set<CircuitKey>)
      ensures outs == set o | o in keystones && StaleKeystone(keystones, closedChans, o)
      ensures ins == set o | o in keystones && StaleKeystone(keystones, closedChans, o) :: keystones[o]
    {
      outs, ins := {}, {};
      var rest := keystones.Keys;
      ghost var done: set<CircuitKey> := {};
      while rest != {}
        invariant rest <= keystones.Keys && done == keystones.Keys - rest
        invariant outs == set o | o in done && StaleKeystone(keystones, closedChans, o)
        invariant ins == set o | o in done && StaleKeystone(keystones, closedChans, o) :: keystones[o]
        decreases |rest|
      {
        var o :| o in rest;
        if IsClosedChannel(closedChans, keystones[o].chanID) {
          outs, ins := outs + {o}, ins + {keystones[o]};
        } else if IsClosedChannel(closedChans, o.chanID) {
          outs, ins := outs + {o}, ins + {keystones[o]};
        }
        rest, done := rest - {o}, done + {o};
      }
    }

    method CleanClosedChannels(summaries: seq<ClosedChannel>, cleanOk: bool) returns (ok: bool)
      modifies this`adds, this`keystones
      ensures ok <==> ClosedSet(summaries) == {} || cleanOk
      ensures View() == if ok then Clean(old(View()), ClosedSet(summaries)) else old(View())
    {
      ghost var s := View();
      var closedChans: set<uint64> := {};
      for i := 0 to |summaries|
        modifies {}
        invariant closedChans == ClosedSet(summaries[..i])
      {
        assert summaries[..i + 1] == summaries[..i] + [summaries[i]];
        if !summaries[i].isPending {
          closedChans := closedChans + {summaries[i].chanID};
        }
      }
      assert summaries[..|summaries|] == summaries;
      if closedChans == {} {
        CleanNothing(s);
        return true;
      }
      var circuitKeys := StaleByIncoming(closedChans);
      var keystoneKeys, named := StaleByKeystone(closedChans);
      circuitKeys := circuitKeys + named;
      var circuitBkt := DeleteKeys(adds, circuitKeys);
      var keystoneBkt := DeleteKeys(keystones, keystoneKeys);
      if cleanOk {
        adds, keystones := circuitBkt, keystoneBkt;
      }
      return cleanOk;
    }

    static lemma CleanNothing(s: State)
      ensures Clean(s, {}) == s
    {
      assert StaleCircuits(s.adds, s.keystones, {}) == {};
      assert (set o | o in s.keystones && StaleKeystone(s.keystones, {}, o)) == {};
    }

    method TrimAllOpenCircuits(chans: seq<Channel>) returns (ok: bool)
      modifies this`outgoing, this`openedBy, this`hashIndex, this`keystones
      ensures (View(), ok) == TrimAll(old(View()), chans, |chans|)
    {
      ghost var s := View();
      for i := 0 to |chans|
        invariant (View(), true) == TrimAll(s, chans, i)
      {
        var c := chans[i];
        if !c.isPending && c.chanID != SOURCE {
          if c.nextLocalHtlcIndex.None? {
            TrimAllStops(s, chans, i + 1, |chans|);
            return false;
          }
          var err := TrimOpenCircuits(c.chanID, c.nextLocalHtlcIndex.value, c.trimOk);
          if err.Some? {
            TrimAllStops(s, chans, i + 1, |chans|);
            return false;
          }
        }
      }
      return true;
    }

    static lemma {:induction false} TrimAllStops(s: State, chans: seq<Channel>, m: nat, n: nat)
      requires m <= n <= |chans| && !TrimAll(s, chans, m).1
      ensures TrimAll(s, chans, n) == TrimAll(s, chans, m)
    {
      if m < n {
        TrimAllStops(s, chans, m, n - 1);
      }
    }

    /** Decodes the circuit bucket into the pending index. */
    method LoadCircuits() returns (index: map<CircuitKey, CircuitPtr>)
      requires CI.DiskValid(View())
      ensures index == LoadedAll(adds)
    {
      index := map[];
      var rest := adds.Keys;
      while rest != {}
        invariant rest <= adds.Keys && index == map k | k in adds.Keys - rest :: Loaded(adds[k])
        decreases |rest|
      {
        var k :| k in rest;
        var circuit := Loaded(adds[k]);
        index := index[InKey(circuit) := circuit];
        rest := rest - {k};
      }
    }

    /** Walks the keystone bucket: keystones for the loaded circuits, and the strays of the zero channel. */
    method LoadKeystones(index: map<CircuitKey, CircuitPtr>, order: seq<CircuitKey>)
      returns (outs: map<CircuitPtr, CircuitKey>, open: map<CircuitKey, CircuitPtr>, strays: set<CircuitKey>)
      requires Lists(order, keystones.Keys) && index == LoadedAll(adds)
      ensures outs == Resurrected(adds, keystones, order, |order|)
      ensures open == LoadedOpen(adds, keystones)
      ensures strays == set o | o in keystones && Stray(View(), o) && o.chanID == SOURCE
    {
      outs, open, strays := map[], map[], {};
      for i := 0 to |order|
        invariant outs == Resurrected(adds, keystones, order, i)
        invariant forall o :: o in open <==> o in order[..i] && keystones[o] in adds
        invariant forall o :: o in open ==> open[o] == Loaded(adds[keystones[o]])
        invariant forall o :: o in strays <==> o in order[..i] && keystones[o] !in adds && o.chanID == SOURCE
      {
        var outKey := order[i];
        assert order[..i + 1] == order[..i] + [outKey];
        var inKey := keystones[outKey];
        if inKey in index {
          outs := outs[index[inKey] := outKey];
          open := open[outKey := index[inKey]];
        } else if outKey.chanID == SOURCE {
          strays := strays + {outKey};
        }
      }
      assert order[..|order|] == order;
    }

    static ghost function EntriesOf(open: map<CircuitKey, CircuitPtr>, outs: map<CircuitPtr, CircuitKey>, keys: set<CircuitKey>)
      : (es: set<(Hash, CircuitKey)>)
    {
      set o | o in keys && o in open && open[o] in outs :: (open[o].rec.paymentHash, outs[open[o]])
    }

    static lemma EntriesMore(open: map<CircuitKey, CircuitPtr>, outs: map<CircuitPtr, CircuitKey>, keys: set<CircuitKey>, o: CircuitKey)
      requires o in open && open[o] in outs
      ensures EntriesOf(open, outs, keys + {o}) == EntriesOf(open, outs, keys) + {(open[o].rec.paymentHash, outs[open[o]])}
    {
    }

    /** Rebuilds the hash index from the opened circuits. */
    static method IndexOf(open: map<CircuitKey, CircuitPtr>, outs: map<CircuitPtr, CircuitKey>) returns (index: HashIndex)
      requires forall o :: o in open ==> open[o] in outs
      ensures IndexEntries(index) == set o | o in open && open[o] in outs :: (open[o].rec.paymentHash, outs[open[o]])
    {
      index := map[];
      var rest := open.Keys;
      ghost var done: set<CircuitKey> := {};
      while rest != {}
        invariant rest <= open.Keys && done == open.Keys - rest
        invariant IndexEntries(index) == EntriesOf(open, outs, done)
        decreases |rest|
      {
        var o :| o in rest;
        EntriesMore(open, outs, done, o);
        index := IndexAdd(index, open[o].rec.paymentHash, outs[open[o]]);
        rest, done := rest - {o}, done + {o};
      }
      assert done == open.Keys;
    }

    method RestoreMemState(order: seq<CircuitKey>, restoreOk: bool)
      requires CI.DiskValid(View()) && Lists(order, keystones.Keys)
      modifies this
      ensures View() == if restoreOk then Restore(old(View()), order) else old(View())
    {
      ghost var s := View();
      var index := LoadCircuits();
      var outs, open, strays := LoadKeystones(index, order);
      var bucket := DeleteKeys(keystones, strays);
      if !restoreOk {
        return;
      }
      CI.ResurrectedFrom(adds, keystones, order, |order|);
      assert forall o :: o in open ==> o in order;
      var hashes := IndexOf(open, outs);
      keystones := bucket;
      pending, openedBy, closed, hashIndex := index, open, {}, hashes;
      outgoing, fromDisk := outs, index.Values;
    }

    /** NewCircuitMap over the disk a previous process left behind. */
    method Restart(summaries: seq<ClosedChannel>, u: Startup) returns (up: bool)
      requires CI.DiskValid(View()) && Possible(View(), u) && u.closedChans == ClosedSet(summaries)
      modifies this
      ensures (View(), up) == CircuitState.Restart(old(View()), u)
    {
      ghost var s := View();
      pending, openedBy, closed, hashIndex, outgoing, fromDisk := map[], map[], {}, map[], map[], {};
      assert View() == Crashed(s);
      CI.CleanKeepsDisk(Crashed(s), u.closedChans);
      var cleaned := CleanClosedChannels(summaries, u.cleanOk);
      if !cleaned {
        return false;
      }
      RestoreMemState(u.order, u.restoreOk);
      if !u.restoreOk {
        return false;
      }
      up := TrimAllOpenCircuits(u.chans);
    }
  }
}
