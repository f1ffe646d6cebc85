/**
  LookupByPaymentHash and failed deletes over runs that trims and commits may leave incoherent,
  and exactly when a restarted circuit map hides an open circuit from the lookup.
 */
module CircuitLookup {
  import opened Common
  import opened Verdicts
  import opened CircuitState
  import opened CircuitInvariants
  import opened CircuitRuns

  /* ---------- runs that keep the links ---------- */

  /**
    What is asked of the steps: new circuits have no keystone, opens are of unopened circuits and
    one to one, and memory is rebuilt only from a disk on which no circuit has two keystones. Trims
    that are not written and commits that stop at an encoding error are allowed.
   */
  ghost predicate Tidy(w: World, step: Step) {
    match step
    case DoCommit(batch, _, _) => forall c :: c in batch ==> c !in w.s.outgoing
    case DoOpen(ks, writeOk) => OpenResult(w.s, ks, writeOk).None? ==> Known(w.s, ks) && Unopened(w.s, ks) && Pairs(ks)
    case DoRestart(u) => KeystonesUnique(Clean(Crashed(w.s), u.closedChans))
    case _ => true
  }

  ghost predicate LinkedWorld(w: World) {
    && DiskValid(w.s)
    && (w.up ==> Valid(w.s) && Linked(w.s) && IndexComplete(w.s))
  }

  lemma {:induction false} TrimAllKeepsLinks(s: State, chans: seq<Channel>, n: nat)
    requires Valid(s) && Linked(s) && IndexComplete(s) && n <= |chans|
    ensures Linked(TrimAll(s, chans, n).0) && IndexComplete(TrimAll(s, chans, n).0)
  {
    if n > 0 {
      TrimAllKeepsLinks(s, chans, n - 1);
      TrimAllValid(s, chans, n - 1);
      var before, c := TrimAll(s, chans, n - 1).0, chans[n - 1];
      if c.nextLocalHtlcIndex.Some? {
        TrimKeepsLinks(before, c.chanID, c.nextLocalHtlcIndex.value, c.trimOk);
      }
    }
  }

  lemma RestartKeepsLinks(s: State, u: Startup)
    requires DiskValid(s) && Possible(s, u) && KeystonesUnique(Clean(Crashed(s), u.closedChans)) && Restart(s, u).1
    ensures Linked(Restart(s, u).0) && IndexComplete(Restart(s, u).0)
  {
    var d := Clean(Crashed(s), u.closedChans);
    CleanKeepsDisk(Crashed(s), u.closedChans);
    RestoreValid(d, u.order);
    RestoreLinks(d, u.order);
    TrimAllKeepsLinks(Restore(d, u.order), u.chans, |u.chans|);
  }

  lemma OpenStepLinked(s: State, ks: seq<Keystone>, writeOk: bool)
    requires Valid(s) && Linked(s) && IndexComplete(s)
    requires OpenResult(s, ks, writeOk).None? ==> Known(s, ks) && Unopened(s, ks) && Pairs(ks)
    ensures Linked(Open(s, ks, writeOk)) && IndexComplete(Open(s, ks, writeOk))
  {
    CheckedAreKnown(s, ks, |ks|);
    if OpenResult(s, ks, writeOk).None? {
      OpenKeepsLinks(s, ks);
      OpenKeepsIndex(s, ks, |ks|);
    }
  }

  lemma TidyStep(w: World, step: Step)
    requires LinkedWorld(w) && Enabled(w, step) && Tidy(w, step)
    ensures LinkedWorld(Next(w, step))
  {
    StepSane(w, step);
    match step
    case DoCommit(batch, encodable, writeOk) => CommitKeepsLinks(w.s, batch, CommitError(w.s, batch, encodable, writeOk));
    case DoOpen(ks, writeOk) => OpenStepLinked(w.s, ks, writeOk);
    case DoTrim(chanID, start, writeOk) => TrimKeepsLinks(w.s, chanID, start, writeOk);
    case DoDelete(inKeys, writeOk, order) =>
      if writeOk {
        DeleteKeepsLinks(w.s, inKeys, order);
      } else {
        FailedDeleteRestores(w.s, inKeys, order);
      }
    case DoRestart(u) =>
      if Restart(w.s, u).1 {
        RestartKeepsLinks(w.s, u);
      }
    case _ =>
  }

  /** Every state of every such run is linked and completely indexed, through failed trims and encoding errors. */
  lemma {:induction false} TidyRunLinked(ws: seq<World>, steps: seq<Step>, i: nat)
    requires IsRun(ws, steps) && LinkedWorld(ws[0]) && i < |ws|
    requires forall j {:trigger steps[j]} :: 0 <= j < |steps| ==> Tidy(ws[j], steps[j])
    ensures LinkedWorld(ws[i])
  {
    if i > 0 {
      TidyRunLinked(ws, steps, i - 1);
      TidyStep(ws[i - 1], steps[i - 1]);
    }
  }

  /** So the lookup returns every opened circuit with the hash in every state of such a run. */
  lemma LookupCompleteInRun(ws: seq<World>, steps: seq<Step>, i: nat)
    requires IsRun(ws, steps) && LinkedWorld(ws[0]) && i < |ws| && ws[i].up
    requires forall j {:trigger steps[j]} :: 0 <= j < |steps| ==> Tidy(ws[j], steps[j])
    ensures Found(ws[i].s)
  {
    TidyRunLinked(ws, steps, i);
    var s := ws[i].s;
    forall o | o in s.openedBy ensures s.openedBy[o] in Lookup(s, s.openedBy[o].rec.paymentHash) {
      LookupExact(s, s.openedBy[o].rec.paymentHash, s.openedBy[o]);
    }
  }

  /** And a delete whose write fails, anywhere in such a run, restores the state before it exactly. */
  lemma FailedDeleteInRun(ws: seq<World>, steps: seq<Step>, i: nat)
    requires IsRun(ws, steps) && LinkedWorld(ws[0]) && i < |steps|
    requires forall j {:trigger steps[j]} :: 0 <= j < |steps| ==> Tidy(ws[j], steps[j])
    requires steps[i].DoDelete? && !steps[i].writeOk
    ensures ws[i + 1] == ws[i]
  {
    TidyRunLinked(ws, steps, i);
    FailedDeleteRestores(ws[i].s, steps[i].inKeys, steps[i].order);
  }

  /* ---------- and only those, without a trim ---------- */

  /** No keystone is trimmed, and an open gives each outgoing key to one circuit. */
  ghost predicate Trimless(w: World, step: Step)
    requires Enabled(w, step)
  {
    match step
    case DoTrim(chanID, start, _) => TrimRun(w.s.openedBy.Keys, chanID, start) == {}
    case DoOpen(ks, _) => OneCircuitPerKey(ks)
    case DoRestart(u) => Restart(w.s, u).1 ==> Restart(w.s, u).0.openedBy == Rebuilt(w.s, u).openedBy
    case _ => true
  }

  lemma {:induction false} TrimAllAddsNoIndex(s: State, chans: seq<Channel>, n: nat)
    requires n <= |chans|
    ensures TrimAll(s, chans, n).0.hashIndex <= s.hashIndex
  {
    if n > 0 {
      TrimAllAddsNoIndex(s, chans, n - 1);
    }
  }

  lemma RestartIndexSound(s: State, u: Startup)
    requires DiskValid(s) && Possible(s, u) && KeystonesUnique(Clean(Crashed(s), u.closedChans)) && Restart(s, u).1
    requires Restart(s, u).0.openedBy == Rebuilt(s, u).openedBy
    ensures IndexSound(Restart(s, u).0)
  {
    CleanKeepsDisk(Crashed(s), u.closedChans);
    RestoreLinks(Clean(Crashed(s), u.closedChans), u.order);
    TrimAllAddsNoIndex(Rebuilt(s, u), u.chans, |u.chans|);
  }

  ghost predicate SoundWorld(w: World) {
    LinkedWorld(w) && (w.up ==> IndexSound(w.s))
  }

  lemma OpenStepSound(s: State, ks: seq<Keystone>, writeOk: bool)
    requires IndexSound(s) && OneCircuitPerKey(ks)
    ensures IndexSound(Open(s, ks, writeOk))
  {
    CheckedAreKnown(s, ks, |ks|);
    if OpenResult(s, ks, writeOk).None? {
      OpenKeepsIndexSound(s, ks, |ks|);
    }
  }

  lemma TrimlessStep(w: World, step: Step)
    requires SoundWorld(w) && Enabled(w, step) && Tidy(w, step) && Trimless(w, step)
    ensures Next(w, step).up ==> IndexSound(Next(w, step).s)
  {
    match step
    case DoOpen(ks, writeOk) => OpenStepSound(w.s, ks, writeOk);
    case DoTrim(chanID, start, writeOk) => TrimIndexSound(w.s, chanID, start, writeOk);
    case DoDelete(inKeys, writeOk, order) =>
      if writeOk {
        DeleteKeepsIndexSound(w.s, inKeys, order);
      } else {
        FailedDeleteRestores(w.s, inKeys, order);
      }
    case DoRestart(u) =>
      if Restart(w.s, u).1 {
        RestartIndexSound(w.s, u);
      }
    case _ =>
  }

  /** On tidy runs without a trim the hash index holds exactly the opened circuits, encoding errors and stray keystones included. */
  lemma {:induction false} TrimlessRunSound(ws: seq<World>, steps: seq<Step>, i: nat)
    requires IsRun(ws, steps) && SoundWorld(ws[0]) && i < |ws|
    requires forall j {:trigger steps[j]} :: 0 <= j < |steps| ==> Tidy(ws[j], steps[j]) && Trimless(ws[j], steps[j])
    ensures SoundWorld(ws[i])
  {
    if i > 0 {
      TrimlessRunSound(ws, steps, i - 1);
      TidyStep(ws[i - 1], steps[i - 1]);
      TrimlessStep(ws[i - 1], steps[i - 1]);
    }
  }

  /** So in every state of such a run the lookup returns exactly the opened circuits with the hash. */
  lemma LookupExactInRun(ws: seq<World>, steps: seq<Step>, i: nat, h: Hash, c: CircuitPtr)
    requires IsRun(ws, steps) && SoundWorld(ws[0]) && i < |ws| && ws[i].up
    requires forall j {:trigger steps[j]} :: 0 <= j < |steps| ==> Tidy(ws[j], steps[j]) && Trimless(ws[j], steps[j])
    ensures var s := ws[i].s; c in Lookup(s, h) <==> exists o :: o in s.openedBy && s.openedBy[o] == c && c.rec.paymentHash == h
  {
    TrimlessRunSound(ws, steps, i);
    LookupExact(ws[i].s, h, c);
  }

  /* ---------- after a restart ---------- */

  /** Every opened circuit is found by its payment hash, under whatever key. */
  ghost predicate Found(s: State) {
    forall o :: o in s.openedBy ==> s.openedBy[o] in Lookup(s, s.openedBy[o].rec.paymentHash)
  }

  /** t is r after trims: fewer opened keys, and the same hash index but for entries of the empty key. */
  ghost predicate TrimmedFrom(t: State, r: State) {
    && (forall o :: o in t.openedBy ==> o in r.openedBy && t.openedBy[o] == r.openedBy[o])
    && (forall h, o: CircuitKey :: o != EMPTY_KEY ==> ((h, o) in t.hashIndex <==> (h, o) in r.hashIndex))
  }

  lemma {:induction false} TrimAllTrims(s: State, chans: seq<Channel>, n: nat)
    requires n <= |chans|
    ensures TrimmedFrom(TrimAll(s, chans, n).0, s)
  {
    if n > 0 {
      TrimAllTrims(s, chans, n - 1);
    }
  }

  /** The key a rebuilt circuit carries: of the keystones naming it, the last that was loaded. */
  ghost predicate CarriesOpenKey(t: State, r: State, p: CircuitKey) {
    p in r.openedBy && r.openedBy[p] in r.outgoing && r.outgoing[r.openedBy[p]] in t.openedBy
  }

  lemma FoundWhenTrimmed(d: State, order: seq<CircuitKey>, t: State)
    requires DiskValid(d) && Lists(order, d.keystones.Keys) && TrimmedFrom(t, Restore(d, order))
    ensures Found(t) <==> forall p :: p in t.openedBy ==> CarriesOpenKey(t, Restore(d, order), p)
  {
    var r := Restore(d, order);
    forall p | p in t.openedBy
      ensures t.openedBy[p] in Lookup(t, t.openedBy[p].rec.paymentHash) <==> CarriesOpenKey(t, r, p)
    {
      FoundAt(d, order, t, p);
    }
  }

  lemma FoundAt(d: State, order: seq<CircuitKey>, t: State, p: CircuitKey)
    requires DiskValid(d) && Lists(order, d.keystones.Keys) && TrimmedFrom(t, Restore(d, order)) && p in t.openedBy
    ensures t.openedBy[p] in Lookup(t, t.openedBy[p].rec.paymentHash) <==> CarriesOpenKey(t, Restore(d, order), p)
  {
    var r := Restore(d, order);
    RestoredKeystone(d, order, p);
    var c := r.openedBy[p];
    assert (c.rec.paymentHash, r.outgoing[c]) in r.hashIndex;
    if c in Lookup(t, c.rec.paymentHash) {
      var e :| e in t.hashIndex && e.0 == c.rec.paymentHash && e.1 in t.openedBy && t.openedBy[e.1] == c;
      assert (e.0, e.1) in r.hashIndex;
      var q :| q in r.openedBy && r.openedBy[q] in r.outgoing && e == (r.openedBy[q].rec.paymentHash, r.outgoing[r.openedBy[q]]);
      RestoredKeystone(d, order, q);
    }
  }

  /** Memory just rebuilt finds every opened circuit, even one that two keystones name. */
  lemma RestoreFindsAll(d: State, order: seq<CircuitKey>)
    requires DiskValid(d) && Lists(order, d.keystones.Keys)
    ensures Found(Restore(d, order))
  {
    var r := Restore(d, order);
    FoundWhenTrimmed(d, order, r);
    forall p | p in r.openedBy ensures CarriesOpenKey(r, r, p) {
      RestoredKeystone(d, order, p);
    }
  }

  lemma TrimTrims(s: State, chanID: uint64, start: uint64, writeOk: bool)
    ensures TrimmedFrom(Trim(s, chanID, start, writeOk), s)
    ensures Trim(s, chanID, start, writeOk).openedBy.Keys == s.openedBy.Keys - TrimRun(s.openedBy.Keys, chanID, start)
  {
  }

  /** No circuit that stays open loses the key it carries to the run. */
  ghost predicate SparesCarried(r: State, run: set<CircuitKey>) {
    forall p :: p in r.openedBy && p !in run ==> r.openedBy[p] in r.outgoing && r.outgoing[r.openedBy[p]] !in run
  }

  /**
    A trim of it keeps that up if and only if it trims no key that a circuit carries while the
    circuit stays open under another.
   */
  lemma TrimFindsIff(d: State, order: seq<CircuitKey>, chanID: uint64, start: uint64, writeOk: bool)
    requires DiskValid(d) && Lists(order, d.keystones.Keys)
    ensures var r := Restore(d, order);
      Found(Trim(r, chanID, start, writeOk)) <==> SparesCarried(r, TrimRun(r.openedBy.Keys, chanID, start))
  {
    var r := Restore(d, order);
    var t, run := Trim(r, chanID, start, writeOk), TrimRun(r.openedBy.Keys, chanID, start);
    TrimTrims(r, chanID, start, writeOk);
    FoundWhenTrimmed(d, order, t);
    forall p | p in r.openedBy ensures r.openedBy[p] in r.outgoing && r.outgoing[r.openedBy[p]] in r.openedBy {
      RestoredKeystone(d, order, p);
    }
    CarriedKeys(r, t, run);
  }

  lemma CarriedKeys(r: State, t: State, run: set<CircuitKey>)
    requires t.openedBy.Keys == r.openedBy.Keys - run
    requires forall p :: p in r.openedBy ==> r.openedBy[p] in r.outgoing && r.outgoing[r.openedBy[p]] in r.openedBy
    ensures (forall p :: p in t.openedBy ==> CarriesOpenKey(t, r, p)) <==> SparesCarried(r, run)
  {
    if SparesCarried(r, run) {
      forall p | p in t.openedBy ensures CarriesOpenKey(t, r, p) {
        assert p in r.openedBy && p !in run;
      }
    }
    if forall p :: p in t.openedBy ==> CarriesOpenKey(t, r, p) {
      forall p | p in r.openedBy && p !in run ensures r.outgoing[r.openedBy[p]] !in run {
        assert p in t.openedBy && CarriesOpenKey(t, r, p);
      }
    }
  }

  /** A startup takes this key: one of its channels is trimmed over it. */
  ghost predicate Taken(r: State, chans: seq<Channel>, o: CircuitKey) {
    exists i :: 0 <= i < |chans| && TakenBy(r, chans[i], o)
  }

  ghost predicate TakenBy(r: State, c: Channel, o: CircuitKey) {
    && Trims(c) && c.chanID == o.chanID && c.nextLocalHtlcIndex.Some?
    && o in TrimRun(r.openedBy.Keys, o.chanID, c.nextLocalHtlcIndex.value)
  }

  /** A channel that is not trimmed is untouched. */
  lemma {:induction false} NotTrimmed(s: State, chans: seq<Channel>, n: nat, o: CircuitKey)
    requires n <= |chans| && forall i :: 0 <= i < n ==> !(Trims(chans[i]) && chans[i].chanID == o.chanID)
    ensures o in TrimAll(s, chans, n).0.openedBy <==> o in s.openedBy
  {
    if n > 0 {
      NotTrimmed(s, chans, n - 1, o);
      var before, c := TrimAll(s, chans, n - 1), chans[n - 1];
      if before.1 && Trims(c) && c.nextLocalHtlcIndex.Some? {
        TrimStaysAbove(before.0.openedBy.Keys, c.chanID, c.nextLocalHtlcIndex.value);
      }
    }
  }

  lemma TrimAllTakes(r: State, chans: seq<Channel>, o: CircuitKey)
    requires DistinctChannels(chans) && TrimAll(r, chans, |chans|).1
    ensures o in TrimAll(r, chans, |chans|).0.openedBy <==> o in r.openedBy && !Taken(r, chans, o)
  {
    if i :| 0 <= i < |chans| && Trims(chans[i]) && chans[i].chanID == o.chanID {
      TrimAllAt(r, chans, |chans|, i, o);
      assert forall j :: 0 <= j < |chans| && TakenBy(r, chans[j], o) ==> j == i;
    } else {
      NotTrimmed(r, chans, |chans|, o);
    }
  }

  /** No circuit that stays open loses the key it carries to the startup. */
  ghost predicate SparesAllCarried(r: State, chans: seq<Channel>) {
    forall p :: p in r.openedBy && !Taken(r, chans, p) ==>
      r.openedBy[p] in r.outgoing && !Taken(r, chans, r.outgoing[r.openedBy[p]])
  }

  /** And a whole startup if and only if it takes no key that a circuit carries while the circuit stays open under another. */
  lemma RestartFindsIff(s: State, u: Startup)
    requires DiskValid(s) && Possible(s, u) && Restart(s, u).1 && DistinctChannels(u.chans)
    ensures Found(Restart(s, u).0) <==> SparesAllCarried(Rebuilt(s, u), u.chans)
  {
    var d, r, t := Clean(Crashed(s), u.closedChans), Rebuilt(s, u), Restart(s, u).0;
    CleanKeepsDisk(Crashed(s), u.closedChans);
    TrimAllTrims(r, u.chans, |u.chans|);
    FoundWhenTrimmed(d, u.order, t);
    forall p ensures p in t.openedBy <==> p in r.openedBy && !Taken(r, u.chans, p) {
      TrimAllTakes(r, u.chans, p);
    }
    forall p | p in r.openedBy ensures r.openedBy[p] in r.outgoing && r.outgoing[r.openedBy[p]] in r.openedBy {
      RestoredKeystone(d, u.order, p);
    }
    CarriedByAll(r, t, u.chans);
  }

  lemma CarriedByAll(r: State, t: State, chans: seq<Channel>)
    requires forall p :: p in t.openedBy <==> p in r.openedBy && !Taken(r, chans, p)
    requires forall p :: p in r.openedBy ==> r.openedBy[p] in r.outgoing && r.outgoing[r.openedBy[p]] in r.openedBy
    ensures (forall p :: p in t.openedBy ==> CarriesOpenKey(t, r, p)) <==> SparesAllCarried(r, chans)
  {
    if SparesAllCarried(r, chans) {
      forall p | p in t.openedBy ensures CarriesOpenKey(t, r, p) {
        assert p in r.openedBy && !Taken(r, chans, p);
      }
    }
    if forall p :: p in t.openedBy ==> CarriesOpenKey(t, r, p) {
      forall p | p in r.openedBy && !Taken(r, chans, p) ensures !Taken(r, chans, r.outgoing[r.openedBy[p]]) {
        assert p in t.openedBy && CarriesOpenKey(t, r, p);
      }
    }
  }

  /* ---------- how a circuit gets lost ---------- */

  /** How a circuit comes to be named twice: a trim that is not written, and a new keystone for the same circuit. */
  lemma FailedTrimDoubles(s: State, chanID: uint64, start: uint64, o: CircuitKey, p: CircuitKey)
    requires Valid(s) && Coherent(s) && o in TrimRun(s.openedBy.Keys, chanID, start) && p !in s.openedBy
    ensures var k := s.keystones[o];
      var t := Open(Trim(s, chanID, start, false), [Keystone(k, p)], true);
      && t.keystones == s.keystones[p := k] && t.adds == s.adds
      && t.keystones[o] == t.keystones[p] == k && o != p && k in t.adds
  {
    OpenSingle(Trim(s, chanID, start, false), s.keystones[o], p);
  }

  const LOST := CircuitKey(2, 0)
  const KEPT := CircuitKey(1, 0)
  const CIRCUIT := CircuitRecord(AddRef(0, 0), CircuitKey(3, 0), [], 0, 0, 0, None)

  /** One circuit, open under one key. */
  ghost function OneOpen(): (s: State) {
    var c := CircuitPtr(1, CIRCUIT);
    State(map[CIRCUIT.incoming := c], map[LOST := c], {}, {([], LOST)}, map[c := LOST], {},
          map[CIRCUIT.incoming := CIRCUIT], map[LOST := CIRCUIT.incoming])
  }

  ghost function TrimOpenSteps(ks: seq<Keystone>, u: Startup): (steps: seq<Step>)
    ensures |steps| == 3
  {
    [DoTrim(2, 0, false), DoOpen(ks, true), DoRestart(u)]
  }

  ghost function LosingSteps(): (steps: seq<Step>) {
    TrimOpenSteps([Keystone(CIRCUIT.incoming, KEPT)], Startup({}, true, true, [KEPT, LOST], [Channel(false, 2, Some(0), true)]))
  }

  lemma LostTrim(open: set<CircuitKey>)
    requires LOST in open && CircuitKey(2, 1) !in open
    ensures TrimRun(open, 2, 0) == {LOST}
  {
    assert TrimRun(open - {LOST}, 2, 1) == {};
  }

  lemma OneOpenCoherent()
    ensures Valid(OneOpen()) && Coherent(OneOpen())
  {
  }

  /** The disk after the first two steps. */
  lemma LosingDisk()
    ensures var s := Open(Trim(OneOpen(), 2, 0, false), [Keystone(CIRCUIT.incoming, KEPT)], true);
      s.keystones == map[LOST := CIRCUIT.incoming, KEPT := CIRCUIT.incoming] && s.adds == map[CIRCUIT.incoming := CIRCUIT]
  {
    OneOpenCoherent();
    LostTrim(OneOpen().openedBy.Keys);
    FailedTrimDoubles(OneOpen(), 2, 0, LOST, KEPT);
  }

  /** What is loaded from it: one circuit under both keys, carrying the first. */
  lemma LosingRestore(d: State)
    requires d.keystones == map[LOST := CIRCUIT.incoming, KEPT := CIRCUIT.incoming] && d.adds == map[CIRCUIT.incoming := CIRCUIT]
    ensures Lists([KEPT, LOST], d.keystones.Keys)
    ensures var r, c := Restore(d, [KEPT, LOST]), Loaded(CIRCUIT);
      r.openedBy == map[LOST := c, KEPT := c] && c in r.outgoing && r.outgoing[c] == LOST
  {
    var order, c := [KEPT, LOST], Loaded(CIRCUIT);
    assert Resurrected(d.adds, d.keystones, order, 2) == Resurrected(d.adds, d.keystones, order, 1)[c := LOST];
  }

  /** The startup after it trims the first key and no other. */
  lemma LosingTrim(r: State, chans: seq<Channel>)
    requires r.openedBy.Keys == {LOST, KEPT} && chans == [Channel(false, 2, Some(0), true)]
    ensures TrimRun(r.openedBy.Keys, 2, 0) == {LOST}
    ensures TrimAll(r, chans, 1) == (Trim(r, 2, 0, true), true)
  {
    LostTrim(r.openedBy.Keys);
    assert TrimAll(r, chans, 0) == (r, true);
  }

  lemma LosingRestart(s: State, u: Startup)
    requires s.keystones == map[LOST := CIRCUIT.incoming, KEPT := CIRCUIT.incoming] && s.adds == map[CIRCUIT.incoming := CIRCUIT]
    requires u == Startup({}, true, true, [KEPT, LOST], [Channel(false, 2, Some(0), true)])
    ensures Loses(s, u)
  {
    var d := Clean(Crashed(s), {});
    assert d.keystones == s.keystones && d.adds == s.adds;
    LosingRestore(d);
    var r := Restore(d, u.order);
    LosingTrim(r, u.chans);
    assert Restart(s, u) == (Trim(r, 2, 0, true), true);
    TrimFindsIff(d, u.order, 2, 0, true);
    assert KEPT in r.openedBy && KEPT !in {LOST} && r.outgoing[r.openedBy[KEPT]] in {LOST};
  }

  lemma LosingOpen(s: State, ks: seq<Keystone>, u: Startup)
    requires s == OneOpen() && ks == [Keystone(CIRCUIT.incoming, KEPT)]
    requires u == Startup({}, true, true, [KEPT, LOST], [Channel(false, 2, Some(0), true)])
    ensures Loses(Open(Trim(s, 2, 0, false), ks, true), u)
  {
    LosingDisk();
    LosingRestart(Open(Trim(s, 2, 0, false), ks, true), u);
  }

  lemma RunOfThree(w0: World, w1: World, w2: World, w3: World, a: Step, b: Step, c: Step)
    requires Enabled(w0, a) && w1 == Next(w0, a) && Enabled(w1, b) && w2 == Next(w1, b) && Enabled(w2, c) && w3 == Next(w2, c)
    ensures IsRun([w0, w1, w2, w3], [a, b, c])
  {
    RunSnoc([w0], [], a);
    assert [w0] + [w1] == [w0, w1] && [] + [a] == [a];
    RunSnoc([w0, w1], [a], b);
    assert [w0, w1] + [w2] == [w0, w1, w2] && [a] + [b] == [a, b];
    RunSnoc([w0, w1, w2], [a, b], c);
    assert [w0, w1, w2] + [w3] == [w0, w1, w2, w3] && [a, b] + [c] == [a, b, c];
  }

  lemma RunSnoc(ws: seq<World>, steps: seq<Step>, step: Step)
    requires IsRun(ws, steps) && Enabled(ws[|steps|], step)
    ensures IsRun(ws + [Next(ws[|steps|], step)], steps + [step])
  {
  }

  ghost predicate Loses(s: State, u: Startup) {
    Possible(s, u) && Restart(s, u).1 && KEPT in Restart(s, u).0.openedBy && !Found(Restart(s, u).0)
  }

  lemma TrimOpenRestart(s: State, ks: seq<Keystone>, u: Startup) returns (ws: seq<World>)
    requires forall i :: 0 <= i < |ks| ==> ks[i].outKey != EMPTY_KEY
    requires Loses(Open(Trim(s, 2, 0, false), ks, true), u)
    ensures IsRun(ws, TrimOpenSteps(ks, u))
    ensures ws[0] == World(s, true)
    ensures ws[3].up && KEPT in ws[3].s.openedBy && !Found(ws[3].s)
  {
    var w0 := World(s, true);
    var w1 := World(Trim(s, 2, 0, false), true);
    var w2 := World(Open(w1.s, ks, true), true);
    var w3 := World(Restart(w2.s, u).0, true);
    RunOfThree(w0, w1, w2, w3, DoTrim(2, 0, false), DoOpen(ks, true), DoRestart(u));
    ws := [w0, w1, w2, w3];
  }

  /**
    A run from a coherent map to one that hides an open circuit: a trim that is not written, a new
    open of the circuit, and a restart whose trim takes the first key away for good.
   */
  lemma LosingRun() returns (ws: seq<World>)
    ensures IsRun(ws, LosingSteps()) && CoherentWorld(ws[0]) && ws[0] == World(OneOpen(), true)
    ensures ws[3].up && KEPT in ws[3].s.openedBy && !Found(ws[3].s)
  {
    OneOpenCoherent();
    CoherentDisk(OneOpen());
    var ks, u := [Keystone(CIRCUIT.incoming, KEPT)], Startup({}, true, true, [KEPT, LOST], [Channel(false, 2, Some(0), true)]);
    ws := TrimOpenRestart(OneOpen(), ks, u) by {
      LosingOpen(OneOpen(), ks, u);
    }
  }
}
