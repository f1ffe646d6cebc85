/** The life of one forwarding package over every run of the packagers' operations. */
module FwdLifecycle {
  import opened Common
  import opened PkgFilters
  import opened FwdPkgs

  datatype Step =
    | Add(pkg: FwdPkg)
    | SetFwd(key: Key, filter: Sized)
    | AckAdds(source: uint64, addRefs: seq<AddRef>)
    | AckSettleFails(refs: seq<SettleFailRef>)
    | Remove(key: Key)
    | Wipe(source: uint64)

  function Next(d: Disk, step: Step): (r: Disk) {
    match step
    case Add(p) => Added(d, p)
    case SetFwd(k, f) => WithFwdFilter(d, k, f)
    case AckAdds(source, refs) => Acknowledged(Adds, d, AddRefs(source, refs))
    case AckSettleFails(refs) => Acknowledged(SettleFails, d, SettleFailRefs(refs))
    case Remove(k) => Removed(d, k)
    case Wipe(source) => Wiped(d, source)
  }

  function Run(d: Disk, steps: seq<Step>): (r: Disk) {
    if steps == [] then d else Next(Run(d, steps[..|steps| - 1]), steps[|steps| - 1])
  }

  /** The references a step acknowledges, if it is of this kind. */
  function RefsOf(step: Step, kind: Kind): (refs: seq<Ref>) {
    match step
    case AckAdds(source, refs) => if kind == Adds then AddRefs(source, refs) else []
    case AckSettleFails(refs) => if kind == SettleFails then SettleFailRefs(refs) else []
    case _ => []
  }

  /** The step acknowledges update i of package k: one of its own references says so. */
  predicate AcksUpdate(step: Step, kind: Kind, k: Key, i: uint16) {
    match step
    case AckAdds(source, refs) => kind == Adds && k.source == source && AddRef(k.height, i) in refs
    case AckSettleFails(refs) => kind == SettleFails && SettleFailRef(k.source, k.height, i) in refs
    case _ => false
  }

  /** It succeeds: no package that is still there lacks a byte for an index it is sent. */
  ghost predicate Succeeds(d: Disk, step: Step, kind: Kind) {
    forall k, i: uint16 :: k in d.pkgs && AcksUpdate(step, kind, k, i) ==> HasByte(kind, d.pkgs[k], i)
  }

  /** The indices of the package that the successful acknowledgements of a run name, in whatever batches. */
  ghost function AckHistory(d: Disk, steps: seq<Step>, kind: Kind, k: Key): (s: set<nat>) {
    if steps == [] then {} else
      var before := steps[..|steps| - 1];
      AckHistory(d, before, kind, k) + StepAcks(Run(d, before), steps[|steps| - 1], kind, k)
  }

  /** Those that one step names, if it succeeds. */
  ghost function StepAcks(d: Disk, step: Step, kind: Kind, k: Key): (s: set<nat>) {
    if Succeeds(d, step, kind) then (set i: uint16 | 0 <= i < 0x1_0000 && AcksUpdate(step, kind, k, i)) else {}
  }

  /** The first forwarding decision of a run. */
  function FirstFilter(steps: seq<Step>, k: Key): (r: Option<Sized>) {
    if steps == [] then None else FilterAfter(FirstFilter(steps[..|steps| - 1], k), steps[|steps| - 1], k)
  }

  function FilterAfter(earlier: Option<Sized>, step: Step, k: Key): (r: Option<Sized>) {
    if earlier.None? && step.SetFwd? && step.key == k then Some(step.filter) else earlier
  }

  /** The run neither rewrites nor removes the package. */
  ghost predicate Spares(steps: seq<Step>, k: Key) {
    forall i :: 0 <= i < |steps| ==> SparesOne(steps[i], k)
  }

  predicate SparesOne(step: Step, k: Key) {
    && (step.Add? ==> step.pkg.key != k)
    && (step.Remove? ==> step.key != k)
    && (step.Wipe? ==> step.source != k.source)
  }

  /** The filter in these bytes is for n updates and has exactly these of them marked. */
  ghost predicate Holds(bytes: seq<byte>, n: uint16, acked: set<nat>) {
    && Decoded(bytes).Some?
    && (var f := Decoded(bytes).value;
        f.count == n && Sound(f) && forall i :: 0 <= i < n ==> (i in Marks(f) <==> i in acked))
  }

  predicate Sound(f: Filter) {
    |f.bits| == FilterLen(f.count) && Room(f)
  }

  lemma {:induction false} MarkedAllMarks(f: Filter, indexes: seq<uint16>)
    requires MarkedAll(f, indexes).Some?
    ensures forall i :: 0 <= i < f.count ==> (i in Marks(MarkedAll(f, indexes).value) <==> i in Marks(f) || i in indexes)
  {
    if indexes != [] {
      var n := |indexes| - 1;
      MarkedAllMarks(f, indexes[..n]);
      var g := MarkedAll(f, indexes[..n]).value;
      MarksAfter(g, indexes[n]);
      assert indexes == indexes[..n] + [indexes[n]];
    }
  }

  /* ---------- what an acknowledgement does ---------- */

  function FilterBytes(kind: Kind, b: Bucket): (bytes: seq<byte>) {
    if kind == Adds then b.ack else b.settleFail
  }

  /** The package's filter decodes and has a byte for the index. */
  predicate HasByte(kind: Kind, b: Bucket, i: uint16) {
    var f := Decoded(FilterBytes(kind, b));
    f.Some? && i / 8 < |f.value.bits|
  }

  lemma {:induction false} IndexesIff(refs: seq<Ref>, k: Key, i: uint16)
    ensures i in Indexes(refs, k) <==> Ref(k, i) in refs
  {
    if refs != [] {
      var front, last := refs[..|refs| - 1], refs[|refs| - 1];
      IndexesIff(front, k, i);
      assert refs == front + [last];
    }
  }

  lemma {:induction false} MarkedAllIff(f: Filter, indexes: seq<uint16>)
    ensures MarkedAll(f, indexes).Some? <==> AllInside(|f.bits|, indexes)
    decreases |indexes|
  {
    if indexes != [] {
      var n := |indexes| - 1;
      MarkedAllIff(f, indexes[..n]);
      AllInsideSnoc(|f.bits|, indexes);
    }
  }

  /** So many bytes have one for each of the indices. */
  ghost predicate AllInside(n: nat, indexes: seq<uint16>) {
    forall j :: 0 <= j < |indexes| ==> indexes[j] / 8 < n
  }

  lemma AllInsideSnoc(n: nat, indexes: seq<uint16>)
    requires indexes != []
    ensures AllInside(n, indexes) <==> AllInside(n, indexes[..|indexes| - 1]) && indexes[|indexes| - 1] / 8 < n
  {
  }

  lemma AckIff(kind: Kind, b: Bucket, refs: seq<Ref>, k: Key)
    ensures Indexes(refs, k) != [] ==>
              (Ack(kind, b, Indexes(refs, k)).Some? <==> forall i :: Ref(k, i) in refs ==> HasByte(kind, b, i))
  {
    var indexes := Indexes(refs, k);
    forall i ensures i in indexes <==> Ref(k, i) in refs {
      IndexesIff(refs, k, i);
    }
    if indexes != [] {
      assert Ref(k, indexes[0]) in refs;
      var f := Decoded(FilterBytes(kind, b));
      if f.Some? {
        MarkedAllIff(f.value, indexes);
        AllInsideIff(|f.value.bits|, indexes, refs, k);
      }
    }
  }

  lemma AllInsideIff(n: nat, indexes: seq<uint16>, refs: seq<Ref>, k: Key)
    requires forall i :: i in indexes <==> Ref(k, i) in refs
    ensures AllInside(n, indexes) <==> forall i: uint16 :: Ref(k, i) in refs ==> i / 8 < n
  {
    forall i: uint16 | AllInside(n, indexes) && Ref(k, i) in refs ensures i / 8 < n {
      var j :| 0 <= j < |indexes| && indexes[j] == i;
    }
    forall j | 0 <= j < |indexes| ensures Ref(k, indexes[j]) in refs {
      assert indexes[j] in indexes;
    }
  }

  /** An acknowledgement succeeds exactly if every package that is there can take what it is sent. */
  lemma AckableIff(kind: Kind, pkgs: map<Key, Bucket>, refs: seq<Ref>)
    ensures Ackable(kind, pkgs, refs) <==> forall k, i :: k in pkgs && Ref(k, i) in refs ==> HasByte(kind, pkgs[k], i)
  {
    forall k | k in pkgs ensures Indexes(refs, k) != [] ==>
        (Ack(kind, pkgs[k], Indexes(refs, k)).Some? <==> forall i :: Ref(k, i) in refs ==> HasByte(kind, pkgs[k], i))
    {
      AckIff(kind, pkgs[k], refs, k);
    }
    forall k, i | Ref(k, i) in refs ensures Indexes(refs, k) != [] {
      IndexesIff(refs, k, i);
    }
  }

  /** b' is b with exactly these of its updates marked besides. */
  ghost predicate GainsMarks(kind: Kind, b: Bucket, b': Bucket, refs: seq<Ref>, k: Key) {
    && b' == (if kind == Adds then b.(ack := b'.ack) else b.(settleFail := b'.settleFail))
    && ((forall i :: Ref(k, i) !in refs) ==> b' == b)
    && ((exists i :: Ref(k, i) in refs) ==>
          (var f, f' := Decoded(FilterBytes(kind, b)), Decoded(FilterBytes(kind, b'));
           f.Some? && f'.Some? && f'.value.count == f.value.count &&
           forall i: uint16 :: i < f.value.count ==> (i in Marks(f'.value) <==> i in Marks(f.value) || Ref(k, i) in refs)))
  }

  lemma AckGains(kind: Kind, b: Bucket, refs: seq<Ref>, k: Key)
    requires Indexes(refs, k) != [] && Ack(kind, b, Indexes(refs, k)).Some?
    ensures GainsMarks(kind, b, Ack(kind, b, Indexes(refs, k)).value, refs, k)
  {
    var indexes := Indexes(refs, k);
    forall i ensures i in indexes <==> Ref(k, i) in refs {
      IndexesIff(refs, k, i);
    }
    assert Ref(k, indexes[0]) in refs;
    var f := Decoded(FilterBytes(kind, b)).value;
    MarkedAllMarks(f, indexes);
    var g := MarkedAll(f, indexes).value;
    DecodeEncode(g, []);
    assert Encoded(g) + [] == Encoded(g);
  }

  /** A batch of references either changes nothing, or marks in each package that is there exactly what it names. */
  lemma AckEffect(kind: Kind, d: Disk, refs: seq<Ref>)
    ensures var d' := Acknowledged(kind, d, refs);
      && d'.root == d.root && d'.sources == d.sources && d'.pkgs.Keys == d.pkgs.Keys
      && ((exists k, i :: k in d.pkgs && Ref(k, i) in refs && !HasByte(kind, d.pkgs[k], i)) ==> d' == d)
      && ((forall k, i :: k in d.pkgs && Ref(k, i) in refs ==> HasByte(kind, d.pkgs[k], i)) ==>
            forall k :: k in d.pkgs ==> GainsMarks(kind, d.pkgs[k], d'.pkgs[k], refs, k))
  {
    AckableIff(kind, d.pkgs, refs);
    if Ackable(kind, d.pkgs, refs) {
      var d' := Acknowledged(kind, d, refs);
      forall k | k in d.pkgs ensures GainsMarks(kind, d.pkgs[k], d'.pkgs[k], refs, k) {
        if Indexes(refs, k) == [] {
          forall i ensures Ref(k, i) !in refs {
            IndexesIff(refs, k, i);
          }
        } else {
          AckGains(kind, d.pkgs[k], refs, k);
        }
      }
    }
  }

  lemma AddRefsIff(source: uint64, addRefs: seq<AddRef>, k: Key, i: uint16)
    ensures Ref(k, i) in AddRefs(source, addRefs) <==> k.source == source && AddRef(k.height, i) in addRefs
  {
    var refs := AddRefs(source, addRefs);
    if k.source == source && AddRef(k.height, i) in addRefs {
      var j :| 0 <= j < |addRefs| && addRefs[j] == AddRef(k.height, i);
      assert refs[j] == Ref(k, i);
    }
  }

  lemma SettleFailRefsIff(settleFailRefs: seq<SettleFailRef>, k: Key, i: uint16)
    ensures Ref(k, i) in SettleFailRefs(settleFailRefs) <==> SettleFailRef(k.source, k.height, i) in settleFailRefs
  {
    var refs := SettleFailRefs(settleFailRefs);
    if SettleFailRef(k.source, k.height, i) in settleFailRefs {
      var j :| 0 <= j < |settleFailRefs| && settleFailRefs[j] == SettleFailRef(k.source, k.height, i);
      assert refs[j] == Ref(k, i);
    }
  }

  lemma RefsOfIff(step: Step, kind: Kind, k: Key, i: uint16)
    ensures Ref(k, i) in RefsOf(step, kind) <==> AcksUpdate(step, kind, k, i)
  {
    match step
    case AckAdds(source, refs) => AddRefsIff(source, refs, k, i);
    case AckSettleFails(refs) => SettleFailRefsIff(refs, k, i);
    case _ =>
  }

  /** b' is b with exactly the updates marked besides that the step's own references name. */
  ghost predicate GainsAcks(kind: Kind, b: Bucket, b': Bucket, step: Step, k: Key) {
    && b' == (if kind == Adds then b.(ack := b'.ack) else b.(settleFail := b'.settleFail))
    && ((forall i: uint16 :: !AcksUpdate(step, kind, k, i)) ==> b' == b)
    && ((exists i: uint16 :: AcksUpdate(step, kind, k, i)) ==>
          (var f, f' := Decoded(FilterBytes(kind, b)), Decoded(FilterBytes(kind, b'));
           f.Some? && f'.Some? && f'.value.count == f.value.count &&
           forall i: uint16 :: i < f.value.count ==> (i in Marks(f'.value) <==> i in Marks(f.value) || AcksUpdate(step, kind, k, i))))
  }

  /**
    AckAddHtlcs and AckSettleFails: if some package that is there has no byte for an index it is sent, nothing
    changes; otherwise each package gains exactly the marks that the references of the call name for it.
   */
  lemma AckStepEffect(d: Disk, step: Step, kind: Kind)
    requires (step.AckAdds? && kind == Adds) || (step.AckSettleFails? && kind == SettleFails)
    ensures var d' := Next(d, step);
      && d'.root == d.root && d'.sources == d.sources && d'.pkgs.Keys == d.pkgs.Keys
      && (!Succeeds(d, step, kind) ==> d' == d)
      && (Succeeds(d, step, kind) ==> forall k :: k in d.pkgs ==> GainsAcks(kind, d.pkgs[k], d'.pkgs[k], step, k))
  {
    var refs := RefsOf(step, kind);
    forall k, i: uint16 ensures Ref(k, i) in refs <==> AcksUpdate(step, kind, k, i) {
      RefsOfIff(step, kind, k, i);
    }
    AckEffect(kind, d, refs);
    var d' := Next(d, step);
    if Succeeds(d, step, kind) {
      forall k | k in d.pkgs ensures GainsAcks(kind, d.pkgs[k], d'.pkgs[k], step, k) {
        assert GainsMarks(kind, d.pkgs[k], d'.pkgs[k], refs, k);
      }
    }
  }

  lemma StepAcksAre(d: Disk, step: Step, kind: Kind, k: Key)
    ensures StepAcks(d, step, kind, k) ==
            if Ackable(kind, d.pkgs, RefsOf(step, kind)) then (set i | i in Indexes(RefsOf(step, kind), k)) else {}
  {
    var refs := RefsOf(step, kind);
    forall l, i: uint16 ensures Ref(l, i) in refs <==> AcksUpdate(step, kind, l, i) {
      RefsOfIff(step, kind, l, i);
    }
    AckableIff(kind, d.pkgs, refs);
    forall i: uint16 ensures i in Indexes(refs, k) <==> AcksUpdate(step, kind, k, i) {
      IndexesIff(refs, k, i);
    }
  }

  /** Acknowledging adds the named indices to those held, however often they are named. */
  lemma AckHolds(bytes: seq<byte>, n: uint16, acked: set<nat>, indexes: seq<uint16>)
    requires Holds(bytes, n, acked) && AckedBytes(bytes, indexes).Some?
    ensures Holds(AckedBytes(bytes, indexes).value, n, acked + set i | i in indexes)
  {
    var f := Decoded(bytes).value;
    MarkedAllMarks(f, indexes);
    var g := MarkedAll(f, indexes).value;
    DecodeEncode(g, []);
    assert Encoded(g) + [] == Encoded(g);
  }

  lemma NewHolds(n: uint16)
    requires n <= 65528
    ensures Holds(Encoded(NewFilter(n)), n, {})
  {
    var f := NewFilter(n);
    DecodeEncode(f, []);
    assert Encoded(f) + [] == Encoded(f);
    RoomUpTo(f);
    forall i | 0 <= i < n ensures i !in Marks(f) {
      ZeroHasNone(7 - i % 8);
    }
  }

  /** The package is on disk with these updates, and its filters record this history. */
  ghost predicate Records(d: Disk, k: Key, adds: seq<LogUpdate>, settleFails: seq<LogUpdate>, fwd: Option<Sized>,
                          addAcks: set<nat>, settleFailAcks: set<nat>) {
    && k in d.pkgs
    && |adds| <= 65528 && |settleFails| <= 65528
    && (var b := d.pkgs[k];
        && b.adds == adds && b.settleFails == settleFails
        && Holds(b.ack, |adds|, addAcks) && Holds(b.settleFail, |settleFails|, settleFailAcks)
        && b.fwd == (if fwd.None? then None else Some(Encoded(fwd.value))))
  }

  lemma NewBucket(d: Disk, k: Key, adds: seq<LogUpdate>, settleFails: seq<LogUpdate>, b: Bucket)
    requires k !in d.pkgs && |adds| <= 65528 && |settleFails| <= 65528
    requires b == Bucket(adds, settleFails, Encoded(NewFilter(|adds|)), Encoded(NewFilter(|settleFails|)), None)
    ensures Added(d, NewFwdPkg(k, adds, settleFails)).pkgs == d.pkgs[k := b]
  {
    OverlayIs([], adds);
    OverlayIs([], settleFails);
    assert adds + [] == adds && settleFails + [] == settleFails;
  }

  /** Writing a new package where there was none. */
  lemma NewPackageRecords(d: Disk, k: Key, adds: seq<LogUpdate>, settleFails: seq<LogUpdate>)
    requires k !in d.pkgs && |adds| <= 65528 && |settleFails| <= 65528
    ensures Records(Added(d, NewFwdPkg(k, adds, settleFails)), k, adds, settleFails, None, {}, {})
  {
    NewHolds(|adds|);
    NewHolds(|settleFails|);
    var b := Bucket(adds, settleFails, Encoded(NewFilter(|adds|)), Encoded(NewFilter(|settleFails|)), None);
    NewBucket(d, k, adds, settleFails, b);
  }

  lemma AckRecords(d: Disk, kind: Kind, refs: seq<Ref>, k: Key, adds: seq<LogUpdate>, settleFails: seq<LogUpdate>, fwd: Option<Sized>,
                   addAcks: set<nat>, settleFailAcks: set<nat>)
    requires Records(d, k, adds, settleFails, fwd, addAcks, settleFailAcks)
    requires Ackable(kind, d.pkgs, refs)
    ensures var named := set i | i in Indexes(refs, k);
            Records(Acknowledged(kind, d, refs), k, adds, settleFails, fwd,
                    addAcks + (if kind == Adds then named else {}), settleFailAcks + (if kind == SettleFails then named else {}))
  {
    var b, indexes := d.pkgs[k], Indexes(refs, k);
    if indexes == [] {
      assert (set i | i in indexes) == {};
    } else if kind == Adds {
      AckHolds(b.ack, |adds|, addAcks, indexes);
    } else {
      AckHolds(b.settleFail, |settleFails|, settleFailAcks, indexes);
    }
  }

  ghost predicate Recorded(d: Disk, steps: seq<Step>, k: Key, adds: seq<LogUpdate>, settleFails: seq<LogUpdate>) {
    Records(Run(d, steps), k, adds, settleFails, FirstFilter(steps, k),
            AckHistory(d, steps, Adds, k), AckHistory(d, steps, SettleFails, k))
  }

  /** Every run keeps the record: the history of acknowledgements and the first forwarding decision, and nothing else. */
  lemma {:induction false} RunRecords(d: Disk, steps: seq<Step>, k: Key, adds: seq<LogUpdate>, settleFails: seq<LogUpdate>)
    requires Records(d, k, adds, settleFails, None, {}, {}) && Spares(steps, k)
    ensures Recorded(d, steps, k, adds, settleFails)
    decreases |steps|
  {
    if steps == [] {
      RecordedStart(d, k, adds, settleFails);
    } else {
      SparesFront(steps, k);
      RunRecords(d, steps[..|steps| - 1], k, adds, settleFails);
      StepRecords(d, steps, k, adds, settleFails);
    }
  }

  lemma SparesFront(steps: seq<Step>, k: Key)
    requires Spares(steps, k) && steps != []
    ensures Spares(steps[..|steps| - 1], k) && SparesOne(steps[|steps| - 1], k)
  {
  }

  lemma RecordedStart(d: Disk, k: Key, adds: seq<LogUpdate>, settleFails: seq<LogUpdate>)
    requires Records(d, k, adds, settleFails, None, {}, {})
    ensures Recorded(d, [], k, adds, settleFails)
  {
  }

  lemma StepRecords(d: Disk, steps: seq<Step>, k: Key, adds: seq<LogUpdate>, settleFails: seq<LogUpdate>)
    requires steps != [] && SparesOne(steps[|steps| - 1], k) && Recorded(d, steps[..|steps| - 1], k, adds, settleFails)
    ensures Recorded(d, steps, k, adds, settleFails)
  {
    var before, step := steps[..|steps| - 1], steps[|steps| - 1];
    var now, fwd := Run(d, before), FirstFilter(before, k);
    var a, s := AckHistory(d, before, Adds, k), AckHistory(d, before, SettleFails, k);
    if step.AckAdds? || step.AckSettleFails? {
      AckStep(now, step, k, adds, settleFails, fwd, a, s);
    } else {
      OtherStep(now, step, k, adds, settleFails, fwd, a, s);
    }
  }

  lemma AckStep(d: Disk, step: Step, k: Key, adds: seq<LogUpdate>, settleFails: seq<LogUpdate>, fwd: Option<Sized>,
                addAcks: set<nat>, settleFailAcks: set<nat>)
    requires Records(d, k, adds, settleFails, fwd, addAcks, settleFailAcks) && (step.AckAdds? || step.AckSettleFails?)
    ensures Records(Next(d, step), k, adds, settleFails, FilterAfter(fwd, step, k),
                    addAcks + StepAcks(d, step, Adds, k), settleFailAcks + StepAcks(d, step, SettleFails, k))
  {
    var kind := if step.AckAdds? then Adds else SettleFails;
    var other := if step.AckAdds? then SettleFails else Adds;
    var refs := RefsOf(step, kind);
    assert StepAcks(d, step, other, k) == {};
    StepAcksAre(d, step, kind, k);
    if Ackable(kind, d.pkgs, refs) {
      AckRecords(d, kind, refs, k, adds, settleFails, fwd, addAcks, settleFailAcks);
    }
  }

  lemma OtherStep(d: Disk, step: Step, k: Key, adds: seq<LogUpdate>, settleFails: seq<LogUpdate>, fwd: Option<Sized>,
                  addAcks: set<nat>, settleFailAcks: set<nat>)
    requires Records(d, k, adds, settleFails, fwd, addAcks, settleFailAcks) && SparesOne(step, k)
    requires !step.AckAdds? && !step.AckSettleFails?
    ensures Records(Next(d, step), k, adds, settleFails, FilterAfter(fwd, step, k),
                    addAcks + StepAcks(d, step, Adds, k), settleFailAcks + StepAcks(d, step, SettleFails, k))
  {
    assert addAcks + StepAcks(d, step, Adds, k) == addAcks;
    assert settleFailAcks + StepAcks(d, step, SettleFails, k) == settleFailAcks;
  }

  ghost predicate AllBelow(n: nat, s: set<nat>) {
    forall i :: 0 <= i < n ==> i in s
  }

  /** The filter is for n updates and marks, of these, exactly the acknowledged ones. */
  ghost predicate MarksAre(f: Filter, n: nat, acked: set<nat>) {
    f.count == n && forall i :: 0 <= i < n ==> (i in Marks(f) <==> i in acked)
  }

  /** The state in which a recorded package is loaded. */
  lemma RecordedState(d: Disk, k: Key, adds: seq<LogUpdate>, settleFails: seq<LogUpdate>, fwd: Option<Sized>, addAcks: set<nat>,
                      settleFailAcks: set<nat>)
    requires Records(d, k, adds, settleFails, fwd, addAcks, settleFailAcks)
    ensures Loaded(d, k).Some?
    ensures var p := Loaded(d, k).value;
            && p.adds == adds && p.settleFails == settleFails
            && (p.state == LockedIn <==> fwd.None?)
            && (p.state == Completed <==> fwd.Some? && AllBelow(|adds|, addAcks) && AllBelow(|settleFails|, settleFailAcks))
            && p.fwdFilter == (if fwd.Some? then fwd.value else NewFilter(|adds|))
            && MarksAre(p.ackFilter, |adds|, addAcks) && MarksAre(p.settleFailFilter, |settleFails|, settleFailAcks)
  {
    var b := d.pkgs[k];
    if fwd.Some? {
      DecodeEncode(fwd.value, []);
      assert Encoded(fwd.value) + [] == Encoded(fwd.value);
      AllMarkedIff(b.ack, |adds|, addAcks);
      AllMarkedIff(b.settleFail, |settleFails|, settleFailAcks);
    }
  }

  lemma AllMarkedIff(bytes: seq<byte>, n: uint16, acked: set<nat>)
    requires Holds(bytes, n, acked)
    ensures AllMarked(Decoded(bytes).value) <==> AllBelow(n, acked)
  {
  }

  /**
    The lifecycle. A package is written where there was none, and then any run of operations on
    any packages follows, in any order and batching, with repetitions and failures, that does
    not rewrite or remove it. It is loaded with its own updates; with the first forwarding
    filter that was set, or an empty one before; with exactly the acknowledged updates marked; as
    processed once that filter is set; and as completed exactly when it is and every add and every
    settle or fail has been acknowledged.
   */
  lemma Lifecycle(d: Disk, k: Key, adds: seq<LogUpdate>, settleFails: seq<LogUpdate>, steps: seq<Step>)
    requires k !in d.pkgs && |adds| <= 65528 && |settleFails| <= 65528 && Spares(steps, k)
    ensures var d1 := Added(d, NewFwdPkg(k, adds, settleFails));
            var fwd := FirstFilter(steps, k);
            && Loaded(Run(d1, steps), k).Some?
            && (var p := Loaded(Run(d1, steps), k).value;
                && p.adds == adds && p.settleFails == settleFails
                && (p.state == LockedIn <==> fwd.None?)
                && (p.state == Completed <==>
                    && fwd.Some?
                    && AllBelow(|adds|, AckHistory(d1, steps, Adds, k))
                    && AllBelow(|settleFails|, AckHistory(d1, steps, SettleFails, k)))
                && p.fwdFilter == (if fwd.Some? then fwd.value else NewFilter(|adds|))
                && MarksAre(p.ackFilter, |adds|, AckHistory(d1, steps, Adds, k))
                && MarksAre(p.settleFailFilter, |settleFails|, AckHistory(d1, steps, SettleFails, k)))
  {
    var d1 := Added(d, NewFwdPkg(k, adds, settleFails));
    NewPackageRecords(d, k, adds, settleFails);
    RunRecords(d1, steps, k, adds, settleFails);
    RecordedState(Run(d1, steps), k, adds, settleFails, FirstFilter(steps, k),
                  AckHistory(d1, steps, Adds, k), AckHistory(d1, steps, SettleFails, k));
  }

  /**
    Removing ends a life: a package written under the key afterwards is loaded with its own updates,
    locked in, whatever the earlier one had been through.
   */
  lemma RewrittenStartsAnew(d: Disk, k: Key, adds: seq<LogUpdate>, settleFails: seq<LogUpdate>)
    requires |adds| <= 65528 && |settleFails| <= 65528
    ensures var p := Loaded(Added(Removed(d, k), NewFwdPkg(k, adds, settleFails)), k);
            p.Some? && p.value.state == LockedIn && p.value.adds == adds && p.value.settleFails == settleFails
  {
    Lifecycle(Removed(d, k), k, adds, settleFails, []);
  }

  function Rank(s: FwdState): (n: nat) {
    match s case LockedIn => 0 case Processed => 1 case Completed => 2
  }

  lemma {:induction false} HistoryGrows(d: Disk, steps: seq<Step>, more: seq<Step>, kind: Kind, k: Key)
    ensures AckHistory(d, steps, kind, k) <= AckHistory(d, steps + more, kind, k)
    ensures FirstFilter(steps, k).Some? ==> FirstFilter(steps + more, k) == FirstFilter(steps, k)
  {
    if more == [] {
      assert steps + more == steps;
    } else {
      HistoryGrows(d, steps, more[..|more| - 1], kind, k);
      assert (steps + more)[..|steps + more| - 1] == steps + more[..|more| - 1];
    }
  }

  /** The state never moves back, and the forwarding filter never changes once set. */
  lemma StateOnlyAdvances(d: Disk, k: Key, adds: seq<LogUpdate>, settleFails: seq<LogUpdate>, steps: seq<Step>, more: seq<Step>)
    requires k !in d.pkgs && |adds| <= 65528 && |settleFails| <= 65528 && Spares(steps + more, k)
    ensures var d1 := Added(d, NewFwdPkg(k, adds, settleFails));
            var p, p' := Loaded(Run(d1, steps), k), Loaded(Run(d1, steps + more), k);
            && p.Some? && p'.Some?
            && Rank(p.value.state) <= Rank(p'.value.state)
            && (p.value.state != LockedIn ==> p'.value.fwdFilter == p.value.fwdFilter)
  {
    var d1 := Added(d, NewFwdPkg(k, adds, settleFails));
    assert Spares(steps, k) by {
      forall i | 0 <= i < |steps| ensures SparesOne(steps[i], k) {
        assert (steps + more)[i] == steps[i];
      }
    }
    Lifecycle(d, k, adds, settleFails, steps);
    Lifecycle(d, k, adds, settleFails, steps + more);
    HistoryGrows(d1, steps, more, Adds, k);
    HistoryGrows(d1, steps, more, SettleFails, k);
  }

  /* ---------- which packages there are ---------- */

  /** Written, and not removed or wiped since. */
  ghost predicate IsPresent(d: Disk, steps: seq<Step>, k: Key) {
    if steps == [] then k in d.pkgs else
      var before, step := steps[..|steps| - 1], steps[|steps| - 1];
      (step.Add? && step.pkg.key == k) ||
      (IsPresent(d, before, k) && step != Remove(k) && step != Wipe(k.source))
  }

  /** A channel's bucket exists from its first package until it is wiped. */
  ghost predicate HasBucket(d: Disk, steps: seq<Step>, source: uint64) {
    if steps == [] then source in d.sources else
      var before, step := steps[..|steps| - 1], steps[|steps| - 1];
      (step.Add? && step.pkg.key.source == source) || (HasBucket(d, before, source) && step != Wipe(source))
  }

  /** Over every run exactly these packages are on disk; one that is not cannot be loaded. */
  lemma {:induction false} PresentIff(d: Disk, steps: seq<Step>, k: Key)
    ensures k in Run(d, steps).pkgs <==> IsPresent(d, steps, k)
    ensures k.source in Run(d, steps).sources <==> HasBucket(d, steps, k.source)
    ensures !IsPresent(d, steps, k) ==> Loaded(Run(d, steps), k) == None
    decreases |steps|
  {
    if steps != [] {
      PresentIff(d, steps[..|steps| - 1], k);
    }
  }

  /**
    When a package can be loaded: it is there, its filters decode, and once it has a forward filter the filter
    of the adds has a bit for each of them, and so has the other if all adds are marked.
   */
  lemma LoadsIff(d: Disk, k: Key)
    ensures Loaded(d, k).Some? <==>
            && k in d.pkgs && Decoded(d.pkgs[k].ack).Some? && Decoded(d.pkgs[k].settleFail).Some?
            && (d.pkgs[k].fwd.Some? ==>
                  (var ack, sf := Decoded(d.pkgs[k].ack).value, Decoded(d.pkgs[k].settleFail).value;
                   && Decoded(d.pkgs[k].fwd.value).Some? && ack.count <= 8 * |ack.bits|
                   && ((forall i :: 0 <= i < ack.count ==> i in Marks(ack)) ==> sf.count <= 8 * |sf.bits|)))
  {
  }

  /** Writing over a package: new updates first, what the old write had beyond them stays, and so does the forward filter. */
  lemma RewriteEffect(d: Disk, p: FwdPkg)
    requires p.key in d.pkgs && |p.adds| <= 0x1_0000 && |p.settleFails| <= 0x1_0000
    ensures var b, b' := d.pkgs[p.key], Added(d, p).pkgs[p.key];
      && b'.fwd == b.fwd
      && |b'.adds| == (if |b.adds| > |p.adds| then |b.adds| else |p.adds|)
      && (forall i :: 0 <= i < |b'.adds| ==> b'.adds[i] == if i < |p.adds| then p.adds[i] else b.adds[i])
      && |b'.settleFails| == (if |b.settleFails| > |p.settleFails| then |b.settleFails| else |p.settleFails|)
      && (forall i :: 0 <= i < |b'.settleFails| ==> b'.settleFails[i] == if i < |p.settleFails| then p.settleFails[i] else b.settleFails[i])
      && Decoded(b'.ack) == Some(p.ackFilter) && Decoded(b'.settleFail) == Some(p.settleFailFilter)
    ensures forall k :: k != p.key ==> (k in Added(d, p).pkgs <==> k in d.pkgs) && (k in d.pkgs ==> Added(d, p).pkgs[k] == d.pkgs[k])
  {
    OverlayIs(d.pkgs[p.key].adds, p.adds);
    OverlayIs(d.pkgs[p.key].settleFails, p.settleFails);
    DecodeEncode(p.ackFilter, []);
    DecodeEncode(p.settleFailFilter, []);
    assert Encoded(p.ackFilter) + [] == Encoded(p.ackFilter) && Encoded(p.settleFailFilter) + [] == Encoded(p.settleFailFilter);
  }
}
