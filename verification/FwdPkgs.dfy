/**
  Forwarding packages on disk (channeldb/forwarding_package.go): writing a package, deciding what
  to forward, acknowledging adds, settles and fails in batches, and the state a package is loaded in.
 */
module FwdPkgs {
  import opened Common
  import opened PkgFilters

  datatype LogUpdate = LogUpdate(logIndex: uint64, msg: seq<char>)

  /** A package is found by its channel and the remote commitment height that locked it in. */
  datatype Key = Key(source: uint64, height: uint64)

  datatype SettleFailRef = SettleFailRef(source: uint64, height: uint64, index: uint16)

  /** A filter as the constructors make it. */
  type Sized = f: Filter | |f.bits| == FilterLen(f.count) witness Filter(0, [])

  datatype FwdState = LockedIn | Processed | Completed

  datatype FwdPkg = FwdPkg(key: Key, state: FwdState, adds: seq<LogUpdate>, fwdFilter: Sized, ackFilter: Sized,
                           settleFails: seq<LogUpdate>, settleFailFilter: Sized)

  /** The bucket of one height. The updates are stored under the indices 0, 1, ...; the filters encoded. */
  datatype Bucket = Bucket(adds: seq<LogUpdate>, settleFails: seq<LogUpdate>, ack: seq<byte>, settleFail: seq<byte>,
                           fwd: Option<seq<byte>>)

  /** Root bucket, source buckets and the packages in them. */
  datatype Disk = Disk(root: bool, sources: set<uint64>, pkgs: map<Key, Bucket>)

  ghost predicate Valid(d: Disk) {
    && (!d.root ==> d.sources == {})
    && (forall k :: k in d.pkgs ==> k.source in d.sources)
  }

  function NewFilter(count: uint16): (f: Sized)
    ensures f.count == count
  {
    Filter(count, seq(FilterLen(count), _ => 0))
  }

  /** uint16(n) */
  function Low16(n: nat): (r: uint16)
    ensures n < 0x1_0000 ==> r == n
  {
    n % 0x1_0000
  }

  function NewFwdPkg(key: Key, adds: seq<LogUpdate>, settleFails: seq<LogUpdate>): (p: FwdPkg) {
    FwdPkg(key, LockedIn, adds, NewFilter(Low16(|adds|)), NewFilter(Low16(|adds|)),
           settleFails, NewFilter(Low16(|settleFails|)))
  }

  /* ---------- what each operation does to the disk ---------- */

  /** A put under an index of the bucket, or under the next one. */
  function PutAt(stored: seq<LogUpdate>, i: nat, u: LogUpdate): (r: seq<LogUpdate>) {
    if i < |stored| then stored[i := u] else stored + [u]
  }

  /** The updates put one after the other under their 16-bit indices; higher ones of an earlier write stay. */
  function Overlay(stored: seq<LogUpdate>, updates: seq<LogUpdate>): (r: seq<LogUpdate>) {
    if updates == [] then stored else
      var n := |updates| - 1;
      PutAt(Overlay(stored, updates[..n]), Low16(n), updates[n])
  }

  /** As long as the indices do not wrap around, the new updates come first and what is left of the old ones follows. */
  lemma {:induction false} OverlayIs(stored: seq<LogUpdate>, updates: seq<LogUpdate>)
    requires |updates| <= 0x1_0000
    ensures Overlay(stored, updates) == updates + (if |stored| > |updates| then stored[|updates|..] else [])
  {
    if updates != [] {
      var n := |updates| - 1;
      OverlayIs(stored, updates[..n]);
      assert updates == updates[..n] + [updates[n]];
    }
  }

  function Added(d: Disk, p: FwdPkg): (r: Disk) {
    var before := if p.key in d.pkgs then d.pkgs[p.key] else Bucket([], [], [], [], None);
    Disk(true, d.sources + {p.key.source},
         d.pkgs[p.key := Bucket(Overlay(before.adds, p.adds), Overlay(before.settleFails, p.settleFails),
                                Encoded(p.ackFilter), Encoded(p.settleFailFilter), before.fwd)])
  }

  /** Written only if the package is there and has no filter yet. */
  function WithFwdFilter(d: Disk, k: Key, f: Sized): (r: Disk) {
    if k in d.pkgs && d.pkgs[k].fwd.None? then d.(pkgs := d.pkgs[k := d.pkgs[k].(fwd := Some(Encoded(f)))]) else d
  }

  datatype Kind = Adds | SettleFails
  datatype Ref = Ref(key: Key, index: uint16)

  /** The indices referenced in one package, in order. */
  function Indexes(refs: seq<Ref>, k: Key): (r: seq<uint16>) {
    if refs == [] then [] else
      var last := refs[|refs| - 1];
      Indexes(refs[..|refs| - 1], k) + (if last.key == k then [last.index] else [])
  }

  function MarkedAll(f: Filter, indexes: seq<uint16>): (r: Option<Filter>)
    ensures r.Some? ==> r.value.count == f.count && |r.value.bits| == |f.bits|
  {
    if indexes == [] then Some(f) else
      match MarkedAll(f, indexes[..|indexes| - 1])
      case None => None
      case Some(g) =>
        // an index that has no byte is a panic
        if indexes[|indexes| - 1] / 8 < |g.bits| then Some(Marked(g, indexes[|indexes| - 1])) else None
  }

  function AckedBytes(b: seq<byte>, indexes: seq<uint16>): (r: Option<seq<byte>>) {
    match Decoded(b)
    case None => None
    case Some(f) => (match MarkedAll(f, indexes) case None => None case Some(g) => Some(Encoded(g)))
  }

  function Ack(kind: Kind, b: Bucket, indexes: seq<uint16>): (r: Option<Bucket>) {
    match AckedBytes(if kind == Adds then b.ack else b.settleFail, indexes)
    case None => None
    case Some(bytes) => Some(if kind == Adds then b.(ack := bytes) else b.(settleFail := bytes))
  }

  /** Every package that is referenced and still there can be updated. */
  predicate Ackable(kind: Kind, pkgs: map<Key, Bucket>, refs: seq<Ref>) {
    forall k :: k in pkgs && Indexes(refs, k) != [] ==> Ack(kind, pkgs[k], Indexes(refs, k)).Some?
  }

  function AckedPkgs(kind: Kind, pkgs: map<Key, Bucket>, refs: seq<Ref>): (r: map<Key, Bucket>)
    requires Ackable(kind, pkgs, refs)
  {
    map k | k in pkgs :: if Indexes(refs, k) == [] then pkgs[k] else Ack(kind, pkgs[k], Indexes(refs, k)).value
  }

  /** Packages that are gone are passed over; any failure leaves the disk as it was. */
  function Acknowledged(kind: Kind, d: Disk, refs: seq<Ref>): (r: Disk) {
    if Ackable(kind, d.pkgs, refs) then d.(pkgs := AckedPkgs(kind, d.pkgs, refs)) else d
  }

  function AddRefs(source: uint64, refs: seq<AddRef>): (r: seq<Ref>)
    ensures |r| == |refs|
  {
    seq(|refs|, i requires 0 <= i < |refs| => Ref(Key(source, refs[i].height), refs[i].index))
  }

  function SettleFailRefs(refs: seq<SettleFailRef>): (r: seq<Ref>)
    ensures |r| == |refs|
  {
    seq(|refs|, i requires 0 <= i < |refs| => Ref(Key(refs[i].source, refs[i].height), refs[i].index))
  }

  function Removed(d: Disk, k: Key): (r: Disk) {
    d.(pkgs := d.pkgs - {k})
  }

  function Wiped(d: Disk, source: uint64): (r: Disk) {
    Disk(d.root, d.sources - {source}, map k | k in d.pkgs && k.source != source :: d.pkgs[k])
  }

  /** The package as it is read back; None for bytes that do not decode, and where looking at a filter panics. */
  ghost function Loaded(d: Disk, k: Key): (r: Option<FwdPkg>) {
    if k !in d.pkgs then None else
      var b := d.pkgs[k];
      match (Decoded(b.ack), Decoded(b.settleFail))
      case (Some(ack), Some(sf)) =>
        (match b.fwd
         case None => Some(FwdPkg(k, LockedIn, b.adds, NewFilter(Low16(|b.adds|)), ack, b.settleFails, sf))
         case Some(bytes) =>
           match Decoded(bytes)
           case None => None
           case Some(fwd) =>
             // a filter without room is a panic; the second is looked at only if the first is full
             if !Room(ack) || (AllMarked(ack) && !Room(sf)) then None else
               var state := if AllMarked(ack) && AllMarked(sf) then Completed else Processed;
               Some(FwdPkg(k, state, b.adds, fwd, ack, b.settleFails, sf)))
      case _ => None
  }
}
