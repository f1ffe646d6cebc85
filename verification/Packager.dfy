/** The packagers' operations on the database of forwarding packages (channeldb/forwarding_package.go), step by step. */
module Packagers {
  import opened Common
  import opened PkgFilters
  import opened FwdPkgs

  /* ---------- grouping references ---------- */

  lemma IndexesNext(refs: seq<Ref>, n: nat, k: Key)
    requires n < |refs|
    ensures Indexes(refs[..n + 1], k) == Indexes(refs[..n], k) + (if refs[n].key == k then [refs[n].index] else [])
  {
    assert refs[..n + 1][..n] == refs[..n];
  }

  /** The groups of one channel: one list of indices per height that is referenced. */
  ghost predicate Grouped(diffs: map<uint64, seq<uint16>>, source: uint64, refs: seq<Ref>) {
    forall h: uint64 :: GroupAt(diffs, source, refs, h)
  }

  ghost predicate GroupAt(diffs: map<uint64, seq<uint16>>, source: uint64, refs: seq<Ref>, h: uint64) {
    && (h in diffs <==> Indexes(refs, Key(source, h)) != [])
    && (h in diffs ==> diffs[h] == Indexes(refs, Key(source, h)))
  }

  function Appended(diffs: map<uint64, seq<uint16>>, h: uint64, index: uint16): (r: map<uint64, seq<uint16>>) {
    diffs[h := (if h in diffs then diffs[h] else []) + [index]]
  }

  lemma GroupedNext(diffs: map<uint64, seq<uint16>>, source: uint64, refs: seq<Ref>, n: nat)
    requires n < |refs| && Grouped(diffs, source, refs[..n])
    ensures refs[n].key.source == source ==> Grouped(Appended(diffs, refs[n].key.height, refs[n].index), source, refs[..n + 1])
    ensures refs[n].key.source != source ==> Grouped(diffs, source, refs[..n + 1])
  {
    var diffs' := if refs[n].key.source == source then Appended(diffs, refs[n].key.height, refs[n].index) else diffs;
    var after := refs[..n + 1];
    forall h: uint64 ensures GroupAt(diffs', source, after, h) {
      assert GroupAt(diffs, source, refs[..n], h);
      IndexesNext(refs, n, Key(source, h));
    }
  }

  /** The groups of all channels. */
  ghost predicate GroupedAll(diffs: map<uint64, map<uint64, seq<uint16>>>, refs: seq<Ref>) {
    forall s: uint64 :: Grouped(if s in diffs then diffs[s] else map[], s, refs)
  }

  lemma GroupedAllNext(diffs: map<uint64, map<uint64, seq<uint16>>>, refs: seq<Ref>, n: nat)
    requires n < |refs| && GroupedAll(diffs, refs[..n])
    ensures var r := refs[n];
            var dest := if r.key.source in diffs then diffs[r.key.source] else map[];
            GroupedAll(diffs[r.key.source := Appended(dest, r.key.height, r.index)], refs[..n + 1])
  {
    var r := refs[n];
    var dest := if r.key.source in diffs then diffs[r.key.source] else map[];
    var diffs' := diffs[r.key.source := Appended(dest, r.key.height, r.index)];
    forall s: uint64 ensures Grouped(if s in diffs' then diffs'[s] else map[], s, refs[..n + 1]) {
      GroupedNext(if s in diffs then diffs[s] else map[], s, refs, n);
    }
  }

  /* ---------- applying them ---------- */

  /** The packages in `done` are updated, the others are as they were. */
  ghost predicate Progress(kind: Kind, before: map<Key, Bucket>, now: map<Key, Bucket>, refs: seq<Ref>, done: set<Key>) {
    && now.Keys == before.Keys
    && forall k :: k in before ==> UpdatedAt(kind, before, now, refs, done, k)
  }

  ghost predicate UpdatedAt(kind: Kind, before: map<Key, Bucket>, now: map<Key, Bucket>, refs: seq<Ref>, done: set<Key>, k: Key)
    requires k in before && k in now
  {
    if k in done && Indexes(refs, k) != []
    then Ack(kind, before[k], Indexes(refs, k)) == Some(now[k])
    else now[k] == before[k]
  }

  lemma ProgressOne(kind: Kind, before: map<Key, Bucket>, now: map<Key, Bucket>, refs: seq<Ref>, done: set<Key>, k: Key)
    requires Progress(kind, before, now, refs, done) && k !in done && Indexes(refs, k) != []
    ensures k !in before ==> Progress(kind, before, now, refs, done + {k})
    ensures k in before && Ack(kind, now[k], Indexes(refs, k)).Some? ==>
              Progress(kind, before, now[k := Ack(kind, now[k], Indexes(refs, k)).value], refs, done + {k})
    ensures k in before && Ack(kind, now[k], Indexes(refs, k)).None? ==> !Ackable(kind, before, refs)
  {
    if k in before {
      assert UpdatedAt(kind, before, now, refs, done, k);
      var r := Ack(kind, now[k], Indexes(refs, k));
      if r.Some? {
        var now' := now[k := r.value];
        forall q | q in before ensures UpdatedAt(kind, before, now', refs, done + {k}, q) {
          assert UpdatedAt(kind, before, now, refs, done, q);
        }
      }
    } else {
      forall q | q in before ensures UpdatedAt(kind, before, now, refs, done + {k}, q) {
        assert UpdatedAt(kind, before, now, refs, done, q);
      }
    }
  }

  lemma ProgressDone(kind: Kind, before: map<Key, Bucket>, now: map<Key, Bucket>, refs: seq<Ref>, done: set<Key>)
    requires Progress(kind, before, now, refs, done)
    requires forall k :: k in before && Indexes(refs, k) != [] ==> k in done
    ensures Ackable(kind, before, refs) && now == AckedPkgs(kind, before, refs)
  {
    forall k | k in before
      ensures Indexes(refs, k) != [] ==> Ack(kind, before[k], Indexes(refs, k)) == Some(now[k])
      ensures Indexes(refs, k) == [] ==> now[k] == before[k]
    {
      assert UpdatedAt(kind, before, now, refs, done, k);
    }
  }

  ghost function KeysOf(source: uint64, heights: set<uint64>): (s: set<Key>) {
    set h | h in heights :: Key(source, h)
  }

  /** Decode the filter, mark the indices, encode it again. An index without a byte is a panic, reported as a failure. */
  method AckAtHeight(bytes: seq<byte>, indexes: seq<uint16>) returns (r: Option<seq<byte>>)
    ensures r == AckedBytes(bytes, indexes)
  {
    var f := new PkgFilter(0);
    var ok := f.Decode(bytes);
    if !ok {
      return None;
    }
    ghost var start := f.View();
    for i := 0 to |indexes|
      invariant fresh(f) && fresh(f.filter)
      invariant MarkedAll(start, indexes[..i]) == Some(f.View())
    {
      assert indexes[..i + 1][..i] == indexes[..i];
      if indexes[i] / 8 >= f.filter.Length {
        MarkedAllFails(start, indexes, i + 1);
        return None;
      }
      f.Set(indexes[i]);
    }
    assert indexes[..|indexes|] == indexes;
    var b := f.Encode();
    r := Some(b);
  }

  lemma {:induction false} MarkedAllFails(f: Filter, indexes: seq<uint16>, n: nat)
    requires n <= |indexes| && MarkedAll(f, indexes[..n]).None?
    ensures MarkedAll(f, indexes).None?
    decreases |indexes| - n
  {
    if n < |indexes| {
      assert indexes[..n + 1][..n] == indexes[..n];
      MarkedAllFails(f, indexes, n + 1);
    } else {
      assert indexes[..n] == indexes;
    }
  }

  /** All heights of one channel, in the order a map yields them: any. */
  method AckHeights(kind: Kind, source: uint64, diffs: map<uint64, seq<uint16>>, pkgs: map<Key, Bucket>, ghost before: map<Key, Bucket>,
                    ghost refs: seq<Ref>, ghost done: set<Key>)
    returns (now: map<Key, Bucket>, ok: bool)
    requires Progress(kind, before, pkgs, refs, done) && Grouped(diffs, source, refs)
    requires forall k :: k in done ==> k.source != source
    ensures ok ==> Progress(kind, before, now, refs, done + KeysOf(source, diffs.Keys))
    ensures !ok ==> !Ackable(kind, before, refs)
  {
    now := pkgs;
    var todo := diffs.Keys;
    assert done + KeysOf(source, diffs.Keys - todo) == done;
    while todo != {}
      invariant todo <= diffs.Keys
      invariant Progress(kind, before, now, refs, done + KeysOf(source, diffs.Keys - todo))
      decreases |todo|
    {
      var h :| h in todo;
      var k := Key(source, h);
      ghost var sofar := done + KeysOf(source, diffs.Keys - todo);
      assert GroupAt(diffs, source, refs, h);
      ProgressOne(kind, before, now, refs, sofar, k);
      todo := todo - {h};
      assert sofar + {k} == done + KeysOf(source, diffs.Keys - todo);
      // a package that is gone has nothing to acknowledge
      if k in now {
        var r := AckAtHeight(if kind == Adds then now[k].ack else now[k].settleFail, diffs[h]);
        if r.None? {
          return now, false;
        }
        now := now[k := if kind == Adds then now[k].(ack := r.value) else now[k].(settleFail := r.value)];
      }
    }
    assert diffs.Keys - todo == diffs.Keys;
    ok := true;
  }

  /* ---------- the database ---------- */

  class FwdDb {
    var disk: Disk

    constructor ()
      ensures disk == Disk(false, {}, map[]) && Valid(disk)
    {
      disk := Disk(false, {}, map[]);
    }

    /** Updates are put under 16-bit indices. */
    method AddFwdPkg(p: FwdPkg)
      requires Valid(disk)
      modifies this
      ensures Valid(disk) && disk == Added(old(disk), p)
    {
      var b := if p.key in disk.pkgs then disk.pkgs[p.key] else Bucket([], [], [], [], None);
      var adds := PutAll(b.adds, p.adds);
      var settleFails := PutAll(b.settleFails, p.settleFails);
      b := b.(adds := adds, ack := Encoded(p.ackFilter));
      b := b.(settleFails := settleFails, settleFail := Encoded(p.settleFailFilter));
      disk := Disk(true, disk.sources + {p.key.source}, disk.pkgs[p.key := b]);
    }

    /** False when the package is not there. */
    method SetFwdFilter(source: uint64, height: uint64, filter: PkgFilter) returns (ok: bool)
      requires Valid(disk) && |filter.View().bits| == FilterLen(filter.count)
      modifies this
      ensures Valid(disk) && disk == WithFwdFilter(old(disk), Key(source, height), filter.View())
      ensures ok <==> Key(source, height) in old(disk).pkgs
    {
      var k := Key(source, height);
      if !disk.root || source !in disk.sources || k !in disk.pkgs {
        return false;
      }
      if disk.pkgs[k].fwd.Some? {
        return true;
      }
      var bytes := filter.Encode();
      disk := disk.(pkgs := disk.pkgs[k := disk.pkgs[k].(fwd := Some(bytes))]);
      return true;
    }

    method AckAddHtlcs(source: uint64, addRefs: seq<AddRef>) returns (ok: bool)
      requires Valid(disk)
      modifies this
      ensures Valid(disk) && disk == Acknowledged(Adds, old(disk), AddRefs(source, addRefs))
      ensures ok <==> addRefs == [] || (source in old(disk).sources && Ackable(Adds, old(disk).pkgs, AddRefs(source, addRefs)))
    {
      ghost var refs := AddRefs(source, addRefs);
      var pkgs := disk.pkgs;
      if addRefs == [] {
        ProgressDone(Adds, pkgs, pkgs, refs, {});
        return true;
      }
      if !disk.root || source !in disk.sources {
        NoPackages(disk, source, refs);
        return false;
      }
      var diffs: map<uint64, seq<uint16>> := map[];
      for i := 0 to |addRefs|
        invariant Grouped(diffs, source, refs[..i])
        modifies {}
      {
        GroupedNext(diffs, source, refs, i);
        diffs := Appended(diffs, addRefs[i].height, addRefs[i].index);
      }
      assert refs[..|refs|] == refs;
      var now;
      now, ok := AckHeights(Adds, source, diffs, pkgs, pkgs, refs, {});
      if ok {
        OneSource(source, diffs, refs);
        ProgressDone(Adds, pkgs, now, refs, {} + KeysOf(source, diffs.Keys));
        disk := disk.(pkgs := now);
      }
    }

    method AckSettleFails(settleFailRefs: seq<SettleFailRef>) returns (ok: bool)
      requires Valid(disk)
      modifies this
      ensures Valid(disk) && disk == Acknowledged(SettleFails, old(disk), SettleFailRefs(settleFailRefs))
      ensures ok <==>
              || settleFailRefs == []
              || (old(disk).root && Ackable(SettleFails, old(disk).pkgs, SettleFailRefs(settleFailRefs)))
    {
      ghost var refs := SettleFailRefs(settleFailRefs);
      var pkgs := disk.pkgs;
      if settleFailRefs == [] {
        ProgressDone(SettleFails, pkgs, pkgs, refs, {});
        return true;
      }
      if !disk.root {
        assert pkgs == map[];
        return false;
      }
      var diffs := GroupSettleFails(settleFailRefs);
      var now;
      now, ok := AckDests(diffs, disk.sources, pkgs, refs);
      if ok {
        disk := disk.(pkgs := now);
      }
    }

    method LoadFwdPkg(source: uint64, height: uint64) returns (r: Option<FwdPkg>)
      ensures r == Loaded(disk, Key(source, height))
    {
      var k := Key(source, height);
      if k !in disk.pkgs {
        return None;
      }
      var b := disk.pkgs[k];
      var ack := new PkgFilter(0);
      var ok := ack.Decode(b.ack);
      if !ok {
        return None;
      }
      var sf := new PkgFilter(0);
      ok := sf.Decode(b.settleFail);
      if !ok {
        return None;
      }
      var ackFilter, sfFilter := Filter(ack.count, ack.filter[..]), Filter(sf.count, sf.filter[..]);
      if b.fwd.None? {
        return Some(FwdPkg(k, LockedIn, b.adds, NewFilter(Low16(|b.adds|)), ackFilter, b.settleFails, sfFilter));
      }
      var fwd := Decoded(b.fwd.value);
      if fwd.None? || !Room(ackFilter) {
        return None;
      }
      var full := ack.IsFull();
      if full {
        if !Room(sfFilter) {
          return None;
        }
        full := sf.IsFull();
      }
      r := Some(FwdPkg(k, if full then Completed else Processed, b.adds, fwd.value, ackFilter, b.settleFails, sfFilter));
    }

    method RemovePkg(source: uint64, height: uint64) returns (ok: bool)
      requires Valid(disk)
      modifies this
      ensures Valid(disk) && disk == Removed(old(disk), Key(source, height))
      ensures ok <==> !disk.root || Key(source, height) in old(disk).pkgs
    {
      var k := Key(source, height);
      ok := !disk.root || k in disk.pkgs;
      disk := disk.(pkgs := disk.pkgs - {k});
    }

    method Wipe(source: uint64)
      requires Valid(disk)
      modifies this
      ensures Valid(disk) && disk == Wiped(old(disk), source)
    {
      if source in disk.sources {
        disk := Disk(disk.root, disk.sources - {source}, map k | k in disk.pkgs && k.source != source :: disk.pkgs[k]);
      } else {
        assert forall k :: k in disk.pkgs ==> k.source != source;
      }
    }
  }

  method PutAll(stored: seq<LogUpdate>, updates: seq<LogUpdate>) returns (r: seq<LogUpdate>)
    ensures r == Overlay(stored, updates)
  {
    r := stored;
    for i := 0 to |updates|
      invariant r == Overlay(stored, updates[..i])
    {
      assert updates[..i + 1][..i] == updates[..i];
      var key := Low16(i);
      r := if key < |r| then r[key := updates[i]] else r + [updates[i]];
    }
    assert updates[..|updates|] == updates;
  }

  lemma NoPackages(d: Disk, source: uint64, refs: seq<Ref>)
    requires Valid(d) && source !in d.sources && forall i :: 0 <= i < |refs| ==> refs[i].key.source == source
    ensures Acknowledged(Adds, d, refs) == d
  {
    forall k | k in d.pkgs ensures Indexes(refs, k) == [] {
      OtherSource(refs, k);
    }
  }

  lemma {:induction false} OtherSource(refs: seq<Ref>, k: Key)
    requires forall i :: 0 <= i < |refs| ==> refs[i].key.source != k.source
    ensures Indexes(refs, k) == []
  {
    if refs != [] {
      OtherSource(refs[..|refs| - 1], k);
    }
  }

  lemma OneSource(source: uint64, diffs: map<uint64, seq<uint16>>, refs: seq<Ref>)
    requires Grouped(diffs, source, refs) && forall i :: 0 <= i < |refs| ==> refs[i].key.source == source
    ensures forall k :: Indexes(refs, k) != [] ==> k in KeysOf(source, diffs.Keys)
  {
    forall k | Indexes(refs, k) != [] ensures k in KeysOf(source, diffs.Keys) {
      if k.source != source {
        OtherSource(refs, k);
      }
      assert GroupAt(diffs, source, refs, k.height);
      assert k == Key(source, k.height);
    }
  }

  method GroupSettleFails(settleFailRefs: seq<SettleFailRef>) returns (diffs: map<uint64, map<uint64, seq<uint16>>>)
    ensures GroupedAll(diffs, SettleFailRefs(settleFailRefs))
  {
    ghost var refs := SettleFailRefs(settleFailRefs);
    diffs := map[];
    for i := 0 to |settleFailRefs|
      invariant GroupedAll(diffs, refs[..i])
    {
      var r := settleFailRefs[i];
      GroupedAllNext(diffs, refs, i);
      var dest := if r.source in diffs then diffs[r.source] else map[];
      diffs := diffs[r.source := Appended(dest, r.height, r.index)];
    }
    assert refs[..|refs|] == refs;
  }

  ghost function AllKeys(diffs: map<uint64, map<uint64, seq<uint16>>>, sources: set<uint64>): (s: set<Key>)
    requires sources <= diffs.Keys
  {
    set s, h | s in sources && h in diffs[s] :: Key(s, h)
  }

  /** All channels, in any order; a channel whose packages were wiped is passed over. */
  method AckDests(diffs: map<uint64, map<uint64, seq<uint16>>>, sources: set<uint64>, pkgs: map<Key, Bucket>, ghost refs: seq<Ref>)
    returns (now: map<Key, Bucket>, ok: bool)
    requires GroupedAll(diffs, refs) && forall k :: k in pkgs ==> k.source in sources
    ensures ok <==> Ackable(SettleFails, pkgs, refs)
    ensures ok ==> now == AckedPkgs(SettleFails, pkgs, refs)
  {
    now := pkgs;
    var todo := diffs.Keys;
    while todo != {}
      invariant todo <= diffs.Keys
      invariant Progress(SettleFails, pkgs, now, refs, AllKeys(diffs, diffs.Keys - todo))
      decreases |todo|
    {
      var dest :| dest in todo;
      ghost var done := AllKeys(diffs, diffs.Keys - todo);
      assert Grouped(diffs[dest], dest, refs);
      todo := todo - {dest};
      assert done + KeysOf(dest, diffs[dest].Keys) == AllKeys(diffs, diffs.Keys - todo);
      if dest in sources {
        now, ok := AckHeights(SettleFails, dest, diffs[dest], now, pkgs, refs, done);
        if !ok {
          return;
        }
      } else {
        SkipGone(pkgs, now, refs, done, KeysOf(dest, diffs[dest].Keys));
      }
    }
    forall k | k in pkgs && Indexes(refs, k) != [] ensures k in AllKeys(diffs, diffs.Keys - todo) {
      assert Grouped(if k.source in diffs then diffs[k.source] else map[], k.source, refs);
      assert GroupAt(if k.source in diffs then diffs[k.source] else map[], k.source, refs, k.height);
      assert k == Key(k.source, k.height);
    }
    ProgressDone(SettleFails, pkgs, now, refs, AllKeys(diffs, diffs.Keys - todo));
    ok := true;
  }

  lemma SkipGone(pkgs: map<Key, Bucket>, now: map<Key, Bucket>, refs: seq<Ref>, done: set<Key>, gone: set<Key>)
    requires Progress(SettleFails, pkgs, now, refs, done) && forall k :: k in gone ==> k !in pkgs
    ensures Progress(SettleFails, pkgs, now, refs, done + gone)
  {
    forall q | q in pkgs ensures UpdatedAt(SettleFails, pkgs, now, refs, done + gone, q) {
      assert UpdatedAt(SettleFails, pkgs, now, refs, done, q);
    }
  }
}
