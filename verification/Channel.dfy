/**
  The persisted commitment chains of a channel (channeldb/channel.go): the pending diff for the
  remote side, the revocation log, the updates still to be signed, and the forwarding packages
  written in the same transactions.
 */
module Channels {
  import opened Common
  import opened FwdPkgs
  import opened Packagers

  /** `body` stands for the balances, transactions and signatures. */
  datatype Commitment = Commitment(height: uint64, localLogIndex: uint64, localHtlcIndex: uint64, remoteLogIndex: uint64,
                                   remoteHtlcIndex: uint64, body: seq<char>)

  datatype CommitDiff = CommitDiff(commitment: Commitment, addAcks: seq<AddRef>, settleFailAcks: seq<SettleFailRef>, body: seq<char>)

  datatype Flag =
    | Borked | CommitBroadcasted | LocalDataLoss | Restored | CoopBroadcasted | LocalCloseInitiator | RemoteCloseInitiator

  /** The channel's bucket. */
  datatype Store = Store(status: set<Flag>, local: Commitment, remote: Commitment, tip: Option<CommitDiff>,
                         log: Option<map<uint64, Commitment>>, unsignedAcked: Option<seq<LogUpdate>>,
                         remoteUnsignedLocal: Option<seq<LogUpdate>>, lastWasRevoke: Option<bool>)

  /** The object in memory beside what is on disk: its bucket, and the packages that its transactions also write. */
  datatype Chan = Chan(source: uint64, status: set<Flag>, local: Commitment, remote: Commitment, disk: Store, pkgs: Disk)

  datatype Error =
    | NoError
    | ErrNoRestoredChannelMutation
    | ErrChanBorked
    | ErrCorruptedFwdPkg
    | ErrNoTip
    | ErrNoPastDeltas
    | ErrEmptyLog
    | ErrWrite

  const ZERO_COMMITMENT := Commitment(0, 0, 0, 0, 0, [])

  /* ---------- operations ---------- */

  /** Any status at all on disk counts as borked. */
  function Refused(c: Chan): (e: Error) {
    if Restored in c.status then ErrNoRestoredChannelMutation
    else if c.disk.status != {} then ErrChanBorked
    else NoError
  }

  predicate AddsAckable(d: Disk, source: uint64, refs: seq<AddRef>) {
    refs == [] || (source in d.sources && Ackable(Adds, d.pkgs, AddRefs(source, refs)))
  }

  predicate SettleFailsAckable(d: Disk, refs: seq<SettleFailRef>) {
    refs == [] || (d.root && Ackable(SettleFails, d.pkgs, SettleFailRefs(refs)))
  }

  function AppendError(c: Chan, diff: CommitDiff, writeOk: bool): (e: Error) {
    if Refused(c) != NoError then Refused(c)
    else if !AddsAckable(c.pkgs, c.source, diff.addAcks) then ErrCorruptedFwdPkg
    else if !SettleFailsAckable(Acknowledged(Adds, c.pkgs, AddRefs(c.source, diff.addAcks)), diff.settleFailAcks)
    then ErrCorruptedFwdPkg
    else if !writeOk then ErrWrite
    else NoError
  }

  function AckedBy(d: Disk, source: uint64, diff: CommitDiff): (r: Disk) {
    Acknowledged(SettleFails, Acknowledged(Adds, d, AddRefs(source, diff.addAcks)), SettleFailRefs(diff.settleFailAcks))
  }

  function Append(c: Chan, diff: CommitDiff, writeOk: bool): (r: Chan) {
    if AppendError(c, diff, writeOk) != NoError then c
    else c.(disk := c.disk.(tip := Some(diff), lastWasRevoke := Some(false)), pkgs := AckedBy(c.pkgs, c.source, diff))
  }

  function AdvanceError(c: Chan, writeOk: bool): (e: Error) {
    if Refused(c) != NoError then Refused(c)
    else if c.disk.tip.None? then ErrNoTip
    else if !writeOk then ErrWrite
    else NoError
  }

  /** The updates not covered by a log index, in order. */
  function From(updates: seq<LogUpdate>, index: uint64): (r: seq<LogUpdate>) {
    if updates == [] then [] else
      var last := updates[|updates| - 1];
      From(updates[..|updates| - 1], index) + (if last.logIndex >= index then [last] else [])
  }

  function Log(s: Store): (m: map<uint64, Commitment>) {
    if s.log.None? then map[] else s.log.value
  }

  /** The tip becomes the remote commitment; the one in memory goes to the revocation log. */
  function Advanced(c: Chan, updates: seq<LogUpdate>): (s: Store)
    requires c.disk.tip.Some?
  {
    var commit := c.disk.tip.value.commitment;
    var s := c.disk.(remote := commit, tip := None, log := Some(Log(c.disk)[c.remote.height := c.remote]));
    if s.unsignedAcked.None? then s
    else s.(unsignedAcked := Some(From(s.unsignedAcked.value, commit.remoteLogIndex)), remoteUnsignedLocal := Some(updates))
  }

  function Advance(c: Chan, p: FwdPkg, updates: seq<LogUpdate>, writeOk: bool): (r: Chan) {
    if AdvanceError(c, writeOk) != NoError then c
    else c.(disk := Advanced(c, updates), remote := c.disk.tip.value.commitment, pkgs := Added(c.pkgs, p))
  }

  function UpdateError(c: Chan, writeOk: bool): (e: Error) {
    if Refused(c) != NoError then Refused(c) else if !writeOk then ErrWrite else NoError
  }

  function Updated(c: Chan, commit: Commitment, unsigned: seq<LogUpdate>): (s: Store) {
    var s := c.disk.(status := c.status, local := commit, unsignedAcked := Some(unsigned), lastWasRevoke := Some(true));
    if s.remoteUnsignedLocal.None? then s
    else s.(remoteUnsignedLocal := Some(From(s.remoteUnsignedLocal.value, commit.localLogIndex)))
  }

  function Update(c: Chan, commit: Commitment, unsigned: seq<LogUpdate>, writeOk: bool): (r: Chan) {
    if UpdateError(c, writeOk) != NoError then c else c.(disk := Updated(c, commit, unsigned), local := commit)
  }

  function WithStatus(c: Chan, status: set<Flag>, writeOk: bool): (r: Chan) {
    if writeOk then c.(disk := c.disk.(status := status), status := status) else c
  }

  /** A restored channel has no commitments to read. */
  function Reloaded(c: Chan): (r: Chan) {
    var restored := Restored in c.disk.status;
    c.(status := c.disk.status,
       local := if restored then ZERO_COMMITMENT else c.disk.local,
       remote := if restored then ZERO_COMMITMENT else c.disk.remote)
  }

  /** The pending commitment if there is one, else the remote commitment. */
  function NextIndex(c: Chan): (n: uint64) {
    match c.disk.tip case Some(diff) => diff.commitment.localHtlcIndex case None => c.remote.localHtlcIndex
  }

  function Previous(c: Chan, n: uint64): (r: Option<Commitment>) {
    if n in Log(c.disk) then Some(Log(c.disk)[n]) else None
  }

  ghost predicate IsLastKey(m: map<uint64, Commitment>, k: uint64) {
    k in m && forall j :: j in m ==> j <= k
  }

  lemma {:induction false} LastKeyExists(m: map<uint64, Commitment>)
    requires m != map[]
    ensures exists k :: IsLastKey(m, k)
    decreases |m|
  {
    var k :| k in m;
    var rest := m - {k};
    assert forall j :: j in m ==> j == k || j in rest;
    if rest == map[] {
      assert IsLastKey(m, k);
    } else {
      LastKeyExists(rest);
      var l :| IsLastKey(rest, l);
      assert IsLastKey(m, if k > l then k else l);
    }
  }

  /** The entry under the last key of the log; nothing before the first update or without entries. */
  ghost function Tail(c: Chan): (r: Option<Commitment>) {
    var m := Log(c.disk);
    if c.remote.height == 0 || m == map[] then None else
      LastKeyExists(m);
      var k :| IsLastKey(m, k);
      Some(m[k])
  }

  function TailError(c: Chan): (e: Error) {
    if c.remote.height == 0 then NoError
    else if c.disk.log.None? then ErrNoPastDeltas
    else if c.disk.log.value == map[] then ErrEmptyLog
    else NoError
  }

  /* ---------- the channel as an object ---------- */

  method KeepFrom(updates: seq<LogUpdate>, index: uint64) returns (valid: seq<LogUpdate>)
    ensures valid == From(updates, index)
  {
    valid := [];
    for i := 0 to |updates|
      invariant valid == From(updates[..i], index)
    {
      assert updates[..i + 1][..i] == updates[..i];
      if updates[i].logIndex >= index {
        valid := valid + [updates[i]];
      }
    }
    assert updates[..|updates|] == updates;
  }

  class OpenChannel {
    const source: uint64
    /** The packages of all channels; a transaction that fails leaves them as they were. */
    const db: FwdDb
    var status: set<Flag>
    var local: Commitment
    var remote: Commitment
    var disk: Store

    ghost function View(): (c: Chan)
      reads this, db
    {
      Chan(source, status, local, remote, disk, db.disk)
    }

    constructor (source: uint64, local: Commitment, remote: Commitment, db: FwdDb)
      ensures this.db == db
      ensures View() == Chan(source, {}, local, remote, Store({}, local, remote, None, None, None, None, None), db.disk)
    {
      this.source, this.db, status, this.local, this.remote := source, db, {}, local, remote;
      disk := Store({}, local, remote, None, None, None, None, None);
    }

    method AppendRemoteCommitChain(diff: CommitDiff, writeOk: bool) returns (e: Error)
      requires Valid(db.disk)
      modifies this, db
      ensures Valid(db.disk)
      ensures View() == Append(old(View()), diff, writeOk) && e == AppendError(old(View()), diff, writeOk)
    {
      if Restored in status {
        return ErrNoRestoredChannelMutation;
      }
      if disk.status != {} {
        return ErrChanBorked;
      }
      var before := db.disk;
      var ok := db.AckAddHtlcs(source, diff.addAcks);
      if !ok {
        db.disk := before;
        return ErrCorruptedFwdPkg;
      }
      ok := db.AckSettleFails(diff.settleFailAcks);
      if !ok {
        db.disk := before;
        return ErrCorruptedFwdPkg;
      }
      if !writeOk {
        db.disk := before;
        return ErrWrite;
      }
      disk := disk.(lastWasRevoke := Some(false), tip := Some(diff));
      return NoError;
    }

    method AdvanceCommitChainTail(p: FwdPkg, updates: seq<LogUpdate>, writeOk: bool) returns (e: Error)
      requires Valid(db.disk)
      modifies this, db
      ensures Valid(db.disk)
      ensures View() == Advance(old(View()), p, updates, writeOk) && e == AdvanceError(old(View()), writeOk)
    {
      if Restored in status {
        return ErrNoRestoredChannelMutation;
      }
      if disk.status != {} {
        return ErrChanBorked;
      }
      var tx, before := disk, db.disk;
      var log := if tx.log.None? then map[] else tx.log.value;
      if tx.tip.None? {
        return ErrNoTip;
      }
      var commit := tx.tip.value.commitment;
      tx := tx.(remote := commit);
      tx := tx.(tip := None);
      tx := tx.(log := Some(log[remote.height := remote]));
      db.AddFwdPkg(p);
      if tx.unsignedAcked.Some? {
        var valid := KeepFrom(tx.unsignedAcked.value, commit.remoteLogIndex);
        tx := tx.(unsignedAcked := Some(valid));
        tx := tx.(remoteUnsignedLocal := Some(updates));
      }
      if !writeOk {
        db.disk := before;
        return ErrWrite;
      }
      disk := tx;
      remote := commit;
      return NoError;
    }

    method UpdateCommitment(commit: Commitment, unsigned: seq<LogUpdate>, writeOk: bool) returns (e: Error)
      modifies this
      ensures View() == Update(old(View()), commit, unsigned, writeOk) && e == UpdateError(old(View()), writeOk)
    {
      if Restored in status {
        return ErrNoRestoredChannelMutation;
      }
      if disk.status != {} {
        return ErrChanBorked;
      }
      var tx := disk.(status := status);
      tx := tx.(local := commit);
      tx := tx.(unsignedAcked := Some(unsigned));
      tx := tx.(lastWasRevoke := Some(true));
      if tx.remoteUnsignedLocal.Some? {
        var valid := KeepFrom(tx.remoteUnsignedLocal.value, commit.localLogIndex);
        tx := tx.(remoteUnsignedLocal := Some(valid));
      }
      if !writeOk {
        return ErrWrite;
      }
      disk := tx;
      local := commit;
      return NoError;
    }

    /** Flags are added to those on disk, not to those in memory. */
    method ApplyChanStatus(flag: Flag, writeOk: bool)
      modifies this
      ensures View() == WithStatus(old(View()), old(disk).status + {flag}, writeOk)
    {
      if writeOk {
        var s := disk.status + {flag};
        disk := disk.(status := s);
        status := s;
      }
    }

    method ClearChanStatus(flag: Flag, writeOk: bool)
      modifies this
      ensures View() == WithStatus(old(View()), old(disk).status - {flag}, writeOk)
    {
      if writeOk {
        var s := disk.status - {flag};
        disk := disk.(status := s);
        status := s;
      }
    }

    /** The object is read from disk again. */
    method Reload()
      modifies this
      ensures View() == Reloaded(old(View()))
    {
      status := disk.status;
      if Restored in status {
        local, remote := ZERO_COMMITMENT, ZERO_COMMITMENT;
      } else {
        local, remote := disk.local, disk.remote;
      }
    }

    method NextLocalHtlcIndex() returns (n: uint64)
      ensures n == NextIndex(View())
    {
      if disk.tip.Some? {
        return disk.tip.value.commitment.localHtlcIndex;
      }
      return remote.localHtlcIndex;
    }

    method FindPreviousState(n: uint64) returns (r: Option<Commitment>)
      ensures r == Previous(View(), n)
    {
      if disk.log.None? || n !in disk.log.value {
        return None;
      }
      return Some(disk.log.value[n]);
    }

    /** The entry under the last key: nil before the first update, an error without a bucket or entries. */
    method RevocationLogTail() returns (r: Option<Commitment>, e: Error)
      ensures r == Tail(View()) && e == TailError(View())
    {
      if remote.height == 0 {
        return None, NoError;
      }
      if disk.log.None? {
        return None, ErrNoPastDeltas;
      }
      if disk.log.value == map[] {
        return None, ErrEmptyLog;
      }
      var last := LastOf(disk.log.value);
      return Some(disk.log.value[last]), NoError;
    }
  }

  method LastOf(m: map<uint64, Commitment>) returns (last: uint64)
    requires m != map[]
    ensures IsLastKey(m, last)
  {
    last :| last in m;
    var todo := m.Keys - {last};
    while todo != {}
      invariant todo <= m.Keys && last in m
      invariant forall j :: j in m && j !in todo ==> j <= last
      decreases |todo|
    {
      var k :| k in todo;
      todo := todo - {k};
      last := if k > last then k else last;
    }
  }
}
