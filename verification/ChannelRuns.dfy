/** Properties of a channel's persisted state over every run of its operations, failed writes and restarts included. */
module ChannelRuns {
  import opened Common
  import opened FwdPkgs
  import opened Channels
  import L = FwdLifecycle

  datatype Step =
    | AppendStep(diff: CommitDiff, writeOk: bool)
    | AdvanceStep(pkg: FwdPkg, updates: seq<LogUpdate>, writeOk: bool)
    | UpdateStep(commit: Commitment, unsigned: seq<LogUpdate>, writeOk: bool)
    | ApplyStatus(flag: Flag, writeOk: bool)
    | ClearStatus(flag: Flag, writeOk: bool)
    | Restart

  function Next(c: Chan, step: Step): (r: Chan) {
    match step
    case AppendStep(diff, ok) => Append(c, diff, ok)
    case AdvanceStep(p, updates, ok) => Advance(c, p, updates, ok)
    case UpdateStep(commit, unsigned, ok) => Update(c, commit, unsigned, ok)
    case ApplyStatus(flag, ok) => WithStatus(c, c.disk.status + {flag}, ok)
    case ClearStatus(flag, ok) => WithStatus(c, c.disk.status - {flag}, ok)
    case Restart => Reloaded(c)
  }

  function Run(c: Chan, steps: seq<Step>): (r: Chan) {
    if steps == [] then c else Next(Run(c, steps[..|steps| - 1]), steps[|steps| - 1])
  }

  predicate Appends(c: Chan, step: Step) {
    step.AppendStep? && AppendError(c, step.diff, step.writeOk) == NoError
  }

  predicate Advances(c: Chan, step: Step) {
    step.AdvanceStep? && AdvanceError(c, step.writeOk) == NoError
  }

  predicate Updates(c: Chan, step: Step) {
    step.UpdateStep? && UpdateError(c, step.writeOk) == NoError
  }

  /** A new channel: the same commitment in memory and on disk, at height zero, and nothing else. */
  ghost predicate Fresh(c: Chan) {
    && c.status == c.disk.status == {}
    && c.remote == c.disk.remote && c.remote.height == 0
    && c.disk.tip.None? && c.disk.log.None? && c.disk.unsignedAcked.None? && c.disk.remoteUnsignedLocal.None?
  }

  /* ---------- the revocation log ---------- */

  /** The remote commitments that have been in force, the current one last. */
  ghost function History(c: Chan, steps: seq<Step>): (h: seq<Commitment>)
    ensures h != []
  {
    if steps == [] then [c.remote] else
      var before, step := steps[..|steps| - 1], steps[|steps| - 1];
      var now := Run(c, before);
      History(c, before) + (if Advances(now, step) then [now.disk.tip.value.commitment] else [])
  }

  /** Each diff is for the next remote height, and memory holds the disk's remote commitment when it is advanced. */
  ghost predicate Numbered(c: Chan, steps: seq<Step>) {
    steps == [] ||
    (Numbered(c, steps[..|steps| - 1]) && NumberedStep(Run(c, steps[..|steps| - 1]), steps[|steps| - 1]))
  }

  ghost predicate NumberedStep(c: Chan, step: Step) {
    && (Appends(c, step) ==> step.diff.commitment.height == c.disk.remote.height + 1)
    && (Advances(c, step) ==> c.remote == c.disk.remote)
  }

  /** The channel was loaded as a restored one, without its commitments. */
  predicate Forgotten(c: Chan) {
    c.remote == ZERO_COMMITMENT
  }

  ghost predicate LogHolds(c: Chan, h: seq<Commitment>) {
    && h != []
    && c.disk.remote == h[|h| - 1]
    && (c.remote == c.disk.remote || Forgotten(c))
    && (forall i :: 0 <= i < |h| ==> h[i].height == i)
    && (c.disk.tip.Some? ==> c.disk.tip.value.commitment.height == |h|)
    && (forall n :: n in Log(c.disk) <==> 0 <= n < |h| - 1)
    && (forall n :: 0 <= n < |h| - 1 ==> Log(c.disk)[n] == h[n])
  }

  /** Without that: a restored channel whose flag is cleared before it is loaded again logs the zero commitment. */
  lemma ForgottenLogsZero(c: Chan, p: FwdPkg)
    requires Forgotten(c) && c.disk.status == {Restored} && c.disk.tip.Some?
    ensures Previous(Run(c, [ClearStatus(Restored, true), AdvanceStep(p, [], true)]), 0) == Some(ZERO_COMMITMENT)
  {
    var a, b := ClearStatus(Restored, true), AdvanceStep(p, [], true);
    assert [a, b][..1] == [a] && [a][..0] == [];
    assert Run(c, [a]) == Next(Run(c, []), a);
    assert c.disk.status - {Restored} == {};
  }

  lemma LogHoldsNext(c: Chan, h: seq<Commitment>, step: Step)
    requires LogHolds(c, h) && NumberedStep(c, step)
    ensures LogHolds(Next(c, step), h + (if Advances(c, step) then [c.disk.tip.value.commitment] else []))
  {
    if Advances(c, step) {
      var h' := h + [c.disk.tip.value.commitment];
      var c' := Next(c, step);
      assert Log(c'.disk) == Log(c.disk)[c.remote.height := c.remote];
    }
  }

  lemma {:induction false} LogHoldsInRun(c: Chan, steps: seq<Step>)
    requires Fresh(c) && Numbered(c, steps)
    ensures LogHolds(Run(c, steps), History(c, steps))
  {
    if steps != [] {
      LogHoldsInRun(c, steps[..|steps| - 1]);
      LogHoldsNext(Run(c, steps[..|steps| - 1]), History(c, steps[..|steps| - 1]), steps[|steps| - 1]);
    }
  }

  /** What the log answers. */
  ghost predicate LogAnswers(c: Chan, h: seq<Commitment>)
    requires h != []
  {
    && c.disk.remote == h[|h| - 1] && c.disk.remote.height == |h| - 1
    && (forall n: uint64 :: Previous(c, n) == if n < |h| - 1 then Some(h[n]) else None)
    && (forall n: uint64 :: n < |h| ==> h[n].height == n)
    && (forall k :: IsLastKey(Log(c.disk), k) <==> k == |h| - 2 && k >= 0)
    && Tail(c) == (if |h| == 1 || Forgotten(c) then None else Some(h[|h| - 2])) && TailError(c) == NoError
  }

  lemma LogHoldsAnswers(c: Chan, h: seq<Commitment>)
    requires LogHolds(c, h)
    ensures LogAnswers(c, h)
  {
    forall k ensures IsLastKey(Log(c.disk), k) <==> k == |h| - 2 && k >= 0 {
      if IsLastKey(Log(c.disk), k) {
        assert (|h| - 2) in Log(c.disk) by {
          assert h[|h| - 2].height == |h| - 2;
        }
      }
    }
  }

  /**
    After every run the log has exactly one entry for each height below the current remote height,
    and it is the commitment that was in force then; looking up any other height fails; and the tail
    of the log is the commitment before the current one, or nothing if there was none or the channel
    is a restored one without its commitments.
   */
  lemma RevocationLogExact(c: Chan, steps: seq<Step>)
    requires Fresh(c) && Numbered(c, steps)
    ensures LogAnswers(Run(c, steps), History(c, steps))
  {
    LogHoldsInRun(c, steps);
    LogHoldsAnswers(Run(c, steps), History(c, steps));
  }

  lemma EntryStays(c: Chan, h: seq<Commitment>, step: Step, n: uint64)
    requires LogHolds(c, h) && NumberedStep(c, step) && Previous(c, n).Some?
    ensures Previous(Next(c, step), n) == Previous(c, n)
  {
    if Advances(c, step) {
      assert Log(Next(c, step).disk) == Log(c.disk)[c.remote.height := c.remote];
    }
  }

  /** Entries are never rewritten: what a run has logged, every longer run finds unchanged. */
  lemma {:induction false} LogOnlyGrows(c: Chan, steps: seq<Step>, more: seq<Step>, n: uint64)
    requires Fresh(c) && Numbered(c, steps + more) && Previous(Run(c, steps), n).Some?
    ensures Previous(Run(c, steps + more), n) == Previous(Run(c, steps), n)
    decreases |more|
  {
    if more == [] {
      assert steps + more == steps;
    } else {
      var all, fewer := steps + more, more[..|more| - 1];
      assert all[..|all| - 1] == steps + fewer;
      LogOnlyGrows(c, steps, fewer, n);
      LogHoldsInRun(c, steps + fewer);
      EntryStays(Run(c, steps + fewer), History(c, steps + fewer), all[|all| - 1], n);
    }
  }

  /* ---------- allocated HTLC indices ---------- */

  /** Memory and disk agree, and the channel is not a restored one. */
  ghost predicate InStep(c: Chan) {
    c.status == c.disk.status && Restored !in c.status && c.remote == c.disk.remote
  }

  predicate Restores(step: Step) {
    step.ApplyStatus? && step.flag == Restored
  }

  /** A step moves the next HTLC index only by persisting a diff, and then to that of the diff. */
  lemma IndexMoves(c: Chan, step: Step)
    requires InStep(c) && !Restores(step)
    ensures InStep(Next(c, step))
    ensures NextIndex(Next(c, step)) == if Appends(c, step) then step.diff.commitment.localHtlcIndex else NextIndex(c)
  {
  }

  /** The index of the last diff that a run persists, or that of the start. */
  ghost function PersistedIndex(c: Chan, steps: seq<Step>): (n: uint64) {
    if steps == [] then NextIndex(c) else
      var before, step := steps[..|steps| - 1], steps[|steps| - 1];
      if Appends(Run(c, before), step) then step.diff.commitment.localHtlcIndex else PersistedIndex(c, before)
  }

  /**
    Over any run of commitments, failed writes, flags and restarts of a channel that is not marked as
    restored, the next HTLC index is exactly that of the last diff that was persisted. The circuit map
    trims at this index on startup.
   */
  lemma {:induction false} NextIndexExact(c: Chan, steps: seq<Step>)
    requires InStep(c) && forall i :: 0 <= i < |steps| ==> !Restores(steps[i])
    ensures InStep(Run(c, steps)) && NextIndex(Run(c, steps)) == PersistedIndex(c, steps)
  {
    if steps != [] {
      NextIndexExact(c, steps[..|steps| - 1]);
      IndexMoves(Run(c, steps[..|steps| - 1]), steps[|steps| - 1]);
    }
  }

  /** A channel that is marked as restored has only the index of a pending diff left after the next restart, or zero. */
  lemma RestoredIndexIsLost(c: Chan)
    ensures NextIndex(Run(c, [ApplyStatus(Restored, true), Restart])) ==
            if c.disk.tip.Some? then c.disk.tip.value.commitment.localHtlcIndex else 0
  {
    var a := ApplyStatus(Restored, true);
    assert [a, Restart][..1] == [a] && [a][..0] == [];
    assert Run(c, [a]) == Next(Run(c, []), a);
  }

  /* ---------- updates still to be signed ---------- */

  lemma {:induction false} FromTwice(updates: seq<LogUpdate>, a: uint64, b: uint64)
    requires a <= b
    ensures From(From(updates, a), b) == From(updates, b)
  {
    if updates != [] {
      var front, last := updates[..|updates| - 1], updates[|updates| - 1];
      FromTwice(front, a, b);
      if last.logIndex >= a {
        var kept := From(front, a) + [last];
        assert kept[..|kept| - 1] == From(front, a);
        assert From(updates, a) == kept;
      } else {
        assert From(updates, a) == From(front, a);
      }
    }
  }

  lemma {:induction false} FromAll(updates: seq<LogUpdate>, a: uint64)
    requires forall i :: 0 <= i < |updates| ==> updates[i].logIndex >= a
    ensures From(updates, a) == updates
  {
    if updates != [] {
      FromAll(updates[..|updates| - 1], a);
      assert updates == updates[..|updates| - 1] + [updates[|updates| - 1]];
    }
  }

  /** No further commitment is revoked, and no diff covers less of the remote log than the one before. */
  ghost predicate Signing(c: Chan, steps: seq<Step>) {
    steps == [] ||
    (Signing(c, steps[..|steps| - 1]) && SigningStep(Run(c, steps[..|steps| - 1]), steps[|steps| - 1]))
  }

  ghost predicate SigningStep(c: Chan, step: Step) {
    && !Updates(c, step)
    && (Appends(c, step) ==> step.diff.commitment.remoteLogIndex >= c.disk.remote.remoteLogIndex)
  }

  ghost predicate UnsignedHolds(c: Chan, unsigned: seq<LogUpdate>) {
    && c.disk.unsignedAcked == Some(From(unsigned, c.disk.remote.remoteLogIndex))
    && (c.disk.tip.Some? ==> c.disk.tip.value.commitment.remoteLogIndex >= c.disk.remote.remoteLogIndex)
  }

  lemma {:induction false} UnsignedInRun(c: Chan, unsigned: seq<LogUpdate>, steps: seq<Step>)
    requires UnsignedHolds(c, unsigned) && Signing(c, steps)
    ensures UnsignedHolds(Run(c, steps), unsigned)
  {
    if steps != [] {
      var before, step := steps[..|steps| - 1], steps[|steps| - 1];
      UnsignedInRun(c, unsigned, before);
      var now := Run(c, before);
      if Advances(now, step) {
        FromTwice(unsigned, now.disk.remote.remoteLogIndex, now.disk.tip.value.commitment.remoteLogIndex);
      }
    }
  }

  /**
    From one revocation to the next, through any run, the stored updates that are acked but not
    signed for are exactly those of that revocation that the current remote commitment does not cover.
   */
  lemma UnsignedAckedExact(c: Chan, commit: Commitment, unsigned: seq<LogUpdate>, steps: seq<Step>)
    requires UpdateError(c, true) == NoError
    requires c.disk.tip.Some? ==> c.disk.tip.value.commitment.remoteLogIndex >= c.disk.remote.remoteLogIndex
    requires forall i :: 0 <= i < |unsigned| ==> unsigned[i].logIndex >= c.disk.remote.remoteLogIndex
    requires Signing(Update(c, commit, unsigned, true), steps)
    ensures var r := Run(Update(c, commit, unsigned, true), steps);
            r.disk.unsignedAcked == Some(From(unsigned, r.disk.remote.remoteLogIndex))
  {
    FromAll(unsigned, c.disk.remote.remoteLogIndex);
    UnsignedInRun(Update(c, commit, unsigned, true), unsigned, steps);
  }

  /** Whether a run has revoked a commitment of ours. */
  ghost predicate HasUpdated(c: Chan, steps: seq<Step>) {
    steps != [] &&
    (HasUpdated(c, steps[..|steps| - 1]) || Updates(Run(c, steps[..|steps| - 1]), steps[|steps| - 1]))
  }

  lemma UnsignedStep(c: Chan, step: Step)
    ensures Next(c, step).disk.unsignedAcked.Some? <==> c.disk.unsignedAcked.Some? || Updates(c, step)
    ensures c.disk.unsignedAcked.None? && !Updates(c, step) ==>
              Next(c, step).disk.remoteUnsignedLocal == c.disk.remoteUnsignedLocal
  {
  }

  lemma {:induction false} UnsignedIffUpdated(c: Chan, steps: seq<Step>)
    requires Fresh(c)
    ensures Run(c, steps).disk.unsignedAcked.Some? <==> HasUpdated(c, steps)
    ensures !HasUpdated(c, steps) ==> Run(c, steps).disk.remoteUnsignedLocal.None?
  {
    if steps != [] {
      UnsignedIffUpdated(c, steps[..|steps| - 1]);
      UnsignedStep(Run(c, steps[..|steps| - 1]), steps[|steps| - 1]);
    }
  }

  /**
    The local updates handed over when the remote side revokes are meant to be stored in case of
    a restart. They are, exactly when this channel has itself revoked a commitment before; until
    then nothing is stored.
   */
  lemma LocalUpdatesStoredIff(c: Chan, steps: seq<Step>, p: FwdPkg, updates: seq<LogUpdate>)
    requires Fresh(c) && AdvanceError(Run(c, steps), true) == NoError
    ensures var r := Advance(Run(c, steps), p, updates, true);
            r.disk.remoteUnsignedLocal == if HasUpdated(c, steps) then Some(updates) else None
  {
    UnsignedIffUpdated(c, steps);
  }

  /** A concrete run that loses them: the first exchange of a new channel, with our signature first. */
  lemma LocalUpdatesLost(c: Chan, diff: CommitDiff, p: FwdPkg, u: LogUpdate)
    requires Fresh(c) && diff.addAcks == [] && diff.settleFailAcks == []
    ensures var r := Run(c, [AppendStep(diff, true), AdvanceStep(p, [u], true), Restart]);
            r.remote == diff.commitment && r.disk.remoteUnsignedLocal == None
  {
    var a, b := AppendStep(diff, true), AdvanceStep(p, [u], true);
    assert [a, b, Restart][..2] == [a, b] && [a, b][..1] == [a] && [a][..0] == [];
    assert Run(c, [a]) == Next(Run(c, []), a);
    assert Run(c, [a, b]) == Next(Run(c, [a]), b);
  }

  /** The updates of two lists, one after the other: filtering keeps their order. */
  lemma {:induction false} FromAppend(a: seq<LogUpdate>, b: seq<LogUpdate>, index: uint64)
    ensures From(a + b, index) == From(a, index) + From(b, index)
    decreases |b|
  {
    if b == [] {
      assert a + b == a;
    } else {
      var front, last := b[..|b| - 1], b[|b| - 1];
      FromAppend(a, front, index);
      assert (a + b)[..|a + b| - 1] == a + front && (a + b)[|a + b| - 1] == last;
    }
  }

  /** Exactly the updates at or above the index are left, each as often as before. */
  lemma {:induction false} FromKeeps(updates: seq<LogUpdate>, index: uint64)
    ensures forall u :: multiset(From(updates, index))[u] == if u.logIndex >= index then multiset(updates)[u] else 0
  {
    if updates != [] {
      var front, last := updates[..|updates| - 1], updates[|updates| - 1];
      FromKeeps(front, index);
      assert updates == front + [last];
    }
  }

  function Max(a: uint64, b: uint64): (r: uint64) {
    if a > b then a else b
  }

  lemma FromMax(updates: seq<LogUpdate>, a: uint64, b: uint64)
    ensures From(From(updates, a), b) == From(updates, Max(a, b))
  {
    if a <= b {
      FromTwice(updates, a, b);
    } else {
      FromKeeps(updates, a);
      var kept := From(updates, a);
      forall i | 0 <= i < |kept| ensures kept[i].logIndex >= b {
        assert multiset(kept)[kept[i]] > 0;
      }
      FromAll(kept, b);
    }
  }

  /** The highest local log index of the commitments of ours that a run has put in force. */
  ghost function Covered(c: Chan, steps: seq<Step>): (n: uint64) {
    if steps == [] then 0 else
      var before, step := steps[..|steps| - 1], steps[|steps| - 1];
      if Updates(Run(c, before), step) then Max(Covered(c, before), step.commit.localLogIndex) else Covered(c, before)
  }

  ghost predicate NoAdvance(c: Chan, steps: seq<Step>) {
    steps == [] || (NoAdvance(c, steps[..|steps| - 1]) && !Advances(Run(c, steps[..|steps| - 1]), steps[|steps| - 1]))
  }

  lemma LocalUpdatesStep(c: Chan, step: Step, updates: seq<LogUpdate>, n: uint64)
    requires c.disk.remoteUnsignedLocal == Some(From(updates, n)) && !Advances(c, step)
    ensures Next(c, step).disk.remoteUnsignedLocal ==
            Some(From(updates, if Updates(c, step) then Max(n, step.commit.localLogIndex) else n))
  {
    if Updates(c, step) {
      FromMax(updates, n, step.commit.localLogIndex);
    }
  }

  /**
    The local updates that an advance stores are, through any run up to the next advance, exactly those that
    no commitment of ours has covered since; with no assumption on the order of their indices.
   */
  lemma {:induction false} LocalUpdatesExact(c: Chan, updates: seq<LogUpdate>, steps: seq<Step>)
    requires c.disk.remoteUnsignedLocal == Some(updates) && NoAdvance(c, steps)
    ensures Run(c, steps).disk.remoteUnsignedLocal == Some(From(updates, Covered(c, steps)))
  {
    if steps == [] {
      FromAll(updates, 0);
    } else {
      var before := steps[..|steps| - 1];
      LocalUpdatesExact(c, updates, before);
      LocalUpdatesStep(Run(c, before), steps[|steps| - 1], updates, Covered(c, before));
    }
  }

  /* ---------- what is in force ---------- */

  /** No flag on disk, and none in memory that forbids it. */
  predicate Mutable(c: Chan) {
    c.disk.status == {} && Restored !in c.status
  }

  /** An update or an advance takes effect exactly on a channel without flags, with a pending diff where it needs one, and if it is written. */
  lemma TakesEffectIff(c: Chan, step: Step)
    ensures Updates(c, step) <==> step.UpdateStep? && Mutable(c) && step.writeOk
    ensures Advances(c, step) <==> step.AdvanceStep? && Mutable(c) && step.writeOk && c.disk.tip.Some?
    ensures !Mutable(c) && (step.UpdateStep? || step.AdvanceStep? || step.AppendStep?) ==> Next(c, step) == c
    ensures Updates(c, step) ==> Next(c, step).disk.status == c.status
  {
  }

  /** What a restart loads is decided by the disk alone, whatever memory held. */
  lemma LoadDependsOnDisk(c: Chan, d: Chan)
    requires c.source == d.source && c.disk == d.disk && c.pkgs == d.pkgs
    ensures Next(c, Restart) == Next(d, Restart) && Next(c, Restart).disk == c.disk && Next(c, Restart).pkgs == c.pkgs
    ensures Restored !in c.disk.status ==> Next(c, Restart).local == c.disk.local && Next(c, Restart).remote == c.disk.remote
  {
  }

  /** The local commitment of the last update that took effect, or that of the start. */
  ghost function LastLocal(c: Chan, steps: seq<Step>): (l: Commitment) {
    if steps == [] then c.local else
      var before, step := steps[..|steps| - 1], steps[|steps| - 1];
      if Updates(Run(c, before), step) then step.commit else LastLocal(c, before)
  }

  /** The diff that is signed and not yet revoked for. */
  ghost function PendingDiff(c: Chan, steps: seq<Step>): (d: Option<CommitDiff>) {
    if steps == [] then c.disk.tip else
      var before, step := steps[..|steps| - 1], steps[|steps| - 1];
      if Appends(Run(c, before), step) then Some(step.diff)
      else if Advances(Run(c, before), step) then None else PendingDiff(c, before)
  }

  /** The commitment of the last diff that was revoked for. */
  ghost function LastRemote(c: Chan, steps: seq<Step>): (r: Commitment) {
    if steps == [] then c.disk.remote else
      var before, step := steps[..|steps| - 1], steps[|steps| - 1];
      var pending := PendingDiff(c, before);
      if Advances(Run(c, before), step) && pending.Some? then pending.value.commitment else LastRemote(c, before)
  }

  /** Whether the last message that took effect was a revocation of ours. */
  ghost function LastRevoked(c: Chan, steps: seq<Step>): (r: Option<bool>) {
    if steps == [] then c.disk.lastWasRevoke else
      var before, step := steps[..|steps| - 1], steps[|steps| - 1];
      if Updates(Run(c, before), step) then Some(true)
      else if Appends(Run(c, before), step) then Some(false) else LastRevoked(c, before)
  }

  ghost function LastFlags(c: Chan, steps: seq<Step>): (s: set<Flag>) {
    if steps == [] then c.disk.status else
      var before := LastFlags(c, steps[..|steps| - 1]);
      match steps[|steps| - 1]
      case ApplyStatus(flag, ok) => if ok then before + {flag} else before
      case ClearStatus(flag, ok) => if ok then before - {flag} else before
      case _ => before
  }

  /**
    Over every run, through failed writes, flags and restarts, the disk holds the local commitment of the last
    update, the remote commitment of the last diff that was advanced, the diff appended since, and the flags set.
   */
  lemma {:induction false} DiskExact(c: Chan, steps: seq<Step>)
    requires c.status == c.disk.status && c.local == c.disk.local
    ensures var r := Run(c, steps);
      && r.disk.local == LastLocal(c, steps) && r.disk.remote == LastRemote(c, steps) && r.disk.tip == PendingDiff(c, steps)
      && r.disk.lastWasRevoke == LastRevoked(c, steps) && r.disk.status == r.status == LastFlags(c, steps)
  {
    if steps != [] {
      DiskExact(c, steps[..|steps| - 1]);
    }
  }

  /** Memory holds the same two commitments, as long as the channel is not marked as restored. */
  lemma {:induction false} MemoryExact(c: Chan, steps: seq<Step>)
    requires InStep(c) && c.local == c.disk.local && forall i :: 0 <= i < |steps| ==> !Restores(steps[i])
    ensures var r := Run(c, steps); r.local == LastLocal(c, steps) && r.remote == LastRemote(c, steps)
  {
    DiskExact(c, steps);
    NextIndexExact(c, steps);
    if steps != [] {
      var before := steps[..|steps| - 1];
      MemoryExact(c, before);
      DiskExact(c, before);
      NextIndexExact(c, before);
    }
  }

  /** One that is loses both from memory with the next restart, and neither from disk. */
  lemma RestoredForgets(c: Chan)
    ensures var r := Run(c, [ApplyStatus(Restored, true), Restart]);
      && r.local == r.remote == ZERO_COMMITMENT && r.disk == c.disk.(status := c.disk.status + {Restored})
  {
    var a := ApplyStatus(Restored, true);
    assert [a, Restart][..1] == [a] && [a][..0] == [];
    assert Run(c, [a]) == Next(Run(c, []), a);
  }

  /** Once a flag is on disk, nothing else there changes until one is cleared. */
  lemma {:induction false} FlaggedIsFrozen(c: Chan, steps: seq<Step>)
    requires c.disk.status != {} && forall i :: 0 <= i < |steps| ==> !steps[i].ClearStatus?
    ensures var r := Run(c, steps); r.disk == c.disk.(status := r.disk.status) && r.pkgs == c.pkgs && r.disk.status >= c.disk.status
  {
    if steps != [] {
      FlaggedIsFrozen(c, steps[..|steps| - 1]);
    }
  }

  /* ---------- the packages written along ---------- */

  /** A diff that is appended acknowledges, in each package, exactly the adds, settles and fails that it names. */
  lemma AppendAcks(c: Chan, diff: CommitDiff, k: Key)
    requires AppendError(c, diff, true) == NoError && k in c.pkgs.pkgs
    ensures var b, b' := c.pkgs.pkgs[k], Append(c, diff, true).pkgs.pkgs[k];
      && b' == b.(ack := b'.ack, settleFail := b'.settleFail)
      && L.GainsAcks(Adds, b, b.(ack := b'.ack), L.AckAdds(c.source, diff.addAcks), k)
      && L.GainsAcks(SettleFails, b, b.(settleFail := b'.settleFail), L.AckSettleFails(diff.settleFailAcks), k)
  {
    var adds, fails := L.AckAdds(c.source, diff.addAcks), L.AckSettleFails(diff.settleFailAcks);
    var d1 := L.Next(c.pkgs, adds);
    var d2 := L.Next(d1, fails);
    assert Append(c, diff, true).pkgs == d2;
    assert d1.pkgs.Keys == c.pkgs.pkgs.Keys && L.GainsAcks(Adds, c.pkgs.pkgs[k], d1.pkgs[k], adds, k) by {
      AckGains(c.pkgs, adds, Adds, k);
    }
    assert L.GainsAcks(SettleFails, d1.pkgs[k], d2.pkgs[k], fails, k) by {
      AckGains(d1, fails, SettleFails, k);
    }
    OtherFilter(c.pkgs.pkgs[k], d1.pkgs[k], d2.pkgs[k], fails, k);
  }

  lemma AckGains(d: Disk, step: L.Step, kind: Kind, k: Key)
    requires (step.AckAdds? && kind == Adds) || (step.AckSettleFails? && kind == SettleFails)
    requires Ackable(kind, d.pkgs, L.RefsOf(step, kind)) && k in d.pkgs
    ensures L.Next(d, step).pkgs.Keys == d.pkgs.Keys && L.GainsAcks(kind, d.pkgs[k], L.Next(d, step).pkgs[k], step, k)
  {
    L.AckStepEffect(d, step, kind);
    AckSucceeds(d, step, kind);
  }

  /** Acknowledging settles and fails is the same whatever was done to the adds' filter before. */
  lemma OtherFilter(b: Bucket, b1: Bucket, b2: Bucket, fails: L.Step, k: Key)
    requires b1 == b.(ack := b1.ack) && L.GainsAcks(SettleFails, b1, b2, fails, k)
    ensures b2 == b.(ack := b1.ack, settleFail := b2.settleFail)
    ensures L.GainsAcks(SettleFails, b, b.(settleFail := b2.settleFail), fails, k)
  {
  }

  /** The packages can take what a diff acknowledges: its channel's own, and those it settles or fails. */
  ghost predicate AcksFit(c: Chan, diff: CommitDiff) {
    && (diff.addAcks == [] || (c.source in c.pkgs.sources && L.Succeeds(c.pkgs, L.AckAdds(c.source, diff.addAcks), Adds)))
    && (diff.settleFailAcks == [] || (c.pkgs.root && L.Succeeds(c.pkgs, L.AckSettleFails(diff.settleFailAcks), SettleFails)))
  }

  /** A diff is appended exactly to a channel without flags, if its acknowledgements fit, and if it is written. */
  lemma AppendsIff(c: Chan, diff: CommitDiff, writeOk: bool)
    ensures AppendError(c, diff, writeOk) ==
            if Restored in c.status then ErrNoRestoredChannelMutation
            else if c.disk.status != {} then ErrChanBorked
            else if !AcksFit(c, diff) then ErrCorruptedFwdPkg
            else if !writeOk then ErrWrite else NoError
  {
    var adds, fails := L.AckAdds(c.source, diff.addAcks), L.AckSettleFails(diff.settleFailAcks);
    var d1 := L.Next(c.pkgs, adds);
    AckSucceeds(c.pkgs, adds, Adds);
    AckSucceeds(d1, fails, SettleFails);
    L.AckStepEffect(c.pkgs, adds, Adds);
    assert L.Succeeds(d1, fails, SettleFails) <==> L.Succeeds(c.pkgs, fails, SettleFails) by {
      forall k | k in c.pkgs.pkgs ensures d1.pkgs[k].settleFail == c.pkgs.pkgs[k].settleFail {
        assert L.Succeeds(c.pkgs, adds, Adds) ==> L.GainsAcks(Adds, c.pkgs.pkgs[k], d1.pkgs[k], adds, k);
      }
    }
  }

  lemma AckSucceeds(d: Disk, step: L.Step, kind: Kind)
    ensures Ackable(kind, d.pkgs, L.RefsOf(step, kind)) <==> L.Succeeds(d, step, kind)
  {
    L.AckableIff(kind, d.pkgs, L.RefsOf(step, kind));
    forall k, i: uint16 ensures Ref(k, i) in L.RefsOf(step, kind) <==> L.AcksUpdate(step, kind, k, i) {
      L.RefsOfIff(step, kind, k, i);
    }
  }

  /** An advance writes the package of the revoked commitment, ready to be loaded. */
  lemma AdvanceWritesPackage(c: Chan, k: Key, adds: seq<LogUpdate>, settleFails: seq<LogUpdate>, updates: seq<LogUpdate>)
    requires AdvanceError(c, true) == NoError && k !in c.pkgs.pkgs && |adds| <= 65528 && |settleFails| <= 65528
    ensures var r := Advance(c, NewFwdPkg(k, adds, settleFails), updates, true);
      var p := Loaded(r.pkgs, k);
      && p.Some? && p.value.state == LockedIn && p.value.adds == adds && p.value.settleFails == settleFails
      && forall l :: l != k ==> (l in r.pkgs.pkgs <==> l in c.pkgs.pkgs) && (l in c.pkgs.pkgs ==> r.pkgs.pkgs[l] == c.pkgs.pkgs[l])
  {
    L.Lifecycle(c.pkgs, k, adds, settleFails, []);
  }
}
