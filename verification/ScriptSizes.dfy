/** The channel's scripts as bytes: they fit one stack element, and parse back to themselves. */
module ScriptSizes {
  import opened Common
  import opened Script
  import opened ChannelScripts
  import opened ScriptBytes

  /** A push of at most 33 bytes that is not a single zero byte, or any other opcode. */
  predicate Short(op: Op) {
    op.Push? ==> |op.data| <= 33 && op.data != [0]
  }

  function DataSize(ops: seq<Op>): (n: nat) {
    if ops == [] then 0 else (if ops[0].Push? then |ops[0].data| else 0) + DataSize(ops[1..])
  }

  /** Short opcodes that take at most n bytes. */
  ghost predicate Compact(ops: seq<Op>, n: nat) {
    (forall i :: 0 <= i < |ops| ==> Short(ops[i])) && |ops| + DataSize(ops) <= n
  }

  lemma {:induction false} CompactFits(ops: seq<Op>, n: nat)
    requires Compact(ops, n)
    ensures AllFit(ops) && NoZeroPush(ops) && |Serialize(ops)| <= n
    decreases |ops|
  {
    if ops != [] {
      CompactFits(ops[1..], |ops[1..]| + DataSize(ops[1..]));
    }
  }

  lemma {:induction false} DataSizeAppend(a: seq<Op>, b: seq<Op>)
    ensures DataSize(a + b) == DataSize(a) + DataSize(b)
  {
    if a == [] {
      assert a + b == b;
    } else {
      DataSizeAppend(a[1..], b);
      assert (a + b)[1..] == a[1..] + b;
    }
  }

  lemma CompactAppend(a: seq<Op>, m: nat, b: seq<Op>, n: nat)
    requires Compact(a, m) && Compact(b, n)
    ensures Compact(a + b, m + n)
  {
    DataSizeAppend(a, b);
  }

  lemma Compact1(a: Op)
    requires Short(a)
    ensures Compact([a], if a.Push? then 1 + |a.data| else 1)
  {
    assert DataSize([a][1..]) == 0;
  }

  lemma Compact3(a: Op, b: Op, c: Op, n: nat)
    requires Short(a) && Short(b) && Short(c)
    requires n == 3 + DataSize([a]) + DataSize([b]) + DataSize([c])
    ensures Compact([a, b, c], n)
  {
    Compact1(a);
    Compact1(b);
    Compact1(c);
    assert [a, b, c] == [a] + ([b] + [c]);
    DataSizeAppend([b], [c]);
    DataSizeAppend([a], [b] + [c]);
  }

  lemma One(a: Op)
    ensures DataSize([a]) == if a.Push? then |a.data| else 0
  {
    assert DataSize([a][1..]) == 0;
  }

  lemma NumberShort(n: uint32)
    ensures Short(Int64(n)) && |EncodeNum(n)| <= 5
  {
    UInt32Fits(n);
    NotZeroByte(n);
  }

  /* ---------- the pieces ---------- */

  lemma LeaseCompact(lease: Option<uint32>)
    ensures Compact(Lease(lease), 8)
  {
    match lease
    case None =>
    case Some(n) => LockCompact(n, CheckLockTimeVerify);
  }

  lemma LockCompact(n: uint32, lock: Op)
    requires !lock.Push?
    ensures Compact([Int64(n), lock, Drop], 8)
  {
    NumberShort(n);
    One(Int64(n));
    One(lock);
    One(Drop);
    Compact3(Int64(n), lock, Drop, 3 + |EncodeNum(n)|);
  }

  lemma ConfirmedCompact(confirmedSpend: bool)
    ensures Compact(Confirmed(confirmedSpend), 8)
  {
    LockCompact(1, CheckSequenceVerify);
  }

  lemma KeyMatchCompact(h: Bytes)
    requires |h| == 20
    ensures Compact(KeyMatch(h), 24)
  {
    assert KeyMatch(h) == [Dup] + [Hash160, Push(h), Equal];
    HashCompact(h, Equal);
    Compact1(Dup);
    CompactAppend([Dup], 1, [Hash160, Push(h), Equal], 23);
  }

  lemma HashCompact(h: Bytes, last: Op)
    requires |h| == 20 && !last.Push?
    ensures Compact([Hash160, Push(h), last], 23)
  {
    One(Hash160);
    One(Push(h));
    One(last);
    Compact3(Hash160, Push(h), last, 23);
  }

  lemma SizeMatchCompact(k: Bytes)
    requires |k| == 33
    ensures Compact(SizeMatch(k), 45)
  {
    NumberShort(32);
    One(Push(k));
    One(Swap);
    One(Size);
    Compact3(Push(k), Swap, Size, 36);
    Compact1(Int64(32));
    Compact1(Equal);
    CompactAppend([Int64(32)], 1 + |EncodeNum(32)|, [Equal], 1);
    CompactAppend([Push(k), Swap, Size], 36, [Int64(32)] + [Equal], 2 + |EncodeNum(32)|);
    assert SizeMatch(k) == [Push(k), Swap, Size] + ([Int64(32)] + [Equal]);
  }

  lemma TwoOfTwoCompact(k: Bytes)
    requires |k| == 33
    ensures Compact(TwoOfTwo(k), 50)
  {
    NumberShort(2);
    One(Int64(2));
    One(Swap);
    One(Push(k));
    Compact3(Int64(2), Swap, Push(k), 36 + |EncodeNum(2)|);
    Compact1(Int64(2));
    Compact1(CheckMultiSig);
    CompactAppend([Int64(2)], 1 + |EncodeNum(2)|, [CheckMultiSig], 1);
    CompactAppend([Int64(2), Swap, Push(k)], 36 + |EncodeNum(2)|, [Int64(2)] + [CheckMultiSig], 2 + |EncodeNum(2)|);
    assert TwoOfTwo(k) == [Int64(2), Swap, Push(k)] + ([Int64(2)] + [CheckMultiSig]);
  }

  /* ---------- the HTLC scripts ---------- */

  lemma HtlcCompact(h: Bytes, key: Bytes, branch: Op, thn: seq<Op>, m: nat, els: seq<Op>, n: nat, confirmedSpend: bool)
    requires |h| == 20 && |key| == 33 && !branch.Push? && Compact(thn, m) && Compact(els, n)
    ensures Compact(HtlcScript(h, key, branch, thn, els, confirmedSpend), m + n + 84)
  {
    KeyMatchCompact(h);
    SizeMatchCompact(key);
    ConfirmedCompact(confirmedSpend);
    Compact1(branch);
    Compact1(OpElse);
    Compact1(OpEndIf);
    Compact1(OpIf);
    Compact1(CheckSig);
    CompactAppend([branch], 1, thn, m);
    CompactAppend([branch] + thn, 1 + m, [OpElse], 1);
    CompactAppend([branch] + thn + [OpElse], m + 2, els, n);
    CompactAppend([branch] + thn + [OpElse] + els, m + n + 2, [OpEndIf], 1);
    var arms := [branch] + thn + [OpElse] + els + [OpEndIf];
    CompactAppend(arms, m + n + 3, Confirmed(confirmedSpend), 8);
    var tail := SizeMatch(key) + (arms + Confirmed(confirmedSpend));
    CompactAppend(SizeMatch(key), 45, arms + Confirmed(confirmedSpend), m + n + 11);
    CompactAppend([OpIf], 1, [CheckSig], 1);
    CompactAppend([OpIf] + [CheckSig], 2, [OpElse], 1);
    CompactAppend([OpIf] + [CheckSig] + [OpElse], 3, tail, m + n + 56);
    CompactAppend([OpIf] + [CheckSig] + [OpElse] + tail, m + n + 59, [OpEndIf], 1);
    CompactAppend(KeyMatch(h), 24, [OpIf] + [CheckSig] + [OpElse] + tail + [OpEndIf], m + n + 60);
  }

  /** With compressed keys the script of an offered HTLC is a stack element and parses back to itself. */
  lemma SenderFits(ctx: Ctx, senderKey: Bytes, receiverKey: Bytes, revokeKey: Bytes, paymentHash: Bytes, confirmedSpend: bool)
    requires HashSize(ctx) && |senderKey| == |receiverKey| == 33
    ensures var ops := SenderHTLCScript(ctx, senderKey, receiverKey, revokeKey, paymentHash, confirmedSpend);
            AllFit(ops) && NoZeroPush(ops) && 1 < |Serialize(ops)| <= MAX_ELEMENT
  {
    var ph := ctx.ripemd160(paymentHash);
    Compact1(Drop);
    TwoOfTwoCompact(senderKey);
    CompactAppend([Drop], 1, TwoOfTwo(senderKey), 50);
    HashCompact(ph, EqualVerify);
    Compact1(CheckSig);
    CompactAppend(HashLock(ph), 23, [CheckSig], 1);
    HtlcCompact(Hash160Of(ctx, revokeKey), receiverKey, OpNotIf, [Drop] + TwoOfTwo(senderKey), 51, HashLock(ph) + [CheckSig], 24,
                confirmedSpend);
    var ops := SenderHTLCScript(ctx, senderKey, receiverKey, revokeKey, paymentHash, confirmedSpend);
    CompactFits(ops, 159);
    LongerThanOne(ops);
  }

  /** The same for a received HTLC. */
  lemma ReceiverFits(ctx: Ctx, cltvExpiry: uint32, senderKey: Bytes, receiverKey: Bytes, revokeKey: Bytes, paymentHash: Bytes,
                     confirmedSpend: bool)
    requires HashSize(ctx) && |senderKey| == |receiverKey| == 33
    ensures var ops := ReceiverHTLCScript(ctx, cltvExpiry, senderKey, receiverKey, revokeKey, paymentHash, confirmedSpend);
            AllFit(ops) && NoZeroPush(ops) && 1 < |Serialize(ops)| <= MAX_ELEMENT
  {
    var ph := ctx.ripemd160(paymentHash);
    HashCompact(ph, EqualVerify);
    TwoOfTwoCompact(receiverKey);
    CompactAppend(HashLock(ph), 23, TwoOfTwo(receiverKey), 50);
    LeaseCompact(Some(cltvExpiry));
    Compact1(CheckSig);
    Compact1(Drop);
    CompactAppend(Lease(Some(cltvExpiry)), 8, [CheckSig], 1);
    CompactAppend([Drop], 1, Lease(Some(cltvExpiry)) + [CheckSig], 9);
    HtlcCompact(Hash160Of(ctx, revokeKey), senderKey, OpIf, HashLock(ph) + TwoOfTwo(receiverKey), 73,
                [Drop] + (Lease(Some(cltvExpiry)) + [CheckSig]), 10, confirmedSpend);
    var ops := ReceiverHTLCScript(ctx, cltvExpiry, senderKey, receiverKey, revokeKey, paymentHash, confirmedSpend);
    CompactFits(ops, 167);
    LongerThanOne(ops);
  }

  lemma LongerThanOne(ops: seq<Op>)
    requires AllFit(ops) && |ops| >= 2
    ensures |Serialize(ops)| >= 2
  {
    assert ops[1..] != [];
  }

  /* ---------- the other scripts ---------- */

  lemma DelayedFits(revokeKey: Bytes, delayKey: Bytes, csvDelay: uint32, lease: Option<uint32>)
    requires |revokeKey| == |delayKey| == 33
    ensures var ops := DelayedScript(revokeKey, delayKey, csvDelay, lease);
            AllFit(ops) && NoZeroPush(ops) && 1 < |Serialize(ops)| <= MAX_ELEMENT
  {
    LeaseCompact(lease);
    LockCompact(csvDelay, CheckSequenceVerify);
    Compact1(Push(revokeKey));
    Compact1(Push(delayKey));
    Compact1(OpIf);
    Compact1(OpElse);
    Compact1(OpEndIf);
    Compact1(CheckSig);
    var delay := [Int64(csvDelay), CheckSequenceVerify, Drop];
    CompactAppend(delay, 8, [Push(delayKey)], 34);
    var els := Lease(lease) + (delay + [Push(delayKey)]);
    CompactAppend(Lease(lease), 8, delay + [Push(delayKey)], 42);
    CompactAppend([OpIf], 1, [Push(revokeKey)], 34);
    CompactAppend([OpIf] + [Push(revokeKey)], 35, [OpElse], 1);
    CompactAppend([OpIf] + [Push(revokeKey)] + [OpElse], 36, els, 50);
    CompactAppend([OpIf] + [Push(revokeKey)] + [OpElse] + els, 86, [OpEndIf], 1);
    CompactAppend([OpIf] + [Push(revokeKey)] + [OpElse] + els + [OpEndIf], 87, [CheckSig], 1);
    CompactFits(DelayedScript(revokeKey, delayKey, csvDelay, lease), 88);
    LongerThanOne(DelayedScript(revokeKey, delayKey, csvDelay, lease));
  }

  lemma ToRemoteFits(key: Bytes, lease: Option<uint32>)
    requires |key| == 33
    ensures var ops := ToRemoteScript(key, lease); AllFit(ops) && NoZeroPush(ops) && 1 < |Serialize(ops)| <= MAX_ELEMENT
  {
    LeaseCompact(lease);
    NumberShort(1);
    Compact1(Push(key));
    Compact1(CheckSigVerify);
    CompactAppend([Push(key)], 34, [CheckSigVerify], 1);
    Compact1(Int64(1));
    Compact1(CheckSequenceVerify);
    CompactAppend([Int64(1)], 1 + |EncodeNum(1)|, [CheckSequenceVerify], 1);
    var last := [Int64(1)] + [CheckSequenceVerify];
    CompactAppend(Lease(lease), 8, last, 2 + |EncodeNum(1)|);
    CompactAppend([Push(key)] + [CheckSigVerify], 35, Lease(lease) + last, 10 + |EncodeNum(1)|);
    assert ToRemoteScript(key, lease) == [Push(key)] + [CheckSigVerify] + (Lease(lease) + last);
    CompactFits(ToRemoteScript(key, lease), 45 + |EncodeNum(1)|);
    LongerThanOne(ToRemoteScript(key, lease));
  }

  lemma AnchorFits(key: Bytes)
    requires |key| == 33
    ensures var ops := AnchorScript(key); AllFit(ops) && NoZeroPush(ops) && 1 < |Serialize(ops)| <= MAX_ELEMENT
  {
    NumberShort(16);
    One(Push(key));
    One(CheckSig);
    One(IfDup);
    Compact3(Push(key), CheckSig, IfDup, 36);
    Compact1(Int64(16));
    Compact1(CheckSequenceVerify);
    Compact1(OpNotIf);
    Compact1(OpEndIf);
    CompactAppend([Int64(16)], 1 + |EncodeNum(16)|, [CheckSequenceVerify], 1);
    var body := [Int64(16)] + [CheckSequenceVerify];
    CompactAppend([OpNotIf], 1, body, 2 + |EncodeNum(16)|);
    CompactAppend([OpNotIf] + body, 3 + |EncodeNum(16)|, [OpEndIf], 1);
    CompactAppend([Push(key), CheckSig, IfDup], 36, [OpNotIf] + body + [OpEndIf], 4 + |EncodeNum(16)|);
    assert AnchorScript(key) == [Push(key), CheckSig, IfDup] + ([OpNotIf] + body + [OpEndIf]);
    CompactFits(AnchorScript(key), 40 + |EncodeNum(16)|);
    LongerThanOne(AnchorScript(key));
  }

  lemma FundingFits(a: Bytes, b: Bytes)
    requires |a| == |b| == 33
    ensures GenMultiSigScript(a, b).Some?
    ensures var ops := GenMultiSigScript(a, b).value; AllFit(ops) && NoZeroPush(ops) && 1 < |Serialize(ops)| <= MAX_ELEMENT
  {
    var lo, hi := Lesser(a, b), Larger(a, b);
    NumberShort(2);
    One(Int64(2));
    One(Push(lo));
    One(Push(hi));
    Compact3(Int64(2), Push(lo), Push(hi), 69 + |EncodeNum(2)|);
    Compact1(Int64(2));
    Compact1(CheckMultiSig);
    CompactAppend([Int64(2)], 1 + |EncodeNum(2)|, [CheckMultiSig], 1);
    CompactAppend([Int64(2), Push(lo), Push(hi)], 69 + |EncodeNum(2)|, [Int64(2)] + [CheckMultiSig], 2 + |EncodeNum(2)|);
    assert MultiSigScript(lo, hi) == [Int64(2), Push(lo), Push(hi)] + ([Int64(2)] + [CheckMultiSig]);
    CompactFits(MultiSigScript(lo, hi), 71 + 2 * |EncodeNum(2)|);
    LongerThanOne(MultiSigScript(lo, hi));
  }
}
