/**
  The output scripts of a commitment transaction (input/script_utils.go), as the opcode lists
  their builders emit, and who can spend each of them: for every stack of witness items, in
  every context.
 */
module ChannelScripts {
  import opened Common
  import opened Script

  function Int64(n: nat): (op: Op) {
    Push(EncodeNum(n))
  }

  function Lease(expiry: Option<uint32>): (ops: seq<Op>) {
    match expiry case None => [] case Some(n) => [Int64(n), CheckLockTimeVerify, Drop]
  }

  function Confirmed(confirmedSpend: bool): (ops: seq<Op>) {
    if confirmedSpend then [Int64(1), CheckSequenceVerify, Drop] else []
  }

  /* ---------- builders ---------- */

  function KeyMatch(h: Bytes): (ops: seq<Op>) {
    [Dup, Hash160, Push(h), Equal]
  }

  function SizeMatch(k: Bytes): (ops: seq<Op>) {
    [Push(k), Swap, Size, Int64(32), Equal]
  }

  function TwoOfTwo(k: Bytes): (ops: seq<Op>) {
    [Int64(2), Swap, Push(k), Int64(2), CheckMultiSig]
  }

  function HashLock(h: Bytes): (ops: seq<Op>) {
    [Hash160, Push(h), EqualVerify]
  }

  /**
    The frame of the two HTLC scripts: a key whose hash matches takes the revocation clause; for
    anything else on top, its size decides between the two arms.
   */
  function HtlcScript(h: Bytes, key: Bytes, branch: Op, thn: seq<Op>, els: seq<Op>, confirmedSpend: bool): (ops: seq<Op>) {
    KeyMatch(h) +
    ([OpIf] + [CheckSig] + [OpElse] +
     (SizeMatch(key) +
      ([branch] + thn + [OpElse] + els + [OpEndIf] + Confirmed(confirmedSpend))) +
     [OpEndIf])
  }

  function SenderHTLCScript(ctx: Ctx, senderKey: Bytes, receiverKey: Bytes, revokeKey: Bytes, paymentHash: Bytes,
                            confirmedSpend: bool): (ops: seq<Op>) {
    HtlcScript(Hash160Of(ctx, revokeKey), receiverKey, OpNotIf,
               [Drop] + TwoOfTwo(senderKey),
               HashLock(ctx.ripemd160(paymentHash)) + [CheckSig],
               confirmedSpend)
  }

  function ReceiverHTLCScript(ctx: Ctx, cltvExpiry: uint32, senderKey: Bytes, receiverKey: Bytes, revokeKey: Bytes,
                              paymentHash: Bytes, confirmedSpend: bool): (ops: seq<Op>) {
    HtlcScript(Hash160Of(ctx, revokeKey), senderKey, OpIf,
               HashLock(ctx.ripemd160(paymentHash)) + TwoOfTwo(receiverKey),
               [Drop] + (Lease(Some(cltvExpiry)) + [CheckSig]),
               confirmedSpend)
  }

  /**
    The script of second-level HTLC outputs and of the output paying the commitment's owner; the
    forms for leased channels add an absolute expiry.
   */
  function DelayedScript(revokeKey: Bytes, delayKey: Bytes, csvDelay: uint32, lease: Option<uint32>): (ops: seq<Op>) {
    ([OpIf] + [Push(revokeKey)] + [OpElse] +
     (Lease(lease) + ([Int64(csvDelay), CheckSequenceVerify, Drop] + [Push(delayKey)])) +
     [OpEndIf]) +
    [CheckSig]
  }

  function ToRemoteScript(key: Bytes, lease: Option<uint32>): (ops: seq<Op>) {
    [Push(key), CheckSigVerify] + (Lease(lease) + [Int64(1), CheckSequenceVerify])
  }

  function AnchorScript(key: Bytes): (ops: seq<Op>) {
    [Push(key), CheckSig, IfDup] + ([OpNotIf] + [Int64(16), CheckSequenceVerify] + [OpEndIf])
  }

  /** bytes.Compare(a, b) == 1 */
  predicate Greater(a: Bytes, b: Bytes) {
    if a == [] then false
    else if b == [] then true
    else a[0] > b[0] || (a[0] == b[0] && Greater(a[1..], b[1..]))
  }

  function Lesser(a: Bytes, b: Bytes): (k: Bytes) {
    if Greater(a, b) then b else a
  }

  function Larger(a: Bytes, b: Bytes): (k: Bytes) {
    if Greater(a, b) then a else b
  }

  function MultiSigScript(lo: Bytes, hi: Bytes): (ops: seq<Op>) {
    [Int64(2), Push(lo), Push(hi), Int64(2), CheckMultiSig]
  }

  function GenMultiSigScript(a: Bytes, b: Bytes): (r: Option<seq<Op>>) {
    if |a| != 33 || |b| != 33 then None else Some(MultiSigScript(Lesser(a, b), Larger(a, b)))
  }

  /* ---------- the ways to spend them ---------- */

  /** The item at depth n from the top. */
  function At(w: Stack, n: nat): (d: Bytes)
    requires n < |w|
  {
    w[|w| - 1 - n]
  }

  /** A signature for the key shown on top, whose hash is the one committed to. */
  predicate RevocationPath(ctx: Ctx, revokeKey: Bytes, w: Stack) {
    |w| >= 2 && Hash160Of(ctx, At(w, 0)) == Hash160Of(ctx, revokeKey) && Signed(ctx, At(w, 1), At(w, 0))
  }

  predicate NotRevocation(ctx: Ctx, revokeKey: Bytes, w: Stack) {
    |w| >= 2 && Hash160Of(ctx, At(w, 0)) != Hash160Of(ctx, revokeKey)
  }

  predicate Preimage(ctx: Ctx, paymentHash: Bytes, d: Bytes) {
    |d| == 32 && Hash160Of(ctx, d) == ctx.ripemd160(paymentHash)
  }

  predicate BothSigned(ctx: Ctx, w: Stack, first: Bytes, second: Bytes) {
    |w| >= 3 && Signed(ctx, At(w, 1), first) && Signed(ctx, At(w, 0), second)
  }

  predicate OneConfirmation(ctx: Ctx, confirmedSpend: bool) {
    confirmedSpend ==> Waited(ctx.tx, 1)
  }

  predicate LeaseOver(ctx: Ctx, lease: Option<uint32>) {
    match lease case None => true case Some(n) => NotBefore(ctx.tx, n)
  }

  /* ---------- blocks ---------- */

  ghost predicate Straight(ops: seq<Op>) {
    forall op :: op in ops ==> Plain(op)
  }

  lemma {:induction false} ExecAppend(ctx: Ctx, a: seq<Op>, b: seq<Op>, st: Stack)
    requires Straight(a) && Straight(b)
    ensures Straight(a + b)
    ensures ExecOps(ctx, a + b, st) == (match ExecOps(ctx, a, st) case None => None case Some(st') => ExecOps(ctx, b, st'))
  {
    if a == [] {
      assert a + b == b;
    } else {
      assert (a + b)[1..] == a[1..] + b;
      match Apply(ctx, a[0], st)
      case None =>
      case Some(st') => ExecAppend(ctx, a[1..], b, st');
    }
  }

  lemma Exec1(ctx: Ctx, a: Op, st: Stack)
    requires Plain(a)
    ensures ExecOps(ctx, [a], st) == Apply(ctx, a, st)
  {
    assert [a][1..] == [];
  }

  lemma Exec2(ctx: Ctx, a: Op, b: Op, st: Stack)
    requires Plain(a) && Plain(b)
    ensures ExecOps(ctx, [a, b], st) == (match Apply(ctx, a, st) case None => None case Some(st') => Apply(ctx, b, st'))
  {
    assert [a, b][1..] == [b];
    if Apply(ctx, a, st).Some? {
      Exec1(ctx, b, Apply(ctx, a, st).value);
    }
  }

  lemma Exec3(ctx: Ctx, a: Op, b: Op, c: Op, st: Stack)
    requires Plain(a) && Plain(b) && Plain(c)
    ensures ExecOps(ctx, [a, b, c], st) ==
            (match Apply(ctx, a, st) case None => None case Some(st') => ExecOps(ctx, [b, c], st'))
  {
    assert [a, b, c][1..] == [b, c];
  }

  /** [n] OP_CHECKLOCKTIMEVERIFY or OP_CHECKSEQUENCEVERIFY leaves n on the stack, if the lock is reached. */
  lemma LockStep(ctx: Ctx, n: uint32, st: Stack)
    ensures Apply(ctx, CheckSequenceVerify, st + [EncodeNum(n)]) ==
            if Waited(ctx.tx, n) then Some(st + [EncodeNum(n)]) else None
    ensures Apply(ctx, CheckLockTimeVerify, st + [EncodeNum(n)]) ==
            if NotBefore(ctx.tx, n) then Some(st + [EncodeNum(n)]) else None
  {
    NumRoundTrip(n);
    UInt32Fits(n);
    LockTimeMeaning(ctx, n);
    SequenceMeaning(ctx, n);
  }

  lemma SequenceBlock(ctx: Ctx, n: uint32, st: Stack)
    ensures ExecOps(ctx, [Int64(n), CheckSequenceVerify, Drop], st) == if Waited(ctx.tx, n) then Some(st) else None
  {
    Exec3(ctx, Int64(n), CheckSequenceVerify, Drop, st);
    Exec2(ctx, CheckSequenceVerify, Drop, st + [EncodeNum(n)]);
    LockStep(ctx, n, st);
    assert Pop(st + [EncodeNum(n)], 1) == st;
  }

  lemma LeaseBlock(ctx: Ctx, lease: Option<uint32>, st: Stack)
    ensures Straight(Lease(lease))
    ensures ExecOps(ctx, Lease(lease), st) == if LeaseOver(ctx, lease) then Some(st) else None
  {
    match lease
    case None =>
    case Some(n) =>
      Exec3(ctx, Int64(n), CheckLockTimeVerify, Drop, st);
      Exec2(ctx, CheckLockTimeVerify, Drop, st + [EncodeNum(n)]);
      LockStep(ctx, n, st);
      assert Pop(st + [EncodeNum(n)], 1) == st;
  }

  lemma ConfirmedBlock(ctx: Ctx, confirmedSpend: bool, st: Stack)
    ensures Straight(Confirmed(confirmedSpend))
    ensures ExecOps(ctx, Confirmed(confirmedSpend), st) == if OneConfirmation(ctx, confirmedSpend) then Some(st) else None
  {
    SequenceBlock(ctx, 1, st);
  }

  lemma KeyMatchBlock(ctx: Ctx, h: Bytes, st: Stack)
    ensures ExecOps(ctx, KeyMatch(h), st) == if st == [] then None else Some(st + [Bool(Hash160Of(ctx, Peek(st)) == h)])
  {
    assert KeyMatch(h) == [Dup, Hash160] + [Push(h), Equal];
    ExecAppend(ctx, [Dup, Hash160], [Push(h), Equal], st);
    Exec2(ctx, Dup, Hash160, st);
    if st != [] {
      var d := Hash160Of(ctx, Peek(st));
      assert Pop(st + [Peek(st)], 1) == st;
      Exec2(ctx, Push(h), Equal, st + [d]);
      assert st + [d] + [h] == st + [d, h];
      assert Pop(st + [d, h], 2) == st;
    }
  }

  lemma SizeMatchBlock(ctx: Ctx, k: Bytes, st: Stack, t: Bytes)
    ensures ExecOps(ctx, SizeMatch(k), st + [t]) == Some(st + [k, t] + [Bool(|t| == 32)])
  {
    assert SizeMatch(k) == [Push(k), Swap, Size] + [Int64(32), Equal];
    ExecAppend(ctx, [Push(k), Swap, Size], [Int64(32), Equal], st + [t]);
    var n, s := EncodeNum(|t|), st + [k, t];
    assert ExecOps(ctx, [Push(k), Swap, Size], st + [t]) == Some(s + [n]) by {
      Exec3(ctx, Push(k), Swap, Size, st + [t]);
      Exec2(ctx, Swap, Size, st + [t] + [k]);
      assert Pop(st + [t] + [k], 2) == st;
    }
    assert ExecOps(ctx, [Int64(32), Equal], s + [n]) == Some(s + [Bool(|t| == 32)]) by {
      Exec2(ctx, Int64(32), Equal, s + [n]);
      Num32(|t|);
      assert Pop(s + [n] + [[32]], 2) == s;
    }
  }

  /** The result of a two-of-two check on the items st. */
  function TwoSigned(ctx: Ctx, st: Stack, first: Bytes, second: Bytes): (r: Option<Stack>) {
    if |st| < 3 then None else Some(Pop(st, 3) + [Bool(BothSigned(ctx, st, first, second))])
  }

  lemma MultiSigOfTwo(ctx: Ctx, s1: Bytes, s2: Bytes, k1: Bytes, k2: Bytes)
    ensures MultiSigned(ctx, [s1, s2], [k1, k2]) <==> Signed(ctx, s1, k1) && Signed(ctx, s2, k2)
  {
    assert [s1, s2][..1] == [s1] && [k1, k2][..1] == [k1];
    assert [s1][..0] == [] && [k1][..0] == [];
    assert MultiSigned(ctx, [s1], [k1]) == Signed(ctx, s1, k1);
    assert !MultiSigned(ctx, [s1, s2], [k1]);
  }

  lemma MultiSigTop(ctx: Ctx, st: Stack, k1: Bytes, k2: Bytes)
    ensures MultiSigStep(ctx, st + [[2], k1, k2, [2]]) == TwoSigned(ctx, st, k1, k2)
  {
    SmallNum(2);
    var all := st + [[2], k1, k2, [2]];
    var st1 := Pop(all, 1);
    assert st1 == st + [[2], k1, k2];
    assert st1[|st1| - 2..] == [k1, k2] && Pop(st1, 2) == st + [[2]] && Pop(st + [[2]], 1) == st;
    if |st| >= 3 {
      var s1, s2 := At(st, 1), At(st, 0);
      assert st[|st| - 2..] == [s1, s2];
      MultiSigOfTwo(ctx, s1, s2, k1, k2);
    }
  }

  /** The end of a two-of-two script, from the second key on. */
  lemma KeysBlock(ctx: Ctx, k1: Bytes, k2: Bytes, st: Stack)
    ensures ExecOps(ctx, [Push(k2), Int64(2), CheckMultiSig], st + [[2], k1]) == TwoSigned(ctx, st, k1, k2)
  {
    SmallNum(2);
    var s := st + [[2], k1];
    Exec3(ctx, Push(k2), Int64(2), CheckMultiSig, s);
    Exec2(ctx, Int64(2), CheckMultiSig, s + [k2]);
    assert s + [k2] + [[2]] == st + [[2], k1, k2, [2]];
    MultiSigTop(ctx, st, k1, k2);
  }

  lemma TwoOfTwoBlock(ctx: Ctx, k1: Bytes, k2: Bytes, st: Stack)
    ensures ExecOps(ctx, TwoOfTwo(k2), st + [k1]) == TwoSigned(ctx, st, k1, k2)
  {
    SmallNum(2);
    assert TwoOfTwo(k2) == [Int64(2), Swap] + [Push(k2), Int64(2), CheckMultiSig];
    ExecAppend(ctx, [Int64(2), Swap], [Push(k2), Int64(2), CheckMultiSig], st + [k1]);
    Exec2(ctx, Int64(2), Swap, st + [k1]);
    assert Pop(st + [k1] + [[2]], 2) == st;
    KeysBlock(ctx, k1, k2, st);
  }

  lemma HashLockBlock(ctx: Ctx, h: Bytes, st: Stack, t: Bytes)
    ensures ExecOps(ctx, HashLock(h), st + [t]) == if Hash160Of(ctx, t) == h then Some(st) else None
  {
    Exec3(ctx, Hash160, Push(h), EqualVerify, st + [t]);
    assert Pop(st + [t], 1) == st;
    Exec2(ctx, Push(h), EqualVerify, st + [Hash160Of(ctx, t)]);
    assert Pop(st + [Hash160Of(ctx, t)] + [h], 2) == st;
  }

  /** OP_CHECKSIG of the key k. */
  lemma CheckSigBlock(ctx: Ctx, st: Stack, k: Bytes)
    ensures ExecOps(ctx, [CheckSig], st + [k]) ==
            if st == [] then None else Some(Pop(st, 1) + [Bool(Signed(ctx, Peek(st), k))])
  {
    Exec1(ctx, CheckSig, st + [k]);
    if st != [] {
      assert Pop(st + [k], 2) == Pop(st, 1);
    }
  }

  /* ---------- HTLC outputs ---------- */

  /** A finished run accepts when it leaves a true value on top. */
  predicate Done(r: Option<Stack>) {
    match r case None => false case Some(st) => st != [] && AsBool(Peek(st))
  }

  function ArmsProg(negated: bool, thn: seq<Op>, els: seq<Op>): (p: Prog) {
    If(negated, Block(thn), Block(els))
  }

  function TailProg(key: Bytes, arms: Prog, confirmedSpend: bool): (p: Prog) {
    Then(Block(SizeMatch(key)), Then(arms, Block(Confirmed(confirmedSpend))))
  }

  function HtlcProg(h: Bytes, tail: Prog): (p: Prog) {
    Then(Block(KeyMatch(h)), If(false, Block([CheckSig]), tail))
  }

  lemma ArmsOps(negated: bool, thn: seq<Op>, els: seq<Op>)
    requires Straight(thn) && Straight(els)
    ensures WellFormed(ArmsProg(negated, thn, els))
    ensures Flatten(ArmsProg(negated, thn, els)) == [Opening(negated)] + thn + [OpElse] + els + [OpEndIf]
  {
    assert WellFormed(Block(thn)) && WellFormed(Block(els));
  }

  lemma TailOps(key: Bytes, arms: Prog, confirmedSpend: bool)
    requires WellFormed(arms)
    ensures WellFormed(TailProg(key, arms, confirmedSpend))
    ensures Flatten(TailProg(key, arms, confirmedSpend)) == SizeMatch(key) + (Flatten(arms) + Confirmed(confirmedSpend))
  {
    var last := Block(Confirmed(confirmedSpend));
    assert WellFormed(last) && WellFormed(Then(arms, last));
    assert Flatten(Then(arms, last)) == Flatten(arms) + Confirmed(confirmedSpend);
  }

  lemma HtlcOps(h: Bytes, tail: Prog)
    requires WellFormed(tail)
    ensures WellFormed(HtlcProg(h, tail))
    ensures Flatten(HtlcProg(h, tail)) == KeyMatch(h) + ([OpIf] + [CheckSig] + [OpElse] + Flatten(tail) + [OpEndIf])
  {
    var choice := If(false, Block([CheckSig]), tail);
    assert WellFormed(Block([CheckSig])) && WellFormed(choice);
    assert Flatten(choice) == [OpIf] + [CheckSig] + [OpElse] + Flatten(tail) + [OpEndIf];
  }

  lemma ArmsExec(ctx: Ctx, negated: bool, thn: seq<Op>, els: seq<Op>, st: Stack, b: bool)
    requires Straight(thn) && Straight(els)
    ensures WellFormed(ArmsProg(negated, thn, els))
    ensures Exec(ctx, ArmsProg(negated, thn, els), st + [Bool(b)]) == ExecOps(ctx, if b != negated then thn else els, st)
  {
    ArmsOps(negated, thn, els);
    assert Pop(st + [Bool(b)], 1) == st;
    assert Exec(ctx, Block(thn), st) == ExecOps(ctx, thn, st) && Exec(ctx, Block(els), st) == ExecOps(ctx, els, st);
  }

  /** Past the revocation clause. */
  lemma TailExec(ctx: Ctx, key: Bytes, arms: Prog, confirmedSpend: bool, rest: Stack, t: Bytes)
    requires WellFormed(arms)
    ensures WellFormed(TailProg(key, arms, confirmedSpend))
    ensures Done(Exec(ctx, TailProg(key, arms, confirmedSpend), rest + [t])) <==>
            OneConfirmation(ctx, confirmedSpend) && Done(Exec(ctx, arms, rest + [key, t] + [Bool(|t| == 32)]))
  {
    TailOps(key, arms, confirmedSpend);
    SizeMatchBlock(ctx, key, rest, t);
    var last := Block(Confirmed(confirmedSpend));
    var st := rest + [key, t] + [Bool(|t| == 32)];
    var r := Exec(ctx, arms, st);
    assert Exec(ctx, TailProg(key, arms, confirmedSpend), rest + [t]) == Exec(ctx, Then(arms, last), st);
    if r.Some? {
      assert Exec(ctx, Then(arms, last), st) == ExecOps(ctx, Confirmed(confirmedSpend), r.value);
      ConfirmedBlock(ctx, confirmedSpend, r.value);
    }
  }

  lemma KeyExec(ctx: Ctx, h: Bytes, tail: Prog, rest: Stack, t: Bytes)
    requires WellFormed(tail)
    ensures WellFormed(HtlcProg(h, tail))
    ensures Exec(ctx, HtlcProg(h, tail), rest + [t]) ==
            if Hash160Of(ctx, t) == h then ExecOps(ctx, [CheckSig], rest + [t]) else Exec(ctx, tail, rest + [t])
  {
    HtlcOps(h, tail);
    KeyMatchBlock(ctx, h, rest + [t]);
    var st := rest + [t] + [Bool(Hash160Of(ctx, t) == h)];
    assert Pop(st, 1) == rest + [t];
    var choice := If(false, Block([CheckSig]), tail);
    assert Exec(ctx, HtlcProg(h, tail), rest + [t]) == Exec(ctx, choice, st);
    assert Exec(ctx, Block([CheckSig]), rest + [t]) == ExecOps(ctx, [CheckSig], rest + [t]);
  }

  lemma EmptyFails(ctx: Ctx, h: Bytes, tail: Prog)
    requires WellFormed(tail)
    ensures WellFormed(HtlcProg(h, tail)) && Exec(ctx, HtlcProg(h, tail), []) == None
  {
    HtlcOps(h, tail);
    KeyMatchBlock(ctx, h, []);
  }

  /** Who can spend an HTLC output, given what its two arms do. */
  lemma HtlcSpenders(ctx: Ctx, h: Bytes, key: Bytes, negated: bool, thn: seq<Op>, els: seq<Op>, confirmedSpend: bool, w: Stack)
    requires Straight(thn) && Straight(els)
    ensures Accepts(ctx, HtlcScript(h, key, Opening(negated), thn, els, confirmedSpend), w) <==>
            if w == [] then false
            else if Hash160Of(ctx, Peek(w)) == h then |w| >= 2 && Signed(ctx, At(w, 1), At(w, 0))
            else
              && OneConfirmation(ctx, confirmedSpend)
              && Done(ExecOps(ctx, if (|Peek(w)| == 32) != negated then thn else els, Pop(w, 1) + [key, Peek(w)]))
  {
    var arms := ArmsProg(negated, thn, els);
    ArmsOps(negated, thn, els);
    var tail := TailProg(key, arms, confirmedSpend);
    TailOps(key, arms, confirmedSpend);
    HtlcOps(h, tail);
    AcceptsFlatten(ctx, HtlcProg(h, tail), w);
    if w == [] {
      EmptyFails(ctx, h, tail);
    } else {
      var t, rest := Peek(w), Pop(w, 1);
      assert w == rest + [t];
      KeyExec(ctx, h, tail, rest, t);
      CheckSigBlock(ctx, rest, t);
      TailExec(ctx, key, arms, confirmedSpend, rest, t);
      ArmsExec(ctx, negated, thn, els, rest + [key, t], |t| == 32);
    }
  }

  predicate SenderTimeoutPath(ctx: Ctx, senderKey: Bytes, receiverKey: Bytes, w: Stack) {
    |w| >= 1 && |At(w, 0)| != 32 && BothSigned(ctx, Pop(w, 1), receiverKey, senderKey)
  }

  predicate SenderRedeemPath(ctx: Ctx, receiverKey: Bytes, paymentHash: Bytes, w: Stack) {
    |w| >= 2 && Preimage(ctx, paymentHash, At(w, 0)) && Signed(ctx, At(w, 1), receiverKey)
  }

  /**
    An offered HTLC: a stack of witness items spends it exactly when it follows one of the three
    paths; the two that are not revocation wait for a confirmation where that is asked for.
   */
  lemma SenderSpenders(ctx: Ctx, senderKey: Bytes, receiverKey: Bytes, revokeKey: Bytes, paymentHash: Bytes,
                       confirmedSpend: bool, w: Stack)
    ensures Accepts(ctx, SenderHTLCScript(ctx, senderKey, receiverKey, revokeKey, paymentHash, confirmedSpend), w) <==>
            || RevocationPath(ctx, revokeKey, w)
            || (&& NotRevocation(ctx, revokeKey, w)
                && OneConfirmation(ctx, confirmedSpend)
                && (SenderTimeoutPath(ctx, senderKey, receiverKey, w) || SenderRedeemPath(ctx, receiverKey, paymentHash, w)))
  {
    var ph := ctx.ripemd160(paymentHash);
    var thn, els := [Drop] + TwoOfTwo(senderKey), HashLock(ph) + [CheckSig];
    HtlcSpenders(ctx, Hash160Of(ctx, revokeKey), receiverKey, true, thn, els, confirmedSpend, w);
    if w != [] {
      MultiSigArm(ctx, receiverKey, senderKey, Pop(w, 1), Peek(w));
      SenderRedeemArm(ctx, receiverKey, ph, Pop(w, 1), Peek(w));
    }
  }

  lemma MultiSigArm(ctx: Ctx, first: Bytes, second: Bytes, rest: Stack, t: Bytes)
    ensures Straight([Drop] + TwoOfTwo(second))
    ensures Done(ExecOps(ctx, [Drop] + TwoOfTwo(second), rest + [first, t])) <==> BothSigned(ctx, rest, first, second)
  {
    var st := rest + [first];
    assert rest + [first, t] == st + [t] && Pop(st + [t], 1) == st;
    ExecAppend(ctx, [Drop], TwoOfTwo(second), st + [t]);
    Exec1(ctx, Drop, st + [t]);
    TwoOfTwoBlock(ctx, first, second, rest);
  }

  lemma SenderRedeemArm(ctx: Ctx, key: Bytes, ph: Bytes, rest: Stack, t: Bytes)
    ensures Straight(HashLock(ph) + [CheckSig])
    ensures Done(ExecOps(ctx, HashLock(ph) + [CheckSig], rest + [key, t])) <==>
            rest != [] && Hash160Of(ctx, t) == ph && Signed(ctx, Peek(rest), key)
  {
    var st := rest + [key];
    assert rest + [key, t] == st + [t];
    ExecAppend(ctx, HashLock(ph), [CheckSig], st + [t]);
    HashLockBlock(ctx, ph, st, t);
    CheckSigBlock(ctx, rest, key);
  }

  predicate ReceiverRedeemPath(ctx: Ctx, senderKey: Bytes, receiverKey: Bytes, paymentHash: Bytes, w: Stack) {
    |w| >= 1 && Preimage(ctx, paymentHash, At(w, 0)) && BothSigned(ctx, Pop(w, 1), senderKey, receiverKey)
  }

  predicate ReceiverTimeoutPath(ctx: Ctx, cltvExpiry: uint32, senderKey: Bytes, w: Stack) {
    |w| >= 2 && |At(w, 0)| != 32 && NotBefore(ctx.tx, cltvExpiry) && Signed(ctx, At(w, 1), senderKey)
  }

  /** A received HTLC, in the same way. */
  lemma ReceiverSpenders(ctx: Ctx, cltvExpiry: uint32, senderKey: Bytes, receiverKey: Bytes, revokeKey: Bytes, paymentHash: Bytes,
                         confirmedSpend: bool, w: Stack)
    ensures Accepts(ctx, ReceiverHTLCScript(ctx, cltvExpiry, senderKey, receiverKey, revokeKey, paymentHash, confirmedSpend), w) <==>
            || RevocationPath(ctx, revokeKey, w)
            || (&& NotRevocation(ctx, revokeKey, w)
                && OneConfirmation(ctx, confirmedSpend)
                && (|| ReceiverRedeemPath(ctx, senderKey, receiverKey, paymentHash, w)
                    || ReceiverTimeoutPath(ctx, cltvExpiry, senderKey, w)))
  {
    var ph := ctx.ripemd160(paymentHash);
    var thn, els := HashLock(ph) + TwoOfTwo(receiverKey), [Drop] + (Lease(Some(cltvExpiry)) + [CheckSig]);
    HtlcSpenders(ctx, Hash160Of(ctx, revokeKey), senderKey, false, thn, els, confirmedSpend, w);
    if w != [] {
      ReceiverRedeemArm(ctx, senderKey, receiverKey, ph, Pop(w, 1), Peek(w));
      ReceiverTimeoutArm(ctx, cltvExpiry, senderKey, Pop(w, 1), Peek(w));
    }
  }

  lemma ReceiverRedeemArm(ctx: Ctx, first: Bytes, second: Bytes, ph: Bytes, rest: Stack, t: Bytes)
    ensures Straight(HashLock(ph) + TwoOfTwo(second))
    ensures Done(ExecOps(ctx, HashLock(ph) + TwoOfTwo(second), rest + [first, t])) <==>
            Hash160Of(ctx, t) == ph && BothSigned(ctx, rest, first, second)
  {
    var st := rest + [first];
    assert rest + [first, t] == st + [t];
    ExecAppend(ctx, HashLock(ph), TwoOfTwo(second), st + [t]);
    HashLockBlock(ctx, ph, st, t);
    TwoOfTwoBlock(ctx, first, second, rest);
  }

  lemma ReceiverTimeoutArm(ctx: Ctx, cltvExpiry: uint32, key: Bytes, rest: Stack, t: Bytes)
    ensures Straight([Drop] + (Lease(Some(cltvExpiry)) + [CheckSig]))
    ensures Done(ExecOps(ctx, [Drop] + (Lease(Some(cltvExpiry)) + [CheckSig]), rest + [key, t])) <==>
            rest != [] && NotBefore(ctx.tx, cltvExpiry) && Signed(ctx, Peek(rest), key)
  {
    var st := rest + [key];
    assert rest + [key, t] == st + [t] && Pop(st + [t], 1) == st;
    LeaseBlock(ctx, Some(cltvExpiry), st);
    ExecAppend(ctx, Lease(Some(cltvExpiry)), [CheckSig], st);
    ExecAppend(ctx, [Drop], Lease(Some(cltvExpiry)) + [CheckSig], st + [t]);
    Exec1(ctx, Drop, st + [t]);
    CheckSigBlock(ctx, rest, key);
  }

  /* ---------- delayed, to-remote, anchor and funding outputs ---------- */

  /** The arm that waits. */
  lemma DelayArm(ctx: Ctx, delayKey: Bytes, csvDelay: uint32, lease: Option<uint32>, st: Stack)
    ensures var ops := Lease(lease) + ([Int64(csvDelay), CheckSequenceVerify, Drop] + [Push(delayKey)]);
            && Straight(ops)
            && ExecOps(ctx, ops, st) ==
               if LeaseOver(ctx, lease) && Waited(ctx.tx, csvDelay) then Some(st + [delayKey]) else None
  {
    var delay := [Int64(csvDelay), CheckSequenceVerify, Drop];
    LeaseBlock(ctx, lease, st);
    ExecAppend(ctx, delay, [Push(delayKey)], st);
    ExecAppend(ctx, Lease(lease), delay + [Push(delayKey)], st);
    SequenceBlock(ctx, csvDelay, st);
    Exec1(ctx, Push(delayKey), st);
  }

  function DelayedProg(revokeKey: Bytes, delayKey: Bytes, csvDelay: uint32, lease: Option<uint32>): (p: Prog) {
    ArmsProg(false, [Push(revokeKey)], Lease(lease) + ([Int64(csvDelay), CheckSequenceVerify, Drop] + [Push(delayKey)]))
  }

  lemma DelayedOps(revokeKey: Bytes, delayKey: Bytes, csvDelay: uint32, lease: Option<uint32>)
    ensures var p := Then(DelayedProg(revokeKey, delayKey, csvDelay, lease), Block([CheckSig]));
            WellFormed(p) && Flatten(p) == DelayedScript(revokeKey, delayKey, csvDelay, lease)
  {
    var els := Lease(lease) + ([Int64(csvDelay), CheckSequenceVerify, Drop] + [Push(delayKey)]);
    ArmsOps(false, [Push(revokeKey)], els);
    assert WellFormed(Block([CheckSig])) && Flatten(Block([CheckSig])) == [CheckSig];
  }

  /** The key that the chosen arm leaves on the stack, if its locks are over. */
  lemma DelayedArms(ctx: Ctx, revokeKey: Bytes, delayKey: Bytes, csvDelay: uint32, lease: Option<uint32>, w: Stack)
    requires w != [] && WellFormed(DelayedProg(revokeKey, delayKey, csvDelay, lease))
    ensures Exec(ctx, DelayedProg(revokeKey, delayKey, csvDelay, lease), w) ==
            if AsBool(Peek(w)) then Some(Pop(w, 1) + [revokeKey])
            else if LeaseOver(ctx, lease) && Waited(ctx.tx, csvDelay) then Some(Pop(w, 1) + [delayKey]) else None
  {
    var st := Pop(w, 1);
    var els := Lease(lease) + ([Int64(csvDelay), CheckSequenceVerify, Drop] + [Push(delayKey)]);
    DelayArm(ctx, delayKey, csvDelay, lease, st);
    Exec1(ctx, Push(revokeKey), st);
    assert Exec(ctx, Block([Push(revokeKey)]), st) == ExecOps(ctx, [Push(revokeKey)], st);
    assert Exec(ctx, Block(els), st) == ExecOps(ctx, els, st);
  }

  /**
    A delayed output: the top item chooses. True: a signature of the revocation key, at once.
    False: the owner's signature, once the delay and any lease are over.
   */
  lemma DelayedSpenders(ctx: Ctx, revokeKey: Bytes, delayKey: Bytes, csvDelay: uint32, lease: Option<uint32>, w: Stack)
    ensures Accepts(ctx, DelayedScript(revokeKey, delayKey, csvDelay, lease), w) <==>
            && |w| >= 2
            && (if AsBool(At(w, 0)) then Signed(ctx, At(w, 1), revokeKey)
                else LeaseOver(ctx, lease) && Waited(ctx.tx, csvDelay) && Signed(ctx, At(w, 1), delayKey))
  {
    DelayedOps(revokeKey, delayKey, csvDelay, lease);
    var p := Then(DelayedProg(revokeKey, delayKey, csvDelay, lease), Block([CheckSig]));
    AcceptsFlatten(ctx, p, w);
    if w != [] {
      DelayedArms(ctx, revokeKey, delayKey, csvDelay, lease, w);
      CheckSigBlock(ctx, Pop(w, 1), if AsBool(Peek(w)) then revokeKey else delayKey);
    }
  }

  lemma RemoteWait(ctx: Ctx, lease: Option<uint32>, st: Stack)
    ensures var ops := Lease(lease) + [Int64(1), CheckSequenceVerify];
            && Straight(ops)
            && ExecOps(ctx, ops, st) ==
               if LeaseOver(ctx, lease) && Waited(ctx.tx, 1) then Some(st + [EncodeNum(1)]) else None
  {
    LeaseBlock(ctx, lease, st);
    ExecAppend(ctx, Lease(lease), [Int64(1), CheckSequenceVerify], st);
    Exec2(ctx, Int64(1), CheckSequenceVerify, st);
    LockStep(ctx, 1, st);
  }

  lemma ToRemoteExec(ctx: Ctx, key: Bytes, lease: Option<uint32>, w: Stack)
    ensures Straight(ToRemoteScript(key, lease))
    ensures ExecOps(ctx, ToRemoteScript(key, lease), w) ==
            if w != [] && Signed(ctx, Peek(w), key) && LeaseOver(ctx, lease) && Waited(ctx.tx, 1)
            then Some(Pop(w, 1) + [EncodeNum(1)]) else None
  {
    var sig, rest := [Push(key), CheckSigVerify], Lease(lease) + [Int64(1), CheckSequenceVerify];
    RemoteWait(ctx, lease, if w == [] then [] else Pop(w, 1));
    ExecAppend(ctx, sig, rest, w);
    assert ExecOps(ctx, sig, w) == if w != [] && Signed(ctx, Peek(w), key) then Some(Pop(w, 1)) else None by {
      Exec2(ctx, Push(key), CheckSigVerify, w);
      assert w != [] ==> Pop(w + [key], 2) == Pop(w, 1);
    }
  }

  /** The output paying the other side: its signature, one confirmation, and any lease. */
  lemma ToRemoteSpenders(ctx: Ctx, key: Bytes, lease: Option<uint32>, w: Stack)
    ensures Accepts(ctx, ToRemoteScript(key, lease), w) <==>
            |w| >= 1 && Signed(ctx, At(w, 0), key) && LeaseOver(ctx, lease) && Waited(ctx.tx, 1)
  {
    ToRemoteExec(ctx, key, lease, w);
    AcceptsFlatten(ctx, Block(ToRemoteScript(key, lease)), w);
    SmallTrue(1);
  }

  lemma SmallTrue(n: nat)
    requires 0 < n < 128
    ensures AsBool(EncodeNum(n))
  {
    SmallNum(n);
    assert [n][0] != 0;
  }

  lemma AnchorKey(ctx: Ctx, key: Bytes, w: Stack)
    ensures ExecOps(ctx, [Push(key), CheckSig, IfDup], w) ==
            if w == [] then None
            else if Signed(ctx, Peek(w), key) then Some(Pop(w, 1) + [Bool(true)] + [Bool(true)])
            else Some(Pop(w, 1) + [Bool(false)])
  {
    Exec3(ctx, Push(key), CheckSig, IfDup, w);
    Exec2(ctx, CheckSig, IfDup, w + [key]);
    if w != [] {
      assert Pop(w + [key], 2) == Pop(w, 1);
    }
  }

  lemma AnchorWait(ctx: Ctx, st: Stack, b: bool)
    ensures var wait := When(true, Block([Int64(16), CheckSequenceVerify]));
            && WellFormed(wait)
            && Exec(ctx, wait, st + [Bool(b)]) ==
               if b then Some(st) else if Waited(ctx.tx, 16) then Some(st + [EncodeNum(16)]) else None
  {
    var body := [Int64(16), CheckSequenceVerify];
    assert WellFormed(Block(body));
    assert Pop(st + [Bool(b)], 1) == st;
    Exec2(ctx, Int64(16), CheckSequenceVerify, st);
    LockStep(ctx, 16, st);
    assert Exec(ctx, Block(body), st) == ExecOps(ctx, body, st);
  }

  function AnchorProg(key: Bytes): (p: Prog) {
    Then(Block([Push(key), CheckSig, IfDup]), When(true, Block([Int64(16), CheckSequenceVerify])))
  }

  lemma AnchorOps(key: Bytes)
    ensures WellFormed(AnchorProg(key)) && Flatten(AnchorProg(key)) == AnchorScript(key)
  {
    var first, body := [Push(key), CheckSig, IfDup], [Int64(16), CheckSequenceVerify];
    assert WellFormed(Block(first)) && WellFormed(Block(body)) && WellFormed(When(true, Block(body)));
    assert Flatten(When(true, Block(body))) == [OpNotIf] + body + [OpEndIf];
  }

  lemma AnchorExec(ctx: Ctx, key: Bytes, w: Stack)
    requires WellFormed(AnchorProg(key))
    ensures Exec(ctx, AnchorProg(key), w) ==
            if w == [] then None
            else if Signed(ctx, Peek(w), key) then Some(Pop(w, 1) + [Bool(true)])
            else if Waited(ctx.tx, 16) then Some(Pop(w, 1) + [EncodeNum(16)]) else None
  {
    AnchorKey(ctx, key, w);
    if w != [] {
      var st, ok := Pop(w, 1), Signed(ctx, Peek(w), key);
      AnchorWait(ctx, if ok then st + [Bool(true)] else st, ok);
    }
  }

  /** An anchor: the owner's signature at once, or anyone after sixteen confirmations. */
  lemma AnchorSpenders(ctx: Ctx, key: Bytes, w: Stack)
    ensures Accepts(ctx, AnchorScript(key), w) <==> |w| >= 1 && (Signed(ctx, At(w, 0), key) || Waited(ctx.tx, 16))
  {
    AnchorOps(key);
    AcceptsFlatten(ctx, AnchorProg(key), w);
    AnchorExec(ctx, key, w);
    SmallTrue(16);
  }

  lemma {:induction false} GreaterOrder(a: Bytes, b: Bytes)
    ensures !(Greater(a, b) && Greater(b, a))
    ensures Greater(a, b) || Greater(b, a) || a == b
  {
    if a != [] && b != [] {
      GreaterOrder(a[1..], b[1..]);
      assert a == [a[0]] + a[1..] && b == [b[0]] + b[1..];
    }
  }

  /** a comes after b in dictionary order: at the first difference it has the greater byte, or b ends there. */
  ghost predicate ComesAfter(a: Bytes, b: Bytes, i: nat) {
    i <= |b| && i < |a| && a[..i] == b[..i] && (i == |b| || a[i] > b[i])
  }

  lemma {:induction false} GreaterIff(a: Bytes, b: Bytes)
    ensures Greater(a, b) <==> exists i :: ComesAfter(a, b, i)
  {
    if a == [] {
    } else if b == [] {
      assert ComesAfter(a, b, 0);
    } else {
      GreaterIff(a[1..], b[1..]);
      if a[0] > b[0] {
        assert ComesAfter(a, b, 0);
      }
      if a[0] == b[0] {
        if i: nat :| ComesAfter(a[1..], b[1..], i) {
          assert a[..i + 1] == [a[0]] + a[1..][..i] && b[..i + 1] == [b[0]] + b[1..][..i];
          assert ComesAfter(a, b, i + 1);
        }
      }
      if i: nat :| ComesAfter(a, b, i) && i > 0 {
        assert a[..i][0] == b[..i][0];
        assert a[1..][..i - 1] == a[..i][1..] && b[1..][..i - 1] == b[..i][1..];
        assert ComesAfter(a[1..], b[1..], i - 1);
      }
    }
  }

  lemma MultiSigExec(ctx: Ctx, lo: Bytes, hi: Bytes, w: Stack)
    ensures Accepts(ctx, MultiSigScript(lo, hi), w) <==> BothSigned(ctx, w, lo, hi)
  {
    var ops := MultiSigScript(lo, hi);
    AcceptsFlatten(ctx, Block(ops), w);
    MultiSigOps(ctx, lo, hi, w);
  }

  lemma MultiSigOps(ctx: Ctx, lo: Bytes, hi: Bytes, w: Stack)
    ensures ExecOps(ctx, MultiSigScript(lo, hi), w) == TwoSigned(ctx, w, lo, hi)
  {
    SmallNum(2);
    assert MultiSigScript(lo, hi) == [Int64(2), Push(lo)] + [Push(hi), Int64(2), CheckMultiSig];
    ExecAppend(ctx, [Int64(2), Push(lo)], [Push(hi), Int64(2), CheckMultiSig], w);
    Exec2(ctx, Int64(2), Push(lo), w);
    assert w + [[2]] + [lo] == w + [[2], lo];
    KeysBlock(ctx, lo, hi, w);
  }

  /** The funding script is the same whichever side builds it, and needs both signatures, in the order of the sorted keys. */
  lemma FundingSpenders(ctx: Ctx, a: Bytes, b: Bytes, w: Stack)
    ensures GenMultiSigScript(a, b) == GenMultiSigScript(b, a)
    ensures GenMultiSigScript(a, b).Some? <==> |a| == 33 && |b| == 33
    ensures GenMultiSigScript(a, b).Some? ==>
              (Accepts(ctx, GenMultiSigScript(a, b).value, w) <==> BothSigned(ctx, w, Lesser(a, b), Larger(a, b)))
  {
    GreaterOrder(a, b);
    MultiSigExec(ctx, Lesser(a, b), Larger(a, b), w);
  }
}
