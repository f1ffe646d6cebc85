/**
  Scripts as bytes: the canonical pushes of the script builder, the parser, the sig script made of
  a witness (input/signer.go) and spending through pay-to-script-hash.
 */
module ScriptBytes {
  import opened Common
  import opened Script

  const MAX_ELEMENT := 520
  const MAX_SCRIPT := 10000

  /* ---------- bytes of opcodes ---------- */

  predicate Fits(op: Op) {
    op.Push? ==> |op.data| <= MAX_ELEMENT
  }

  /** The shortest push of the data, as the builder chooses it. A single zero byte is pushed as zero, which is the empty item. */
  function PushBytes(d: Bytes): (b: Bytes)
    requires |d| <= MAX_ELEMENT
    ensures b != []
  {
    if |d| == 0 || d == [0] then [0]
    else if |d| == 1 && 1 <= d[0] <= 16 then [0x50 + d[0]]
    else if d == [0x81] then [0x4f]
    else if |d| < 0x4c then [|d|] + d
    else if |d| <= 0xff then [0x4c, |d|] + d
    else [0x4d, |d| % 256, |d| / 256] + d
  }

  function OpCode(op: Op): (b: byte)
    requires !op.Push?
  {
    match op
    case OpIf => 0x63
    case OpNotIf => 0x64
    case OpElse => 0x67
    case OpEndIf => 0x68
    case IfDup => 0x73
    case Drop => 0x75
    case Dup => 0x76
    case Swap => 0x7c
    case Size => 0x82
    case Equal => 0x87
    case EqualVerify => 0x88
    case Hash160 => 0xa9
    case CheckSig => 0xac
    case CheckSigVerify => 0xad
    case CheckMultiSig => 0xae
    case CheckLockTimeVerify => 0xb1
    case CheckSequenceVerify => 0xb2
  }

  function OpOf(b: byte): (r: Option<Op>) {
    if b == 0x63 then Some(OpIf)
    else if b == 0x64 then Some(OpNotIf)
    else if b == 0x67 then Some(OpElse)
    else if b == 0x68 then Some(OpEndIf)
    else if b == 0x73 then Some(IfDup)
    else if b == 0x75 then Some(Drop)
    else if b == 0x76 then Some(Dup)
    else if b == 0x7c then Some(Swap)
    else if b == 0x82 then Some(Size)
    else if b == 0x87 then Some(Equal)
    else if b == 0x88 then Some(EqualVerify)
    else if b == 0xa9 then Some(Hash160)
    else if b == 0xac then Some(CheckSig)
    else if b == 0xad then Some(CheckSigVerify)
    else if b == 0xae then Some(CheckMultiSig)
    else if b == 0xb1 then Some(CheckLockTimeVerify)
    else if b == 0xb2 then Some(CheckSequenceVerify)
    else None
  }

  function Bytes1(op: Op): (b: Bytes)
    requires Fits(op)
    ensures b != []
  {
    if op.Push? then PushBytes(op.data) else [OpCode(op)]
  }

  ghost predicate AllFit(ops: seq<Op>) {
    forall i :: 0 <= i < |ops| ==> Fits(ops[i])
  }

  ghost function Serialize(ops: seq<Op>): (b: Bytes)
    requires AllFit(ops)
  {
    if ops == [] then [] else Bytes1(ops[0]) + Serialize(ops[1..])
  }

  /** n bytes of data and what follows them. */
  function Take(n: nat, b: Bytes): (r: Option<(Op, Bytes)>)
    ensures r.Some? ==> |r.value.1| <= |b|
  {
    if n <= |b| then Some((Push(b[..n]), b[n..])) else None
  }

  function Parse1(b: Bytes): (r: Option<(Op, Bytes)>)
    ensures r.Some? ==> |r.value.1| < |b|
  {
    if b == [] then None
    else if b[0] < 0x4c then Take(b[0], b[1..])
    else if b[0] == 0x4c then (if |b| < 2 then None else Take(b[1], b[2..]))
    else if b[0] == 0x4d then (if |b| < 3 then None else Take(Value(b[1..3]), b[3..]))
    else if b[0] == 0x4e then (if |b| < 5 then None else Take(Value(b[1..5]), b[5..]))
    else if b[0] == 0x4f then Some((Push([0x81]), b[1..]))
    else if 0x51 <= b[0] <= 0x60 then Some((Push([b[0] - 0x50]), b[1..]))
    else match OpOf(b[0]) case None => None case Some(op) => Some((op, b[1..]))
  }

  function Parse(b: Bytes): (r: Option<seq<Op>>)
    decreases |b|
  {
    if b == [] then Some([]) else
      match Parse1(b)
      case None => None
      case Some((op, rest)) => (match Parse(rest) case None => None case Some(ops) => Some([op] + ops))
  }

  /** What a push of the data leaves on the stack. */
  function Landed(d: Bytes): (r: Bytes) {
    if d == [0] then [] else d
  }

  function LandedOp(op: Op): (r: Op) {
    if op.Push? then Push(Landed(op.data)) else op
  }

  function LandedOps(ops: seq<Op>): (r: seq<Op>)
    ensures |r| == |ops| && forall i :: 0 <= i < |ops| ==> r[i] == LandedOp(ops[i])
  {
    seq(|ops|, i requires 0 <= i < |ops| => LandedOp(ops[i]))
  }

  function LandedItems(items: Stack): (r: Stack)
    ensures |r| == |items| && forall i :: 0 <= i < |items| ==> r[i] == Landed(items[i])
  {
    seq(|items|, i requires 0 <= i < |items| => Landed(items[i]))
  }

  predicate NoZeroItem(items: Stack) {
    forall i :: 0 <= i < |items| ==> items[i] != [0]
  }

  predicate NoZeroPush(ops: seq<Op>) {
    forall i :: 0 <= i < |ops| ==> ops[i] != Push([0])
  }

  lemma TakeBack(head: Bytes, d: Bytes, rest: Bytes)
    ensures Take(|d|, (head + d + rest)[|head|..]) == Some((Push(d), rest))
  {
    assert (head + d + rest)[|head|..] == d + rest;
    assert (d + rest)[..|d|] == d && (d + rest)[|d|..] == rest;
  }

  lemma Parse1Back(op: Op, rest: Bytes)
    requires Fits(op)
    ensures Parse1(Bytes1(op) + rest) == Some((LandedOp(op), rest))
  {
    if op.Push? {
      PushBack(op.data, rest);
    } else {
      assert ([OpCode(op)] + rest)[1..] == rest;
    }
  }

  lemma PushBack(d: Bytes, rest: Bytes)
    requires |d| <= MAX_ELEMENT
    ensures Parse1(PushBytes(d) + rest) == Some((Push(Landed(d)), rest))
  {
    if |d| == 0 || (|d| == 1 && 0 <= d[0] <= 16) || d == [0x81] {
      assert |d| == 1 ==> d == [d[0]];
      SmallPushBack(d, rest);
    } else if |d| < 0x4c {
      TakeBack([|d|], d, rest);
    } else if |d| <= 0xff {
      TakeBack([0x4c, |d|], d, rest);
    } else {
      LongPushBack(d, rest);
    }
  }

  lemma SmallPushBack(d: Bytes, rest: Bytes)
    requires |d| == 0 || (|d| == 1 && 0 <= d[0] <= 16) || d == [0x81]
    ensures Parse1(PushBytes(d) + rest) == Some((Push(Landed(d)), rest))
  {
    assert |d| == 1 ==> d == [d[0]];
    assert (PushBytes(d) + rest)[1..] == rest;
    if |d| == 0 || d == [0] {
      TakeBack([0], [], rest);
    } else {
      assert [d[0]] == d;
    }
  }

  lemma LongPushBack(d: Bytes, rest: Bytes)
    requires 0xff < |d| <= MAX_ELEMENT
    ensures Parse1(PushBytes(d) + rest) == Some((Push(d), rest))
  {
    var lo, hi: byte := |d| % 256, |d| / 256;
    var head := [0x4d, lo, hi];
    assert (head + d + rest)[1..3] == [lo, hi];
    LengthBack(lo, hi);
    TakeBack(head, d, rest);
  }

  lemma LengthBack(lo: byte, hi: byte)
    ensures Value([lo, hi]) == lo + 256 * hi
  {
    assert [lo, hi][1..] == [hi] && [hi][1..] == [];
    assert Value([hi]) == hi;
  }

  /** Opcodes through bytes and back: the same list, but for pushes of a single zero byte. */
  lemma {:induction false} ParseSerialize(ops: seq<Op>)
    requires AllFit(ops)
    ensures Parse(Serialize(ops)) == Some(LandedOps(ops))
    decreases |ops|
  {
    if ops != [] {
      var rest := Serialize(ops[1..]);
      ParseSerialize(ops[1..]);
      assert Parse(Bytes1(ops[0]) + rest) == Some([LandedOp(ops[0])] + LandedOps(ops[1..])) by {
        Parse1Back(ops[0], rest);
      }
      assert LandedOps(ops) == [LandedOp(ops[0])] + LandedOps(ops[1..]);
    }
  }

  /** So a list survives the trip if and only if it has no such push. */
  lemma ParseSerializeIff(ops: seq<Op>)
    requires AllFit(ops)
    ensures Parse(Serialize(ops)) == Some(ops) <==> NoZeroPush(ops)
  {
    ParseSerialize(ops);
    if NoZeroPush(ops) {
      assert LandedOps(ops) == ops;
    }
    if LandedOps(ops) == ops {
      forall i | 0 <= i < |ops| ensures ops[i] != Push([0]) {
        assert LandedOps(ops)[i] == LandedOp(ops[i]);
      }
    }
  }

  /* ---------- sig scripts ---------- */

  function Pushes(items: Stack): (ops: seq<Op>)
    ensures |ops| == |items| && forall i :: 0 <= i < |items| ==> ops[i] == Push(items[i])
  {
    seq(|items|, i requires 0 <= i < |items| => Push(items[i]))
  }

  ghost predicate ItemsFit(items: Stack) {
    forall i :: 0 <= i < |items| ==> |items[i]| <= 520
  }

  /** The bytes that push these items. */
  ghost function SigBytes(items: Stack): (b: Bytes)
    requires ItemsFit(items)
  {
    Serialize(Pushes(items))
  }

  /** The byte of each opcode, as the consensus rules number them. */
  lemma OpCodeBytes()
    ensures var ops := [OpIf, OpNotIf, OpElse, OpEndIf, IfDup, Drop, Dup, Swap, Size, Equal, EqualVerify, Hash160, CheckSig,
                        CheckSigVerify, CheckMultiSig, CheckLockTimeVerify, CheckSequenceVerify];
            forall i :: 0 <= i < |ops| ==>
              Bytes1(ops[i]) ==
              [[99, 100, 103, 104, 115, 117, 118, 124, 130, 135, 136, 169, 172, 173, 174, 177, 178][i]]
  {
  }

  /** The push of an item: the small numbers have opcodes of their own, and longer items a length of one or two bytes. */
  lemma PushShapes(d: Bytes)
    requires |d| <= MAX_ELEMENT
    ensures d == [] ==> PushBytes(d) == [0]
    ensures forall n: byte :: d == [n] && 1 <= n <= 16 ==> PushBytes(d) == [80 + n]
    ensures 2 <= |d| <= 75 ==> PushBytes(d) == [|d|] + d
    ensures 76 <= |d| <= 255 ==> PushBytes(d) == [76, |d|] + d
    ensures 256 <= |d| ==> PushBytes(d) == [77, |d| - 256 * (|d| / 256), |d| / 256] + d
  {
  }

  lemma {:induction false} SerializeAppend(a: seq<Op>, b: seq<Op>)
    requires AllFit(a) && AllFit(b)
    ensures AllFit(a + b) && Serialize(a + b) == Serialize(a) + Serialize(b)
    decreases |a|
  {
    if a == [] {
      assert a + b == b;
    } else {
      SerializeAppend(a[1..], b);
      assert a == [a[0]] + a[1..];
      SerializeStep(a[0], a[1..], b);
    }
  }

  lemma SerializeStep(op: Op, rest: seq<Op>, b: seq<Op>)
    requires Fits(op) && AllFit(rest) && AllFit(b)
    requires AllFit(rest + b) && Serialize(rest + b) == Serialize(rest) + Serialize(b)
    ensures AllFit([op] + rest) && AllFit([op] + rest + b)
    ensures Serialize([op] + rest + b) == Serialize([op] + rest) + Serialize(b)
  {
    SerializeCons(op, rest);
    SerializeCons(op, rest + b);
    AppendAssoc([op], rest, b);
    AppendAssoc(Bytes1(op), Serialize(rest), Serialize(b));
  }

  lemma AppendAssoc<T>(x: seq<T>, y: seq<T>, z: seq<T>)
    ensures x + (y + z) == x + y + z
  {
  }

  lemma SerializeCons(op: Op, ops: seq<Op>)
    requires Fits(op) && AllFit(ops)
    ensures AllFit([op] + ops) && Serialize([op] + ops) == Bytes1(op) + Serialize(ops)
  {
    assert ([op] + ops)[1..] == ops;
  }

  lemma SigSnoc(items: Stack, d: Bytes)
    requires ItemsFit(items) && |d| <= MAX_ELEMENT
    ensures ItemsFit(items + [d]) && SigBytes(items + [d]) == SigBytes(items) + PushBytes(d)
  {
    SerializeAppend(Pushes(items), [Push(d)]);
    assert Pushes(items + [d]) == Pushes(items) + [Push(d)];
    assert Serialize([Push(d)]) == PushBytes(d) + Serialize([Push(d)][1..]);
  }

  /** The script builder: once a limit is exceeded it stays failed. */
  datatype Builder = Builder(script: Bytes, failed: bool)

  function AddOp(b: Builder, code: byte): (r: Builder) {
    if b.failed || |b.script| + 1 > MAX_SCRIPT then b.(failed := true) else b.(script := b.script + [code])
  }

  function AddData(b: Builder, d: Bytes): (r: Builder) {
    if b.failed || |d| > MAX_ELEMENT || |b.script| + |PushBytes(d)| > MAX_SCRIPT then b.(failed := true)
    else b.(script := b.script + PushBytes(d))
  }

  ghost predicate SigFits(items: Stack) {
    ItemsFit(items) && |SigBytes(items)| <= 10000
  }

  ghost predicate Pushed(b: Builder, items: Stack) {
    (b.failed <==> !SigFits(items)) && (!b.failed ==> b.script == SigBytes(items))
  }

  lemma PushedNext(b: Builder, items: Stack, i: nat)
    requires i < |items| && Pushed(b, items[..i])
    ensures Pushed(if items[i] != [] then AddData(b, items[i]) else AddOp(b, 0), items[..i + 1])
  {
    var d := items[i];
    assert items[..i + 1] == items[..i] + [d];
    if ItemsFit(items[..i]) && |d| <= MAX_ELEMENT {
      SigSnoc(items[..i], d);
    } else {
      assert !ItemsFit(items[..i + 1]) by {
        if ItemsFit(items[..i]) {
          assert items[..i + 1][i] == d;
        } else {
          var j :| 0 <= j < i && |items[..i][j]| > MAX_ELEMENT;
          assert items[..i + 1][j] == items[..i][j];
        }
      }
    }
  }

  lemma LandedIff(items: Stack)
    ensures LandedItems(items) == items <==> NoZeroItem(items)
    ensures LandedOps(Pushes(items)) == Pushes(LandedItems(items))
  {
    if LandedItems(items) == items {
      forall i | 0 <= i < |items| ensures items[i] != [0] {
        assert LandedItems(items)[i] == Landed(items[i]);
      }
    }
  }

  /** Run on an empty stack, these pushes leave exactly these items. */
  ghost predicate Leaves(script: Bytes, items: Stack) {
    && Parse(script) == Some(Pushes(items))
    && forall ctx :: Run(ctx, Pushes(items), Running([], [])) == Running(items, [])
  }

  /**
    The sig script of a witness. It exists exactly when no item and no script limit is exceeded, and
    run on an empty stack it leaves the witness with every item that is a single zero byte emptied:
    so exactly the witness if and only if there is no such item.
   */
  method GetSigScript(items: Stack) returns (r: Option<Bytes>)
    ensures r.Some? <==> SigFits(items)
    ensures r.Some? ==> r.value == SigBytes(items)
    ensures r.Some? ==> Leaves(r.value, LandedItems(items))
    ensures r.Some? ==> (Leaves(r.value, items) <==> NoZeroItem(items))
  {
    var b := Builder([], false);
    assert SigBytes(items[..0]) == [];
    for i := 0 to |items|
      invariant Pushed(b, items[..i])
    {
      PushedNext(b, items, i);
      // nil and empty items push the same opcode
      b := if items[i] != [] then AddData(b, items[i]) else AddOp(b, 0);
    }
    assert items[..|items|] == items;
    r := if b.failed then None else Some(b.script);
    if !b.failed {
      SigLeaves(items);
    }
  }

  lemma SigParses(items: Stack)
    requires ItemsFit(items)
    ensures Parse(SigBytes(items)) == Some(Pushes(LandedItems(items)))
  {
    ParseSerialize(Pushes(items));
    LandedIff(items);
  }

  lemma PushesLeave(script: Bytes, items: Stack)
    ensures Leaves(script, items) <==> Parse(script) == Some(Pushes(items))
  {
    forall ctx ensures Run(ctx, Pushes(items), Running([], [])) == Running(items, []) {
      RunPushes(ctx, items, []);
      assert [] + items == items;
    }
  }

  lemma SigLeaves(items: Stack)
    requires ItemsFit(items)
    ensures Leaves(SigBytes(items), LandedItems(items))
    ensures Leaves(SigBytes(items), items) <==> NoZeroItem(items)
  {
    SigParses(items);
    PushesLeave(SigBytes(items), items);
    PushesLeave(SigBytes(items), LandedItems(items));
    LandedIff(items);
    if Pushes(items) == Pushes(LandedItems(items)) {
      PushesInjective(items, LandedItems(items));
    }
  }

  lemma PushesInjective(a: Stack, b: Stack)
    requires Pushes(a) == Pushes(b)
    ensures a == b
  {
    forall i | 0 <= i < |a| ensures a[i] == b[i] {
      assert Pushes(a)[i] == Pushes(b)[i];
    }
  }

  /** The smallest witness whose sig script does not leave it. */
  lemma ZeroItemLost()
    ensures SigFits([[0]]) && Leaves(SigBytes([[0]]), [[]]) && !Leaves(SigBytes([[0]]), [[0]])
  {
    SigLeaves([[0]]);
    assert [[0]][0] == [0];
    assert LandedItems([[0]]) == [[]];
    SigSnoc([], [0]);
    assert [] + [[0]] == [[0]];
  }

  lemma {:induction false} RunPushes(ctx: Ctx, items: Stack, st: Stack)
    ensures Run(ctx, Pushes(items), Running(st, [])) == Running(st + items, [])
    decreases |items|
  {
    if items == [] {
      assert st + items == st;
    } else {
      RunPushes(ctx, items[1..], st + [items[0]]);
      assert Pushes(items)[1..] == Pushes(items[1..]);
      assert st + [items[0]] + items[1..] == st + items;
    }
  }

  /* ---------- pay to script hash ---------- */

  function P2SHOps(ctx: Ctx, script: Bytes): (ops: seq<Op>) {
    [Hash160, Push(Hash160Of(ctx, script)), Equal]
  }

  /** Hashes have twenty bytes. */
  ghost predicate HashSize(ctx: Ctx) {
    forall d :: |ctx.ripemd160(d)| == 20
  }

  ghost function GenerateP2SH(ctx: Ctx, script: Bytes): (b: Bytes)
    requires HashSize(ctx)
  {
    Serialize(P2SHOps(ctx, script))
  }

  /** OP_HASH160, a push of twenty bytes, OP_EQUAL. */
  lemma P2SHBytes(ctx: Ctx, script: Bytes)
    requires HashSize(ctx)
    ensures GenerateP2SH(ctx, script) == [169, 20] + ctx.ripemd160(ctx.sha256(script)) + [135]
  {
    var h := Hash160Of(ctx, script);
    SerializeCons(Equal, []);
    SerializeCons(Push(h), [Equal]);
    SerializeCons(Hash160, [Push(h), Equal]);
    assert [Push(h)] + [Equal] == [Push(h), Equal] && [Hash160] + [Push(h), Equal] == P2SHOps(ctx, script) && [Equal] + [] == [Equal];
    PushShapes(h);
    Join23(h);
  }

  lemma Join23(h: Bytes)
    ensures [169] + ([20] + h + ([135] + [])) == [169, 20] + h + [135]
  {
  }

  predicate PushOnly(ops: seq<Op>) {
    forall i :: 0 <= i < |ops| ==> ops[i].Push?
  }

  function Items(ops: seq<Op>): (items: Stack)
    requires PushOnly(ops)
    ensures |items| == |ops|
  {
    seq(|ops|, i requires 0 <= i < |ops| => ops[i].data)
  }

  /**
    The rule of BIP-16: the sig script only pushes; the output script accepts what it pushed; and
    the last item, as a script, accepts the others.
   */
  predicate SpendsP2SH(ctx: Ctx, sigScript: Bytes, pkScript: Bytes) {
    match (Parse(sigScript), Parse(pkScript))
    case (Some(sig), Some(pk)) =>
      && PushOnly(sig) && sig != []
      && (match Run(ctx, sig, Running([], []))
          case Failed => false
          case Running(st, _) =>
            st != [] && Accepts(ctx, pk, st) && Redeems(ctx, st))
    case _ => false
  }

  lemma HashMatches(ctx: Ctx, script: Bytes, w: Stack, redeem: Bytes)
    ensures Accepts(ctx, P2SHOps(ctx, script), w + [redeem]) <==> Hash160Of(ctx, redeem) == Hash160Of(ctx, script)
  {
    var ops := P2SHOps(ctx, script);
    var h := Hash160Of(ctx, script);
    var st := w + [redeem];
    AcceptsFlatten(ctx, Block(ops), st);
    assert ops[1..] == [Push(h), Equal] && [Push(h), Equal][1..] == [Equal] && [Equal][1..] == [];
    assert Pop(st, 1) == w;
    var d := Hash160Of(ctx, redeem);
    var r := w + [d] + [h];
    assert Pop(r, 2) == w;
    assert ExecOps(ctx, [Equal], r) == Some(w + [Bool(d == h)]) by {
      assert ExecOps(ctx, [], w + [Bool(d == h)]) == Some(w + [Bool(d == h)]);
    }
    assert ExecOps(ctx, [Push(h), Equal], w + [d]) == ExecOps(ctx, [Equal], r);
  }

  /** The last item, as a script, accepts the others. */
  predicate Redeems(ctx: Ctx, items: Stack)
    requires items != []
  {
    match Parse(Peek(items)) case None => false case Some(ops) => Accepts(ctx, ops, Pop(items, 1))
  }

  lemma P2SHParsed(ctx: Ctx, sigScript: Bytes, items: Stack, pkScript: Bytes, pk: seq<Op>)
    requires Parse(sigScript) == Some(Pushes(items)) && Parse(pkScript) == Some(pk)
    ensures SpendsP2SH(ctx, sigScript, pkScript) <==> items != [] && Accepts(ctx, pk, items) && Redeems(ctx, items)
  {
    RunPushes(ctx, items, []);
    assert [] + items == items;
  }

  /** Spending, in terms of what the sig script pushes. */
  lemma P2SHMeaning(ctx: Ctx, sigScript: Bytes, items: Stack, script: Bytes, pkScript: Bytes)
    requires Parse(sigScript) == Some(Pushes(items)) && Parse(pkScript) == Some(P2SHOps(ctx, script))
    ensures SpendsP2SH(ctx, sigScript, pkScript) <==>
            items != [] && Hash160Of(ctx, Peek(items)) == Hash160Of(ctx, script) && Redeems(ctx, items)
  {
    P2SHParsed(ctx, sigScript, items, pkScript, P2SHOps(ctx, script));
    if items != [] {
      assert Accepts(ctx, P2SHOps(ctx, script), items) <==> Hash160Of(ctx, Peek(items)) == Hash160Of(ctx, script) by {
        HashMatches(ctx, script, Pop(items, 1), Peek(items));
        assert items == Pop(items, 1) + [Peek(items)];
      }
    }
  }

  /**
    A witness whose last item is the script, turned into a sig script, spends the output paying to the
    script's hash exactly when the script accepts the other items.
   */
  lemma P2SHSpend(ctx: Ctx, ops: seq<Op>, w: Stack)
    requires HashSize(ctx) && AllFit(ops) && NoZeroPush(ops)
    requires SigFits(w + [Serialize(ops)]) && NoZeroItem(w + [Serialize(ops)])
    ensures SpendsP2SH(ctx, SigBytes(w + [Serialize(ops)]), GenerateP2SH(ctx, Serialize(ops))) <==> Accepts(ctx, ops, w)
  {
    var s := Serialize(ops);
    assert Parse(s) == Some(ops) by { ParseSerializeIff(ops); }
    assert Parse(SigBytes(w + [s])) == Some(Pushes(w + [s])) by {
      SigParses(w + [s]);
      LandedIff(w + [s]);
    }
    assert Parse(GenerateP2SH(ctx, s)) == Some(P2SHOps(ctx, s)) by { ParseSerializeIff(P2SHOps(ctx, s)); }
    ShowsAndSpends(ctx, ops, s, w, SigBytes(w + [s]), GenerateP2SH(ctx, s));
  }

  lemma ShowsAndSpends(ctx: Ctx, ops: seq<Op>, script: Bytes, w: Stack, sigScript: Bytes, pkScript: Bytes)
    requires Parse(script) == Some(ops) && Parse(sigScript) == Some(Pushes(w + [script]))
    requires Parse(pkScript) == Some(P2SHOps(ctx, script))
    ensures SpendsP2SH(ctx, sigScript, pkScript) <==> Accepts(ctx, ops, w)
  {
    assert Pop(w + [script], 1) == w && Peek(w + [script]) == script;
    P2SHMeaning(ctx, sigScript, w + [script], script, pkScript);
  }

  /** Every sig script that spends an output only pushes. */
  lemma P2SHPushes(ctx: Ctx, sigScript: Bytes, pkScript: Bytes) returns (items: Stack)
    requires SpendsP2SH(ctx, sigScript, pkScript)
    ensures Parse(sigScript) == Some(Pushes(items))
  {
    var sig := Parse(sigScript).value;
    items := Items(sig);
    assert Pushes(items) == sig;
  }

  lemma ItemsShow(ctx: Ctx, ops: seq<Op>, script: Bytes, items: Stack)
    requires Parse(script) == Some(ops)
    requires items != [] && Hash160Of(ctx, Peek(items)) == Hash160Of(ctx, script) && Redeems(ctx, items)
    requires !Collide160(ctx, Peek(items), script)
    ensures Peek(items) == script && Accepts(ctx, ops, Pop(items, 1))
  {
  }

  /**
    And no other sig script does: whatever spends the output pushes this script last, unless it
    pushes one with the same hash, and the items below satisfy it.
   */
  lemma P2SHOnly(ctx: Ctx, ops: seq<Op>, sigScript: Bytes, items: Stack)
    requires HashSize(ctx) && AllFit(ops) && NoZeroPush(ops)
    requires Parse(sigScript) == Some(Pushes(items)) && SpendsP2SH(ctx, sigScript, GenerateP2SH(ctx, Serialize(ops)))
    requires items != [] ==> !Collide160(ctx, Peek(items), Serialize(ops))
    ensures items != [] && Peek(items) == Serialize(ops) && Accepts(ctx, ops, Pop(items, 1))
  {
    ParseSerializeIff(ops);
    ParseSerializeIff(P2SHOps(ctx, Serialize(ops)));
    P2SHMeaning(ctx, sigScript, items, Serialize(ops), GenerateP2SH(ctx, Serialize(ops)));
    ItemsShow(ctx, ops, Serialize(ops), items);
  }
}
