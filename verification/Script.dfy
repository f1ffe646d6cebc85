/**
  A Bitcoin Script interpreter for the opcodes the channel scripts use, in the form of the
  btcd engine: one flat list of opcodes, a data stack and a stack of open conditionals.
  Hashing and signature checking are parameters.
 */
module Script {
  import opened Common

  type Bytes = seq<byte>
  /** The top of the stack is the last element. */
  type Stack = seq<Bytes>

  datatype Op =
    | Push(data: Bytes)
    | Dup | Drop | Swap | IfDup | Size
    | Hash160 | Equal | EqualVerify
    | CheckSig | CheckSigVerify | CheckMultiSig
    | CheckSequenceVerify | CheckLockTimeVerify
    | OpIf | OpNotIf | OpElse | OpEndIf

  /**
    What a script is run against: the hash functions, which signatures hold for which keys,
    and the fields of the spending transaction that the lock opcodes look at.
   */
  datatype Ctx = Ctx(sha256: Bytes -> Bytes, ripemd160: Bytes -> Bytes, signed: (Bytes, Bytes) -> bool, tx: TxFields)

  /** The sequence number is that of the spending input. */
  datatype TxFields = TxFields(version: nat, lockTime: nat, sequence: nat)

  function Hash160Of(ctx: Ctx, d: Bytes): (h: Bytes) {
    ctx.ripemd160(ctx.sha256(d))
  }

  /** Two different items with one hash, as the scripts compare them. */
  predicate Collide160(ctx: Ctx, a: Bytes, b: Bytes) {
    a != b && Hash160Of(ctx, a) == Hash160Of(ctx, b)
  }

  /* ---------- script numbers ---------- */

  /** Little-endian value. */
  function Value(d: Bytes): (n: nat) {
    if d == [] then 0 else d[0] + 256 * Value(d[1..])
  }

  function LittleEndian(n: nat): (d: Bytes)
    ensures n > 0 ==> d != [] && d[|d| - 1] > 0
  {
    if n == 0 then [] else [n % 256] + LittleEndian(n / 256)
  }

  /** The minimal encoding of a non-negative number: a sign byte is added when the top bit is taken. */
  function EncodeNum(n: nat): (d: Bytes) {
    var d := LittleEndian(n);
    if n > 0 && d[|d| - 1] >= 128 then d + [0] else d
  }

  function DecodeNum(d: Bytes): (n: int) {
    if d == [] then 0
    else if d[|d| - 1] >= 128 then -(Value(d[..|d| - 1] + [d[|d| - 1] - 128]) as int)
    else Value(d)
  }

  lemma {:induction false} ValueOfLittleEndian(n: nat)
    ensures Value(LittleEndian(n)) == n
  {
    if n > 0 {
      ValueOfLittleEndian(n / 256);
      assert LittleEndian(n)[1..] == LittleEndian(n / 256);
    }
  }

  lemma {:induction false} ValueSnocZero(d: Bytes)
    ensures Value(d + [0]) == Value(d)
  {
    if d != [] {
      ValueSnocZero(d[1..]);
      assert (d + [0])[1..] == d[1..] + [0];
    } else {
      assert (d + [0])[1..] == [];
    }
  }

  lemma NumRoundTrip(n: nat)
    ensures DecodeNum(EncodeNum(n)) == n
  {
    ValueOfLittleEndian(n);
    ValueSnocZero(LittleEndian(n));
  }

  /** A uint32 fits the five bytes the lock opcodes accept. */
  lemma UInt32Fits(n: nat)
    requires n < 0x1_0000_0000
    ensures |EncodeNum(n)| <= 5
  {
    var a, b, c := n / 256, n / 256 / 256, n / 256 / 256 / 256;
    assert c < 256 && c / 256 == 0;
    assert |LittleEndian(c)| <= 1 && |LittleEndian(b)| <= 2 && |LittleEndian(a)| <= 3;
  }

  /** Only the length 32 encodes as the script's constant 32. */
  lemma Num32(n: nat)
    ensures EncodeNum(n) == [32] <==> n == 32
    ensures EncodeNum(32) == [32]
  {
    NumRoundTrip(n);
    assert LittleEndian(32) == [32] + LittleEndian(0);
    assert EncodeNum(32) == [32];
  }

  /** No number is encoded as a single zero byte. */
  lemma NotZeroByte(n: nat)
    ensures EncodeNum(n) != [0]
  {
    if n > 0 {
      assert LittleEndian(n)[|LittleEndian(n)| - 1] > 0;
    }
  }

  lemma SmallNum(n: nat)
    requires 0 < n < 128
    ensures EncodeNum(n) == [n] && DecodeNum([n]) == n
  {
    NumRoundTrip(n);
    assert LittleEndian(n) == [n] + LittleEndian(0);
  }

  /** False is zero, with or without a sign bit. */
  predicate AsBool(d: Bytes) {
    exists i :: 0 <= i < |d| && d[i] != 0 && !(i == |d| - 1 && d[i] == 128)
  }

  /** So an item is true exactly if it is not zero as a number. */
  lemma TrueIsNonZero(d: Bytes)
    ensures AsBool(d) <==> DecodeNum(d) != 0
  {
    if d != [] {
      var front, last := d[..|d| - 1], d[|d| - 1];
      assert d == front + [last];
      ValueZero(d);
      if last >= 128 {
        var e := front + [last - 128];
        ValueZero(e);
        assert (exists i :: 0 <= i < |e| && e[i] != 0) <==> AsBool(d) by {
          forall i | 0 <= i < |d| ensures e[i] != 0 <==> d[i] != 0 && !(i == |d| - 1 && d[i] == 128) {
          }
        }
      }
    }
  }

  lemma {:induction false} ValueZero(d: Bytes)
    ensures Value(d) != 0 <==> exists i :: 0 <= i < |d| && d[i] != 0
  {
    if d != [] {
      ValueZero(d[1..]);
      if i :| 0 <= i < |d| && d[i] != 0 {
        assert i > 0 ==> d[1..][i - 1] != 0;
      }
      if i :| 0 <= i < |d[1..]| && d[1..][i] != 0 {
        assert d[i + 1] != 0;
      }
    }
  }

  function Bool(b: bool): (d: Bytes)
    ensures AsBool(d) <==> b
  {
    if b then
      assert [1][0] != 0;
      [1]
    else []
  }

  /* ---------- the lock opcodes ---------- */

  const SEQUENCE_DISABLED := 0x8000_0000
  const SEQUENCE_SECONDS := 0x40_0000
  const SEQUENCE_FINAL := 0xFFFF_FFFF
  const LOCKTIME_THRESHOLD := 500_000_000

  predicate Bit(x: nat, power: nat)
    requires power > 0
  {
    x / power % 2 == 1
  }

  /** The bits of a sequence number that BIP-68 compares: the unit flag and the low 16 bits. */
  function Masked(x: nat): (r: nat) {
    x % 0x1_0000 + (if Bit(x, SEQUENCE_SECONDS) then SEQUENCE_SECONDS else 0)
  }

  /** Lock times compare only within the same kind. */
  predicate Reached(actual: nat, threshold: nat, required: nat) {
    (actual < threshold <==> required < threshold) && required <= actual
  }

  /** BIP-112 */
  predicate SequenceReached(ctx: Ctx, n: nat) {
    Bit(n, SEQUENCE_DISABLED) ||
    (ctx.tx.version >= 2 && !Bit(ctx.tx.sequence, SEQUENCE_DISABLED) && Reached(Masked(ctx.tx.sequence), SEQUENCE_SECONDS, Masked(n)))
  }

  /** BIP-65 */
  predicate LockTimeReached(ctx: Ctx, n: nat) {
    Reached(ctx.tx.lockTime, LOCKTIME_THRESHOLD, n) && ctx.tx.sequence != SEQUENCE_FINAL
  }

  /** What an absolute lock asks of a transaction: an input that is not final, and a lock time of the same unit that is no earlier. */
  predicate NotBefore(tx: TxFields, n: nat) {
    n <= tx.lockTime && (n < 500_000_000 <==> tx.lockTime < 500_000_000) && tx.sequence != 0xFFFF_FFFF
  }

  /** What a relative lock asks, unless its top bit voids it: version 2, and an input lock of the same unit that is no shorter. */
  predicate Waited(tx: TxFields, n: nat) {
    n / 0x8000_0000 % 2 == 1 ||
    (&& tx.version >= 2 && tx.sequence / 0x8000_0000 % 2 == 0
     && n / 0x40_0000 % 2 == tx.sequence / 0x40_0000 % 2 && n % 0x1_0000 <= tx.sequence % 0x1_0000)
  }

  lemma LockTimeMeaning(ctx: Ctx, n: nat)
    ensures LockTimeReached(ctx, n) <==> NotBefore(ctx.tx, n)
  {
  }

  /** For an expiry in blocks: the lock time is a height too, and has reached it. */
  lemma BlockExpiry(ctx: Ctx, n: nat)
    requires n < 500_000_000
    ensures LockTimeReached(ctx, n) <==> n <= ctx.tx.lockTime < 500_000_000 && ctx.tx.sequence != 0xFFFF_FFFF
  {
  }

  /** For an expiry in seconds. */
  lemma TimeExpiry(ctx: Ctx, n: nat)
    requires n >= 500_000_000
    ensures LockTimeReached(ctx, n) <==> n <= ctx.tx.lockTime && ctx.tx.sequence != 0xFFFF_FFFF
  {
  }

  lemma SequenceMeaning(ctx: Ctx, n: nat)
    ensures SequenceReached(ctx, n) <==> Waited(ctx.tx, n)
  {
    MaskedCompare(ctx.tx.sequence, n);
  }

  /** Masked values compare as their low 16 bits do, within one unit. */
  lemma MaskedCompare(x: nat, n: nat)
    ensures Reached(Masked(x), SEQUENCE_SECONDS, Masked(n)) <==> Bit(x, SEQUENCE_SECONDS) == Bit(n, SEQUENCE_SECONDS) && n % 0x1_0000 <= x % 0x1_0000
  {
  }

  /** For a delay in blocks below 2^16 the check means what it says: version 2, a block-based lock, and that many blocks. */
  lemma BlockDelay(ctx: Ctx, n: nat)
    requires n < 0x1_0000
    ensures SequenceReached(ctx, n) <==>
            && ctx.tx.version >= 2 && !Bit(ctx.tx.sequence, SEQUENCE_DISABLED) && !Bit(ctx.tx.sequence, SEQUENCE_SECONDS)
            && n <= ctx.tx.sequence % 0x1_0000
  {
    assert n / SEQUENCE_DISABLED == 0 && n / SEQUENCE_SECONDS == 0;
    assert Masked(n) == n;
  }

  /** A relative lock constrains no spender at all exactly when its disable bit is set; no 16-bit delay has it. */
  lemma LockIsVoid(n: uint32)
    ensures (forall ctx :: SequenceReached(ctx, n)) <==> Bit(n, SEQUENCE_DISABLED)
    ensures n < 0x1_0000 ==> !Bit(n, SEQUENCE_DISABLED)
  {
    if !Bit(n, SEQUENCE_DISABLED) {
      var ctx := Ctx((d: Bytes) => d, (d: Bytes) => d, (s: Bytes, k: Bytes) => false, TxFields(1, 0, 0));
      assert !SequenceReached(ctx, n);
    }
  }

  /* ---------- straight-line opcodes ---------- */

  predicate Signed(ctx: Ctx, sig: Bytes, key: Bytes) {
    sig != [] && ctx.signed(sig, key)
  }

  /** Signatures are matched to keys in order, from the top of the stack down. */
  predicate MultiSigned(ctx: Ctx, sigs: seq<Bytes>, keys: seq<Bytes>) {
    if sigs == [] then true
    else if |sigs| > |keys| then false
    else
      var sigs', keys' := sigs[..|sigs| - 1], keys[..|keys| - 1];
      if Signed(ctx, sigs[|sigs| - 1], keys[|keys| - 1]) then MultiSigned(ctx, sigs', keys') else MultiSigned(ctx, sigs, keys')
  }

  function Pop(st: Stack, n: nat): (r: Stack)
    requires n <= |st|
  {
    st[..|st| - n]
  }

  function Peek(st: Stack): (d: Bytes)
    requires st != []
  {
    st[|st| - 1]
  }

  /** A count taken from the top of the stack: at most four bytes, between 0 and max. */
  function PopCount(st: Stack, max: nat): (r: Option<nat>) {
    if st == [] || |Peek(st)| > 4 then None
    else if 0 <= DecodeNum(Peek(st)) <= max then Some(DecodeNum(Peek(st)))
    else None
  }

  function MultiSigStep(ctx: Ctx, st: Stack): (r: Option<Stack>) {
    match PopCount(st, 20)
    case None => None
    case Some(n) =>
      var st1 := Pop(st, 1);
      if |st1| < n then None else
        var keys, st2 := st1[|st1| - n..], Pop(st1, n);
        match PopCount(st2, n)
        case None => None
        case Some(m) =>
          var st3 := Pop(st2, 1);
          // one extra element is consumed below the signatures
          if |st3| < m + 1 then None
          else Some(Pop(st3, m + 1) + [Bool(MultiSigned(ctx, st3[|st3| - m..], keys))])
  }

  /** The argument of a lock opcode: the top of the stack, which stays there. */
  function LockArg(st: Stack): (r: Option<nat>) {
    if st == [] || |Peek(st)| > 5 || DecodeNum(Peek(st)) < 0 then None else Some(DecodeNum(Peek(st)))
  }

  predicate Plain(op: Op) {
    !op.OpIf? && !op.OpNotIf? && !op.OpElse? && !op.OpEndIf?
  }

  function Apply(ctx: Ctx, op: Op, st: Stack): (r: Option<Stack>)
    requires Plain(op)
  {
    match op
    case Push(d) => Some(st + [d])
    case Dup => if |st| < 1 then None else Some(st + [Peek(st)])
    case Drop => if |st| < 1 then None else Some(Pop(st, 1))
    case Swap => if |st| < 2 then None else Some(Pop(st, 2) + [st[|st| - 1], st[|st| - 2]])
    case IfDup => if |st| < 1 then None else if AsBool(Peek(st)) then Some(st + [Peek(st)]) else Some(st)
    case Size => if |st| < 1 then None else Some(st + [EncodeNum(|Peek(st)|)])
    case Hash160 => if |st| < 1 then None else Some(Pop(st, 1) + [Hash160Of(ctx, Peek(st))])
    case Equal => if |st| < 2 then None else Some(Pop(st, 2) + [Bool(st[|st| - 1] == st[|st| - 2])])
    case EqualVerify => if |st| < 2 || st[|st| - 1] != st[|st| - 2] then None else Some(Pop(st, 2))
    case CheckSig => if |st| < 2 then None else Some(Pop(st, 2) + [Bool(Signed(ctx, st[|st| - 2], st[|st| - 1]))])
    case CheckSigVerify => if |st| < 2 || !Signed(ctx, st[|st| - 2], st[|st| - 1]) then None else Some(Pop(st, 2))
    case CheckMultiSig => MultiSigStep(ctx, st)
    case CheckSequenceVerify =>
      (match LockArg(st) case Some(n) => if SequenceReached(ctx, n) then Some(st) else None case None => None)
    case CheckLockTimeVerify =>
      (match LockArg(st) case Some(n) => if LockTimeReached(ctx, n) then Some(st) else None case None => None)
  }

  /* ---------- the engine ---------- */

  datatype Cond = Taken | NotTaken | Skipped

  datatype Machine = Running(stack: Stack, conds: seq<Cond>) | Failed

  predicate Executing(conds: seq<Cond>) {
    conds == [] || conds[|conds| - 1] == Taken
  }

  function Flipped(c: Cond): (r: Cond) {
    match c case Taken => NotTaken case NotTaken => Taken case Skipped => Skipped
  }

  function Step(ctx: Ctx, op: Op, m: Machine): (r: Machine) {
    match m
    case Failed => Failed
    case Running(st, conds) =>
      match op
      case OpIf => Branch(st, conds, false)
      case OpNotIf => Branch(st, conds, true)
      case OpElse =>
        if conds == [] then Failed else Running(st, conds[..|conds| - 1] + [Flipped(conds[|conds| - 1])])
      case OpEndIf => if conds == [] then Failed else Running(st, conds[..|conds| - 1])
      case _ =>
        if !Executing(conds) then m
        else match Apply(ctx, op, st) case Some(st') => Running(st', conds) case None => Failed
  }

  function Branch(st: Stack, conds: seq<Cond>, negated: bool): (r: Machine) {
    if !Executing(conds) then Running(st, conds + [Skipped])
    else if st == [] then Failed
    else Running(Pop(st, 1), conds + [if AsBool(Peek(st)) != negated then Taken else NotTaken])
  }

  function Run(ctx: Ctx, ops: seq<Op>, m: Machine): (r: Machine) {
    if ops == [] then m else Run(ctx, ops[1..], Step(ctx, ops[0], m))
  }

  /** The script accepts the witness stack: it ends with balanced conditionals and a true top element. */
  predicate Accepts(ctx: Ctx, ops: seq<Op>, items: Stack) {
    match Run(ctx, ops, Running(items, []))
    case Failed => false
    case Running(st, conds) => conds == [] && st != [] && AsBool(Peek(st))
  }

  /* ---------- structured scripts ---------- */

  /** A script as nested conditionals. */
  datatype Prog =
    | Block(ops: seq<Op>)
    | If(negated: bool, thn: Prog, els: Prog)
    | When(negated: bool, body: Prog)
    | Then(first: Prog, second: Prog)

  function Flatten(p: Prog): (ops: seq<Op>) {
    match p
    case Block(ops) => ops
    case If(negated, t, e) => [Opening(negated)] + Flatten(t) + [OpElse] + Flatten(e) + [OpEndIf]
    case When(negated, b) => [Opening(negated)] + Flatten(b) + [OpEndIf]
    case Then(p1, p2) => Flatten(p1) + Flatten(p2)
  }

  predicate WellFormed(p: Prog) {
    match p
    case Block(ops) => forall op :: op in ops ==> Plain(op)
    case If(_, t, e) => WellFormed(t) && WellFormed(e)
    case When(_, b) => WellFormed(b)
    case Then(p1, p2) => WellFormed(p1) && WellFormed(p2)
  }

  function ExecOps(ctx: Ctx, ops: seq<Op>, st: Stack): (r: Option<Stack>)
    requires forall op :: op in ops ==> Plain(op)
  {
    if ops == [] then Some(st) else
      match Apply(ctx, ops[0], st)
      case None => None
      case Some(st') => ExecOps(ctx, ops[1..], st')
  }

  /** The meaning of a structured script as a function of the stack alone. */
  function Exec(ctx: Ctx, p: Prog, st: Stack): (r: Option<Stack>)
    requires WellFormed(p)
  {
    match p
    case Block(ops) => ExecOps(ctx, ops, st)
    case If(negated, t, e) =>
      if st == [] then None
      else if AsBool(Peek(st)) != negated then Exec(ctx, t, Pop(st, 1)) else Exec(ctx, e, Pop(st, 1))
    case When(negated, b) =>
      if st == [] then None
      else if AsBool(Peek(st)) != negated then Exec(ctx, b, Pop(st, 1)) else Some(Pop(st, 1))
    case Then(p1, p2) => (match Exec(ctx, p1, st) case None => None case Some(st') => Exec(ctx, p2, st'))
  }

  lemma {:induction false} RunFailed(ctx: Ctx, ops: seq<Op>)
    ensures Run(ctx, ops, Failed) == Failed
  {
    if ops != [] {
      RunFailed(ctx, ops[1..]);
    }
  }

  lemma {:induction false} RunAppend(ctx: Ctx, a: seq<Op>, b: seq<Op>, m: Machine)
    ensures Run(ctx, a + b, m) == Run(ctx, b, Run(ctx, a, m))
  {
    if a == [] {
      assert a + b == b;
    } else {
      assert (a + b)[1..] == a[1..] + b;
      RunAppend(ctx, a[1..], b, Step(ctx, a[0], m));
    }
  }

  lemma RunOne(ctx: Ctx, op: Op, m: Machine)
    ensures Run(ctx, [op], m) == Step(ctx, op, m)
  {
    assert [op][1..] == [];
  }

  function Result(r: Option<Stack>, conds: seq<Cond>): (m: Machine) {
    match r case None => Failed case Some(st) => Running(st, conds)
  }

  lemma {:induction false} RunPlain(ctx: Ctx, ops: seq<Op>, st: Stack, conds: seq<Cond>)
    requires forall op :: op in ops ==> Plain(op)
    ensures Run(ctx, ops, Running(st, conds)) ==
            if Executing(conds) then Result(ExecOps(ctx, ops, st), conds) else Running(st, conds)
  {
    if ops != [] {
      if Executing(conds) {
        match Apply(ctx, ops[0], st)
        case None => RunFailed(ctx, ops[1..]);
        case Some(st') => RunPlain(ctx, ops[1..], st', conds);
      } else {
        assert Step(ctx, ops[0], Running(st, conds)) == Running(st, conds);
        RunPlain(ctx, ops[1..], st, conds);
      }
    }
  }

  ghost predicate Agrees(ctx: Ctx, p: Prog, st: Stack, conds: seq<Cond>)
    requires WellFormed(p)
  {
    Run(ctx, Flatten(p), Running(st, conds)) ==
    if Executing(conds) then Result(Exec(ctx, p, st), conds) else Running(st, conds)
  }

  /**
    The flat engine and the structured meaning agree on every well-formed script: an open branch
    runs it, a closed one skips over it whole.
   */
  lemma {:induction false} RunFlatten(ctx: Ctx, p: Prog, st: Stack, conds: seq<Cond>)
    requires WellFormed(p)
    ensures Agrees(ctx, p, st, conds)
    decreases p, 1
  {
    match p
    case Block(ops) => RunPlain(ctx, ops, st, conds);
    case Then(_, _) => ThenAgrees(ctx, p, st, conds);
    case When(_, _) => WhenAgrees(ctx, p, st, conds);
    case If(_, _, _) => IfAgrees(ctx, p, st, conds);
  }

  lemma {:induction false} ThenAgrees(ctx: Ctx, p: Prog, st: Stack, conds: seq<Cond>)
    requires WellFormed(p) && p.Then?
    ensures Agrees(ctx, p, st, conds)
    decreases p, 0
  {
    RunAppend(ctx, Flatten(p.first), Flatten(p.second), Running(st, conds));
    RunFlatten(ctx, p.first, st, conds);
    RunFailed(ctx, Flatten(p.second));
    if !Executing(conds) {
      RunFlatten(ctx, p.second, st, conds);
    } else if Exec(ctx, p.first, st).Some? {
      RunFlatten(ctx, p.second, Exec(ctx, p.first, st).value, conds);
    }
  }

  function Opening(negated: bool): (op: Op) {
    if negated then OpNotIf else OpIf
  }

  /** What opening a conditional does to the two stacks. */
  lemma OpeningStep(ctx: Ctx, negated: bool, st: Stack, conds: seq<Cond>)
    ensures var m := Step(ctx, Opening(negated), Running(st, conds));
            if !Executing(conds) then m == Running(st, conds + [Skipped])
            else if st == [] then m == Failed
            else m == Running(Pop(st, 1), conds + [if AsBool(Peek(st)) != negated then Taken else NotTaken])
  {
  }

  /** What closing one does. */
  lemma ClosingStep(ctx: Ctx, st: Stack, conds: seq<Cond>, c: Cond)
    ensures Step(ctx, OpEndIf, Running(st, conds + [c])) == Running(st, conds)
    ensures Step(ctx, OpElse, Running(st, conds + [c])) == Running(st, conds + [Flipped(c)])
    ensures Executing(conds + [c]) <==> c == Taken
  {
    assert (conds + [c])[..|conds + [c]| - 1] == conds;
  }

  lemma {:induction false} WhenAgrees(ctx: Ctx, p: Prog, st: Stack, conds: seq<Cond>)
    requires WellFormed(p) && p.When?
    ensures Agrees(ctx, p, st, conds)
    decreases p, 0
  {
    RunWhen(ctx, Opening(p.negated), Flatten(p.body), Running(st, conds));
    OpeningStep(ctx, p.negated, st, conds);
    if Executing(conds) && st == [] {
      RunFailed(ctx, Flatten(p.body));
    } else {
      var (st', c) := if Executing(conds) then (Pop(st, 1), if AsBool(Peek(st)) != p.negated then Taken else NotTaken) else (st, Skipped);
      RunFlatten(ctx, p.body, st', conds + [c]);
      ClosingStep(ctx, st', conds, c);
      if c == Taken && Exec(ctx, p.body, st').Some? {
        ClosingStep(ctx, Exec(ctx, p.body, st').value, conds, c);
      }
    }
  }

  lemma {:induction false} IfAgrees(ctx: Ctx, p: Prog, st: Stack, conds: seq<Cond>)
    requires WellFormed(p) && p.If?
    ensures Agrees(ctx, p, st, conds)
    decreases p, 0
  {
    RunIf(ctx, Opening(p.negated), Flatten(p.thn), Flatten(p.els), Running(st, conds));
    OpeningStep(ctx, p.negated, st, conds);
    if Executing(conds) && st == [] {
      RunFailed(ctx, Flatten(p.thn));
      RunFailed(ctx, Flatten(p.els));
    } else if Executing(conds) {
      var st' := Pop(st, 1);
      if AsBool(Peek(st)) != p.negated {
        BranchAgrees(ctx, p.thn, st', conds, Taken);
        if Exec(ctx, p.thn, st').Some? {
          BranchAgrees(ctx, p.els, Exec(ctx, p.thn, st').value, conds, NotTaken);
        } else {
          RunFailed(ctx, Flatten(p.els));
        }
      } else {
        BranchAgrees(ctx, p.thn, st', conds, NotTaken);
        BranchAgrees(ctx, p.els, st', conds, Taken);
      }
    } else {
      BranchAgrees(ctx, p.thn, st, conds, Skipped);
      BranchAgrees(ctx, p.els, st, conds, Skipped);
    }
  }

  /** One arm of a conditional, up to the opcode that ends it. */
  lemma {:induction false} BranchAgrees(ctx: Ctx, p: Prog, st: Stack, conds: seq<Cond>, c: Cond)
    requires WellFormed(p)
    ensures var m := Run(ctx, Flatten(p), Running(st, conds + [c]));
            var st' := if c == Taken then Exec(ctx, p, st) else Some(st);
            && Step(ctx, OpElse, m) == Result(st', conds + [Flipped(c)])
            && Step(ctx, OpEndIf, m) == Result(st', conds)
    decreases p, 2
  {
    RunFlatten(ctx, p, st, conds + [c]);
    ClosingStep(ctx, st, conds, c);
    if c == Taken && Exec(ctx, p, st).Some? {
      ClosingStep(ctx, Exec(ctx, p, st).value, conds, c);
    }
  }

  lemma RunWhen(ctx: Ctx, head: Op, body: seq<Op>, m: Machine)
    ensures Run(ctx, [head] + body + [OpEndIf], m) == Step(ctx, OpEndIf, Run(ctx, body, Step(ctx, head, m)))
  {
    RunAppend(ctx, [head] + body, [OpEndIf], m);
    RunAppend(ctx, [head], body, m);
    RunOne(ctx, head, m);
    RunOne(ctx, OpEndIf, Run(ctx, body, Step(ctx, head, m)));
  }

  lemma RunIf(ctx: Ctx, head: Op, t: seq<Op>, e: seq<Op>, m: Machine)
    ensures Run(ctx, [head] + t + [OpElse] + e + [OpEndIf], m) ==
            Step(ctx, OpEndIf, Run(ctx, e, Step(ctx, OpElse, Run(ctx, t, Step(ctx, head, m)))))
  {
    RunAppend(ctx, [head] + t + [OpElse] + e, [OpEndIf], m);
    RunAppend(ctx, [head] + t + [OpElse], e, m);
    RunAppend(ctx, [head] + t, [OpElse], m);
    RunAppend(ctx, [head], t, m);
    RunOne(ctx, head, m);
    RunOne(ctx, OpElse, Run(ctx, t, Step(ctx, head, m)));
    RunOne(ctx, OpEndIf, Run(ctx, e, Step(ctx, OpElse, Run(ctx, t, Step(ctx, head, m)))));
  }

  /** Acceptance in terms of the structured meaning. */
  lemma AcceptsFlatten(ctx: Ctx, p: Prog, items: Stack)
    requires WellFormed(p)
    ensures Accepts(ctx, Flatten(p), items) <==>
            match Exec(ctx, p, items) case None => false case Some(st) => st != [] && AsBool(Peek(st))
  {
    RunFlatten(ctx, p, items, []);
  }
}
