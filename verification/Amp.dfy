/**
  Secret sharing of atomic multi-path payments (amp/): shares and their XOR, the sender's shard
  tracker, and the receiver's reconstruction. SHA-256 is a parameter; random draws are arguments.
 */
module Amp {
  import opened Common

  type Share = s: seq<byte> | |s| == 32
    witness [0, 0, 0, 0, 0, 0, 0, 0, 0, 0, 0, 0, 0, 0, 0, 0, 0, 0, 0, 0, 0, 0, 0, 0, 0, 0, 0, 0, 0, 0, 0, 0]
  type Sha256 = seq<byte> -> seq<byte>

  const ZERO: Share :=
    [0, 0, 0, 0, 0, 0, 0, 0, 0, 0, 0, 0, 0, 0, 0, 0, 0, 0, 0, 0, 0, 0, 0, 0, 0, 0, 0, 0, 0, 0, 0, 0]

  /* ---------- exclusive or ---------- */

  /** a ^ b, bit by bit. */
  function XorNat(a: nat, b: nat): (r: nat)
    decreases a + b
  {
    if a == 0 && b == 0 then 0 else 2 * XorNat(a / 2, b / 2) + (a + b) % 2
  }

  lemma XorParts(a: nat, b: nat)
    ensures XorNat(a, b) / 2 == XorNat(a / 2, b / 2) && XorNat(a, b) % 2 == (a + b) % 2
  {
  }

  function BitOf(n: nat, i: nat): (b: nat) {
    if i == 0 then n % 2 else BitOf(n / 2, i - 1)
  }

  /** Bit by bit: set exactly where one of the two is. */
  lemma {:induction false} XorNatBits(a: nat, b: nat, i: nat)
    ensures BitOf(XorNat(a, b), i) == 1 <==> BitOf(a, i) != BitOf(b, i)
    decreases i
  {
    if i == 0 {
      assert XorNat(a, b) % 2 == (a + b) % 2 by { XorParts(a, b); }
      SumIsOdd(a, b);
    } else {
      assert XorNat(a, b) / 2 == XorNat(a / 2, b / 2) by { XorParts(a, b); }
      XorNatBits(a / 2, b / 2, i - 1);
    }
  }

  lemma SumIsOdd(a: nat, b: nat)
    ensures (a + b) % 2 == 1 <==> a % 2 != b % 2
  {
  }

  lemma {:induction false} XorNatComm(a: nat, b: nat)
    ensures XorNat(a, b) == XorNat(b, a)
    decreases a + b
  {
    if a > 0 || b > 0 {
      XorNatComm(a / 2, b / 2);
    }
  }

  lemma {:induction false} XorNatSelf(a: nat)
    ensures XorNat(a, a) == 0 && XorNat(a, 0) == a
  {
    if a > 0 {
      XorNatSelf(a / 2);
    }
  }

  lemma {:induction false} XorNatAssoc(a: nat, b: nat, c: nat)
    ensures XorNat(XorNat(a, b), c) == XorNat(a, XorNat(b, c))
    decreases a + b + c
  {
    if a > 0 || b > 0 || c > 0 {
      var ab, bc := XorNat(a, b), XorNat(b, c);
      var x, y := XorNat(ab, c), XorNat(a, bc);
      XorParts(a, b);
      XorParts(b, c);
      assert x / 2 == XorNat(ab / 2, c / 2) && x % 2 == (ab + c) % 2 by { XorParts(ab, c); }
      assert y / 2 == XorNat(a / 2, bc / 2) && y % 2 == (a + bc) % 2 by { XorParts(a, bc); }
      assert x / 2 == y / 2 by { XorNatAssoc(a / 2, b / 2, c / 2); }
      SameParity(a, b, c, ab, bc, x, y);
    }
  }

  lemma SameParity(a: nat, b: nat, c: nat, ab: nat, bc: nat, x: nat, y: nat)
    requires ab % 2 == (a + b) % 2 && bc % 2 == (b + c) % 2
    requires x % 2 == (ab + c) % 2 && y % 2 == (a + bc) % 2 && x / 2 == y / 2
    ensures x == y
  {
    var i, j := (a + b) / 2, (b + c) / 2;
    assert a + b == 2 * i + ab % 2 && b + c == 2 * j + bc % 2;
    assert ab == 2 * (ab / 2) + ab % 2 && bc == 2 * (bc / 2) + bc % 2;
    assert ab + c - (a + bc) == 2 * (ab / 2 - i - bc / 2 + j);
  }

  lemma {:induction false} XorNatBound(a: nat, b: nat, n: nat)
    requires a < Power(n) && b < Power(n)
    ensures XorNat(a, b) < Power(n)
    decreases n
  {
    if n > 0 {
      XorNatBound(a / 2, b / 2, n - 1);
    }
  }

  function Power(n: nat): (p: nat) {
    if n == 0 then 1 else 2 * Power(n - 1)
  }

  function XorByte(a: byte, b: byte): (r: byte) {
    assert Power(4) == 16 && Power(8) == 256;
    XorNatBound(a, b, 8);
    XorNat(a, b)
  }

  function Xor(x: Share, y: Share): (z: Share) {
    seq(32, i requires 0 <= i < 32 => XorByte(x[i], y[i]))
  }

  lemma XorLaws(x: Share, y: Share, z: Share)
    ensures Xor(x, y) == Xor(y, x)
    ensures Xor(Xor(x, y), z) == Xor(x, Xor(y, z))
    ensures Xor(x, x) == ZERO && Xor(x, ZERO) == x && Xor(ZERO, x) == x
  {
    forall i | 0 <= i < 32
      ensures Xor(x, y)[i] == Xor(y, x)[i] && Xor(Xor(x, y), z)[i] == Xor(x, Xor(y, z))[i]
      ensures Xor(x, x)[i] == ZERO[i] && Xor(x, ZERO)[i] == x[i] && Xor(ZERO, x)[i] == x[i]
    {
      XorNatComm(x[i], y[i]);
      XorNatComm(x[i], 0);
      XorNatAssoc(x[i], y[i], z[i]);
      XorNatSelf(x[i]);
    }
  }

  lemma XorCancel(x: Share, y: Share)
    ensures Xor(x, Xor(x, y)) == y
    ensures Xor(x, y) == ZERO <==> x == y
  {
    XorLaws(x, x, y);
    XorLaws(y, y, x);
    if Xor(x, y) == ZERO {
      assert Xor(x, ZERO) == x;
    }
  }

  /** Stores the XOR of x and y in z, byte by byte; z may be either of them. */
  method XorInto(z: array<byte>, x: array<byte>, y: array<byte>)
    requires z.Length == x.Length == y.Length == 32
    modifies z
    ensures z[..] == Xor(old(x[..]), old(y[..]))
  {
    for i := 0 to 32
      invariant forall j :: 0 <= j < i ==> z[j] == XorByte(old(x[j]), old(y[j]))
      invariant forall j :: i <= j < 32 ==> z[j] == old(z[j])
      invariant x != z ==> x[..] == old(x[..])
      invariant y != z ==> y[..] == old(y[..])
    {
      assert x[i] == old(x[..])[i] && y[i] == old(y[..])[i];
      z[i] := XorByte(x[i], y[i]);
    }
  }

  /* ---------- children ---------- */

  datatype ChildDesc = ChildDesc(share: Share, index: uint32)
  datatype Child = Child(desc: ChildDesc, preimage: seq<byte>, hash: seq<byte>)

  function BigEndian32(n: uint32): (b: seq<byte>) {
    [n / 0x100_0000, n / 0x1_0000 % 256, n / 256 % 256, n % 256]
  }

  lemma BigEndianInjective(m: uint32, n: uint32)
    requires BigEndian32(m) == BigEndian32(n)
    ensures m == n
  {
    BigEndianValue(m);
    BigEndianValue(n);
  }

  lemma BigEndianValue(n: uint32)
    ensures var b := BigEndian32(n); n == 0x100_0000 * b[0] as int + 0x1_0000 * b[1] as int + 0x100 * b[2] as int + b[3] as int
  {
    var n1 := n / 0x100;
    var n2 := n1 / 0x100;
    assert n / 0x1_0000 == n2 && n / 0x100_0000 == n2 / 0x100;
  }

  function DeriveChild(sha: Sha256, root: Share, desc: ChildDesc): (c: Child) {
    var preimage := sha(ChildInput(root, desc));
    Child(desc, preimage, sha(preimage))
  }

  /** What is hashed for a child. */
  function ChildInput(root: Share, desc: ChildDesc): (b: seq<byte>) {
    root + desc.share + BigEndian32(desc.index)
  }

  /**
    A child is two hashes: its preimage is the hash of 68 bytes, root, share and index, the index with its
    most significant byte first, and its hash is that of the preimage.
   */
  lemma ChildHashes(sha: Sha256, root: Share, desc: ChildDesc)
    ensures var c, b := DeriveChild(sha, root, desc), ChildInput(root, desc);
            && c.desc == desc && c.preimage == sha(b) && c.hash == sha(c.preimage)
            && |b| == 68 && b[..32] == root && b[32..64] == desc.share
            && desc.index == 0x100_0000 * b[64] as int + 0x1_0000 * b[65] as int + 0x100 * b[66] as int + b[67] as int
  {
    Parts(root, desc.share, BigEndian32(desc.index));
    BigEndianValue(desc.index);
  }

  /** Short of a collision between the two inputs, and between the two preimages, children differ if root, share or index do. */
  lemma ChildrenDiffer(sha: Sha256, root: Share, desc: ChildDesc, root': Share, desc': ChildDesc)
    requires !Collide(sha, ChildInput(root, desc), ChildInput(root', desc'))
    requires !Collide(sha, DeriveChild(sha, root, desc).preimage, DeriveChild(sha, root', desc').preimage)
    ensures DeriveChild(sha, root, desc).preimage == DeriveChild(sha, root', desc').preimage <==> root == root' && desc == desc'
    ensures DeriveChild(sha, root, desc).hash == DeriveChild(sha, root', desc').hash <==> root == root' && desc == desc'
  {
    Parts(root, desc.share, BigEndian32(desc.index));
    Parts(root', desc'.share, BigEndian32(desc'.index));
    if ChildInput(root, desc) == ChildInput(root', desc') {
      BigEndianInjective(desc.index, desc'.index);
    }
  }

  lemma Parts(root: Share, share: Share, index: seq<byte>)
    ensures var all := root + share + index;
            all[..32] == root && all[32..64] == share && all[64..] == index
  {
  }

  /* ---------- the sharer ---------- */

  datatype SeedSharer = SeedSharer(root: Share, curr: Share)

  /** None for a zero share or when no randomness could be drawn. */
  function Split(s: SeedSharer, random: Option<Share>): (r: Option<(SeedSharer, SeedSharer)>)
    ensures r.Some? <==> s.curr != ZERO && random.Some?
  {
    if s.curr == ZERO || random.None? then None
    else Some((SeedSharer(s.root, random.value), SeedSharer(s.root, Xor(s.curr, random.value))))
  }

  function Merge(s: SeedSharer, child: Child): (r: SeedSharer) {
    SeedSharer(s.root, Xor(s.curr, child.desc.share))
  }

  function Zero(s: SeedSharer): (r: SeedSharer) {
    SeedSharer(s.root, ZERO)
  }

  function ChildOf(sha: Sha256, s: SeedSharer, index: uint32): (c: Child)
    ensures c.desc == ChildDesc(s.curr, index)
  {
    DeriveChild(sha, s.root, ChildDesc(s.curr, index))
  }

  /** The two halves of a split XOR to the whole, and merging a child of the left half into the right half undoes the split. */
  lemma SplitMerge(s: SeedSharer, sha: Sha256, random: Share, index: uint32)
    requires s.curr != ZERO
    ensures Split(s, Some(random)).Some?
    ensures var (left, right) := Split(s, Some(random)).value;
            && Xor(left.curr, right.curr) == s.curr && left.root == right.root == s.root
            && Merge(right, ChildOf(sha, left, index)) == s && Merge(left, ChildOf(sha, right, index)) == s
  {
    XorLaws(s.curr, random, random);
    XorLaws(random, s.curr, s.curr);
    XorCancel(random, s.curr);
  }

  /** Merging a child of a sharer into its zero sharer gives the sharer back. */
  lemma ZeroMerge(s: SeedSharer, sha: Sha256, index: uint32)
    ensures Merge(Zero(s), ChildOf(sha, s, index)) == s
  {
    XorLaws(s.curr, ZERO, ZERO);
  }

  /* ---------- XOR over collections ---------- */

  function XorAll(shares: seq<Share>): (x: Share) {
    if shares == [] then ZERO else Xor(XorAll(shares[..|shares| - 1]), shares[|shares| - 1])
  }

  /** The XOR of the shares of all live children. */
  ghost function Total(shards: map<uint64, Child>): (x: Share) {
    if |shards| == 0 then ZERO else
      var pid :| pid in shards;
      Xor(shards[pid].desc.share, Total(shards - {pid}))
  }

  lemma Swap(x: Share, y: Share, z: Share)
    ensures Xor(x, Xor(y, z)) == Xor(y, Xor(x, z))
  {
    XorLaws(x, y, z);
    XorLaws(y, x, z);
  }

  /** Any child can be taken out first. */
  lemma {:induction false} TotalWithout(shards: map<uint64, Child>, pid: uint64)
    requires pid in shards
    ensures Total(shards) == Xor(shards[pid].desc.share, Total(shards - {pid}))
    decreases |shards|
  {
    var q :| q in shards && Total(shards) == Xor(shards[q].desc.share, Total(shards - {q}));
    if q != pid {
      var without := shards - {q};
      assert |without| < |shards|;
      TotalWithout(without, pid);
      var other := shards - {pid};
      assert |other| < |shards|;
      TotalWithout(other, q);
      assert without - {pid} == other - {q};
      Swap(shards[q].desc.share, shards[pid].desc.share, Total(other - {q}));
    }
  }

  lemma TotalWith(shards: map<uint64, Child>, pid: uint64, c: Child)
    ensures Total(shards[pid := c]) == Xor(c.desc.share, Total(shards - {pid}))
  {
    TotalWithout(shards[pid := c], pid);
    assert shards[pid := c] - {pid} == shards - {pid};
  }

  /* ---------- the tracker ---------- */

  datatype State = State(sharer: SeedSharer, shards: map<uint64, Child>)

  datatype Step =
    | New(pid: uint64, last: bool, index: Option<uint32>, random: Option<Share>)
    | Cancel(pid: uint64)

  /** The child a new shard gets and the sharer that is left, or None on an error. */
  function Drawn(sha: Sha256, s: SeedSharer, last: bool, index: Option<uint32>, random: Option<Share>): (r: Option<(Child, SeedSharer)>)
  {
    if index.None? then None
    else if last then Some((ChildOf(sha, s, index.value), Zero(s)))
    else match Split(s, random)
         case None => None
         case Some((left, right)) => Some((ChildOf(sha, left, index.value), right))
  }

  function Next(sha: Sha256, t: State, step: Step): (r: State) {
    match step
    case New(pid, last, index, random) =>
      (match Drawn(sha, t.sharer, last, index, random)
       case None => t
       case Some((child, sharer)) => State(sharer, t.shards[pid := child]))
    case Cancel(pid) => if pid in t.shards then State(Merge(t.sharer, t.shards[pid]), t.shards - {pid}) else t
  }

  function Run(sha: Sha256, t: State, steps: seq<Step>): (r: State) {
    if steps == [] then t else Next(sha, Run(sha, t, steps[..|steps| - 1]), steps[|steps| - 1])
  }

  function Init(root: Share): (t: State) {
    State(SeedSharer(root, root), map[])
  }

  /** What is missing from the root: zero when root == current share XOR live shares. */
  ghost function Gap(t: State): (x: Share) {
    Xor(t.sharer.root, Xor(t.sharer.curr, Total(t.shards)))
  }

  /** The share a step overwrites: a new shard under the ID of a live one. */
  function LostBy(sha: Sha256, t: State, step: Step): (lost: seq<Share>) {
    if step.New? && Drawn(sha, t.sharer, step.last, step.index, step.random).Some? && step.pid in t.shards
    then [t.shards[step.pid].desc.share]
    else []
  }

  function Lost(sha: Sha256, t: State, steps: seq<Step>): (lost: seq<Share>) {
    if steps == [] then [] else
      var before := steps[..|steps| - 1];
      Lost(sha, t, before) + LostBy(sha, Run(sha, t, before), steps[|steps| - 1])
  }

  /** Every stored child is derived from the root. */
  ghost predicate Derived(sha: Sha256, t: State) {
    forall pid :: pid in t.shards ==> t.shards[pid] == DeriveChild(sha, t.sharer.root, t.shards[pid].desc)
  }

  lemma DrawnShares(sha: Sha256, s: SeedSharer, last: bool, index: Option<uint32>, random: Option<Share>)
    requires Drawn(sha, s, last, index, random).Some?
    ensures var (child, s') := Drawn(sha, s, last, index, random).value;
            && s'.root == s.root && Xor(child.desc.share, s'.curr) == s.curr
            && child == DeriveChild(sha, s.root, child.desc)
  {
    XorLaws(s.curr, ZERO, ZERO);
    if !last {
      SplitMerge(s, sha, random.value, index.value);
    }
  }

  /** x ^ ((a ^ b) ^ c) regroups. */
  lemma Regroup(root: Share, child: Share, curr: Share, total: Share)
    ensures Xor(root, Xor(curr, Xor(child, total))) == Xor(root, Xor(Xor(child, curr), total))
    ensures Xor(root, Xor(Xor(curr, child), total)) == Xor(root, Xor(curr, Xor(child, total)))
  {
    XorLaws(child, curr, total);
    XorLaws(curr, child, total);
  }

  lemma NewGap(sha: Sha256, t: State, step: Step)
    requires step.New? && Drawn(sha, t.sharer, step.last, step.index, step.random).Some?
    ensures Gap(Next(sha, t, step)) == Xor(t.sharer.root, Xor(t.sharer.curr, Total(t.shards - {step.pid})))
  {
    DrawnShares(sha, t.sharer, step.last, step.index, step.random);
    var (child, s') := Drawn(sha, t.sharer, step.last, step.index, step.random).value;
    TotalWith(t.shards, step.pid, child);
    Regroup(t.sharer.root, child.desc.share, s'.curr, Total(t.shards - {step.pid}));
  }

  lemma StepGap(sha: Sha256, t: State, step: Step)
    ensures Gap(Next(sha, t, step)) == Xor(Gap(t), XorAll(LostBy(sha, t, step)))
  {
    XorLaws(Gap(t), ZERO, ZERO);
    var root, curr := t.sharer.root, t.sharer.curr;
    if step.Cancel? && step.pid in t.shards {
      TotalWithout(t.shards, step.pid);
      Regroup(root, t.shards[step.pid].desc.share, curr, Total(t.shards - {step.pid}));
    } else if step.New? && Drawn(sha, t.sharer, step.last, step.index, step.random).Some? {
      NewGap(sha, t, step);
      if step.pid in t.shards {
        var x, rest := t.shards[step.pid].desc.share, Total(t.shards - {step.pid});
        TotalWithout(t.shards, step.pid);
        OneLost(root, curr, x, rest);
      } else {
        assert t.shards - {step.pid} == t.shards;
      }
    }
  }

  lemma OneLost(root: Share, curr: Share, x: Share, rest: Share)
    ensures Xor(Xor(root, Xor(curr, Xor(x, rest))), XorAll([x])) == Xor(root, Xor(curr, rest))
  {
    assert XorAll([x]) == Xor(XorAll([]), x) by {
      assert [x][..0] == [];
    }
    XorLaws(x, ZERO, ZERO);
    var all := Xor(root, Xor(curr, Xor(x, rest)));
    Swap(curr, x, rest);
    Swap(root, x, Xor(curr, rest));
    XorLaws(all, x, x);
    XorCancel(x, Xor(root, Xor(curr, rest)));
  }

  lemma {:induction false} XorAllAppend(a: seq<Share>, b: seq<Share>)
    ensures XorAll(a + b) == Xor(XorAll(a), XorAll(b))
  {
    if b == [] {
      assert a + b == a;
      XorLaws(XorAll(a), ZERO, ZERO);
    } else {
      var b' := b[..|b| - 1];
      assert (a + b)[..|a + b| - 1] == a + b';
      XorAllAppend(a, b');
      XorLaws(XorAll(a), XorAll(b'), b[|b| - 1]);
    }
  }

  /**
    Conservation, over every history: what is missing from the root is exactly the XOR of the
    shares that were overwritten by reusing the ID of a live attempt.
   */
  lemma {:induction false} Conservation(sha: Sha256, root: Share, steps: seq<Step>)
    ensures Gap(Run(sha, Init(root), steps)) == XorAll(Lost(sha, Init(root), steps))
    ensures Run(sha, Init(root), steps).sharer.root == root
    ensures Derived(sha, Run(sha, Init(root), steps))
  {
    if steps == [] {
      XorLaws(root, ZERO, ZERO);
      assert Total(map[]) == ZERO;
    } else {
      var before, step := steps[..|steps| - 1], steps[|steps| - 1];
      var t := Run(sha, Init(root), before);
      Conservation(sha, root, before);
      StepGap(sha, t, step);
      XorAllAppend(Lost(sha, Init(root), before), LostBy(sha, t, step));
      StepDerived(sha, t, step);
    }
  }

  lemma StepDerived(sha: Sha256, t: State, step: Step)
    requires Derived(sha, t)
    ensures Derived(sha, Next(sha, t, step)) && Next(sha, t, step).sharer.root == t.sharer.root
  {
    if step.New? && Drawn(sha, t.sharer, step.last, step.index, step.random).Some? {
      DrawnShares(sha, t.sharer, step.last, step.index, step.random);
      var (child, s') := Drawn(sha, t.sharer, step.last, step.index, step.random).value;
      assert Next(sha, t, step) == State(s', t.shards[step.pid := child]);
    }
  }

  /** No step registers an attempt under the ID of a live one. */
  ghost predicate FreshIDs(sha: Sha256, t: State, steps: seq<Step>) {
    forall i :: 0 <= i < |steps| ==> LostBy(sha, Run(sha, t, steps[..i]), steps[i]) == []
  }

  lemma {:induction false} FreshLosesNothing(sha: Sha256, t: State, steps: seq<Step>)
    requires FreshIDs(sha, t, steps)
    ensures Lost(sha, t, steps) == []
  {
    if steps != [] {
      var before := steps[..|steps| - 1];
      forall i | 0 <= i < |before| ensures LostBy(sha, Run(sha, t, before[..i]), before[i]) == [] {
        assert before[..i] == steps[..i];
      }
      FreshLosesNothing(sha, t, before);
      assert LostBy(sha, Run(sha, t, steps[..|steps| - 1]), steps[|steps| - 1]) == [];
    }
  }

  /** Cancelling an attempt undoes its registration: everything is as before the shard was drawn. */
  lemma CancelUndoesNew(sha: Sha256, t: State, step: Step)
    requires step.New? && step.pid !in t.shards
    ensures Next(sha, Next(sha, t, step), Cancel(step.pid)) == t
  {
    if Drawn(sha, t.sharer, step.last, step.index, step.random).Some? {
      DrawnShares(sha, t.sharer, step.last, step.index, step.random);
      var (child, s') := Drawn(sha, t.sharer, step.last, step.index, step.random).value;
      XorLaws(child.desc.share, s'.curr, ZERO);
      assert t.shards[step.pid := child] - {step.pid} == t.shards;
    }
  }

  /**
    The last shard takes what is left, so nothing is: the receiver's root is then the sender's, and stays so
    until an attempt is cancelled. A shard that is not the last takes the random share.
   */
  lemma LastTakesTheRest(sha: Sha256, t: State, pid: uint64, last: bool, index: uint32, random: Option<Share>)
    requires last || (random.Some? && t.sharer.curr != ZERO)
    ensures var r := Next(sha, t, New(pid, last, Some(index), random));
            && r.shards.Keys == t.shards.Keys + {pid} && (forall q :: q in t.shards && q != pid ==> r.shards[q] == t.shards[q])
            && r.shards[pid].desc.index == index
            && (last ==> r.sharer.curr == ZERO && r.shards[pid].desc.share == t.sharer.curr)
            && (!last ==> r.shards[pid].desc.share == random.value && Xor(random.value, r.sharer.curr) == t.sharer.curr)
  {
    if !last {
      SplitMerge(t.sharer, sha, random.value, index);
    }
  }

  /** So after a last shard the receiver agrees with the sender. */
  lemma LastAgrees(sha: Sha256, root: Share, steps: seq<Step>, pids: seq<uint64>)
    requires steps != [] && FreshIDs(sha, Init(root), steps)
    requires steps[|steps| - 1].New? && steps[|steps| - 1].last && steps[|steps| - 1].index.Some?
    requires Enumerates(pids, Run(sha, Init(root), steps).shards)
    ensures XorAll(Shares(Descs(Run(sha, Init(root), steps).shards, pids))) == root
  {
    var step := steps[|steps| - 1];
    LastTakesTheRest(sha, Run(sha, Init(root), steps[..|steps| - 1]), step.pid, true, step.index.value, step.random);
    Agreement(sha, root, steps, pids);
  }

  /* ---------- the receiver ---------- */

  function Shares(descs: seq<ChildDesc>): (shares: seq<Share>) {
    seq(|descs|, i requires 0 <= i < |descs| => descs[i].share)
  }

  lemma SharesNext(descs: seq<ChildDesc>, n: nat)
    requires n < |descs|
    ensures XorAll(Shares(descs[..n + 1])) == Xor(XorAll(Shares(descs[..n])), descs[n].share)
  {
    assert Shares(descs[..n + 1])[..n] == Shares(descs[..n]);
  }

  /** The root as the receiver computes it. */
  method SumShares(descs: seq<ChildDesc>) returns (sum: Share)
    ensures sum == XorAll(Shares(descs))
  {
    var root := new byte[32](_ => 0);
    assert root[..] == ZERO;
    for n := 0 to |descs|
      invariant root[..] == XorAll(Shares(descs[..n]))
    {
      var share := new byte[32](i requires 0 <= i < 32 => descs[n].share[i]);
      assert share[..] == descs[n].share;
      XorInto(root, root, share);
      SharesNext(descs, n);
    }
    assert descs[..|descs|] == descs;
    sum := root[..];
  }

  method ReconstructChildren(sha: Sha256, descs: seq<ChildDesc>) returns (children: seq<Child>)
    ensures |children| == |descs|
    ensures forall i :: 0 <= i < |descs| ==> children[i] == DeriveChild(sha, XorAll(Shares(descs)), descs[i])
  {
    var root := SumShares(descs);
    children := [];
    for n := 0 to |descs|
      invariant |children| == n
      invariant forall i :: 0 <= i < n ==> children[i] == DeriveChild(sha, root, descs[i])
    {
      children := children + [DeriveChild(sha, root, descs[n])];
    }
  }

  /** The live attempts, each once, in any order. */
  ghost predicate Enumerates(pids: seq<uint64>, shards: map<uint64, Child>) {
    && Distinct(pids)
    && (forall i :: 0 <= i < |pids| ==> pids[i] in shards)
    && (forall pid :: pid in shards ==> pid in pids)
  }

  function Descs(shards: map<uint64, Child>, pids: seq<uint64>): (descs: seq<ChildDesc>)
    requires forall i :: 0 <= i < |pids| ==> pids[i] in shards
  {
    seq(|pids|, i requires 0 <= i < |pids| => shards[pids[i]].desc)
  }

  lemma EnumeratesFront(pids: seq<uint64>, shards: map<uint64, Child>)
    requires Enumerates(pids, shards) && pids != []
    ensures Enumerates(pids[..|pids| - 1], shards - {pids[|pids| - 1]})
  {
    var n := |pids| - 1;
    forall pid | pid in shards - {pids[n]} ensures pid in pids[..n] {
      var i :| 0 <= i < |pids| && pids[i] == pid;
      assert pids[..n][i] == pid;
    }
  }

  lemma SharesFront(shards: map<uint64, Child>, pids: seq<uint64>)
    requires Enumerates(pids, shards) && pids != []
    ensures var n := |pids| - 1;
            && Enumerates(pids[..n], shards - {pids[n]})
            && XorAll(Shares(Descs(shards, pids))) ==
               Xor(XorAll(Shares(Descs(shards - {pids[n]}, pids[..n]))), shards[pids[n]].desc.share)
  {
    EnumeratesFront(pids, shards);
    var n := |pids| - 1;
    assert Shares(Descs(shards, pids))[..n] == Shares(Descs(shards - {pids[n]}, pids[..n]));
  }

  /** The order in which the descriptors arrive does not matter. */
  lemma {:induction false} TotalInAnyOrder(shards: map<uint64, Child>, pids: seq<uint64>)
    requires Enumerates(pids, shards)
    ensures XorAll(Shares(Descs(shards, pids))) == Total(shards)
    decreases |pids|
  {
    if pids == [] {
      assert shards == map[];
    } else {
      var n := |pids| - 1;
      EnumeratesFront(pids, shards);
      TotalInAnyOrder(shards - {pids[n]}, pids[..n]);
      TotalWithout(shards, pids[n]);
      SharesFront(shards, pids);
      XorLaws(shards[pids[n]].desc.share, Total(shards - {pids[n]}), ZERO);
    }
  }

  /**
    Sender and receiver agree. After any history with fresh attempt IDs, the root reconstructed
    from the live descriptors, in whatever order they arrive, is the sender's root exactly when the
    sharer's current share is zero; the receiver then derives the sender's own children.
   */
  lemma Agreement(sha: Sha256, root: Share, steps: seq<Step>, pids: seq<uint64>)
    requires FreshIDs(sha, Init(root), steps)
    requires Enumerates(pids, Run(sha, Init(root), steps).shards)
    ensures var t := Run(sha, Init(root), steps);
            var seen := XorAll(Shares(Descs(t.shards, pids)));
            && (seen == root <==> t.sharer.curr == ZERO)
            && (seen == root ==>
                  forall i :: 0 <= i < |pids| ==> DeriveChild(sha, seen, t.shards[pids[i]].desc) == t.shards[pids[i]])
  {
    var t := Run(sha, Init(root), steps);
    Conservation(sha, root, steps);
    FreshLosesNothing(sha, Init(root), steps);
    assert Gap(t) == ZERO;
    TotalInAnyOrder(t.shards, pids);
    var seen := Total(t.shards);
    XorCancel(root, Xor(t.sharer.curr, seen));
    assert root == Xor(t.sharer.curr, seen);
    XorLaws(t.sharer.curr, seen, seen);
    XorLaws(seen, seen, seen);
    if seen == root {
      assert Xor(root, root) == ZERO;
    }
  }

  /** Short of that, it derives none of them, unless the input for the child collides with the sender's. */
  lemma NoAgreement(sha: Sha256, root: Share, steps: seq<Step>, pids: seq<uint64>, i: nat)
    requires FreshIDs(sha, Init(root), steps)
    requires Enumerates(pids, Run(sha, Init(root), steps).shards) && i < |pids|
    requires var t := Run(sha, Init(root), steps);
             var desc := t.shards[pids[i]].desc;
             !Collide(sha, ChildInput(XorAll(Shares(Descs(t.shards, pids))), desc), ChildInput(root, desc))
    ensures var t := Run(sha, Init(root), steps);
            var seen := XorAll(Shares(Descs(t.shards, pids)));
            DeriveChild(sha, seen, t.shards[pids[i]].desc) == t.shards[pids[i]] <==> t.sharer.curr == ZERO
  {
    var t := Run(sha, Init(root), steps);
    Agreement(sha, root, steps, pids);
    Conservation(sha, root, steps);
    var desc := t.shards[pids[i]].desc;
    Parts(XorAll(Shares(Descs(t.shards, pids))), desc.share, BigEndian32(desc.index));
    Parts(root, desc.share, BigEndian32(desc.index));
  }

  /* ---------- the tracker as an object ---------- */

  datatype MPP = MPP(totalAmt: int, paymentAddr: seq<byte>, assetId: uint32)
  datatype AMP = AMP(share: Share, setID: seq<byte>, index: uint32)
  datatype Shard = Shard(child: Child, mpp: MPP, amp: AMP)

  class ShardTracker {
    const sha: Sha256
    const setID: seq<byte>
    const paymentAddr: seq<byte>
    const totalAmt: int
    const assetId: uint32
    var sharer: SeedSharer
    var shards: map<uint64, Child>

    function View(): (t: State)
      reads this
    {
      State(sharer, shards)
    }

    /** The asset ID that is passed in is not stored. */
    constructor (sha: Sha256, root: Share, setID: seq<byte>, payAddr: seq<byte>, totalAmt: int, assetId: uint32)
      ensures View() == Init(root)
      ensures this.sha == sha && this.setID == setID && this.paymentAddr == payAddr && this.totalAmt == totalAmt
      ensures this.assetId == 0
    {
      this.sha, this.setID, this.paymentAddr, this.totalAmt := sha, setID, payAddr, totalAmt;
      this.assetId := 0;
      sharer := SeedSharer(root, root);
      shards := map[];
    }

    method NewShard(pid: uint64, last: bool, index: Option<uint32>, random: Option<Share>) returns (r: Option<Shard>)
      modifies this
      ensures View() == Next(sha, old(View()), New(pid, last, index, random))
      ensures r.Some? <==> index.Some? && (last || (random.Some? && old(sharer).curr != ZERO))
      ensures r.None? ==> View() == old(View())
      ensures pid !in old(shards) ==> Gap(View()) == Gap(old(View()))
      ensures r.Some? ==>
                && pid in shards && r.value.child == shards[pid]
                && r.value.mpp == MPP(totalAmt, paymentAddr, assetId)
                && r.value.amp == AMP(shards[pid].desc.share, setID, shards[pid].desc.index)
    {
      StepGap(sha, View(), New(pid, last, index, random));
      XorLaws(Gap(View()), ZERO, ZERO);
      if index.None? {
        return None;
      }
      var child: Child;
      if last {
        child := ChildOf(sha, sharer, index.value);
        sharer := Zero(sharer);
      } else {
        var halves := Split(sharer, random);
        if halves.None? {
          return None;
        }
        var (left, right) := halves.value;
        sharer := right;
        child := ChildOf(sha, left, index.value);
      }
      shards := shards[pid := child];
      r := Some(Shard(child, MPP(totalAmt, paymentAddr, assetId), AMP(child.desc.share, setID, child.desc.index)));
    }

    method CancelShard(pid: uint64) returns (ok: bool)
      modifies this
      ensures View() == Next(sha, old(View()), Cancel(pid))
      ensures Gap(View()) == Gap(old(View()))
      ensures ok <==> pid in old(shards)
    {
      StepGap(sha, View(), Cancel(pid));
      XorLaws(Gap(View()), ZERO, ZERO);
      if pid !in shards {
        return false;
      }
      var c := shards[pid];
      shards := shards - {pid};
      sharer := Merge(sharer, c);
      return true;
    }

    method GetHash(pid: uint64) returns (r: Option<seq<byte>>)
      ensures r == if pid in shards then Some(shards[pid].hash) else None
    {
      r := if pid in shards then Some(shards[pid].hash) else None;
    }
  }
}
