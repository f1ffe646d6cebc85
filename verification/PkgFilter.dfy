/**
  The bit vector of a forwarding package (channeldb/forwarding_package.go): which of its updates
  are marked, as bytes, and as the set those bytes stand for.
 */
module PkgFilters {
  import opened Common

  datatype Filter = Filter(count: uint16, bits: seq<byte>)

  /** The length of the bytes for a count, in 16-bit arithmetic. */
  function FilterLen(count: uint16): (n: uint16) {
    (count + 7) % 0x1_0000 / 8
  }

  /** There is a byte for every index below the count. */
  predicate Room(f: Filter) {
    f.count <= 8 * |f.bits|
  }

  /** The sum count + 7 wraps around for the last seven counts; the bytes hold every index exactly up to there. */
  lemma RoomUpTo(f: Filter)
    requires |f.bits| == FilterLen(f.count)
    ensures Room(f) <==> f.count <= 65528
  {
  }

  /* ---------- bits of a byte ---------- */

  function Pow2(n: nat): (p: nat)
    ensures p > 0
  {
    if n == 0 then 1 else 2 * Pow2(n - 1)
  }

  /** b & 1<<k != 0 */
  predicate HasBit(b: nat, k: nat) {
    if k == 0 then b % 2 == 1 else HasBit(b / 2, k - 1)
  }

  /** b | 1<<k */
  function WithBit(b: nat, k: nat): (r: nat) {
    if k == 0 then b / 2 * 2 + 1 else WithBit(b / 2, k - 1) * 2 + b % 2
  }

  lemma {:induction false} WithBitFits(b: nat, k: nat, n: nat)
    requires b < Pow2(n) && k < n
    ensures WithBit(b, k) < Pow2(n)
  {
    if k > 0 {
      WithBitFits(b / 2, k - 1, n - 1);
    }
  }

  lemma {:induction false} WithBitHas(b: nat, k: nat, j: nat)
    ensures HasBit(WithBit(b, k), j) <==> k == j || HasBit(b, j)
  {
    if k > 0 && j > 0 {
      WithBitHas(b / 2, k - 1, j - 1);
      assert WithBit(b, k) / 2 == WithBit(b / 2, k - 1);
    }
  }

  lemma {:induction false} OnesHaveAll(n: nat, k: nat)
    requires k < n
    ensures HasBit(Pow2(n) - 1, k)
  {
    if k > 0 {
      OnesHaveAll(n - 1, k - 1);
      assert (Pow2(n) - 1) / 2 == Pow2(n - 1) - 1;
    }
  }

  /** Only the largest number of n bits has all of them. */
  lemma {:induction false} AllBits(b: nat, n: nat)
    requires b < Pow2(n) && forall k :: 0 <= k < n ==> HasBit(b, k)
    ensures b == Pow2(n) - 1
  {
    if n > 0 {
      assert HasBit(b, 0);
      forall k | 0 <= k < n - 1 ensures HasBit(b / 2, k) {
        assert HasBit(b, k + 1);
      }
      AllBits(b / 2, n - 1);
    }
  }

  lemma {:induction false} ZeroHasNone(k: nat)
    ensures !HasBit(0, k)
  {
    if k > 0 {
      ZeroHasNone(k - 1);
    }
  }

  lemma EightBits()
    ensures Pow2(8) == 256
  {
    assert Pow2(4) == 16;
  }

  /** The bit for position `bit` of a byte, counted from the most significant. */
  function Mark(b: byte, bit: nat): (r: byte)
    requires bit < 8
  {
    EightBits();
    WithBitFits(b, 7 - bit, 8);
    WithBit(b, 7 - bit)
  }

  predicate IsMarked(bits: seq<byte>, i: nat) {
    i / 8 < |bits| && HasBit(bits[i / 8], 7 - i % 8)
  }

  /** The indices that are marked. */
  ghost function Marks(f: Filter): (s: set<nat>) {
    set i | 0 <= i < f.count && IsMarked(f.bits, i)
  }

  ghost predicate AllMarked(f: Filter) {
    forall i :: 0 <= i < f.count ==> i in Marks(f)
  }

  function Marked(f: Filter, i: nat): (r: Filter)
    requires i / 8 < |f.bits|
  {
    f.(bits := f.bits[i / 8 := Mark(f.bits[i / 8], i % 8)])
  }

  /** Setting a bit marks that index and changes no other. */
  lemma MarkedAt(f: Filter, i: nat, j: nat)
    requires i / 8 < |f.bits|
    ensures IsMarked(Marked(f, i).bits, j) <==> i == j || IsMarked(f.bits, j)
  {
    var k := i / 8;
    var bits := Marked(f, i).bits;
    if j / 8 == k {
      WithBitHas(f.bits[k], 7 - i % 8, 7 - j % 8);
      assert i == j <==> i % 8 == j % 8;
    } else if j / 8 < |bits| {
      assert bits[j / 8] == f.bits[j / 8];
    }
  }

  lemma MarksAfter(f: Filter, i: nat)
    requires i / 8 < |f.bits|
    ensures Marks(Marked(f, i)) == Marks(f) + (if i < f.count then {i} else {})
  {
    forall j | 0 <= j < f.count ensures j in Marks(Marked(f, i)) <==> j == i || j in Marks(f) {
      MarkedAt(f, i, j);
    }
  }

  ghost predicate FullUpTo(f: Filter, n: nat) {
    forall i :: 0 <= i < n ==> IsMarked(f.bits, i)
  }

  lemma FullIsAllMarked(f: Filter)
    ensures AllMarked(f) <==> FullUpTo(f, f.count)
  {
    if AllMarked(f) {
      forall i | 0 <= i < f.count ensures IsMarked(f.bits, i) {
        assert i in Marks(f);
      }
    }
  }

  lemma FullNextByte(f: Filter, k: nat)
    requires k < |f.bits| && FullUpTo(f, 8 * k)
    ensures FullUpTo(f, 8 * (k + 1)) <==> f.bits[k] == 0xFF
  {
    EightBits();
    if f.bits[k] == 0xFF {
      forall i | 8 * k <= i < 8 * (k + 1) ensures IsMarked(f.bits, i) {
        assert i / 8 == k;
        OnesHaveAll(8, 7 - i % 8);
      }
    }
    if FullUpTo(f, 8 * (k + 1)) {
      forall j | 0 <= j < 8 ensures HasBit(f.bits[k], j) {
        var i := 8 * k + (7 - j);
        assert i / 8 == k && i % 8 == 7 - j;
        assert IsMarked(f.bits, i);
      }
      AllBits(f.bits[k], 8);
    }
  }

  /* ---------- encoding ---------- */

  function Value16(hi: byte, lo: byte): (n: uint16) {
    (hi as nat) * 256 + (lo as nat)
  }

  /** The count in two big-endian bytes, then the bits. */
  function Encoded(f: Filter): (b: seq<byte>)
    ensures |b| == 2 + |f.bits| && b[2..] == f.bits
    ensures Value16(b[0], b[1]) == f.count
  {
    [f.count / 256, f.count % 256] + f.bits
  }

  function Decoded(b: seq<byte>): (r: Option<Filter>) {
    if |b| < 2 then None else
      var count: uint16 := Value16(b[0], b[1]);
      if |b| - 2 < FilterLen(count) then None else Some(Filter(count, b[2..2 + FilterLen(count)]))
  }

  /** A filter with as many bytes as its count asks for survives the trip, whatever follows it. */
  lemma DecodeEncode(f: Filter, rest: seq<byte>)
    requires |f.bits| == FilterLen(f.count)
    ensures Decoded(Encoded(f) + rest) == Some(f)
  {
    var e := Encoded(f);
    var b := e + rest;
    assert b[0] == e[0] && b[1] == e[1];
    assert b[2..2 + |f.bits|] == f.bits;
  }

  /** On disk the count comes first, most significant byte first, and index 0 is the top bit of the first byte after it. */
  lemma ByteOrder(f: Filter, i: nat)
    requires i < 8 && |f.bits| > 0 && f.bits[0] == 0
    ensures Encoded(f)[0] == f.count / 256 && Encoded(f)[1] == f.count % 256
    ensures Encoded(Marked(f, i))[2] == [128, 64, 32, 16, 8, 4, 2, 1][i]
  {
    assert WithBit(0, 0) == 1 && WithBit(0, 1) == 2 && WithBit(0, 2) == 4 && WithBit(0, 3) == 8;
    assert WithBit(0, 4) == 16 && WithBit(0, 5) == 32 && WithBit(0, 6) == 64 && WithBit(0, 7) == 128;
  }

  /* ---------- the object ---------- */

  class PkgFilter {
    var count: uint16
    var filter: array<byte>

    ghost function View(): (f: Filter)
      reads this, filter
    {
      Filter(count, filter[..])
    }

    constructor (count: uint16)
      ensures View() == Filter(count, seq(FilterLen(count), _ => 0)) && fresh(filter)
      ensures Marks(View()) == {}
    {
      this.count := count;
      filter := new byte[FilterLen(count)](_ => 0);
      new;
      assert filter[..] == seq(FilterLen(count), _ => 0);
      forall i | 0 <= i < count ensures i !in Marks(View()) {
        ZeroHasNone(7 - i % 8);
      }
    }

    /** An index without a byte makes the source panic. */
    method Set(i: uint16)
      requires i / 8 < filter.Length
      modifies filter
      ensures View() == Marked(old(View()), i)
      ensures Marks(View()) == old(Marks(View())) + (if i < count then {i} else {})
    {
      MarksAfter(View(), i);
      filter[i / 8] := Mark(filter[i / 8], i % 8);
      assert filter[..] == old(filter[..])[i / 8 := Mark(old(filter[..])[i / 8], i % 8)];
    }

    method Contains(i: uint16) returns (r: bool)
      requires i / 8 < filter.Length
      ensures r <==> IsMarked(View().bits, i)
      ensures i < count ==> (r <==> i in Marks(View()))
    {
      r := HasBit(filter[i / 8], 7 - i % 8);
    }

    /** Whole bytes first, then the indices that are left. */
    method IsFull() returns (r: bool)
      requires Room(View())
      ensures r <==> AllMarked(View())
    {
      FullIsAllMarked(View());
      for i := 0 to count / 8
        invariant FullUpTo(View(), 8 * i)
      {
        FullNextByte(View(), i);
        if filter[i] != 0xFF {
          return false;
        }
      }
      for idx := count - count % 8 to count
        invariant FullUpTo(View(), idx)
      {
        var c := Contains(idx);
        if !c {
          return false;
        }
      }
      return true;
    }

    method Size() returns (n: uint16)
      ensures |View().bits| == FilterLen(count) ==> n == |Encoded(View())|
    {
      n := 2 + (count + 7) % 0x1_0000 / 8;
    }

    method Encode() returns (b: seq<byte>)
      ensures b == Encoded(View())
      ensures |View().bits| == FilterLen(count) ==> Decoded(b) == Some(View())
    {
      b := [count / 256, count % 256] + filter[..];
      if filter.Length == FilterLen(count) {
        DecodeEncode(View(), []);
        assert b + [] == b;
      }
    }

    method Decode(b: seq<byte>) returns (ok: bool)
      modifies this
      ensures ok <==> Decoded(b).Some?
      ensures ok ==> View() == Decoded(b).value && fresh(filter)
    {
      if |b| < 2 {
        return false;
      }
      count := Value16(b[0], b[1]);
      var n := FilterLen(count);
      filter := new byte[n];
      if |b| - 2 < n {
        return false;
      }
      for i := 0 to n
        invariant forall j :: 0 <= j < i ==> filter[j] == b[2 + j]
        invariant n == FilterLen(count) && filter.Length == n && fresh(filter)
        invariant count == Value16(b[0], b[1])
        modifies filter
      {
        filter[i] := b[2 + i];
      }
      assert filter[..] == b[2..2 + n];
      return true;
    }
  }
}
