/**
  CommitCircuits splits a batch into three subsequences, and ForwardPackets recovers the
  verdict on each packet by an in-order scan of their heads.
 */
module Verdicts {
  import opened Common

  datatype Verdict = Add | Drop | Fail

  /** The elements whose verdict is v, in order. */
  function Select<T>(xs: seq<T>, vs: seq<Verdict>, v: Verdict): (r: seq<T>)
    requires |xs| == |vs|
    ensures forall x :: x in r ==> x in xs
  {
    if xs == [] then []
    else if vs[0] == v then [xs[0]] + Select(xs[1..], vs[1..], v)
    else Select(xs[1..], vs[1..], v)
  }

  /** What is left of the verdicts when the write failed: every add becomes a fail. */
  function Downgrade(vs: seq<Verdict>): (r: seq<Verdict>)
    ensures |r| == |vs|
    ensures forall i :: 0 <= i < |vs| ==> r[i] == if vs[i] == Add then Fail else vs[i]
  {
    seq(|vs|, i requires 0 <= i < |vs| => if vs[i] == Add then Fail else vs[i])
  }

  lemma {:induction false} SelectSnoc<T>(xs: seq<T>, vs: seq<Verdict>, x: T, w: Verdict, v: Verdict)
    requires |xs| == |vs|
    ensures Select(xs + [x], vs + [w], v) == Select(xs, vs, v) + (if w == v then [x] else [])
  {
    if xs == [] {
    } else {
      assert (xs + [x])[1..] == xs[1..] + [x] && (vs + [w])[1..] == vs[1..] + [w];
      SelectSnoc(xs[1..], vs[1..], x, w, v);
    }
  }

  lemma {:induction false} SelectedAt<T>(xs: seq<T>, vs: seq<Verdict>, v: Verdict, x: T) returns (i: nat)
    requires |xs| == |vs| && x in Select(xs, vs, v)
    ensures i < |xs| && xs[i] == x && vs[i] == v
  {
    if vs[0] == v && xs[0] == x {
      i := 0;
    } else {
      i := SelectedAt(xs[1..], vs[1..], v, x);
      i := i + 1;
    }
  }

  /** The three subsequences cover the batch: their sizes add up, element by element. */
  lemma {:induction false} SelectCovers<T>(xs: seq<T>, vs: seq<Verdict>)
    requires |xs| == |vs|
    ensures multiset(Select(xs, vs, Add)) + multiset(Select(xs, vs, Drop)) + multiset(Select(xs, vs, Fail))
         == multiset(xs)
  {
    if xs != [] {
      SelectCovers(xs[1..], vs[1..]);
      assert xs == [xs[0]] + xs[1..];
    }
  }

  /** Downgrading leaves no adds and the same drops, and the rest, adds and fails, are fails. */
  lemma {:induction false} DowngradedLists<T>(xs: seq<T>, vs: seq<Verdict>)
    requires |xs| == |vs|
    ensures Select(xs, Downgrade(vs), Add) == []
    ensures Select(xs, Downgrade(vs), Drop) == Select(xs, vs, Drop)
    ensures multiset(Select(xs, Downgrade(vs), Fail)) == multiset(Select(xs, vs, Add)) + multiset(Select(xs, vs, Fail))
  {
    if xs != [] {
      DowngradedLists(xs[1..], vs[1..]);
      assert Downgrade(vs)[1..] == Downgrade(vs[1..]);
    }
  }

  /**
    The in-order scan of ForwardPackets: compare each packet's circuit with the head of the
    three lists.  On the lists CommitCircuits returns for distinct circuits, every packet
    gets the verdict of its circuit and all three lists are used up.
   */
  method SplitPackets<P, C(==)>(packets: seq<P>, circuits: seq<C>, adds: seq<C>, drops: seq<C>, fails: seq<C>,
                                ghost vs: seq<Verdict>)
    returns (added: seq<P>, failed: seq<P>, restAdds: seq<C>, restDrops: seq<C>, restFails: seq<C>)
    requires |packets| == |circuits| == |vs|
    requires Distinct(circuits)
    requires adds == Select(circuits, vs, Add)
    requires drops == Select(circuits, vs, Drop)
    requires fails == Select(circuits, vs, Fail)
    ensures added == Select(packets, vs, Add)
    ensures failed == Select(packets, vs, Fail)
    ensures restAdds == restDrops == restFails == []
  {
    added, failed, restAdds, restDrops, restFails := [], [], adds, drops, fails;
    var i := 0;
    assert circuits[0..] == circuits && vs[0..] == vs;
    while i < |packets|
      invariant 0 <= i <= |packets|
      invariant added == Select(packets[..i], vs[..i], Add)
      invariant failed == Select(packets[..i], vs[..i], Fail)
      invariant restAdds == Select(circuits[i..], vs[i..], Add)
      invariant restDrops == Select(circuits[i..], vs[i..], Drop)
      invariant restFails == Select(circuits[i..], vs[i..], Fail)
    {
      assert circuits[i..][1..] == circuits[i + 1..] && vs[i..][1..] == vs[i + 1..];
      assert circuits[i] !in circuits[i + 1..];
      assert packets[..i + 1] == packets[..i] + [packets[i]] && vs[..i + 1] == vs[..i] + [vs[i]];
      SelectSnoc(packets[..i], vs[..i], packets[i], vs[i], Add);
      SelectSnoc(packets[..i], vs[..i], packets[i], vs[i], Fail);
      if |restAdds| > 0 && circuits[i] == restAdds[0] {
        added := added + [packets[i]];
        restAdds := restAdds[1..];
      } else if |restDrops| > 0 && circuits[i] == restDrops[0] {
        restDrops := restDrops[1..];
      } else if |restFails| > 0 && circuits[i] == restFails[0] {
        failed := failed + [packets[i]];
        restFails := restFails[1..];
      }
      i := i + 1;
    }
    assert packets[..i] == packets && vs[..i] == vs;
  }
}
