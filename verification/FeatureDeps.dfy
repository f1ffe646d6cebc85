/** Validation of the dependencies between feature bits (feature/deps.go). */
module FeatureDeps {
  import opened Common

  type Bit = uint16
  type Deps = map<Bit, set<Bit>>

  /** Even bits are required; their optional pair is the next odd bit. */
  function MapToOptional(bit: Bit): (r: Bit)
    ensures r % 2 == 1 && r / 2 == bit / 2
  {
    if bit % 2 == 0 then bit + 1 else bit
  }

  /** The dependencies of a bit, in their optional form. */
  ghost predicate Needs(deps: Deps, bit: Bit, dep: Bit) {
    bit in deps && exists d :: d in deps[bit] && MapToOptional(d) == dep
  }

  /** A chain of dependencies. */
  ghost predicate IsPath(deps: Deps, p: seq<Bit>) {
    p != [] && forall i :: 0 <= i < |p| - 1 ==> Needs(deps, p[i], p[i + 1])
  }

  /** Everything that the bit needs, directly or through others, is present. */
  ghost predicate Closed(deps: Deps, present: set<Bit>, bit: Bit) {
    forall p {:trigger IsPath(deps, p)} :: IsPath(deps, p) && p[0] == bit ==> p[|p| - 1] in present
  }

  /** The dependencies of every bit rank below it: the table has no cycle. */
  ghost predicate Ranked(deps: Deps, rank: Bit -> nat) {
    forall bit, dep :: Needs(deps, bit, dep) ==> rank(dep) < rank(bit)
  }

  /** No chain of dependencies leads from a bit back to itself. */
  ghost predicate Acyclic(deps: Deps) {
    forall p {:trigger IsPath(deps, p)} :: IsPath(deps, p) && |p| > 1 ==> p[0] != p[|p| - 1]
  }

  lemma PathCons(deps: Deps, bit: Bit, p: seq<Bit>)
    requires IsPath(deps, p) && Needs(deps, bit, p[0])
    ensures IsPath(deps, [bit] + p)
  {
    var q := [bit] + p;
    forall i | 0 <= i < |q| - 1 ensures Needs(deps, q[i], q[i + 1]) {
      if i > 0 {
        assert Needs(deps, p[i - 1], p[i - 1 + 1]);
      }
    }
  }

  lemma PathTail(deps: Deps, p: seq<Bit>)
    requires IsPath(deps, p) && |p| > 1
    ensures Needs(deps, p[0], p[1]) && IsPath(deps, p[1..])
  {
    var q := p[1..];
    assert Needs(deps, p[0], p[0 + 1]);
    forall i | 0 <= i < |q| - 1 ensures Needs(deps, q[i], q[i + 1]) {
      assert Needs(deps, p[i + 1], p[i + 1 + 1]);
    }
  }

  /** One step of the recursion. */
  lemma ClosedStep(deps: Deps, present: set<Bit>, bit: Bit)
    ensures Closed(deps, present, bit) <==>
            bit in present && forall dep :: Needs(deps, bit, dep) ==> Closed(deps, present, dep)
  {
    if Closed(deps, present, bit) {
      assert IsPath(deps, [bit]);
      forall dep | Needs(deps, bit, dep) ensures Closed(deps, present, dep) {
        forall p | IsPath(deps, p) && p[0] == dep ensures p[|p| - 1] in present {
          PathCons(deps, bit, p);
          assert ([bit] + p)[|[bit] + p| - 1] == p[|p| - 1];
        }
      }
    }
    if bit in present && forall dep :: Needs(deps, bit, dep) ==> Closed(deps, present, dep) {
      forall p | IsPath(deps, p) && p[0] == bit ensures p[|p| - 1] in present {
        if |p| > 1 {
          PathTail(deps, p);
          assert Closed(deps, present, p[1]);
          assert p[1..][|p[1..]| - 1] == p[|p| - 1];
        }
      }
    }
  }

  /* ---------- tables without cycles can be ranked ---------- */

  ghost function Direct(deps: Deps, bit: Bit): (s: set<Bit>)
    ensures forall dep :: dep in s <==> Needs(deps, bit, dep)
  {
    if bit in deps then set d | d in deps[bit] :: MapToOptional(d) else {}
  }

  ghost function Max(s: set<nat>): (m: nat)
    ensures forall n :: n in s ==> n <= m
  {
    if s == {} then 0 else
      var n :| n in s;
      var rest := Max(s - {n});
      assert forall m :: m in s ==> m == n || m in s - {n};
      if n < rest then rest else n
  }

  /** The length of the longest chain from a bit through different bits of `avail`. */
  ghost function Depth(deps: Deps, bit: Bit, avail: set<Bit>): (n: nat)
    decreases |avail|
  {
    if bit !in avail then 0 else Max(set d | d in Direct(deps, bit) :: Depth(deps, d, avail - {bit})) + 1
  }

  ghost predicate Leads(deps: Deps, a: Bit, b: Bit) {
    exists p {:trigger IsPath(deps, p)} :: IsPath(deps, p) && p[0] == a && p[|p| - 1] == b
  }

  lemma LeadsThrough(deps: Deps, a: Bit, b: Bit, c: Bit)
    requires Needs(deps, a, b)
    ensures Leads(deps, b, c) ==> exists p {:trigger IsPath(deps, p)} :: IsPath(deps, p) && |p| > 1 && p[0] == a && p[|p| - 1] == c
  {
    if Leads(deps, b, c) {
      var p :| IsPath(deps, p) && p[0] == b && p[|p| - 1] == c;
      PathCons(deps, a, p);
      var q := [a] + p;
      assert IsPath(deps, q) && |q| > 1 && q[0] == a && q[|q| - 1] == c;
    }
  }

  /** A bit that cannot be reached does not count. */
  lemma {:induction false} DepthWithout(deps: Deps, bit: Bit, avail: set<Bit>, other: Bit)
    requires !Leads(deps, bit, other)
    ensures Depth(deps, bit, avail) == Depth(deps, bit, avail - {other})
    decreases |avail|
  {
    assert bit != other by {
      assert IsPath(deps, [bit]) && [bit][0] == bit;
    }
    if bit in avail {
      forall d | d in Direct(deps, bit)
        ensures Depth(deps, d, avail - {bit}) == Depth(deps, d, avail - {other} - {bit})
      {
        LeadsThrough(deps, bit, d, other);
        DepthWithout(deps, d, avail - {bit}, other);
        assert avail - {bit} - {other} == avail - {other} - {bit};
      }
      assert (set d | d in Direct(deps, bit) :: Depth(deps, d, avail - {bit})) ==
             (set d | d in Direct(deps, bit) :: Depth(deps, d, avail - {other} - {bit}));
    }
  }

  lemma AcyclicRanked(deps: Deps)
    requires Acyclic(deps)
    ensures Ranked(deps, (b: Bit) => Depth(deps, b, deps.Keys))
  {
    forall bit, dep | Needs(deps, bit, dep) ensures Depth(deps, dep, deps.Keys) < Depth(deps, bit, deps.Keys) {
      LeadsThrough(deps, bit, dep, bit);
      DepthWithout(deps, dep, deps.Keys, bit);
      var below := set d | d in Direct(deps, bit) :: Depth(deps, d, deps.Keys - {bit});
      assert Depth(deps, dep, deps.Keys - {bit}) in below;
      assert Depth(deps, bit, deps.Keys) == Max(below) + 1;
    }
  }

  /** And only they can. */
  lemma {:induction false} RankFalls(deps: Deps, rank: Bit -> nat, p: seq<Bit>)
    requires Ranked(deps, rank) && IsPath(deps, p) && |p| > 1
    ensures rank(p[|p| - 1]) < rank(p[0])
    decreases |p|
  {
    PathTail(deps, p);
    if |p| > 2 {
      RankFalls(deps, rank, p[1..]);
    }
  }

  /* ---------- the algorithm ---------- */

  /** A memo entry of true means that the whole closure of the bit is present. */
  ghost predicate MemoSound(deps: Deps, supported: map<Bit, bool>) {
    forall bit :: bit in supported && supported[bit] ==> Closed(deps, supported.Keys, bit)
  }

  ghost predicate AllClosed(deps: Deps, present: set<Bit>, features: set<Bit>) {
    forall f :: f in features ==> Closed(deps, present, MapToOptional(f))
  }

  /** The missing bit is needed by one of the features, through some chain. */
  ghost predicate Reaches(deps: Deps, features: set<Bit>, missing: Bit) {
    exists f, p {:trigger MapToOptional(f), IsPath(deps, p)} ::
      f in features && IsPath(deps, p) && p[0] == MapToOptional(f) && p[|p| - 1] == missing
  }

  lemma SubDeps(deps: Deps, present: set<Bit>, bit: Bit, sub: set<Bit>)
    requires sub == if bit in deps then deps[bit] else {}
    ensures AllClosed(deps, present, sub) <==> forall dep :: Needs(deps, bit, dep) ==> Closed(deps, present, dep)
    ensures forall d :: d in sub ==> Needs(deps, bit, MapToOptional(d))
  {
  }

  lemma ReachesThrough(deps: Deps, features: set<Bit>, f: Bit, sub: set<Bit>, missing: Bit)
    requires f in features && sub == if MapToOptional(f) in deps then deps[MapToOptional(f)] else {}
    requires Reaches(deps, sub, missing)
    ensures Reaches(deps, features, missing)
  {
    var d, p :| d in sub && IsPath(deps, p) && p[0] == MapToOptional(d) && p[|p| - 1] == missing;
    var bit := MapToOptional(f);
    assert Needs(deps, bit, p[0]);
    PathCons(deps, bit, p);
    var q := [bit] + p;
    assert IsPath(deps, q) && q[0] == MapToOptional(f) && q[|q| - 1] == missing;
  }

  /**
    Succeeds exactly when the transitive dependencies of every feature are present, in whatever
    order the features and the table's sets are visited; names a missing dependency otherwise; and
    keeps the memo sound either way. It ends on every table without cycles.
   */
  method ValidateFeatures(deps: Deps, features: set<Bit>, memo: map<Bit, bool>, ghost rank: Bit -> nat, ghost bound: nat)
    returns (missing: Option<Bit>, supported: map<Bit, bool>)
    requires Ranked(deps, rank) && MemoSound(deps, memo)
    requires forall f :: f in features ==> rank(MapToOptional(f)) < bound
    ensures supported.Keys == memo.Keys && MemoSound(deps, supported)
    ensures missing.None? <==> AllClosed(deps, memo.Keys, features)
    ensures missing.None? ==> forall f :: f in features ==> MapToOptional(f) in supported && supported[MapToOptional(f)]
    ensures missing.Some? ==> missing.value !in memo && Reaches(deps, features, missing.value)
    ensures forall b :: b in memo && memo[b] ==> supported[b]
    decreases bound
  {
    supported := memo;
    var todo := features;
    while todo != {}
      invariant todo <= features
      invariant supported.Keys == memo.Keys && MemoSound(deps, supported)
      invariant AllClosed(deps, memo.Keys, features - todo)
      invariant forall f :: f in features - todo ==> MapToOptional(f) in supported && supported[MapToOptional(f)]
      invariant forall b :: b in memo && memo[b] ==> supported[b]
      decreases |todo|
    {
      var f :| f in todo;
      todo := todo - {f};
      var bit := MapToOptional(f);
      ClosedStep(deps, memo.Keys, bit);
      if bit !in supported {
        assert IsPath(deps, [bit]) && [bit][0] == MapToOptional(f);
        return Some(bit), supported;
      }
      if supported[bit] {
        continue;
      }
      var sub := if bit in deps then deps[bit] else {};
      SubDeps(deps, memo.Keys, bit, sub);
      missing, supported := ValidateFeatures(deps, sub, supported, rank, rank(bit));
      if missing.Some? {
        ReachesThrough(deps, features, f, sub, missing.value);
        return;
      }
      supported := supported[bit := true];
    }
    missing := None;
  }

  /** The bits of the vector in their optional form, none of them checked yet. */
  method InitSupported(features: set<Bit>) returns (supported: map<Bit, bool>)
    ensures supported.Keys == set f | f in features :: MapToOptional(f)
    ensures forall b :: b in supported ==> !supported[b]
  {
    supported := map[];
    var todo := features;
    while todo != {}
      invariant todo <= features
      invariant supported.Keys == set f | f in features - todo :: MapToOptional(f)
      invariant forall b :: b in supported ==> !supported[b]
      decreases |todo|
    {
      var f :| f in todo;
      todo := todo - {f};
      supported := supported[MapToOptional(f) := false];
    }
    assert features - todo == features;
  }

  method ValidateDeps(deps: Deps, features: set<Bit>) returns (missing: Option<Bit>)
    requires Acyclic(deps)
    ensures var present := set f | f in features :: MapToOptional(f);
            && (missing.None? <==> AllClosed(deps, present, features))
            && (missing.Some? ==> missing.value !in present && Reaches(deps, features, missing.value))
  {
    var supported := InitSupported(features);
    ghost var rank: Bit -> nat := (b: Bit) => Depth(deps, b, deps.Keys);
    AcyclicRanked(deps);
    ghost var bound := BoundOf(features, rank);
    missing, supported := ValidateFeatures(deps, features, supported, rank, bound);
  }

  ghost function BoundOf(features: set<Bit>, rank: Bit -> nat): (n: nat)
    ensures forall f :: f in features ==> rank(MapToOptional(f)) < n
  {
    if features == {} then 0 else
      var f :| f in features;
      var rest := BoundOf(features - {f}, rank);
      if rank(MapToOptional(f)) < rest then rest else rank(MapToOptional(f)) + 1
  }

  /* ---------- the table ---------- */

  const TLV_ONION_PAYLOAD: Bit := 9
  const STATIC_REMOTE_KEY: Bit := 13
  const PAYMENT_ADDR: Bit := 15
  const MPP: Bit := 17
  const ANCHORS: Bit := 21
  const ANCHORS_ZERO_FEE_HTLC_TX: Bit := 23
  const AMP: Bit := 31
  const EXPLICIT_CHANNEL_TYPE: Bit := 45
  const SCRIPT_ENFORCED_LEASE: Bit := 2023

  const DEFAULT_DEPS: Deps := map[
    PAYMENT_ADDR := {TLV_ONION_PAYLOAD},
    MPP := {PAYMENT_ADDR},
    ANCHORS := {STATIC_REMOTE_KEY},
    ANCHORS_ZERO_FEE_HTLC_TX := {STATIC_REMOTE_KEY},
    AMP := {PAYMENT_ADDR},
    EXPLICIT_CHANNEL_TYPE := {},
    SCRIPT_ENFORCED_LEASE := {EXPLICIT_CHANNEL_TYPE, ANCHORS_ZERO_FEE_HTLC_TX}
  ]

  /** What the table asks for: payment addresses need the TLV onion; MPP and AMP payment addresses; and so on. */
  lemma DefaultNeeds(bit: Bit, dep: Bit)
    ensures Needs(DEFAULT_DEPS, bit, dep) <==>
            || (dep == 9 && bit == 15)
            || (dep == 15 && (bit == 17 || bit == 31))
            || (dep == 13 && (bit == 21 || bit == 23))
            || ((dep == 23 || dep == 45) && bit == 2023)
  {
    assert MapToOptional(9) == 9 && MapToOptional(13) == 13 && MapToOptional(15) == 15;
    assert MapToOptional(23) == 23 && MapToOptional(45) == 45;
    if bit in DEFAULT_DEPS {
      assert forall d :: d in DEFAULT_DEPS[bit] ==> MapToOptional(d) == d;
    }
  }

  lemma DefaultAcyclic()
    ensures Acyclic(DEFAULT_DEPS)
  {
    var rank: Bit -> nat := (b: Bit) => b;
    forall bit, dep | Needs(DEFAULT_DEPS, bit, dep) ensures rank(dep) < rank(bit) {
      var d :| d in DEFAULT_DEPS[bit] && MapToOptional(d) == dep;
      assert d % 2 == 1;
    }
    assert Ranked(DEFAULT_DEPS, rank);
    forall p | IsPath(DEFAULT_DEPS, p) && |p| > 1 ensures p[0] != p[|p| - 1] {
      RankFalls(DEFAULT_DEPS, rank, p);
    }
  }
}
