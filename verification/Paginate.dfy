/** Paging through an indexed bucket with a cursor (channeldb/paginate.go). */
module Paginators {
  import opened Common

  /** The keys of a bucket in the order of the cursor. */
  type Keys = seq<uint64>

  ghost predicate Ascending(keys: Keys) {
    forall i, j :: 0 <= i < j < |keys| ==> keys[i] < keys[j]
  }

  /** Whether an item was added, or None for an error. */
  type Fetch = uint64 -> Option<bool>

  /* ---------- the cursor ---------- */

  /** The number of keys before the first one that is not below k. */
  function Below(keys: Keys, k: int): (n: nat)
    ensures n <= |keys|
    ensures forall i :: 0 <= i < n ==> keys[i] < k
    ensures n < |keys| ==> keys[n] >= k
  {
    if keys == [] || keys[0] >= k then 0 else
      var n := Below(keys[1..], k) + 1;
      assert forall i :: 0 < i < n ==> keys[i] == keys[1..][i - 1];
      n
  }

  class Cursor {
    const keys: Keys
    var pos: int

    constructor (keys: Keys)
      ensures this.keys == keys
    {
      this.keys, pos := keys, -1;
    }

    function At(): (r: Option<uint64>)
      reads this
    {
      if 0 <= pos < |keys| then Some(keys[pos]) else None
    }

    /** The first key that is not below k. */
    method Seek(k: uint64) returns (r: Option<uint64>)
      modifies this
      ensures pos == Below(keys, k) && r == At()
    {
      pos := Below(keys, k);
      r := At();
    }

    method Last() returns (r: Option<uint64>)
      modifies this
      ensures pos == |keys| - 1 && r == At()
    {
      pos := |keys| - 1;
      r := At();
    }

    method Next() returns (r: Option<uint64>)
      modifies this
      ensures pos == old(pos) + 1 && r == At()
    {
      pos := pos + 1;
      r := At();
    }

    method Prev() returns (r: Option<uint64>)
      modifies this
      ensures pos == old(pos) - 1 && r == At()
    {
      pos := pos - 1;
      r := At();
    }
  }

  /* ---------- what a query is meant to return ---------- */

  function Reverse(s: Keys): (r: Keys)
    ensures |r| == |s| && forall i :: 0 <= i < |s| ==> r[i] == s[|s| - 1 - i]
  {
    seq(|s|, i requires 0 <= i < |s| => s[|s| - 1 - i])
  }

  /**
    The keys after the offset in the direction of travel: those above it going forwards, those
    below it going backwards, where an offset of zero means all of them.
   */
  function Beyond(keys: Keys, reversed: bool, offset: uint64): (v: Keys) {
    if !reversed then keys[Below(keys, offset + 1)..]
    else if offset == 0 then Reverse(keys)
    else Reverse(keys[..Below(keys, offset)])
  }

  function Matching(v: Keys, fetch: Fetch): (r: Keys) {
    if v == [] then [] else Matching(v[..|v| - 1], fetch) + (if fetch(v[|v| - 1]) == Some(true) then [v[|v| - 1]] else [])
  }

  ghost predicate NoErrors(v: Keys, fetch: Fetch) {
    forall i :: 0 <= i < |v| ==> fetch(v[i]).Some?
  }

  function FirstOf(s: Keys, limit: nat): (r: Keys) {
    if |s| <= limit then s else s[..limit]
  }

  /* ---------- the paginator ---------- */

  class Paginator {
    const cursor: Cursor
    const reversed: bool
    const indexOffset: uint64
    const totalItems: uint64

    constructor (cursor: Cursor, reversed: bool, indexOffset: uint64, totalItems: uint64)
      ensures this.cursor == cursor && this.reversed == reversed && this.indexOffset == indexOffset && this.totalItems == totalItems
    {
      this.cursor, this.reversed, this.indexOffset, this.totalItems := cursor, reversed, indexOffset, totalItems;
    }

    method CursorStart() returns (r: Option<uint64>)
      modifies cursor
      ensures r.Some? ==> cursor.pos == Start(cursor.keys, reversed, indexOffset) && r == cursor.At()
      ensures r.None? ==> !(0 <= Start(cursor.keys, reversed, indexOffset) < |cursor.keys|)
    {
      r := cursor.Seek((indexOffset + 1) % TWO64);
      if reversed {
        if indexOffset == 0 {
          r := cursor.Last();
        } else if indexOffset == 1 {
          r := None;
        } else {
          var last := cursor.Last();
          if indexOffset > (if last.None? then 0 else last.value) {
            r := cursor.Last();
          } else {
            var _ := cursor.Seek(indexOffset);
            r := cursor.Prev();
          }
        }
      }
    }

    /** Visits keys until enough items were added, the keys run out, or a fetch fails. */
    method Query(fetch: Fetch) returns (items: Keys, ok: bool)
      requires Ascending(cursor.keys)
      modifies cursor
      ensures ok ==> items == Page(cursor.keys, reversed, indexOffset, totalItems, fetch)
      ensures ok && Handled(cursor.keys, reversed, indexOffset) ==>
                items == FirstOf(Matching(Beyond(cursor.keys, reversed, indexOffset), fetch), totalItems)
      ensures !ok ==> !NoErrors(cursor.keys, fetch)
      ensures |items| <= totalItems
    {
      var key := CursorStart();
      ghost var v := Path(cursor.keys, reversed, Start(cursor.keys, reversed, indexOffset));
      PathWithin(cursor.keys, reversed, Start(cursor.keys, reversed, indexOffset), fetch);
      items, ok := Walk(key, fetch, v);
      StartIsBeyond(cursor.keys, reversed, indexOffset);
    }

    /** The cursor is on the first key of v, and moves along it. */
    ghost predicate Follows(v: Keys, pos: int)
    {
      && (forall i :: 0 <= i < |v| ==> 0 <= Moved(pos, i) < |cursor.keys| && v[i] == cursor.keys[Moved(pos, i)])
      && !(0 <= Moved(pos, |v|) < |cursor.keys|)
    }

    ghost function Moved(pos: int, n: nat): (r: int) {
      if reversed then pos - n else pos + n
    }

    method Walk(first: Option<uint64>, fetch: Fetch, ghost v: Keys) returns (items: Keys, ok: bool)
      requires first == if v == [] then None else Some(v[0])
      requires v != [] ==> Follows(v, cursor.pos)
      modifies cursor
      ensures ok ==> items == FirstOf(Matching(v, fetch), totalItems)
      ensures !ok ==> !NoErrors(v, fetch)
      ensures |items| <= totalItems
    {
      var key := first;
      items, ok := [], true;
      ghost var n := 0;
      while key.Some?
        invariant 0 <= n <= |v| && |items| <= totalItems
        invariant key == if n < |v| then Some(v[n]) else None
        invariant n < |v| ==> cursor.pos == Moved(old(cursor.pos), n)
        invariant items == Matching(v[..n], fetch)
        decreases |v| - n
      {
        if |items| >= totalItems {
          break;
        }
        var added := fetch(key.value);
        if added.None? {
          return items, false;
        }
        MatchingNext(v, n, fetch);
        if added.value {
          items := items + [key.value];
        }
        if reversed {
          key := cursor.Prev();
        } else {
          key := cursor.Next();
        }
        n := n + 1;
      }
      MatchingStops(v, n, fetch, totalItems);
    }
  }

  lemma MatchingNext(v: Keys, n: nat, fetch: Fetch)
    requires n < |v|
    ensures Matching(v[..n + 1], fetch) == Matching(v[..n], fetch) + (if fetch(v[n]) == Some(true) then [v[n]] else [])
  {
    assert v[..n + 1][..n] == v[..n];
  }

  lemma MatchingStops(v: Keys, n: nat, fetch: Fetch, limit: nat)
    requires n <= |v|
    ensures n == |v| || |Matching(v[..n], fetch)| == limit ==>
              |Matching(v[..n], fetch)| <= limit ==> Matching(v[..n], fetch) == FirstOf(Matching(v, fetch), limit)
  {
    MatchingPrefix(v, n, fetch);
    assert n == |v| ==> v[..n] == v;
  }

  /** The position of the first key to visit. The offset is incremented in 64 bits. */
  function Start(keys: Keys, reversed: bool, offset: uint64): (p: int) {
    if !reversed then Below(keys, (offset + 1) % TWO64)
    else if offset == 0 then |keys| - 1
    else if offset == 1 then -1
    else if offset > (if keys == [] then 0 else keys[|keys| - 1]) then |keys| - 1
    else Below(keys, offset) - 1
  }

  /** The keys from a position on, in the direction of travel. */
  function Path(keys: Keys, reversed: bool, start: int): (v: Keys) {
    if !(0 <= start < |keys|) then []
    else if reversed then Reverse(keys[..start + 1])
    else keys[start..]
  }

  /** What a query returns if no fetch fails. */
  function Page(keys: Keys, reversed: bool, offset: uint64, limit: uint64, fetch: Fetch): (items: Keys) {
    FirstOf(Matching(Path(keys, reversed, Start(keys, reversed, offset)), fetch), limit)
  }

  lemma PathWithin(keys: Keys, reversed: bool, start: int, fetch: Fetch)
    ensures NoErrors(keys, fetch) ==> NoErrors(Path(keys, reversed, start), fetch)
  {
  }

  /** The offsets that a query handles: not the largest going forwards, and not one above a key of zero going backwards. */
  predicate Handled(keys: Keys, reversed: bool, offset: uint64) {
    keys == [] || (if reversed then offset != 1 || keys[0] > 0 else offset < TWO64 - 1)
  }

  /** The cases of the start come to the keys beyond the offset, exactly for those offsets. */
  lemma StartIsBeyond(keys: Keys, reversed: bool, offset: uint64)
    requires Ascending(keys)
    ensures Path(keys, reversed, Start(keys, reversed, offset)) == Beyond(keys, reversed, offset) <==> Handled(keys, reversed, offset)
  {
    if reversed {
      BackwardStart(keys, offset);
    } else if keys != [] {
      var n := Below(keys, offset + 1);
      if offset == TWO64 - 1 {
        assert n == |keys|;
        assert Start(keys, false, offset) == 0;
        assert |Path(keys, false, 0)| == |keys|;
      }
    }
  }

  lemma BackwardStart(keys: Keys, offset: uint64)
    requires Ascending(keys)
    ensures Path(keys, true, Start(keys, true, offset)) == Beyond(keys, true, offset) <==> Handled(keys, true, offset)
  {
    if offset > 0 && keys != [] {
      var n := Below(keys, offset);
      if offset > keys[|keys| - 1] {
        assert n == |keys|;
      }
      if offset == 1 {
        assert |keys| > 1 ==> keys[0] < keys[1];
        assert n == if keys[0] == 0 then 1 else 0;
        assert |Beyond(keys, true, offset)| == n;
      } else if n > 0 {
        assert Start(keys, true, offset) == n - 1;
      }
    }
  }

  lemma {:induction false} MatchingPrefix(v: Keys, n: nat, fetch: Fetch)
    requires n <= |v|
    ensures Matching(v[..n], fetch) <= Matching(v, fetch)
    decreases |v|
  {
    if n == |v| {
      assert v[..n] == v;
    } else {
      MatchingPrefix(v[..|v| - 1], n, fetch);
      assert v[..|v| - 1][..n] == v[..n];
    }
  }

  /* ---------- chained pages ---------- */

  /** Queries until one returns nothing, each from the last index of the one before; at most so many with items. */
  ghost function Chained(query: uint64 -> Keys, offset: uint64, pages: nat): (items: Keys)
    decreases pages
  {
    var page := query(offset);
    if page == [] || pages == 0 then [] else page + Chained(query, page[|page| - 1], pages - 1)
  }

  /** The keys in the direction of travel. */
  function Travel(keys: Keys, reversed: bool): (v: Keys)
    ensures |v| == |keys|
  {
    if reversed then Reverse(keys) else keys
  }

  /** Indexes count from one, and the largest 64-bit number is not one of them. */
  ghost predicate Indexed(keys: Keys) {
    Ascending(keys) && forall i :: 0 <= i < |keys| ==> 1 <= keys[i] < TWO64 - 1
  }

  lemma BelowIs(keys: Keys, k: int, m: nat)
    requires Ascending(keys) && m <= |keys|
    requires (m > 0 ==> keys[m - 1] < k) && (m < |keys| ==> keys[m] >= k)
    ensures Below(keys, k) == m
  {
    assert forall i :: 0 <= i < m ==> keys[i] <= keys[m - 1];
  }

  lemma ReverseSuffix(keys: Keys, q: nat)
    requires q < |keys|
    ensures Reverse(keys)[q + 1..] == Reverse(keys[..|keys| - 1 - q])
  {
  }

  /** From the key at position q on, what lies beyond it is what comes after it. */
  lemma BeyondKey(keys: Keys, reversed: bool, q: nat)
    requires Indexed(keys) && q < |keys|
    ensures Beyond(keys, reversed, Travel(keys, reversed)[q]) == Travel(keys, reversed)[q + 1..]
  {
    if reversed {
      BelowIs(keys, keys[|keys| - 1 - q], |keys| - 1 - q);
      ReverseSuffix(keys, q);
    } else {
      BelowIs(keys, keys[q] as int + 1, q + 1);
    }
  }

  lemma BeyondStart(keys: Keys, reversed: bool)
    requires Indexed(keys)
    ensures Beyond(keys, reversed, 0) == Travel(keys, reversed)
  {
    assert !reversed ==> Below(keys, 1) == 0;
  }

  lemma {:induction false} MatchingFront(v: Keys, fetch: Fetch)
    requires v != []
    ensures Matching(v, fetch) == (if fetch(v[0]) == Some(true) then [v[0]] else []) + Matching(v[1..], fetch)
  {
    if |v| > 1 {
      MatchingFront(v[..|v| - 1], fetch);
      assert v[..|v| - 1][1..] == v[1..][..|v| - 2];
    }
  }

  /** Where the page of n items ends, the rest of the items begins. */
  lemma {:induction false} PageEnds(v: Keys, p: nat, n: nat, fetch: Fetch) returns (q: nat)
    requires p <= |v| && 0 < n <= |Matching(v[p..], fetch)|
    ensures p <= q < |v| && v[q] == Matching(v[p..], fetch)[n - 1]
    ensures Matching(v[q + 1..], fetch) == Matching(v[p..], fetch)[n..]
    decreases |v| - p
  {
    assert p < |v|;
    MatchingFront(v[p..], fetch);
    assert v[p..][1..] == v[p + 1..];
    if fetch(v[p]) == Some(true) {
      if n == 1 {
        q := p;
      } else {
        q := PageEnds(v, p + 1, n - 1, fetch);
      }
    } else {
      q := PageEnds(v, p + 1, n, fetch);
    }
  }

  lemma PageFrom(keys: Keys, reversed: bool, offset: uint64, rest: Keys, limit: uint64, fetch: Fetch)
    requires Ascending(keys) && Handled(keys, reversed, offset) && Beyond(keys, reversed, offset) == rest
    ensures Page(keys, reversed, offset, limit, fetch) == FirstOf(Matching(rest, fetch), limit)
  {
    StartIsBeyond(keys, reversed, offset);
  }

  /** A query from each key of v returns the first matches after it. */
  ghost predicate Pages(query: uint64 -> Keys, v: Keys, limit: nat, fetch: Fetch) {
    forall q :: 0 <= q < |v| ==> PageAt(query, v, q, limit, fetch)
  }

  ghost predicate PageAt(query: uint64 -> Keys, v: Keys, q: nat, limit: nat, fetch: Fetch)
    requires q < |v|
  {
    query(v[q]) == FirstOf(Matching(v[q + 1..], fetch), limit)
  }

  lemma {:induction false} ChainedFrom(query: uint64 -> Keys, v: Keys, offset: uint64, p: nat, limit: nat, fetch: Fetch, pages: nat)
    requires Pages(query, v, limit, fetch) && limit > 0 && p <= |v| && pages >= |v| - p
    requires query(offset) == FirstOf(Matching(v[p..], fetch), limit)
    ensures Chained(query, offset, pages) == Matching(v[p..], fetch)
    decreases |v| - p
  {
    var all := Matching(v[p..], fetch);
    var n := |query(offset)|;
    FirstOfSplits(all, limit);
    if n > 0 {
      var q := PageEnds(v, p, n, fetch);
      assert PageAt(query, v, q, limit, fetch);
      ChainedFrom(query, v, v[q], q + 1, limit, fetch, pages - 1);
      ChainedStep(query, offset, pages);
    }
  }

  lemma FirstOfSplits(all: Keys, limit: nat)
    requires limit > 0
    ensures var page := FirstOf(all, limit);
            && |page| <= |all| && (page == [] <==> all == [])
            && all == page + all[|page|..]
            && (page != [] ==> page[|page| - 1] == all[|page| - 1])
  {
  }

  lemma ChainedStep(query: uint64 -> Keys, offset: uint64, pages: nat)
    requires query(offset) != [] && pages > 0
    ensures Chained(query, offset, pages) == query(offset) + Chained(query, query(offset)[|query(offset)| - 1], pages - 1)
  {
  }

  lemma HandledKey(keys: Keys, reversed: bool, q: nat)
    requires Indexed(keys) && q < |keys|
    ensures Handled(keys, reversed, Travel(keys, reversed)[q])
  {
  }

  /** Strictly in the direction of travel. */
  ghost predicate Along(v: Keys, reversed: bool) {
    forall i, j :: 0 <= i < j < |v| ==> if reversed then v[i] > v[j] else v[i] < v[j]
  }

  /** The matching keys are in the order of travel, each once, and no other key is among them. */
  lemma {:induction false} MatchingExact(v: Keys, reversed: bool, fetch: Fetch)
    requires Along(v, reversed)
    ensures Along(Matching(v, fetch), reversed)
    ensures forall k :: k in Matching(v, fetch) <==> k in v && fetch(k) == Some(true)
  {
    if v != [] {
      var front := v[..|v| - 1];
      MatchingExact(front, reversed, fetch);
      assert v == front + [v[|v| - 1]];
      if fetch(v[|v| - 1]) == Some(true) {
        AlongSnoc(Matching(front, fetch), front, v[|v| - 1], reversed);
      }
    }
  }

  lemma AlongSnoc(m: Keys, front: Keys, last: uint64, reversed: bool)
    requires Along(m, reversed) && Along(front + [last], reversed) && forall k :: k in m ==> k in front
    ensures Along(m + [last], reversed)
  {
    forall i | 0 <= i < |m| ensures if reversed then m[i] > last else m[i] < last {
      assert m[i] in front;
      var j :| 0 <= j < |front| && front[j] == m[i];
      assert (front + [last])[j] == m[i] && (front + [last])[|front|] == last;
    }
  }

  /**
    Chained by their last index, pages of any size visit every matching key exactly once and no
    other, in order, forwards or backwards, whatever the gaps between the keys.
   */
  lemma PagesVisitAll(keys: Keys, reversed: bool, limit: uint64, fetch: Fetch, pages: nat)
    requires Indexed(keys) && limit > 0 && pages >= |keys|
    ensures var items := Chained((offset: uint64) => Page(keys, reversed, offset, limit, fetch), 0, pages);
            && Along(items, reversed)
            && (forall k :: k in items <==> k in keys && fetch(k) == Some(true))
  {
    PagesMatch(keys, reversed, limit, fetch, pages);
    var v := Travel(keys, reversed);
    MatchingExact(v, reversed, fetch);
    TravelSame(keys, reversed);
  }

  lemma TravelSame(keys: Keys, reversed: bool)
    ensures forall k :: k in Travel(keys, reversed) <==> k in keys
  {
    var v := Travel(keys, reversed);
    forall k | k in keys ensures k in v {
      var i :| 0 <= i < |keys| && keys[i] == k;
      assert v[if reversed then |keys| - 1 - i else i] == k;
    }
  }

  lemma PagesMatch(keys: Keys, reversed: bool, limit: uint64, fetch: Fetch, pages: nat)
    requires Indexed(keys) && limit > 0 && pages >= |keys|
    ensures Chained((offset: uint64) => Page(keys, reversed, offset, limit, fetch), 0, pages) ==
            Matching(Travel(keys, reversed), fetch)
  {
    var query: uint64 -> Keys := (offset: uint64) => Page(keys, reversed, offset, limit, fetch);
    var v := Travel(keys, reversed);
    forall q | 0 <= q < |v| ensures PageAt(query, v, q, limit, fetch) {
      BeyondKey(keys, reversed, q);
      HandledKey(keys, reversed, q);
      PageFrom(keys, reversed, v[q], v[q + 1..], limit, fetch);
    }
    BeyondStart(keys, reversed);
    PageFrom(keys, reversed, 0, v, limit, fetch);
    assert v[0..] == v;
    ChainedFrom(query, v, 0, 0, limit, fetch, pages);
  }
}
