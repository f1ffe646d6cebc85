/** The forwarding log: unique timestamps within a batch and free slots in the bucket (channeldb/forwarding_log.go). */
module ForwardingLogs {
  import opened Common

  datatype Circuit = Circuit(incoming: uint64, outgoing: uint64, amtIn: nat, amtOut: nat)

  /** Times are nanoseconds. */
  datatype Event = Event(timestamp: nat, circuit: Circuit)

  /* ---------- unique timestamps ---------- */

  function Times(es: seq<Event>): (ts: seq<nat>)
    ensures |ts| == |es| && forall i :: 0 <= i < |es| ==> ts[i] == es[i].timestamp
  {
    seq(|es|, i requires 0 <= i < |es| => es[i].timestamp)
  }

  function Circuits(es: seq<Event>): (cs: seq<Circuit>)
    ensures |cs| == |es| && forall i :: 0 <= i < |es| ==> cs[i] == es[i].circuit
  {
    seq(|es|, i requires 0 <= i < |es| => es[i].circuit)
  }

  predicate Sorted(es: seq<Event>) {
    forall i, j :: 0 <= i < j < |es| ==> es[i].timestamp <= es[j].timestamp
  }

  ghost predicate Increasing(ts: seq<nat>) {
    forall i, j :: 0 <= i < j < |ts| ==> ts[i] < ts[j]
  }

  ghost predicate Dominates(ts: seq<nat>, lower: seq<nat>) {
    |ts| == |lower| && forall i :: 0 <= i < |ts| ==> lower[i] <= ts[i]
  }

  /** The pointwise least strictly increasing times that dominate the given ones. */
  ghost predicate Least(ts: seq<nat>, lower: seq<nat>) {
    && Increasing(ts) && Dominates(ts, lower)
    && (forall other :: Increasing(other) && Dominates(other, lower) ==> Dominates(other, ts))
  }

  ghost predicate IsOrderOf(sorted: seq<Event>, es: seq<Event>) {
    Sorted(sorted) && multiset(sorted) == multiset(es)
  }

  /** There is a sorted order of every batch. */
  lemma {:induction false} OrderExists(es: seq<Event>) returns (sorted: seq<Event>)
    ensures IsOrderOf(sorted, es)
  {
    if es == [] {
      sorted := [];
    } else {
      var rest := OrderExists(es[1..]);
      sorted := Inserted(es[0], rest);
      assert es == [es[0]] + es[1..];
    }
  }

  lemma Inserted(e: Event, rest: seq<Event>) returns (r: seq<Event>)
    requires Sorted(rest)
    ensures Sorted(r) && multiset(r) == multiset(rest) + multiset{e}
  {
    var k := 0;
    while k < |rest| && rest[k].timestamp < e.timestamp
      invariant k <= |rest| && forall i :: 0 <= i < k ==> rest[i].timestamp < e.timestamp
    {
      k := k + 1;
    }
    r := rest[..k] + [e] + rest[k..];
    assert rest == rest[..k] + rest[k..];
  }

  lemma WithoutAt(b: seq<Event>, i: nat)
    requires i < |b|
    ensures multiset(b[..i] + b[i + 1..]) == multiset(b) - multiset{b[i]}
    ensures multiset(Circuits(b)) == multiset(Circuits(b[..i] + b[i + 1..])) + multiset{b[i].circuit}
  {
    assert b == b[..i] + [b[i]] + b[i + 1..];
    assert Circuits(b[..i] + b[i + 1..]) == Circuits(b[..i]) + Circuits(b[i + 1..]);
    assert Circuits(b) == Circuits(b[..i]) + [b[i].circuit] + Circuits(b[i + 1..]);
  }

  lemma {:induction false} CircuitsOfPermutation(a: seq<Event>, b: seq<Event>)
    requires multiset(a) == multiset(b)
    ensures multiset(Circuits(a)) == multiset(Circuits(b))
    decreases |a|
  {
    if a == [] {
      assert |b| == |multiset(b)| == |multiset(a)| == 0;
    } else {
      assert a[0] in multiset(b);
      var i :| 0 <= i < |b| && b[i] == a[0];
      WithoutAt(a, 0);
      WithoutAt(b, i);
      CircuitsOfPermutation(a[..0] + a[1..], b[..i] + b[i + 1..]);
    }
  }

  /** Done up to n: the least times for the first n events; the later events untouched. */
  ghost predicate SpreadUpTo(now: seq<Event>, sorted: seq<Event>, n: nat) {
    && |now| == |sorted| && n <= |now|
    && Circuits(now) == Circuits(sorted)
    && now[n..] == sorted[n..]
    && (forall i :: 0 <= i < n ==> sorted[i].timestamp <= now[i].timestamp)
    && (forall i :: 0 < i < n ==> now[i].timestamp == Later(sorted[i].timestamp, now[i - 1].timestamp))
    && (n > 0 ==> now[0].timestamp == sorted[0].timestamp)
  }

  /** The first free time at or after t and after the previous one. */
  function Later(t: nat, previous: nat): (r: nat) {
    if previous >= t then previous + 1 else t
  }

  lemma {:induction false} SpreadIncreasing(now: seq<Event>, sorted: seq<Event>, i: nat, j: nat)
    requires SpreadUpTo(now, sorted, |now|) && i < j < |now|
    ensures now[i].timestamp < now[j].timestamp
    decreases j
  {
    if i < j - 1 {
      SpreadIncreasing(now, sorted, i, j - 1);
    }
  }

  lemma {:induction false} SpreadBelow(now: seq<Event>, sorted: seq<Event>, other: seq<nat>, i: nat)
    requires SpreadUpTo(now, sorted, |now|) && Increasing(other) && Dominates(other, Times(sorted)) && i < |now|
    ensures now[i].timestamp <= other[i]
  {
    assert other[i] >= Times(sorted)[i];
    if i > 0 {
      SpreadBelow(now, sorted, other, i - 1);
      assert other[i - 1] < other[i];
    }
  }

  lemma SpreadIsLeast(now: seq<Event>, sorted: seq<Event>)
    requires SpreadUpTo(now, sorted, |now|)
    ensures Least(Times(now), Times(sorted))
  {
    forall i, j | 0 <= i < j < |now| ensures Times(now)[i] < Times(now)[j] {
      SpreadIncreasing(now, sorted, i, j);
    }
    forall other | Increasing(other) && Dominates(other, Times(sorted)) ensures Dominates(other, Times(now)) {
      forall i | 0 <= i < |now| ensures Times(now)[i] <= other[i] {
        SpreadBelow(now, sorted, other, i);
      }
    }
  }

  /**
    Sorts the batch by time, in any order of events with equal times, and then moves times up in
    place. The events are a permutation of the batch, and their times the least unique ones.
   */
  method MakeUniqueTimestamps(events: array<Event>) returns (ghost sorted: seq<Event>)
    modifies events
    ensures IsOrderOf(sorted, old(events[..]))
    ensures |sorted| == events.Length && Circuits(events[..]) == Circuits(sorted)
    ensures Least(Times(events[..]), Times(sorted))
    ensures multiset(Circuits(events[..])) == multiset(Circuits(old(events[..])))
  {
    sorted := SortEvents(events);
    CircuitsOfPermutation(sorted, old(events[..]));
    SpreadTimes(events);
    SpreadIsLeast(events[..], sorted);
  }

  /** The pass over the sorted events. */
  method SpreadTimes(events: array<Event>)
    modifies events
    ensures SpreadUpTo(events[..], old(events[..]), events.Length)
  {
    ghost var sorted := events[..];
    if events.Length == 0 {
      return;
    }
    for outer := 0 to events.Length - 1
      invariant SpreadUpTo(events[..], sorted, outer + 1)
    {
      var current, next := events[outer].timestamp, events[outer + 1].timestamp;
      ghost var before := events[..];
      assert before[outer + 1] == sorted[outer + 1] by {
        assert before[outer + 1..][0] == sorted[outer + 1..][0];
      }
      if current >= next {
        next := current + 1;
        events[outer + 1] := events[outer + 1].(timestamp := next);
      }
      SpreadNext(before, events[..], sorted, outer + 1);
    }
  }

  lemma SpreadNext(before: seq<Event>, now: seq<Event>, sorted: seq<Event>, n: nat)
    requires 0 < n < |before| && SpreadUpTo(before, sorted, n) && before[n] == sorted[n]
    requires now == before[n := before[n].(timestamp := Later(sorted[n].timestamp, before[n - 1].timestamp))]
    ensures SpreadUpTo(now, sorted, n + 1)
  {
    assert now[n + 1..] == before[n..][1..];
    assert sorted[n + 1..] == sorted[n..][1..];
  }

  /** Any sort: only that the result is sorted and a permutation is known of it. */
  method SortEvents(events: array<Event>) returns (ghost sorted: seq<Event>)
    modifies events
    ensures events[..] == sorted && IsOrderOf(sorted, old(events[..]))
  {
    ghost var w := OrderExists(events[..]);
    var order: seq<Event> :| Sorted(order) && multiset(order) == multiset(events[..]);
    assert |order| == |multiset(order)| == |multiset(events[..])| == events.Length;
    for i := 0 to events.Length
      invariant events[..i] == order[..i]
    {
      events[i] := order[i];
    }
    assert events[..] == order;
    sorted := order;
  }

  /* ---------- the bucket ---------- */

  /** Circuits under their timestamps. */
  type Bucket = map<nat, Circuit>

  const MAX_TRIES := 100

  /** The first time from t on that is free, or t + tries if there is none before that. */
  function Slot(bucket: Bucket, t: nat, tries: nat): (s: nat)
    ensures t <= s <= t + tries
    ensures forall x :: t <= x < s ==> x in bucket
    ensures s < t + tries ==> s !in bucket
    decreases tries
  {
    if tries == 0 || t !in bucket then t else Slot(bucket, t + 1, tries - 1)
  }

  function Stored(bucket: Bucket, e: Event): (r: Bucket) {
    bucket[Slot(bucket, e.timestamp, MAX_TRIES) := e.circuit]
  }

  function StoredAll(bucket: Bucket, es: seq<Event>): (r: Bucket)
    decreases |es|
  {
    if es == [] then bucket else StoredAll(Stored(bucket, es[0]), es[1..])
  }

  /** All 101 times that would be tried are taken. */
  ghost predicate Crowded(bucket: Bucket, t: nat) {
    forall x :: t <= x <= t + 100 ==> x in bucket
  }

  /** An entry is overwritten exactly when there is no free time; otherwise the event takes the first one. */
  lemma StoreOverwritesIff(bucket: Bucket, e: Event)
    ensures var s := Slot(bucket, e.timestamp, MAX_TRIES);
            && (s in bucket <==> Crowded(bucket, e.timestamp))
            && (!Crowded(bucket, e.timestamp) ==>
                  && s !in bucket && e.timestamp <= s <= e.timestamp + MAX_TRIES
                  && forall x :: e.timestamp <= x < s ==> x in bucket)
            && (Crowded(bucket, e.timestamp) ==> s == e.timestamp + MAX_TRIES)
  {
  }

  /** The entries between two times. */
  ghost function Near(bucket: Bucket, lo: nat, hi: nat): (s: set<nat>) {
    set k | k in bucket && lo <= k <= hi
  }

  ghost function Span(t: nat, n: nat): (s: set<nat>)
    ensures |s| == n && forall x :: x in s <==> t <= x < t + n
  {
    if n == 0 then {} else Span(t, n - 1) + {t + n - 1}
  }

  lemma {:induction false} SubsetSize<T>(a: set<T>, b: set<T>)
    requires a <= b
    ensures |a| <= |b|
  {
    assert b == a + (b - a);
  }

  /** With fewer than 101 entries nearby no time is crowded. */
  lemma RoomNearby(bucket: Bucket, t: nat, lo: nat, hi: nat)
    requires lo <= t <= hi && |Near(bucket, lo, hi + MAX_TRIES)| <= MAX_TRIES
    ensures !Crowded(bucket, t)
  {
    if Crowded(bucket, t) {
      SubsetSize(Span(t, MAX_TRIES + 1), Near(bucket, lo, hi + MAX_TRIES));
    }
  }

  lemma StoreNearby(bucket: Bucket, e: Event, lo: nat, hi: nat)
    requires lo <= e.timestamp <= hi && |Near(bucket, lo, hi + MAX_TRIES)| <= MAX_TRIES
    ensures |Stored(bucket, e)| == |bucket| + 1
    ensures |Near(Stored(bucket, e), lo, hi + MAX_TRIES)| == |Near(bucket, lo, hi + MAX_TRIES)| + 1
    ensures forall k :: k in bucket ==> k in Stored(bucket, e) && Stored(bucket, e)[k] == bucket[k]
  {
    RoomNearby(bucket, e.timestamp, lo, hi);
    var s := Slot(bucket, e.timestamp, MAX_TRIES);
    assert Near(Stored(bucket, e), lo, hi + MAX_TRIES) == Near(bucket, lo, hi + MAX_TRIES) + {s};
  }

  ghost predicate Extends(b: Bucket, a: Bucket) {
    forall k :: k in a ==> k in b && b[k] == a[k]
  }

  /**
    Conservation. If the log has room for the batch around its times, every event gets an entry of
    its own and no earlier entry is touched.
   */
  lemma {:induction false} NothingLost(bucket: Bucket, es: seq<Event>, lo: nat, hi: nat)
    requires forall i :: 0 <= i < |es| ==> lo <= es[i].timestamp <= hi
    requires |Near(bucket, lo, hi + MAX_TRIES)| + |es| <= MAX_TRIES + 1
    ensures |StoredAll(bucket, es)| == |bucket| + |es| && Extends(StoredAll(bucket, es), bucket)
    decreases |es|
  {
    if es != [] {
      StoreNearby(bucket, es[0], lo, hi);
      NothingLost(Stored(bucket, es[0]), es[1..], lo, hi);
    }
  }

  /** The events as entries under their own times. */
  function Entries(es: seq<Event>): (m: Bucket) {
    if es == [] then map[] else map[es[0].timestamp := es[0].circuit] + Entries(es[1..])
  }

  lemma {:induction false} EntriesKeys(es: seq<Event>)
    ensures forall k :: k in Entries(es) <==> k in Times(es)
  {
    if es != [] {
      EntriesKeys(es[1..]);
      assert Times(es) == [es[0].timestamp] + Times(es[1..]);
    }
  }

  /** With unique times each event is found under its own. */
  lemma {:induction false} EntryAt(es: seq<Event>, i: nat)
    requires Increasing(Times(es)) && i < |es|
    ensures es[i].timestamp in Entries(es) && Entries(es)[es[i].timestamp] == es[i].circuit
  {
    IncreasingTail(es);
    EntriesKeys(es[1..]);
    if i > 0 {
      EntryAt(es[1..], i - 1);
    }
  }

  lemma IncreasingTail(es: seq<Event>)
    requires Increasing(Times(es)) && es != []
    ensures Increasing(Times(es[1..])) && es[0].timestamp !in Times(es[1..])
  {
    var ts, rest := Times(es), Times(es[1..]);
    forall i, j | 0 <= i < j < |rest| ensures rest[i] < rest[j] {
      assert ts[i + 1] < ts[j + 1];
    }
    forall i | 0 <= i < |rest| ensures rest[i] != es[0].timestamp {
      assert ts[0] < ts[i + 1];
    }
  }

  lemma {:induction false} StoredEntries(bucket: Bucket, es: seq<Event>)
    requires Increasing(Times(es))
    requires forall i :: 0 <= i < |es| ==> es[i].timestamp !in bucket
    ensures StoredAll(bucket, es) == bucket + Entries(es)
    decreases |es|
  {
    if es != [] {
      StoreFirst(bucket, es);
      StoredEntries(Stored(bucket, es[0]), es[1..]);
      PutBefore(bucket, es[0].timestamp, es[0].circuit, Entries(es[1..]));
    }
  }

  /** The first event gets its own time, and the others stay free to get theirs. */
  lemma StoreFirst(bucket: Bucket, es: seq<Event>)
    requires Increasing(Times(es)) && es != []
    requires forall i :: 0 <= i < |es| ==> es[i].timestamp !in bucket
    ensures Stored(bucket, es[0]) == bucket[es[0].timestamp := es[0].circuit]
    ensures Increasing(Times(es[1..])) && forall i :: 0 <= i < |es[1..]| ==> es[1..][i].timestamp !in Stored(bucket, es[0])
  {
    var rest := es[1..];
    IncreasingTail(es);
    forall i | 0 <= i < |rest| ensures rest[i].timestamp !in Stored(bucket, es[0]) {
      assert rest[i] == es[i + 1] && rest[i].timestamp == Times(rest)[i];
    }
  }

  lemma PutBefore(bucket: Bucket, t: nat, c: Circuit, more: Bucket)
    ensures bucket[t := c] + more == bucket + (map[t := c] + more)
  {
  }

  /**
    A batch with unique times none of which is taken is stored under exactly its own times, beside
    what was there: making the times unique beforehand means that no event of a batch displaces another.
   */
  lemma StoredAsIs(bucket: Bucket, es: seq<Event>)
    requires Increasing(Times(es))
    requires forall i :: 0 <= i < |es| ==> es[i].timestamp !in bucket
    ensures var r := StoredAll(bucket, es);
            && Extends(r, bucket)
            && (forall k :: k in r <==> k in bucket || k in Times(es))
            && (forall i :: 0 <= i < |es| ==> es[i].timestamp in r && r[es[i].timestamp] == es[i].circuit)
  {
    StoredEntries(bucket, es);
    EntriesKeys(es);
    forall i | 0 <= i < |es| ensures es[i].timestamp in Entries(es) && Entries(es)[es[i].timestamp] == es[i].circuit {
      EntryAt(es, i);
    }
    forall k | k in bucket ensures k !in Times(es) {
    }
  }

  class ForwardingLog {
    var bucket: Bucket

    constructor ()
      ensures bucket == map[]
    {
      bucket := map[];
    }

    /** Tries one nanosecond after another, a hundred times at most. */
    method StoreEvent(event: Event)
      modifies this
      ensures bucket == Stored(old(bucket), event)
    {
      var e, tries := event, 0;
      while tries < MAX_TRIES && e.timestamp in bucket
        invariant 0 <= tries <= MAX_TRIES && e == event.(timestamp := event.timestamp + tries)
        invariant Slot(bucket, event.timestamp, MAX_TRIES) == Slot(bucket, e.timestamp, MAX_TRIES - tries)
        invariant bucket == old(bucket)
      {
        e := e.(timestamp := e.timestamp + 1);
        tries := tries + 1;
      }
      bucket := bucket[e.timestamp := e.circuit];
    }

    /** The batch is made unique in place; then all of it is stored in one transaction, or nothing. */
    method AddForwardingEvents(events: array<Event>, writeOk: bool) returns (ghost sorted: seq<Event>)
      modifies this, events
      ensures IsOrderOf(sorted, old(events[..])) && |sorted| == events.Length
      ensures Circuits(events[..]) == Circuits(sorted) && Least(Times(events[..]), Times(sorted))
      ensures bucket == if writeOk then StoredAll(old(bucket), events[..]) else old(bucket)
    {
      sorted := MakeUniqueTimestamps(events);
      if writeOk {
        StoreEach(events[..]);
      }
    }

    method StoreEach(es: seq<Event>)
      modifies this
      ensures bucket == StoredAll(old(bucket), es)
    {
      for i := 0 to |es|
        invariant StoredAll(bucket, es[i..]) == StoredAll(old(bucket), es)
      {
        assert es[i..][1..] == es[i + 1..];
        StoreEvent(es[i]);
      }
    }
  }
}
