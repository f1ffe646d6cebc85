/** Allocation of payment IDs in batches that are reserved on disk (htlcswitch/sequencer.go). */
module Sequencers {
  import opened Common

  const BATCH := 1000

  /** The next ID and the end of the batch in memory, and the sequence of the bucket on disk, if there is one. */
  datatype State = State(nextID: uint64, horizonID: uint64, sequence: Option<uint64>)

  datatype Step = Call(writeOk: bool) | Restart

  predicate InBatch(s: State) {
    s.nextID < s.horizonID
  }

  predicate Allocates(s: State, writeOk: bool) {
    !InBatch(s) && s.sequence.Some? && writeOk
  }

  function Add64(a: uint64, b: uint64): (r: uint64) {
    if a + b < TWO64 then a + b else a + b - TWO64
  }

  /** The first ID of a batch; zero is never assigned. */
  function First(sequence: uint64): (id: uint64) {
    if sequence == 0 then 1 else sequence
  }

  function IssuedBy(s: State, step: Step): (ids: seq<uint64>) {
    if step.Restart? then []
    else if InBatch(s) then [s.nextID]
    else if Allocates(s, step.writeOk) then [First(s.sequence.value)]
    else []
  }

  function Next(s: State, step: Step): (r: State) {
    if step.Restart? then s.(nextID := 0, horizonID := 0)
    else if InBatch(s) then s.(nextID := s.nextID + 1)
    else if Allocates(s, step.writeOk) then
      var horizon := Add64(s.sequence.value, BATCH);
      State(Add64(First(s.sequence.value), 1), horizon, Some(horizon))
    else s
  }

  function Run(s: State, steps: seq<Step>): (r: State) {
    if steps == [] then s else Next(Run(s, steps[..|steps| - 1]), steps[|steps| - 1])
  }

  function Issued(s: State, steps: seq<Step>): (ids: seq<uint64>) {
    if steps == [] then [] else
      var before := steps[..|steps| - 1];
      Issued(s, before) + IssuedBy(Run(s, before), steps[|steps| - 1])
  }

  predicate Wraps(s: State, step: Step) {
    step.Call? && Allocates(s, step.writeOk) && s.sequence.value + BATCH >= TWO64
  }

  ghost predicate NoWrap(s: State, steps: seq<Step>) {
    steps == [] || (NoWrap(s, steps[..|steps| - 1]) && !Wraps(Run(s, steps[..|steps| - 1]), steps[|steps| - 1]))
  }

  /** The batch in memory is reserved on disk. */
  ghost predicate Reserved(s: State) {
    s.horizonID > 0 ==> s.sequence == Some(s.horizonID) && 0 < s.nextID <= s.horizonID
  }

  ghost predicate Ordered(ids: seq<uint64>) {
    forall i, j :: 0 <= i < j < |ids| ==> ids[i] < ids[j]
  }

  /** The sequence on disk. */
  function Bound(s: State): (n: nat) {
    if s.sequence.Some? then s.sequence.value else 0
  }

  /** Every ID given out is below the one the next call can give. */
  ghost predicate AllBelow(ids: seq<uint64>, s: State) {
    forall i :: 0 <= i < |ids| ==>
      && 0 < ids[i] < Bound(s)
      && (InBatch(s) ==> ids[i] < s.nextID)
  }

  lemma StepKeeps(s: State, ids: seq<uint64>, step: Step)
    requires Reserved(s) && Ordered(ids) && AllBelow(ids, s) && !Wraps(s, step)
    ensures Reserved(Next(s, step)) && Ordered(ids + IssuedBy(s, step)) && AllBelow(ids + IssuedBy(s, step), Next(s, step))
  {
    var ids', s' := ids + IssuedBy(s, step), Next(s, step);
    forall i | 0 <= i < |ids'|
      ensures 0 < ids'[i] < Bound(s') && (InBatch(s') ==> ids'[i] < s'.nextID)
    {
      if i < |ids| {
        assert ids'[i] == ids[i];
      }
    }
    forall i, j | 0 <= i < j < |ids'| ensures ids'[i] < ids'[j] {
      assert ids'[i] == ids[i];
      if j < |ids| {
        assert ids'[j] == ids[j];
      }
    }
  }

  lemma {:induction false} RunKeeps(sequence: Option<uint64>, steps: seq<Step>)
    requires NoWrap(State(0, 0, sequence), steps)
    ensures var s := State(0, 0, sequence);
            Reserved(Run(s, steps)) && Ordered(Issued(s, steps)) && AllBelow(Issued(s, steps), Run(s, steps))
  {
    if steps != [] {
      var s, before := State(0, 0, sequence), steps[..|steps| - 1];
      RunKeeps(sequence, before);
      StepKeeps(Run(s, before), Issued(s, before), steps[|steps| - 1]);
    }
  }

  /**
    Over every run of calls, failed writes and restarts in which the 64-bit sequence does not
    wrap, the IDs given out are strictly increasing, never zero, and below the sequence on disk.
   */
  lemma IDsIncrease(sequence: Option<uint64>, steps: seq<Step>)
    requires NoWrap(State(0, 0, sequence), steps)
    ensures Unique(Issued(State(0, 0, sequence), steps), Bound(Run(State(0, 0, sequence), steps)))
  {
    RunKeeps(sequence, steps);
  }

  /** Strictly increasing, positive, and below the sequence on disk. */
  ghost predicate Unique(ids: seq<uint64>, bound: nat) {
    Ordered(ids) && forall i :: 0 <= i < |ids| ==> 0 < ids[i] < bound
  }

  /** The order ends exactly with the wrap: of two successful calls from an exhausted batch, the second ID is larger unless the first wraps. */
  lemma WrapBreaksOrder(s: State)
    requires !InBatch(s) && s.sequence.Some?
    ensures var call := Call(true);
            var first, second := IssuedBy(s, call), IssuedBy(Next(s, call), call);
            |first| == |second| == 1 && (first[0] < second[0] <==> !Wraps(s, call))
  {
  }

  /** A call gives no ID exactly when the batch is used up and the next cannot be reserved. */
  lemma CallFailsIff(s: State, writeOk: bool)
    ensures IssuedBy(s, Call(writeOk)) == [] <==> s.nextID >= s.horizonID && (s.sequence.None? || !writeOk)
    ensures IssuedBy(s, Call(writeOk)) == [] ==> Next(s, Call(writeOk)) == s
  {
  }

  /** A restart gives up the rest of the batch: the next ID is the sequence on disk, whatever memory held. */
  lemma RestartSkips(s: State)
    requires s.sequence.Some?
    ensures IssuedBy(Next(s, Restart), Call(true)) == [if s.sequence.value == 0 then 1 else s.sequence.value]
    ensures IssuedBy(Next(s, Restart), Call(false)) == []
  {
  }

  function Calls(n: nat): (steps: seq<Step>)
    ensures |steps| == n
  {
    seq(n, _ => Call(false))
  }

  /** One write reserves a thousand IDs: after it the next 999 calls give the following ones, without another write. */
  lemma {:induction false} BatchIsContiguous(sequence: uint64, n: nat)
    requires 0 < sequence && sequence + 1000 < TWO64 && n <= 999
    ensures var s := Next(State(0, 0, Some(sequence)), Call(true));
            && IssuedBy(State(0, 0, Some(sequence)), Call(true)) == [sequence]
            && Run(s, Calls(n)) == State(sequence + 1 + n, sequence + 1000, Some(sequence + 1000))
            && (n > 0 ==> IssuedBy(Run(s, Calls(n - 1)), Call(false)) == [sequence + n])
  {
    if n > 0 {
      BatchIsContiguous(sequence, n - 1);
      assert Calls(n)[..n - 1] == Calls(n - 1);
    }
  }

  lemma {:induction false} SequenceGrows(s: State, steps: seq<Step>)
    requires s.sequence.Some? && s.sequence.value + BATCH * |steps| < TWO64
    ensures Run(s, steps).sequence.Some? && Run(s, steps).sequence.value <= s.sequence.value + BATCH * |steps|
    ensures NoWrap(s, steps)
  {
    if steps != [] {
      SequenceGrows(s, steps[..|steps| - 1]);
    }
  }

  /* ---------- the sequencer as an object ---------- */

  class PersistentSequencer {
    var nextID: uint64
    var horizonID: uint64
    var sequence: Option<uint64>
    /** Every ID given out so far. */
    ghost var issued: seq<uint64>

    function View(): (s: State)
      reads this
    {
      State(nextID, horizonID, sequence)
    }

    /** The IDs given out are unique, and the next will be larger than all of them. */
    ghost predicate Valid()
      reads this
    {
      Reserved(View()) && Ordered(issued) && AllBelow(issued, View())
    }

    constructor (sequence: Option<uint64>)
      ensures Valid() && View() == State(0, 0, sequence) && issued == []
    {
      nextID, horizonID, this.sequence := 0, 0, sequence;
      issued := [];
    }

    /** An ID larger than every one before it, unless the sequence wraps; None when the bucket is missing or the write fails. */
    method NextID(writeOk: bool) returns (id: Option<uint64>)
      modifies this
      ensures View() == Next(old(View()), Call(writeOk))
      ensures id.None? <==> !InBatch(old(View())) && !Allocates(old(View()), writeOk)
      ensures issued == old(issued) + (if id.Some? then [id.value] else [])
      ensures old(Valid()) && !Wraps(old(View()), Call(writeOk)) ==> Valid()
      ensures old(Valid()) && !Wraps(old(View()), Call(writeOk)) && id.Some? ==>
                0 < id.value && forall i :: 0 <= i < |old(issued)| ==> old(issued)[i] < id.value
    {
      ghost var ids, holds := issued + IssuedBy(View(), Call(writeOk)), Valid() && !Wraps(View(), Call(writeOk));
      if holds {
        StepKeeps(View(), issued, Call(writeOk));
      }
      if nextID < horizonID {
        id := Some(nextID);
        nextID := nextID + 1;
      } else {
        if sequence.None? || !writeOk {
          return None;
        }
        var next := sequence.value;
        var nextHorizon := Add64(next, BATCH);
        sequence := Some(nextHorizon);
        if next == 0 {
          next := next + 1;
        }
        nextID := Add64(next, 1);
        horizonID := nextHorizon;
        id := Some(next);
      }
      issued := issued + [id.value];
      assert issued == ids;
      if holds {
        forall i | 0 <= i < |old(issued)| ensures old(issued)[i] < id.value {
          assert issued[i] < issued[|issued| - 1];
        }
      }
    }

    /** A new process: the batch in memory is lost, and the IDs stay unique. */
    method Reload()
      modifies this
      ensures View() == Next(old(View()), Restart) && issued == old(issued)
      ensures old(Valid()) ==> Valid()
    {
      if Valid() {
        StepKeeps(View(), issued, Restart);
        assert issued + [] == issued;
      }
      nextID, horizonID := 0, 0;
    }
  }
}
