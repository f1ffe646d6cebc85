/**
  The payment circuit map as values: the data under it, and what each operation does to
  the four in-memory indexes and the two disk buckets.  The class in CircuitMap.dfy
  implements these functions with the loops and rollbacks of the source.
 */
module CircuitState {
  import opened Common
  import opened Verdicts

  /** Channel ID and HTLC ID; identifies one HTLC of one channel. */
  datatype CircuitKey = CircuitKey(chanID: uint64, htlcID: uint64)

  /** hop.Source, the channel ID of locally initiated payments. */
  const SOURCE: uint64 := 0

  /** What OutKey returns for a circuit without keystone; never a valid outgoing key. */
  const EMPTY_KEY := CircuitKey(SOURCE, 0)

  type Hash = seq<bv8>

  /** The persisted part of a PaymentCircuit, which never changes. */
  datatype CircuitRecord = CircuitRecord(
    addRef: AddRef,
    incoming: CircuitKey,
    paymentHash: Hash,
    incomingAmount: uint64,
    outgoingAmount: uint64,
    assetId: nat,
    errorEncrypter: Option<seq<bv8>>)

  /** A pointer to a PaymentCircuit.  Two circuits with equal records are still two objects. */
  datatype CircuitPtr = CircuitPtr(id: nat, rec: CircuitRecord)

  datatype Keystone = Keystone(inKey: CircuitKey, outKey: CircuitKey)

  datatype Error = ErrUnknownCircuit | ErrCircuitClosing | ErrDuplicateKeystone | ErrEncode | ErrDatabase

  /**
    Memory and disk.  `outgoing` and `fromDisk` hold the two mutable fields of the circuit
    objects: the keystone, absent while it is nil, and the LoadedFromDisk flag.
   */
  datatype State = State(
    pending: map<CircuitKey, CircuitPtr>,
    openedBy: map<CircuitKey, CircuitPtr>,
    closed: set<CircuitKey>,
    hashIndex: set<(Hash, CircuitKey)>,
    outgoing: map<CircuitPtr, CircuitKey>,
    fromDisk: set<CircuitPtr>,
    adds: map<CircuitKey, CircuitRecord>,
    keystones: map<CircuitKey, CircuitKey>)

  function InKey(c: CircuitPtr): CircuitKey {
    c.rec.incoming
  }

  ghost function KeysOf(circuits: seq<CircuitPtr>): (keys: set<CircuitKey>) {
    set c | c in circuits :: InKey(c)
  }

  /* ---------- CommitCircuits ---------- */

  /** The verdict on a circuit whose incoming key is already pending as `found`. */
  function FoundVerdict(s: State, found: CircuitPtr): Verdict {
    if found in s.outgoing then Drop
    else if found !in s.fromDisk then Drop
    else Fail
  }

  /** The pending index once the first n circuits of the batch have been reconciled with it. */
  function Reconciled(pending: map<CircuitKey, CircuitPtr>, batch: seq<CircuitPtr>, n: nat): (r: map<CircuitKey, CircuitPtr>)
    requires n <= |batch|
  {
    if n == 0 then pending else
      var before := Reconciled(pending, batch, n - 1);
      var c := batch[n - 1];
      if InKey(c) in before then before else before[InKey(c) := c]
  }

  function VerdictAt(s: State, batch: seq<CircuitPtr>, i: nat): (v: Verdict)
    requires i < |batch|
  {
    var before := Reconciled(s.pending, batch, i);
    if InKey(batch[i]) in before then FoundVerdict(s, before[InKey(batch[i])]) else Add
  }

  function VerdictsOf(s: State, batch: seq<CircuitPtr>): (vs: seq<Verdict>)
    ensures |vs| == |batch|
    ensures forall i :: 0 <= i < |batch| ==> vs[i] == VerdictAt(s, batch, i)
  {
    seq(|batch|, i requires 0 <= i < |batch| => VerdictAt(s, batch, i))
  }

  /** The circuits CommitCircuits would add. */
  function Added(s: State, batch: seq<CircuitPtr>): (r: seq<CircuitPtr>) {
    Select(batch, VerdictsOf(s, batch), Add)
  }

  datatype FwdActions = FwdActions(adds: seq<CircuitPtr>, drops: seq<CircuitPtr>, fails: seq<CircuitPtr>)

  /** How the commit ends: some circuit may fail to serialize, then the write may fail. */
  function CommitError(s: State, batch: seq<CircuitPtr>, encodable: CircuitRecord -> bool, writeOk: bool): (err: Option<Error>) {
    if Added(s, batch) == [] then None
    else if exists c :: c in Added(s, batch) && !encodable(c.rec) then Some(ErrEncode)
    else if writeOk then None else Some(ErrDatabase)
  }

  /** The three subsequences reported back. */
  function Actions(s: State, batch: seq<CircuitPtr>, err: Option<Error>): (a: FwdActions) {
    var vs := VerdictsOf(s, batch);
    if err.None? then FwdActions(Select(batch, vs, Add), Select(batch, vs, Drop), Select(batch, vs, Fail))
    else FwdActions([], Select(batch, vs, Drop), Select(batch, Downgrade(vs), Fail))
  }

  /** The circuit bucket after the first n puts of a batch. */
  function PutCircuits(adds: map<CircuitKey, CircuitRecord>, batch: seq<CircuitPtr>, n: nat): (r: map<CircuitKey, CircuitRecord>)
    requires n <= |batch|
  {
    if n == 0 then adds else PutCircuits(adds, batch, n - 1)[InKey(batch[n - 1]) := batch[n - 1].rec]
  }

  function Commit(s: State, batch: seq<CircuitPtr>, err: Option<Error>): (r: State) {
    match err
    case None => s.(pending := Reconciled(s.pending, batch, |batch|),
                    adds := PutCircuits(s.adds, Added(s, batch), |Added(s, batch)|))
    case Some(ErrEncode) => s.(pending := Reconciled(s.pending, batch, |batch|))
    case Some(_) => s
  }

  /* ---------- OpenCircuits ---------- */

  /** The check of the first n keystones stops at the first bad one. */
  function OpenError(s: State, ks: seq<Keystone>, n: nat): (err: Option<Error>)
    requires n <= |ks|
  {
    if n == 0 then None
    else if OpenError(s, ks, n - 1).Some? then OpenError(s, ks, n - 1)
    else if ks[n - 1].outKey in s.openedBy then Some(ErrDuplicateKeystone)
    else if ks[n - 1].inKey !in s.pending then Some(ErrUnknownCircuit)
    else None
  }

  /** One keystone: on disk, on the circuit object, in the opened index and in the hash index. */
  function OpenOne(s: State, k: Keystone): (r: State)
    requires k.inKey in s.pending
  {
    var c := s.pending[k.inKey];
    s.(keystones := s.keystones[k.outKey := k.inKey],
       outgoing := s.outgoing[c := k.outKey],
       openedBy := s.openedBy[k.outKey := c],
       hashIndex := s.hashIndex + {(c.rec.paymentHash, k.outKey)})
  }

  /** All incoming keys are pending. */
  predicate Known(s: State, ks: seq<Keystone>) {
    forall i :: 0 <= i < |ks| ==> ks[i].inKey in s.pending
  }

  function OpenAll(s: State, ks: seq<Keystone>, n: nat): (r: State)
    requires n <= |ks| && Known(s, ks)
    ensures r.pending == s.pending && r.closed == s.closed && r.fromDisk == s.fromDisk && r.adds == s.adds
  {
    if n == 0 then s else OpenOne(OpenAll(s, ks, n - 1), ks[n - 1])
  }

  lemma {:induction false} CheckedAreKnown(s: State, ks: seq<Keystone>, n: nat)
    requires n <= |ks|
    ensures OpenError(s, ks, n).None? <==>
            forall i :: 0 <= i < n ==> ks[i].outKey !in s.openedBy && ks[i].inKey in s.pending
  {
    if n > 0 {
      CheckedAreKnown(s, ks, n - 1);
    }
  }

  function OpenResult(s: State, ks: seq<Keystone>, writeOk: bool): (err: Option<Error>) {
    if ks == [] then None
    else if OpenError(s, ks, |ks|).Some? then OpenError(s, ks, |ks|)
    else if writeOk then None else Some(ErrDatabase)
  }

  function Open(s: State, ks: seq<Keystone>, writeOk: bool): (r: State) {
    if OpenResult(s, ks, writeOk).Some? then s
    else
      CheckedAreKnown(s, ks, |ks|);
      OpenAll(s, ks, |ks|)
  }

  /* ---------- TrimOpenCircuits ---------- */

  function NextID(i: uint64): (r: uint64) {
    if i + 1 == TWO64 then 0 else i + 1
  }

  /** The outgoing keys removed: the run of opened keys of the channel from i upwards. */
  function TrimRun(open: set<CircuitKey>, chanID: uint64, i: uint64): (r: set<CircuitKey>)
    ensures r <= open
    decreases |open|
  {
    var outKey := CircuitKey(chanID, i);
    if outKey !in open then {} else
      assert |open - {outKey}| == |open| - 1;
      {outKey} + TrimRun(open - {outKey}, chanID, NextID(i))
  }

  /**
    Memory once these keys have been trimmed.  The keystone is cleared before the hash index
    entry is looked up, so the entry the index loses is that of the empty key, and the entry
    of the trimmed key stays.
   */
  function TrimKeys(s: State, run: set<CircuitKey>): (r: State)
    requires run <= s.openedBy.Keys
  {
    s.(openedBy := s.openedBy - run,
       outgoing := s.outgoing - (set o | o in run :: s.openedBy[o]),
       hashIndex := s.hashIndex - (set o | o in run :: (s.openedBy[o].rec.paymentHash, EMPTY_KEY)))
  }

  function Trim(s: State, chanID: uint64, start: uint64, writeOk: bool): (r: State) {
    var run := TrimRun(s.openedBy.Keys, chanID, start);
    TrimKeys(s, run).(keystones := if writeOk then s.keystones - run else s.keystones)
  }

  /* ---------- FailCircuit, CloseCircuit ---------- */

  function FailError(s: State, inKey: CircuitKey): (err: Option<Error>) {
    if inKey !in s.pending then Some(ErrUnknownCircuit)
    else if inKey in s.closed then Some(ErrCircuitClosing)
    else None
  }

  function CloseError(s: State, outKey: CircuitKey): (err: Option<Error>) {
    if outKey !in s.openedBy then Some(ErrUnknownCircuit)
    else if InKey(s.openedBy[outKey]) in s.closed then Some(ErrCircuitClosing)
    else None
  }

  /* ---------- LookupByPaymentHash ---------- */

  /** The opened circuits whose outgoing key is indexed under the hash. */
  function Lookup(s: State, h: Hash): (r: set<CircuitPtr>) {
    set e | e in s.hashIndex && e.0 == h && e.1 in s.openedBy :: s.openedBy[e.1]
  }

  /* ---------- DeleteCircuits ---------- */

  /** The circuits taken out of the pending index. */
  function Removed(s: State, inKeys: seq<CircuitKey>): (r: map<CircuitKey, CircuitPtr>) {
    map k | k in s.pending && k in inKeys :: s.pending[k]
  }

  /** The keystones of the removed circuits. */
  function OutKeys(outgoing: map<CircuitPtr, CircuitKey>, removed: map<CircuitKey, CircuitPtr>): (r: set<CircuitKey>) {
    set k | k in removed && removed[k] in outgoing :: outgoing[removed[k]]
  }

  /** Their entries in the hash index. */
  function Entries(outgoing: map<CircuitPtr, CircuitKey>, removed: map<CircuitKey, CircuitPtr>): (r: set<(Hash, CircuitKey)>) {
    set k | k in removed && removed[k] in outgoing :: (removed[k].rec.paymentHash, outgoing[removed[k]])
  }

  /** A sequence that lists a set of keys, in some order. */
  ghost predicate Lists(order: seq<CircuitKey>, keys: set<CircuitKey>) {
    Distinct(order) && forall k :: k in order <==> k in keys
  }

  /** Some listing of a set. */
  ghost function Listing(keys: set<CircuitKey>): (order: seq<CircuitKey>)
    ensures Lists(order, keys)
  {
    if keys == {} then [] else
      var k :| k in keys;
      Listing(keys - {k}) + [k]
  }

  /** The opened index once the first n of the removed circuits have been put back. */
  function PutBack(outgoing: map<CircuitPtr, CircuitKey>, openedBy: map<CircuitKey, CircuitPtr>,
                   removed: map<CircuitKey, CircuitPtr>, order: seq<CircuitKey>, n: nat): (r: map<CircuitKey, CircuitPtr>)
    requires n <= |order| && forall k :: k in order ==> k in removed
  {
    if n == 0 then openedBy else
      var before := PutBack(outgoing, openedBy, removed, order, n - 1);
      var c := removed[order[n - 1]];
      if c in outgoing then before[outgoing[c] := c] else before
  }

  /** `order` is the order in which a failed delete walks the removed circuits to restore them. */
  function Delete(s: State, inKeys: seq<CircuitKey>, writeOk: bool, order: seq<CircuitKey>): (r: State)
    requires forall k :: k in order ==> k in Removed(s, inKeys)
  {
    var removed := Removed(s, inKeys);
    var outs := OutKeys(s.outgoing, removed);
    if writeOk then
      s.(pending := s.pending - removed.Keys, closed := s.closed - removed.Keys,
         openedBy := s.openedBy - outs, hashIndex := s.hashIndex - Entries(s.outgoing, removed),
         adds := s.adds - removed.Keys, keystones := s.keystones - outs)
    else
      s.(openedBy := PutBack(s.outgoing, s.openedBy - outs, removed, order, |order|),
         hashIndex := s.hashIndex + Entries(s.outgoing, removed))
  }

  /* ---------- startup ---------- */

  /** A close summary; channels whose close is pending are skipped. */
  datatype ClosedChannel = ClosedChannel(chanID: uint64, isPending: bool)

  predicate IsClosedChannel(closedChans: set<uint64>, chanID: uint64) {
    chanID != 0 && chanID in closedChans
  }

  predicate StaleKeystone(keystones: map<CircuitKey, CircuitKey>, closedChans: set<uint64>, o: CircuitKey) {
    o in keystones && (IsClosedChannel(closedChans, keystones[o].chanID) || IsClosedChannel(closedChans, o.chanID))
  }

  /** The circuits cleanClosedChannels deletes: incoming channel closed, or named by a deleted keystone. */
  function StaleCircuits(adds: map<CircuitKey, CircuitRecord>, keystones: map<CircuitKey, CircuitKey>,
                         closedChans: set<uint64>): (r: set<CircuitKey>) {
    (set k | k in adds && IsClosedChannel(closedChans, adds[k].incoming.chanID) :: adds[k].incoming)
    + (set o | o in keystones && StaleKeystone(keystones, closedChans, o) :: keystones[o])
  }

  function Clean(s: State, closedChans: set<uint64>): (r: State) {
    s.(adds := s.adds - StaleCircuits(s.adds, s.keystones, closedChans),
       keystones := s.keystones - (set o | o in s.keystones && StaleKeystone(s.keystones, closedChans, o)))
  }

  /** The circuit object decoded from a record. */
  function Loaded(rec: CircuitRecord): (c: CircuitPtr) {
    CircuitPtr(0, rec)
  }

  /** The pending index decoded from the circuit bucket. */
  function LoadedAll(adds: map<CircuitKey, CircuitRecord>): (r: map<CircuitKey, CircuitPtr>) {
    map k | k in adds :: Loaded(adds[k])
  }

  /** The opened index: every keystone whose circuit exists. */
  function LoadedOpen(adds: map<CircuitKey, CircuitRecord>, keystones: map<CircuitKey, CircuitKey>): (r: map<CircuitKey, CircuitPtr>) {
    map o | o in keystones && keystones[o] in adds :: Loaded(adds[keystones[o]])
  }

  /** The keystones set on the loaded objects after the first n entries of the keystone bucket. */
  function Resurrected(adds: map<CircuitKey, CircuitRecord>, keystones: map<CircuitKey, CircuitKey>,
                       order: seq<CircuitKey>, n: nat): (r: map<CircuitPtr, CircuitKey>)
    requires n <= |order| && forall o :: o in order ==> o in keystones
  {
    if n == 0 then map[] else
      var before := Resurrected(adds, keystones, order, n - 1);
      var k := keystones[order[n - 1]];
      if k in adds then before[Loaded(adds[k]) := order[n - 1]] else before
  }

  /** A keystone whose circuit is gone. */
  predicate Stray(s: State, o: CircuitKey) {
    o in s.keystones && s.keystones[o] !in s.adds
  }

  /**
    restoreMemState: memory rebuilt from the buckets, `order` being the order in which the
    keystone bucket is walked.  Only the stray keystones of the zero channel are pruned.
   */
  function Restore(s: State, order: seq<CircuitKey>): (r: State)
    requires forall o :: o in order ==> o in s.keystones
  {
    var outgoing := Resurrected(s.adds, s.keystones, order, |order|);
    var openedBy := LoadedOpen(s.adds, s.keystones);
    State(LoadedAll(s.adds), openedBy, {},
          set o | o in openedBy && openedBy[o] in outgoing :: (openedBy[o].rec.paymentHash, outgoing[openedBy[o]]),
          outgoing, LoadedAll(s.adds).Values, s.adds,
          s.keystones - (set o | o in s.keystones && Stray(s, o) && o.chanID == SOURCE))
  }

  /** A channel as trimAllOpenCircuits sees it; the lookup of the next HTLC index may fail. */
  datatype Channel = Channel(isPending: bool, chanID: uint64, nextLocalHtlcIndex: Option<uint64>, trimOk: bool)

  predicate Trims(c: Channel) {
    !c.isPending && c.chanID != SOURCE
  }

  /** The first n channels trimmed in order, and whether no lookup or write failed; after a failure the rest is not tried. */
  function TrimAll(s: State, chans: seq<Channel>, n: nat): (r: (State, bool))
    requires n <= |chans|
  {
    if n == 0 then (s, true) else
      var (before, ok) := TrimAll(s, chans, n - 1);
      var c := chans[n - 1];
      if !ok || !Trims(c) then (before, ok)
      else if c.nextLocalHtlcIndex.None? then (before, false)
      else
        var run := TrimRun(before.openedBy.Keys, c.chanID, c.nextLocalHtlcIndex.value);
        (Trim(before, c.chanID, c.nextLocalHtlcIndex.value, c.trimOk), c.trimOk || run == {})
  }

  /** What a startup is given: the closed channels, the bucket order, the open channels, and how its writes end. */
  datatype Startup = Startup(closedChans: set<uint64>, cleanOk: bool, restoreOk: bool, order: seq<CircuitKey>, chans: seq<Channel>)

  /** What is left when the process dies: the disk. */
  function Crashed(s: State): (r: State) {
    State(map[], map[], {}, {}, map[], {}, s.adds, s.keystones)
  }

  /** The order lists the keystone bucket as it is after cleaning. */
  ghost predicate Possible(s: State, u: Startup) {
    Lists(u.order, Clean(Crashed(s), u.closedChans).keystones.Keys)
  }

  /** NewCircuitMap on the disk of s: the state reached, and whether a circuit map was returned. */
  function Restart(s: State, u: Startup): (r: (State, bool))
    requires forall o :: o in u.order ==> o in Clean(Crashed(s), u.closedChans).keystones
  {
    if u.closedChans != {} && !u.cleanOk then (Crashed(s), false) else
      var cleaned := Clean(Crashed(s), u.closedChans);
      if !u.restoreOk then (cleaned, false) else TrimAll(Restore(cleaned, u.order), u.chans, |u.chans|)
  }
}
