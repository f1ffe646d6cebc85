/**
  Whole runs of the circuit map: commits, opens, trims, closes, deletes, failed writes and
  restarts in any order.
 */
module CircuitRuns {
  import opened Common
  import opened Verdicts
  import opened CircuitState
  import opened CircuitInvariants

  datatype Step =
    | DoCommit(batch: seq<CircuitPtr>, encodable: CircuitRecord -> bool, writeOk: bool)
    | DoOpen(ks: seq<Keystone>, writeOk: bool)
    | DoTrim(chanID: uint64, start: uint64, writeOk: bool)
    | DoFail(inKey: CircuitKey)
    | DoClose(outKey: CircuitKey)
    | DoDelete(inKeys: seq<CircuitKey>, writeOk: bool, order: seq<CircuitKey>)
    | DoRestart(startup: Startup)

  /** The state, and whether a circuit map is up; after a failed startup only a restart is possible. */
  datatype World = World(s: State, up: bool)

  ghost predicate Enabled(w: World, step: Step) {
    match step
    case DoRestart(u) => Possible(w.s, u)
    case DoOpen(ks, _) => w.up && forall i :: 0 <= i < |ks| ==> ks[i].outKey != EMPTY_KEY
    case DoDelete(inKeys, _, order) => w.up && Lists(order, Removed(w.s, inKeys).Keys)
    case _ => w.up
  }

  ghost function Next(w: World, step: Step): (r: World)
    requires Enabled(w, step)
  {
    match step
    case DoCommit(batch, encodable, writeOk) => w.(s := Commit(w.s, batch, CommitError(w.s, batch, encodable, writeOk)))
    case DoOpen(ks, writeOk) => w.(s := Open(w.s, ks, writeOk))
    case DoTrim(chanID, start, writeOk) => w.(s := Trim(w.s, chanID, start, writeOk))
    case DoFail(inKey) => if FailError(w.s, inKey).Some? then w else w.(s := w.s.(closed := w.s.closed + {inKey}))
    case DoClose(outKey) =>
      if CloseError(w.s, outKey).Some? then w else w.(s := w.s.(closed := w.s.closed + {InKey(w.s.openedBy[outKey])}))
    case DoDelete(inKeys, writeOk, order) => w.(s := Delete(w.s, inKeys, writeOk, order))
    case DoRestart(u) => var (s, up) := Restart(w.s, u); World(s, up)
  }

  ghost predicate IsRun(ws: seq<World>, steps: seq<Step>) {
    && |ws| == |steps| + 1
    && forall i {:trigger steps[i]} :: 0 <= i < |steps| ==> Enabled(ws[i], steps[i]) && ws[i + 1] == Next(ws[i], steps[i])
  }

  /* ---------- every run ---------- */

  ghost predicate Sane(w: World) {
    DiskValid(w.s) && (w.up ==> Valid(w.s))
  }

  lemma RestartSane(s: State, u: Startup)
    requires DiskValid(s) && Possible(s, u)
    ensures DiskValid(Restart(s, u).0) && (Restart(s, u).1 ==> Valid(Restart(s, u).0))
  {
    CleanKeepsDisk(Crashed(s), u.closedChans);
    RestoreValid(Clean(Crashed(s), u.closedChans), u.order);
    TrimAllValid(Rebuilt(s, u), u.chans, |u.chans|);
  }

  lemma StepSane(w: World, step: Step)
    requires Sane(w) && Enabled(w, step)
    ensures Sane(Next(w, step))
  {
    match step
    case DoCommit(batch, encodable, writeOk) => CommitKeepsValid(w.s, batch, CommitError(w.s, batch, encodable, writeOk));
    case DoOpen(ks, writeOk) =>
      CheckedAreKnown(w.s, ks, |ks|);
      if OpenResult(w.s, ks, writeOk).None? {
        OpenKeepsValid(w.s, ks, |ks|);
      }
    case DoTrim(chanID, start, writeOk) =>
    case DoDelete(inKeys, writeOk, order) => DeleteKeepsValid(w.s, inKeys, writeOk, order);
    case DoRestart(u) => RestartSane(w.s, u);
    case _ =>
  }

  lemma {:induction false} RunSane(ws: seq<World>, steps: seq<Step>, i: nat)
    requires IsRun(ws, steps) && Sane(ws[0]) && i < |ws|
    ensures Sane(ws[i])
  {
    if i > 0 {
      RunSane(ws, steps, i - 1);
      StepSane(ws[i - 1], steps[i - 1]);
    }
  }

  /** The keys a step reports in Adds. */
  ghost function Reported(w: World, step: Step): (r: set<CircuitKey>) {
    match step
    case DoCommit(batch, encodable, writeOk) => KeysOf(Actions(w.s, batch, CommitError(w.s, batch, encodable, writeOk)).adds)
    case _ => {}
  }

  lemma CommitReportsNew(s: State, batch: seq<CircuitPtr>, err: Option<Error>)
    requires Valid(s)
    ensures KeysOf(Actions(s, batch, err).adds) !! s.adds.Keys
    ensures Commit(s, batch, err).adds.Keys == s.adds.Keys + KeysOf(Actions(s, batch, err).adds)
  {
    CommitFacts(s, batch);
    assert KeysOf([]) == {};
    assert Actions(s, batch, err).adds == if err.None? then Added(s, batch) else [];
  }

  lemma RestartOnlyRemoves(s: State, u: Startup)
    requires DiskValid(s) && Possible(s, u)
    ensures Restart(s, u).0.adds.Keys <= s.adds.Keys
  {
    CleanKeepsDisk(Crashed(s), u.closedChans);
    RestoreValid(Clean(Crashed(s), u.closedChans), u.order);
    TrimAllValid(Rebuilt(s, u), u.chans, |u.chans|);
  }

  /** A commit puts on disk exactly the keys it reports, all of them new; no other step adds keys. */
  lemma ReportsAreNew(w: World, step: Step)
    requires Sane(w) && Enabled(w, step)
    ensures step.DoCommit? ==> Reported(w, step) !! w.s.adds.Keys
    ensures step.DoCommit? ==> Next(w, step).s.adds.Keys == w.s.adds.Keys + Reported(w, step)
    ensures !step.DoCommit? ==> Next(w, step).s.adds.Keys <= w.s.adds.Keys
  {
    match step
    case DoCommit(batch, encodable, writeOk) => CommitReportsNew(w.s, batch, CommitError(w.s, batch, encodable, writeOk));
    case DoRestart(u) => RestartOnlyRemoves(w.s, u);
    case _ =>
  }

  /** A key that is in at world a and out at world b leaves somewhere in between. */
  lemma {:induction false} Leaves(keys: World -> set<CircuitKey>, ws: seq<World>, a: nat, b: nat, k: CircuitKey) returns (m: nat)
    requires a <= b < |ws| && k in keys(ws[a]) && k !in keys(ws[b])
    ensures a <= m < b && k in keys(ws[m]) && k !in keys(ws[m + 1])
    decreases b - a
  {
    if k !in keys(ws[a + 1]) {
      m := a;
    } else {
      m := Leaves(keys, ws, a + 1, b, k);
    }
  }

  /**
    Over every run an incoming key is reported in Adds at most once between two removals of
    that key from disk.
   */
  lemma AddedOncePerRemoval(ws: seq<World>, steps: seq<Step>, i: nat, j: nat, k: CircuitKey)
    requires IsRun(ws, steps) && Sane(ws[0]) && i < j < |steps|
    requires k in Reported(ws[i], steps[i]) && k in Reported(ws[j], steps[j])
    ensures exists m :: i < m < j && k in ws[m].s.adds && k !in ws[m + 1].s.adds
  {
    RunSane(ws, steps, i);
    ReportsAreNew(ws[i], steps[i]);
    RunSane(ws, steps, j);
    ReportsAreNew(ws[j], steps[j]);
    var m := Leaves((w: World) => w.s.adds.Keys, ws, i + 1, j, k);
  }

  /* ---------- resolutions ---------- */

  /** The incoming key of the circuit a step fails or closes. */
  ghost function Resolved(w: World, step: Step): (r: set<CircuitKey>) {
    match step
    case DoFail(inKey) => if FailError(w.s, inKey).None? then {inKey} else {}
    case DoClose(outKey) => if CloseError(w.s, outKey).None? then {InKey(w.s.openedBy[outKey])} else {}
    case _ => {}
  }

  /** A resolution closes a circuit that was not closed; only a restart or a successful delete reopens one. */
  lemma ResolutionsAreNew(w: World, step: Step)
    requires Enabled(w, step)
    ensures Resolved(w, step) !! w.s.closed
    ensures Resolved(w, step) <= Next(w, step).s.closed
  {
  }

  lemma OnlyDeletesReopen(w: World, step: Step, k: CircuitKey)
    requires Enabled(w, step) && k in w.s.closed && k !in Next(w, step).s.closed && !step.DoRestart?
    ensures step.DoDelete? && step.writeOk && k in Removed(w.s, step.inKeys)
  {
  }

  /**
    Without a restart, at most one FailCircuit or CloseCircuit succeeds for a circuit before a
    successful DeleteCircuits removes it.
   */
  lemma ResolvedOncePerDelete(ws: seq<World>, steps: seq<Step>, i: nat, j: nat, k: CircuitKey)
    requires IsRun(ws, steps) && i < j < |steps|
    requires k in Resolved(ws[i], steps[i]) && k in Resolved(ws[j], steps[j])
    requires forall m :: i < m < j ==> !steps[m].DoRestart?
    ensures exists m :: i < m < j && steps[m].DoDelete? && steps[m].writeOk && k in Removed(ws[m].s, steps[m].inKeys)
  {
    ResolutionsAreNew(ws[i], steps[i]);
    ResolutionsAreNew(ws[j], steps[j]);
    var m := Leaves((w: World) => w.s.closed, ws, i + 1, j, k);
    OnlyDeletesReopen(ws[m], steps[m], k);
  }

  /* ---------- coherent runs ---------- */

  /** The steps that keep memory and disk together: what the callers promise, and neither of the two lossy paths. */
  ghost predicate Careful(w: World, step: Step) {
    match step
    case DoCommit(batch, encodable, writeOk) =>
      && (forall c :: c in batch ==> c !in w.s.outgoing)
      && CommitError(w.s, batch, encodable, writeOk) != Some(ErrEncode)
    case DoOpen(ks, writeOk) => OpenResult(w.s, ks, writeOk).None? ==> Known(w.s, ks) && Unopened(w.s, ks) && Pairs(ks)
    case DoTrim(chanID, start, writeOk) => writeOk || TrimRun(w.s.openedBy.Keys, chanID, start) == {}
    case _ => true
  }

  ghost predicate CoherentWorld(w: World) {
    && DiskValid(w.s) && DiskCoherent(w.s)
    && (w.up ==> Valid(w.s) && Coherent(w.s))
  }

  /** Same circuits, some of the keystones. */
  ghost predicate FewerKeystones(d: State, s: State) {
    s.adds == d.adds && forall o :: o in s.keystones ==> o in d.keystones && s.keystones[o] == d.keystones[o]
  }

  lemma FewerKeystonesCoherent(d: State, s: State)
    requires DiskCoherent(d) && FewerKeystones(d, s)
    ensures DiskCoherent(s)
  {
  }

  lemma {:induction false} TrimAllFewer(s: State, chans: seq<Channel>, n: nat)
    requires n <= |chans|
    ensures FewerKeystones(s, TrimAll(s, chans, n).0)
  {
    if n > 0 {
      TrimAllFewer(s, chans, n - 1);
    }
  }

  lemma RestartKeepsDisk(s: State, u: Startup)
    requires DiskValid(s) && DiskCoherent(s) && Possible(s, u)
    ensures DiskCoherent(Restart(s, u).0)
  {
    var d := Clean(Crashed(s), u.closedChans);
    CleanKeepsDisk(Crashed(s), u.closedChans);
    if u.restoreOk && (u.closedChans == {} || u.cleanOk) {
      TrimAllFewer(Restore(d, u.order), u.chans, |u.chans|);
      FewerKeystonesCoherent(d, Restart(s, u).0);
    }
  }

  lemma CarefulStepCoherent(w: World, step: Step)
    requires CoherentWorld(w) && Enabled(w, step) && Careful(w, step)
    ensures Next(w, step).up ==> Coherent(Next(w, step).s)
  {
    match step
    case DoCommit(batch, encodable, writeOk) => CommitCoherence(w.s, batch, encodable, writeOk);
    case DoOpen(ks, writeOk) =>
      CheckedAreKnown(w.s, ks, |ks|);
      if OpenResult(w.s, ks, writeOk).None? {
        OpenCoherence(w.s, ks);
      }
    case DoTrim(chanID, start, writeOk) => TrimCoherence(w.s, chanID, start, writeOk);
    case DoDelete(inKeys, writeOk, order) => DeleteCoherence(w.s, inKeys, writeOk, order);
    case DoRestart(u) =>
      if Restart(w.s, u).1 {
        RestartCoherence(w.s, u);
      }
    case _ =>
  }

  lemma CarefulStep(w: World, step: Step)
    requires CoherentWorld(w) && Enabled(w, step) && Careful(w, step)
    ensures CoherentWorld(Next(w, step))
  {
    StepSane(w, step);
    CarefulStepCoherent(w, step);
    if step.DoRestart? {
      RestartKeepsDisk(w.s, step.startup);
    } else {
      CoherentDisk(Next(w, step).s);
    }
  }

  /** Over every careful run memory and disk agree whenever a circuit map is up, restarts included. */
  lemma {:induction false} CarefulRunCoherent(ws: seq<World>, steps: seq<Step>, i: nat)
    requires IsRun(ws, steps) && CoherentWorld(ws[0]) && i < |ws|
    requires forall j {:trigger steps[j]} :: 0 <= j < |steps| ==> Careful(ws[j], steps[j])
    ensures CoherentWorld(ws[i])
  {
    if i > 0 {
      CarefulRunCoherent(ws, steps, i - 1);
      CarefulStep(ws[i - 1], steps[i - 1]);
    }
  }
}
