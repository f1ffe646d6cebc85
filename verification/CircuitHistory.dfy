/**
  What the circuit map remembers over whole runs: a key is failed back exactly when its circuit was loaded
  by the last startup and has no keystone, and a circuit can be resolved exactly when nothing has resolved
  it since it was last added or loaded.
 */
module CircuitHistory {
  import opened Common
  import opened Verdicts
  import opened CircuitState
  import opened CircuitInvariants
  import opened CircuitRuns
  import opened CircuitEffects
  import CL = CircuitLookup

  /* ---------- the circuits that are failed back ---------- */

  /** The circuits handed to a commit are new objects. */
  ghost predicate NewObjects(w: World, step: Step) {
    step.DoCommit? ==> forall c :: c in step.batch ==> c !in w.s.fromDisk
  }

  /** What a commit reports in Fails. */
  ghost function FailedKeys(w: World, step: Step): (r: set<CircuitKey>)
    requires step.DoCommit?
  {
    KeysOf(Actions(w.s, step.batch, CommitError(w.s, step.batch, step.encodable, step.writeOk)).fails)
  }

  /** Between startups no circuit becomes one that was loaded, and a key that stays pending keeps its circuit. */
  lemma HolderStays(w: World, step: Step, k: CircuitKey)
    requires Enabled(w, step) && !step.DoRestart?
    ensures Next(w, step).s.fromDisk == w.s.fromDisk
    ensures k in w.s.pending && k in Next(w, step).s.pending ==> Next(w, step).s.pending[k] == w.s.pending[k]
    ensures NewObjects(w, step) && k in Next(w, step).s.pending && k !in w.s.pending ==> Next(w, step).s.pending[k] !in w.s.fromDisk
  {
    match step
    case DoCommit(batch, encodable, writeOk) => CommitHolds(w.s, batch, CommitError(w.s, batch, encodable, writeOk), k);
    case DoOpen(ks, writeOk) => CheckedAreKnown(w.s, ks, |ks|);
    case _ =>
  }

  lemma CommitHolds(s: State, batch: seq<CircuitPtr>, err: Option<Error>, k: CircuitKey)
    ensures var t := Commit(s, batch, err);
      && t.fromDisk == s.fromDisk
      && (k in s.pending ==> k in t.pending && t.pending[k] == s.pending[k])
      && (k in t.pending && k !in s.pending ==> t.pending[k] in batch)
  {
    ReconciledKeys(s.pending, batch, |batch|);
  }

  /** The part of a run after its last startup, all of whose commits are of new objects. */
  ghost predicate SinceStartup(ws: seq<World>, steps: seq<Step>, m: nat, i: nat) {
    && IsRun(ws, steps) && m < i < |ws| && Sane(ws[0])
    && steps[m].DoRestart? && ws[m + 1].up
    && forall j {:trigger steps[j]} :: m < j < i ==> !steps[j].DoRestart? && NewObjects(ws[j], steps[j])
  }

  ghost predicate PendingThroughout(ws: seq<World>, m: nat, i: nat, k: CircuitKey)
    requires i < |ws|
  {
    forall j :: m < j <= i ==> k in ws[j].s.pending
  }

  lemma EarlierToo(ws: seq<World>, steps: seq<Step>, m: nat, i: nat)
    requires SinceStartup(ws, steps, m, i) && m + 1 < i
    ensures SinceStartup(ws, steps, m, i - 1)
  {
  }

  /** The last step before i, which is not a startup. */
  lemma HolderBefore(ws: seq<World>, steps: seq<Step>, m: nat, i: nat, k: CircuitKey)
    requires SinceStartup(ws, steps, m, i) && m + 1 < i
    ensures var s, t := ws[i - 1].s, ws[i].s;
      && t.fromDisk == s.fromDisk
      && (k in s.pending && k in t.pending ==> t.pending[k] == s.pending[k])
      && (k !in s.pending && k in t.pending ==> t.pending[k] !in s.fromDisk)
  {
    HolderStays(ws[i - 1], steps[i - 1], k);
  }

  lemma LoadedFirst(ws: seq<World>, steps: seq<Step>, m: nat, i: nat, k: CircuitKey)
    requires SinceStartup(ws, steps, m, i)
    ensures k in ws[m + 1].s.pending ==> ws[m + 1].s.pending[k] in ws[m + 1].s.fromDisk
  {
    RunSane(ws, steps, m);
    StartupLoads(ws[m].s, steps[m].startup);
  }

  /** A pending circuit counts as loaded exactly if it has been pending ever since the startup. */
  lemma {:induction false} LoadedIffHeld(ws: seq<World>, steps: seq<Step>, m: nat, i: nat, k: CircuitKey)
    requires SinceStartup(ws, steps, m, i)
    ensures k in ws[i].s.pending ==> (ws[i].s.pending[k] in ws[i].s.fromDisk <==> PendingThroughout(ws, m, i, k))
    decreases i
  {
    if i == m + 1 {
      LoadedFirst(ws, steps, m, i, k);
    } else {
      LoadedIffHeld(ws, steps, m, i - 1, k) by { EarlierToo(ws, steps, m, i); }
      HolderBefore(ws, steps, m, i, k);
      assert PendingThroughout(ws, m, i, k) <==> PendingThroughout(ws, m, i - 1, k) && k in ws[i].s.pending;
    }
  }

  /** For a pending key the report depends on its circuit alone. */
  lemma FailedIff(w: World, step: Step, k: CircuitKey)
    requires step.DoCommit? && k in w.s.pending && k in KeysOf(step.batch)
    ensures k in FailedKeys(w, step) <==> w.s.pending[k] !in w.s.outgoing && w.s.pending[k] in w.s.fromDisk
  {
    CommitReports(w.s, step.batch, step.encodable, step.writeOk);
    var c :| c in step.batch && InKey(c) == k;
    var a :| 0 <= a < |step.batch| && step.batch[a] == c;
    forall i | 0 <= i < |step.batch| && InKey(step.batch[i]) == k
      ensures IsFailed(w.s, step.batch, i) <==> w.s.pending[k] !in w.s.outgoing && w.s.pending[k] in w.s.fromDisk
      ensures !IsNew(w.s, step.batch, i)
    {
      assert HoldsKey(w.s, step.batch, i, w.s.pending[k]);
    }
    assert IsFailed(w.s, step.batch, a) ==> c in Actions(w.s, step.batch, CommitError(w.s, step.batch, step.encodable, step.writeOk)).fails;
  }

  /**
    Over every run: a commit fails back a pending key exactly if its circuit was loaded by the last startup,
    has been pending ever since, and has no keystone. Everything else under a pending key is dropped.
   */
  lemma FailedIffLoaded(ws: seq<World>, steps: seq<Step>, m: nat, i: nat, k: CircuitKey)
    requires SinceStartup(ws, steps, m, i) && i < |steps| && steps[i].DoCommit?
    requires k in ws[i].s.pending && k in KeysOf(steps[i].batch)
    ensures k in FailedKeys(ws[i], steps[i]) <==> PendingThroughout(ws, m, i, k) && ws[i].s.pending[k] !in ws[i].s.outgoing
  {
    LoadedIffHeld(ws, steps, m, i, k);
    FailedIff(ws[i], steps[i], k);
  }

  lemma KeystoneStays(w: World, step: Step, c: CircuitPtr)
    requires Enabled(w, step) && !step.DoRestart? && !step.DoTrim? && c in w.s.outgoing
    ensures c in Next(w, step).s.outgoing
  {
    if step.DoOpen? && OpenResult(w.s, step.ks, step.writeOk).None? {
      CheckedAreKnown(w.s, step.ks, |step.ks|);
      OutgoingGrows(w.s, step.ks, |step.ks|);
    }
  }

  lemma {:induction false} OutgoingGrows(s: State, ks: seq<Keystone>, n: nat)
    requires n <= |ks| && Known(s, ks)
    ensures s.outgoing.Keys <= OpenAll(s, ks, n).outgoing.Keys
  {
    if n > 0 {
      OutgoingGrows(s, ks, n - 1);
    }
  }

  /** And unless a trim came in between it was not opened at any time since the startup. */
  lemma {:induction false} FailedWasNeverOpen(ws: seq<World>, steps: seq<Step>, m: nat, i: nat, j: nat, k: CircuitKey)
    requires SinceStartup(ws, steps, m, i) && i < |steps| && steps[i].DoCommit? && m < j <= i
    requires k in ws[i].s.pending && k in FailedKeys(ws[i], steps[i])
    requires forall l {:trigger steps[l]} :: m < l < i ==> !steps[l].DoTrim?
    ensures k in ws[j].s.pending && ws[j].s.pending[k] == ws[i].s.pending[k] && ws[j].s.pending[k] !in ws[j].s.outgoing
  {
    FailedComesFromBatch(ws[i], steps[i], k);
    FailedIffLoaded(ws, steps, m, i, k);
    NeverOpen(ws, steps, m, i, j, k);
  }

  lemma FailedComesFromBatch(w: World, step: Step, k: CircuitKey)
    requires step.DoCommit? && k in FailedKeys(w, step)
    ensures k in KeysOf(step.batch)
  {
    CommitReports(w.s, step.batch, step.encodable, step.writeOk);
  }

  lemma {:induction false} NeverOpen(ws: seq<World>, steps: seq<Step>, m: nat, i: nat, j: nat, k: CircuitKey)
    requires SinceStartup(ws, steps, m, i) && m < j <= i && PendingThroughout(ws, m, i, k)
    requires ws[i].s.pending[k] !in ws[i].s.outgoing
    requires forall l {:trigger steps[l]} :: m < l < i ==> !steps[l].DoTrim?
    ensures ws[j].s.pending[k] == ws[i].s.pending[k] && ws[j].s.pending[k] !in ws[j].s.outgoing
    decreases i - j
  {
    if j < i {
      NeverOpen(ws, steps, m, i, j + 1, k);
      ClosedBefore(ws[j], steps[j], ws[j + 1], k);
    }
  }

  lemma ClosedBefore(w: World, step: Step, w': World, k: CircuitKey)
    requires Enabled(w, step) && w' == Next(w, step) && !step.DoRestart? && !step.DoTrim?
    requires k in w.s.pending && k in w'.s.pending && w'.s.pending[k] !in w'.s.outgoing
    ensures w.s.pending[k] == w'.s.pending[k] && w.s.pending[k] !in w.s.outgoing
  {
    HolderStays(w, step, k);
    if w.s.pending[k] in w.s.outgoing {
      KeystoneStays(w, step, w.s.pending[k]);
    }
  }

  /** In every state of a tidy run, the key of a circuit that is open is dropped, never failed back. */
  lemma OpenNeverFailedInRun(ws: seq<World>, steps: seq<Step>, i: nat, o: CircuitKey)
    requires IsRun(ws, steps) && CL.LinkedWorld(ws[0]) && i < |steps| && steps[i].DoCommit? && o in ws[i].s.openedBy
    requires forall j {:trigger steps[j]} :: 0 <= j < |steps| ==> CL.Tidy(ws[j], steps[j])
    ensures InKey(ws[i].s.openedBy[o]) !in FailedKeys(ws[i], steps[i])
  {
    CL.TidyRunLinked(ws, steps, i);
    OpenIsNeverFailed(ws[i].s, steps[i].batch, steps[i].encodable, steps[i].writeOk, o);
  }

  /* ---------- resolutions ---------- */

  /** A successful delete takes the key out. */
  ghost predicate Deletes(w: World, step: Step, k: CircuitKey) {
    step.DoDelete? && step.writeOk && k in step.inKeys && k in w.s.pending
  }

  /** One of the steps so far resolved the circuit of the key, and it was not deleted since. */
  ghost predicate IsResolved(ws: seq<World>, steps: seq<Step>, i: nat, k: CircuitKey)
    requires |ws| == |steps| + 1 && i < |ws|
  {
    i > 0 &&
    (k in Resolves(ws[i - 1], steps[i - 1]) || (IsResolved(ws, steps, i - 1, k) && !Deletes(ws[i - 1], steps[i - 1], k)))
  }

  /** The key that a fail or close of an existing circuit is for. */
  ghost function Resolves(w: World, step: Step): (r: set<CircuitKey>) {
    match step
    case DoFail(inKey) => if inKey in w.s.pending then {inKey} else {}
    case DoClose(outKey) => if outKey in w.s.openedBy then {InKey(w.s.openedBy[outKey])} else {}
    case _ => {}
  }

  lemma ClosedAfter(w: World, step: Step, k: CircuitKey)
    requires Enabled(w, step) && !step.DoRestart?
    ensures k in Next(w, step).s.closed <==> k in Resolves(w, step) || (k in w.s.closed && !Deletes(w, step, k))
  {
  }

  lemma {:induction false} ClosedIffResolved(ws: seq<World>, steps: seq<Step>, i: nat, k: CircuitKey)
    requires IsRun(ws, steps) && i < |ws| && ws[0].s.closed == {}
    requires forall j {:trigger steps[j]} :: 0 <= j < i ==> !steps[j].DoRestart?
    ensures k in ws[i].s.closed <==> IsResolved(ws, steps, i, k)
  {
    if i > 0 {
      ClosedIffResolved(ws, steps, i - 1, k);
      ClosedAfter(ws[i - 1], steps[i - 1], k);
    }
  }

  /**
    From a startup on, through every run: failing a circuit succeeds exactly if it is pending and no fail or
    close has resolved it since it was last added, and closing one exactly if it is open and the same holds.
    The other calls say which of the two was the matter.
   */
  lemma ResolvableIff(ws: seq<World>, steps: seq<Step>, i: nat, k: CircuitKey, o: CircuitKey)
    requires IsRun(ws, steps) && i < |ws| && ws[0].s.closed == {}
    requires forall j {:trigger steps[j]} :: 0 <= j < i ==> !steps[j].DoRestart?
    ensures var s := ws[i].s;
      && FailError(s, k) == (if k !in s.pending then Some(ErrUnknownCircuit)
                             else if IsResolved(ws, steps, i, k) then Some(ErrCircuitClosing) else None)
      && CloseError(s, o) == (if o !in s.openedBy then Some(ErrUnknownCircuit)
                              else if IsResolved(ws, steps, i, InKey(s.openedBy[o])) then Some(ErrCircuitClosing) else None)
  {
    ClosedIffResolved(ws, steps, i, k);
    if o in ws[i].s.openedBy {
      ClosedIffResolved(ws, steps, i, InKey(ws[i].s.openedBy[o]));
    }
  }

  /** A key that was deleted can be added and then resolved anew. */
  lemma DeletedIsUnresolved(ws: seq<World>, steps: seq<Step>, i: nat, k: CircuitKey)
    requires IsRun(ws, steps) && i < |steps| && ws[0].s.closed == {} && Deletes(ws[i], steps[i], k)
    requires forall j {:trigger steps[j]} :: 0 <= j < i ==> !steps[j].DoRestart?
    ensures !IsResolved(ws, steps, i + 1, k) && k !in ws[i + 1].s.pending && k !in ws[i + 1].s.closed
  {
    ClosedAfter(ws[i], steps[i], k);
  }
}
