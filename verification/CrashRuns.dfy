/**
  The circuit map together with the channels it opens circuits on: keystones are written before
  the commitment that carries their HTLCs, and a crash can fall anywhere in between.
 */
module CrashRuns {
  import opened Common
  import opened CircuitState
  import CI = CircuitInvariants
  import CR = CircuitRuns
  import CH = Channels
  import HR = ChannelRuns
  import FP = FwdPkgs
  import V = Verdicts

  /** A channel and the HTLC ID its link assigns next. */
  datatype Link = Link(chan: CH.Chan, next: uint64)

  datatype Node = Node(w: CR.World, links: map<uint64, Link>)

  datatype Step =
    | Circuits(circuitStep: CR.Step)
    | OpenHtlcs(chanID: uint64, inKeys: seq<CircuitKey>, writeOk: bool)
    | ChannelStep(chanID: uint64, step: HR.Step)
    | Start(startup: Startup)

  /** The circuits are opened under consecutive HTLC IDs. */
  function Keystones(chanID: uint64, next: uint64, inKeys: seq<CircuitKey>): (ks: seq<Keystone>)
    requires next + |inKeys| < TWO64
    ensures |ks| == |inKeys|
  {
    seq(|inKeys|, i requires 0 <= i < |inKeys| => Keystone(inKeys[i], CircuitKey(chanID, next + i)))
  }

  /** The next HTLC index of a channel as startup reads it. */
  function IndexOf(l: Link): (n: uint64) {
    CH.NextIndex(l.chan)
  }

  /** Startup trims each of these channels at the index it reads from the channel's own disk. */
  ghost predicate ReadsAll(n: Node, u: Startup) {
    && CI.DistinctChannels(u.chans)
    && forall ch :: ch in n.links ==> exists i :: 0 <= i < |u.chans| && Reads(n, u, i, ch)
  }

  ghost predicate Reads(n: Node, u: Startup, i: nat, ch: uint64)
    requires i < |u.chans| && ch in n.links
  {
    var c := u.chans[i];
    c.chanID == ch && Trims(c) && c.nextLocalHtlcIndex == Some(CH.NextIndex(CH.Reloaded(n.links[ch].chan)))
  }

  /**
    Cleaning after closed channels takes only the last of the channel's HTLCs that are in no persisted
    diff yet: if it takes one of them, it takes the later ones too.
   */
  ghost predicate StaleSuffix(s: State, closedChans: set<uint64>, ch: uint64, index: uint64) {
    forall gap, later :: Uncommitted(s, ch, index, gap) && Uncommitted(s, ch, index, later) && gap.htlcID < later.htlcID ==>
      (StaleKeystone(s.keystones, closedChans, gap) ==> StaleKeystone(s.keystones, closedChans, later))
  }

  predicate Uncommitted(s: State, ch: uint64, index: uint64, o: CircuitKey) {
    o in s.keystones && o.chanID == ch && index <= o.htlcID
  }

  /** A circuit is deleted only after its HTLC was persisted. */
  ghost predicate DeletesPersisted(n: Node, inKeys: seq<CircuitKey>) {
    forall o :: o in OutKeys(n.w.s.outgoing, Removed(n.w.s, inKeys)) && o.chanID in n.links ==>
      o.htlcID < IndexOf(n.links[o.chanID])
  }

  /** What is asked of the steps. */
  ghost predicate CircuitsEnabled(n: Node, st: CR.Step) {
    && !st.DoOpen? && !st.DoTrim? && !st.DoRestart?
    && CR.Enabled(n.w, st) && CR.Careful(n.w, st)
    && (st.DoDelete? ==> DeletesPersisted(n, st.inKeys))
  }

  ghost predicate OpenEnabled(n: Node, ch: uint64, inKeys: seq<CircuitKey>, ok: bool) {
    && ch in n.links && n.links[ch].next + |inKeys| < CI.MAX_ID
    && (var st := CR.DoOpen(Keystones(ch, n.links[ch].next, inKeys), ok); CR.Enabled(n.w, st) && CR.Careful(n.w, st))
  }

  /** A diff covers exactly the HTLCs the link has assigned. */
  ghost predicate ChannelEnabled(n: Node, ch: uint64, st: HR.Step) {
    && n.w.up && ch in n.links && !st.Restart?
    && !HR.Restores(st)
    && (st.AppendStep? ==> st.diff.commitment.localHtlcIndex == n.links[ch].next)
  }

  ghost predicate StartEnabled(n: Node, u: Startup) {
    && CR.Enabled(n.w, CR.DoRestart(u)) && ReadsAll(n, u)
    && forall ch :: ch in n.links ==> StaleSuffix(n.w.s, u.closedChans, ch, IndexOf(n.links[ch]))
  }

  ghost predicate Enabled(n: Node, step: Step) {
    match step
    case Circuits(st) => CircuitsEnabled(n, st)
    case OpenHtlcs(ch, inKeys, ok) => OpenEnabled(n, ch, inKeys, ok)
    case ChannelStep(ch, st) => ChannelEnabled(n, ch, st)
    case Start(u) => StartEnabled(n, u)
  }

  /** If the circuits were opened, their IDs are used up. */
  function Assigned(links: map<uint64, Link>, ch: uint64, m: nat, done: bool): (r: map<uint64, Link>)
    requires ch in links && links[ch].next + m < CI.MAX_ID
  {
    if done then links[ch := links[ch].(next := links[ch].next + m)] else links
  }

  function Reread(l: Link): (r: Link) {
    Link(CH.Reloaded(l.chan), CH.NextIndex(CH.Reloaded(l.chan)))
  }

  ghost function Opened(n: Node, ch: uint64, inKeys: seq<CircuitKey>, ok: bool): (r: Node)
    requires OpenEnabled(n, ch, inKeys, ok)
  {
    var ks := Keystones(ch, n.links[ch].next, inKeys);
    Node(CR.Next(n.w, CR.DoOpen(ks, ok)), Assigned(n.links, ch, |inKeys|, OpenResult(n.w.s, ks, ok).None?))
  }

  ghost function Started(n: Node, u: Startup): (r: Node)
    requires StartEnabled(n, u)
  {
    Node(CR.Next(n.w, CR.DoRestart(u)), map ch | ch in n.links :: Reread(n.links[ch]))
  }

  ghost function Next(n: Node, step: Step): (r: Node)
    requires Enabled(n, step)
  {
    match step
    case Circuits(st) => n.(w := CR.Next(n.w, st))
    case OpenHtlcs(ch, inKeys, ok) => Opened(n, ch, inKeys, ok)
    case ChannelStep(ch, st) => n.(links := n.links[ch := n.links[ch].(chan := HR.Next(n.links[ch].chan, st))])
    case Start(u) => Started(n, u)
  }

  ghost predicate IsRun(n: Node, steps: seq<Step>)
    decreases |steps|, 0
  {
    steps == [] ||
    (IsRun(n, steps[..|steps| - 1]) && Enabled(Run(n, steps[..|steps| - 1]), steps[|steps| - 1]))
  }

  ghost function Run(n: Node, steps: seq<Step>): (r: Node)
    requires IsRun(n, steps)
    decreases |steps|, 1
  {
    if steps == [] then n else Next(Run(n, steps[..|steps| - 1]), steps[|steps| - 1])
  }

  /* ---------- what every step keeps ---------- */

  /** While the map is up, the HTLC IDs from the persisted index to the next one are exactly the open ones from there on. */
  ghost predicate Lined(keys: set<CircuitKey>, ch: uint64, index: uint64, next: uint64) {
    && index <= next < CI.MAX_ID
    && (forall o :: o in keys && o.chanID == ch ==> o.htlcID < next)
    && (forall j: uint64 :: index <= j < next ==> CircuitKey(ch, j) in keys)
  }

  /** The keystones of one channel, with what its link knows. */
  ghost predicate LinkOk(keys: set<CircuitKey>, up: bool, ch: uint64, l: Link) {
    && ch != SOURCE && HR.InStep(l.chan)
    && CI.Contiguous(keys, ch, IndexOf(l)) && CircuitKey(ch, CI.MAX_ID) !in keys && IndexOf(l) < CI.MAX_ID
    && (up ==> Lined(keys, ch, IndexOf(l), l.next))
  }

  ghost predicate LinksOk(keys: set<CircuitKey>, up: bool, links: map<uint64, Link>) {
    forall ch :: ch in links ==> LinkOk(keys, up, ch, links[ch])
  }

  ghost predicate Ok(n: Node) {
    CR.CoherentWorld(n.w) && LinksOk(n.w.s.keystones.Keys, n.w.up, n.links)
  }

  /** Nothing in memory and nothing on disk. */
  const NOTHING: State := State(map[], map[], {}, {}, map[], {}, map[], map[])

  /** A new node: nothing on disk, and links that start at their channel's index. */
  lemma NewNodeOk(links: map<uint64, Link>)
    requires forall ch :: ch in links ==>
               ch != SOURCE && HR.InStep(links[ch].chan) && links[ch].next == IndexOf(links[ch]) < CI.MAX_ID
    ensures Ok(Node(CR.World(NOTHING, true), links))
  {
  }

  lemma LinedContiguous(keys: set<CircuitKey>, ch: uint64, index: uint64, next: uint64)
    requires Lined(keys, ch, index, next)
    ensures CI.Contiguous(keys, ch, index) && CircuitKey(ch, CI.MAX_ID) !in keys
  {
  }

  /** Keys that come or go elsewhere do not matter. */
  lemma LinedSame(keys: set<CircuitKey>, keys': set<CircuitKey>, ch: uint64, index: uint64, next: uint64)
    requires Lined(keys, ch, index, next)
    requires forall o :: o in keys' && o.chanID == ch ==> o in keys
    requires forall o :: o in keys && o.chanID == ch && o.htlcID >= index ==> o in keys'
    ensures Lined(keys', ch, index, next)
  {
    forall j: uint64 | index <= j < next ensures CircuitKey(ch, j) in keys' {
      assert CircuitKey(ch, j) in keys;
    }
  }

  /** A link that a step leaves alone. */
  lemma LinkKept(keys: set<CircuitKey>, keys': set<CircuitKey>, ch: uint64, l: Link)
    requires LinkOk(keys, true, ch, l)
    requires forall o :: o in keys' && o.chanID == ch ==> o in keys
    requires forall o :: o in keys && o.chanID == ch && o.htlcID >= IndexOf(l) ==> o in keys'
    ensures LinkOk(keys', true, ch, l)
  {
    LinedSame(keys, keys', ch, IndexOf(l), l.next);
    LinedContiguous(keys', ch, IndexOf(l), l.next);
  }

  /** Circuits that are committed, resolved or deleted leave the keystones that are not persisted yet. */
  lemma CircuitStepKeys(n: Node, st: CR.Step, o: CircuitKey)
    requires CircuitsEnabled(n, st)
    ensures o in CR.Next(n.w, st).s.keystones ==> o in n.w.s.keystones
    ensures o in n.w.s.keystones && o.chanID in n.links && o.htlcID >= IndexOf(n.links[o.chanID]) ==> o in CR.Next(n.w, st).s.keystones
  {
  }

  lemma CircuitStepOk(n: Node, st: CR.Step)
    requires Ok(n) && CircuitsEnabled(n, st)
    ensures Ok(n.(w := CR.Next(n.w, st)))
  {
    var keys, keys' := n.w.s.keystones.Keys, CR.Next(n.w, st).s.keystones.Keys;
    CR.CarefulStep(n.w, st);
    forall o: CircuitKey ensures o in keys' ==> o in keys
      ensures o in keys && o.chanID in n.links && o.htlcID >= IndexOf(n.links[o.chanID]) ==> o in keys'
    {
      CircuitStepKeys(n, st, o);
    }
    forall ch | ch in n.links ensures LinkOk(keys', true, ch, n.links[ch]) {
      LinkKept(keys, keys', ch, n.links[ch]);
    }
  }

  /** Opening puts exactly the new keys into the keystone bucket. */
  lemma {:induction false} OpenKeys(s: State, ks: seq<Keystone>, m: nat)
    requires m <= |ks| && Known(s, ks)
    ensures forall o :: o in OpenAll(s, ks, m).keystones <==> o in s.keystones || exists i :: 0 <= i < m && ks[i].outKey == o
  {
    if m > 0 {
      OpenKeys(s, ks, m - 1);
      forall o ensures o in OpenAll(s, ks, m).keystones <==> o in s.keystones || exists i :: 0 <= i < m && ks[i].outKey == o {
        if o == ks[m - 1].outKey {
          assert 0 <= m - 1 < m && ks[m - 1].outKey == o;
        } else if o in OpenAll(s, ks, m - 1).keystones && o !in s.keystones {
          var i :| 0 <= i < m - 1 && ks[i].outKey == o;
          assert 0 <= i < m;
        }
      }
    }
  }

  ghost predicate IsNewKey(o: CircuitKey, ch: uint64, next: uint64, m: nat) {
    o.chanID == ch && next <= o.htlcID < next + m
  }

  ghost predicate NewKeys(keys: set<CircuitKey>, keys': set<CircuitKey>, ch: uint64, next: uint64, m: nat) {
    forall o :: o in keys' <==> o in keys || IsNewKey(o, ch, next, m)
  }

  lemma OpenedKeys(s: State, ch: uint64, next: uint64, inKeys: seq<CircuitKey>, writeOk: bool)
    requires next + |inKeys| < CI.MAX_ID && OpenResult(s, Keystones(ch, next, inKeys), writeOk).None?
    ensures NewKeys(s.keystones.Keys, Open(s, Keystones(ch, next, inKeys), writeOk).keystones.Keys, ch, next, |inKeys|)
  {
    var ks := Keystones(ch, next, inKeys);
    CheckedAreKnown(s, ks, |ks|);
    OpenKeys(s, ks, |ks|);
    forall o | IsNewKey(o, ch, next, |inKeys|) ensures exists i :: 0 <= i < |ks| && ks[i].outKey == o {
      assert ks[o.htlcID - next].outKey == o;
    }
  }

  lemma LinedOpened(keys: set<CircuitKey>, keys': set<CircuitKey>, ch: uint64, index: uint64, next: uint64, m: nat)
    requires Lined(keys, ch, index, next) && next + m < CI.MAX_ID
    requires NewKeys(keys, keys', ch, next, m)
    ensures Lined(keys', ch, index, next + m)
  {
    forall j: uint64 | index <= j < next + m ensures CircuitKey(ch, j) in keys' {
      assert j < next ==> CircuitKey(ch, j) in keys;
      assert j >= next ==> IsNewKey(CircuitKey(ch, j), ch, next, m);
    }
  }

  lemma LinksOpened(keys: set<CircuitKey>, keys': set<CircuitKey>, links: map<uint64, Link>, ch: uint64, m: nat)
    requires LinksOk(keys, true, links) && ch in links && links[ch].next + m < CI.MAX_ID
    requires NewKeys(keys, keys', ch, links[ch].next, m)
    ensures LinksOk(keys', true, links[ch := links[ch].(next := links[ch].next + m)])
  {
    var links' := links[ch := links[ch].(next := links[ch].next + m)];
    forall c | c in links' ensures LinkOk(keys', true, c, links'[c]) {
      if c == ch {
        LinedOpened(keys, keys', ch, IndexOf(links[ch]), links[ch].next, m);
        LinedContiguous(keys', ch, IndexOf(links[ch]), links[ch].next + m);
      } else {
        LinkKept(keys, keys', c, links[c]);
      }
    }
  }

  lemma AssignedOk(keys: set<CircuitKey>, keys': set<CircuitKey>, links: map<uint64, Link>, ch: uint64, m: nat, done: bool)
    requires LinksOk(keys, true, links) && ch in links && links[ch].next + m < CI.MAX_ID
    requires if done then NewKeys(keys, keys', ch, links[ch].next, m) else keys' == keys
    ensures LinksOk(keys', true, Assigned(links, ch, m, done))
  {
    if done {
      LinksOpened(keys, keys', links, ch, m);
    }
  }

  /** What an open does to the map, and to the keys on disk. */
  lemma OpenWorld(w: CR.World, ch: uint64, next: uint64, inKeys: seq<CircuitKey>, ok: bool)
    requires CR.CoherentWorld(w) && next + |inKeys| < CI.MAX_ID
    requires var st := CR.DoOpen(Keystones(ch, next, inKeys), ok); CR.Enabled(w, st) && CR.Careful(w, st)
    ensures var w' := CR.Next(w, CR.DoOpen(Keystones(ch, next, inKeys), ok));
      var done := OpenResult(w.s, Keystones(ch, next, inKeys), ok).None?;
      && w.up && w'.up && CR.CoherentWorld(w')
      && (if done then NewKeys(w.s.keystones.Keys, w'.s.keystones.Keys, ch, next, |inKeys|)
          else w'.s.keystones.Keys == w.s.keystones.Keys)
  {
    CR.CarefulStep(w, CR.DoOpen(Keystones(ch, next, inKeys), ok));
    if OpenResult(w.s, Keystones(ch, next, inKeys), ok).None? {
      OpenedKeys(w.s, ch, next, inKeys, ok);
    }
  }

  lemma OpenStepOk(n: Node, ch: uint64, inKeys: seq<CircuitKey>, ok: bool)
    requires Ok(n) && OpenEnabled(n, ch, inKeys, ok)
    ensures Ok(Opened(n, ch, inKeys, ok))
  {
    OpenWorld(n.w, ch, n.links[ch].next, inKeys, ok);
    AssignedOk(n.w.s.keystones.Keys, Opened(n, ch, inKeys, ok).w.s.keystones.Keys, n.links, ch, |inKeys|,
               OpenResult(n.w.s, Keystones(ch, n.links[ch].next, inKeys), ok).None?);
  }

  lemma ChannelStepOk(n: Node, ch: uint64, st: HR.Step)
    requires Ok(n) && ChannelEnabled(n, ch, st)
    ensures Ok(n.(links := n.links[ch := n.links[ch].(chan := HR.Next(n.links[ch].chan, st))]))
  {
    var l := n.links[ch];
    assert LinkOk(n.w.s.keystones.Keys, true, ch, l);
    HR.IndexMoves(l.chan, st);
    LinedContiguous(n.w.s.keystones.Keys, ch, CH.NextIndex(HR.Next(l.chan, st)), l.next);
  }

  /* ---------- startup ---------- */

  /** What a startup, finished or not, leaves of a channel's keystones: all of them, or those that were not trimmed. */
  ghost predicate KeptOrTrimmed(keys: set<CircuitKey>, keys': set<CircuitKey>, ch: uint64, index: uint64) {
    || (forall o: CircuitKey :: o.chanID == ch ==> (o in keys' <==> o in keys))
    || (forall o: CircuitKey :: o.chanID == ch ==> (o in keys' <==> o in keys && o !in TrimRun(keys, ch, index)))
  }

  lemma KeptOrTrimmedContiguous(keys: set<CircuitKey>, keys': set<CircuitKey>, ch: uint64, index: uint64)
    requires CI.Contiguous(keys, ch, index) && CircuitKey(ch, CI.MAX_ID) !in keys && KeptOrTrimmed(keys, keys', ch, index)
    ensures CI.Contiguous(keys', ch, index) && CircuitKey(ch, CI.MAX_ID) !in keys'
  {
    CI.TrimExact(keys, ch, index);
    if !forall o: CircuitKey :: o.chanID == ch ==> (o in keys' <==> o in keys) {
      assert CI.Upward(keys', ch, index) == {};
    }
  }

  /** One channel's trim does not touch another. */
  lemma TrimElsewhere(s: State, c: Channel, o: CircuitKey)
    requires c.nextLocalHtlcIndex.Some? && o.chanID != c.chanID
    ensures var t := Trim(s, c.chanID, c.nextLocalHtlcIndex.value, c.trimOk);
      (o in t.openedBy <==> o in s.openedBy) && (o in t.keystones <==> o in s.keystones)
  {
    CI.TrimStaysAbove(s.openedBy.Keys, c.chanID, c.nextLocalHtlcIndex.value);
  }

  /** Before its turn a channel is untouched. */
  lemma {:induction false} NotYetTrimmed(s: State, chans: seq<Channel>, n: nat, i: nat, o: CircuitKey)
    requires n <= i < |chans| && CI.DistinctChannels(chans) && o.chanID == chans[i].chanID
    ensures var t := TrimAll(s, chans, n).0;
      (o in t.openedBy <==> o in s.openedBy) && (o in t.keystones <==> o in s.keystones)
  {
    if n > 0 {
      NotYetTrimmed(s, chans, n - 1, i, o);
      var before, c := TrimAll(s, chans, n - 1), chans[n - 1];
      if before.1 && Trims(c) && c.nextLocalHtlcIndex.Some? {
        TrimElsewhere(before.0, c, o);
      }
    }
  }

  lemma {:induction false} TrimAllDisk(s: State, chans: seq<Channel>, n: nat, i: nat)
    requires n <= |chans| && i < |chans| && CI.DistinctChannels(chans) && s.openedBy.Keys == s.keystones.Keys
    requires Trims(chans[i]) && chans[i].nextLocalHtlcIndex.Some?
    ensures KeptOrTrimmed(s.keystones.Keys, TrimAll(s, chans, n).0.keystones.Keys, chans[i].chanID, chans[i].nextLocalHtlcIndex.value)
  {
    if n <= i {
      forall o: CircuitKey | o.chanID == chans[i].chanID ensures o in TrimAll(s, chans, n).0.keystones <==> o in s.keystones {
        NotYetTrimmed(s, chans, n, i, o);
      }
    } else if n == i + 1 {
      TurnDisk(s, chans, i);
    } else {
      TrimAllDisk(s, chans, n - 1, i);
      var before, c := TrimAll(s, chans, n - 1), chans[n - 1];
      if before.1 && Trims(c) && c.nextLocalHtlcIndex.Some? {
        forall o: CircuitKey | o.chanID == chans[i].chanID
          ensures o in TrimAll(s, chans, n).0.keystones <==> o in before.0.keystones
        {
          TrimElsewhere(before.0, c, o);
        }
      }
    }
  }

  /** Its own turn. */
  lemma TurnDisk(s: State, chans: seq<Channel>, i: nat)
    requires i < |chans| && CI.DistinctChannels(chans) && s.openedBy.Keys == s.keystones.Keys
    requires Trims(chans[i]) && chans[i].nextLocalHtlcIndex.Some?
    ensures KeptOrTrimmed(s.keystones.Keys, TrimAll(s, chans, i + 1).0.keystones.Keys, chans[i].chanID, chans[i].nextLocalHtlcIndex.value)
  {
    var before, c := TrimAll(s, chans, i), chans[i];
    forall o: CircuitKey | o.chanID == c.chanID
      ensures o in before.0.keystones <==> o in s.keystones
      ensures o in before.0.openedBy <==> o in s.openedBy
    {
      NotYetTrimmed(s, chans, i, i, o);
    }
    CI.TrimRunLocal(before.0.openedBy.Keys, s.keystones.Keys, c.chanID, c.nextLocalHtlcIndex.value);
  }

  lemma StartKeepsDisk(s: State, u: Startup, i: nat)
    requires CI.DiskValid(s) && CI.DiskCoherent(s) && Possible(s, u)
    requires i < |u.chans| && CI.DistinctChannels(u.chans) && Trims(u.chans[i]) && u.chans[i].nextLocalHtlcIndex.Some?
    ensures var keys' := Restart(s, u).0.keystones.Keys;
      || keys' == s.keystones.Keys
      || KeptOrTrimmed(Clean(Crashed(s), u.closedChans).keystones.Keys, keys', u.chans[i].chanID, u.chans[i].nextLocalHtlcIndex.value)
  {
    if u.restoreOk && (u.closedChans == {} || u.cleanOk) {
      var d := Clean(Crashed(s), u.closedChans);
      CI.CleanKeepsDisk(Crashed(s), u.closedChans);
      CI.RestoreOfCoherentDisk(d, u.order);
      TrimAllDisk(Restore(d, u.order), u.chans, |u.chans|, i);
    }
  }

  /** What cleaning leaves of keys without a gap has no gap if and only if it takes only the last ones. */
  lemma CleanContiguousIff(s: State, closedChans: set<uint64>, ch: uint64, index: uint64)
    requires CI.Contiguous(s.keystones.Keys, ch, index)
    ensures CI.Contiguous(Clean(Crashed(s), closedChans).keystones.Keys, ch, index) <==> StaleSuffix(s, closedChans, ch, index)
  {
    var keys, clean := s.keystones.Keys, Clean(Crashed(s), closedChans).keystones.Keys;
    assert forall o :: o in clean <==> o in keys && !StaleKeystone(s.keystones, closedChans, o);
    if StaleSuffix(s, closedChans, ch, index) {
      forall o | o in CI.Upward(clean, ch, index) ensures forall j: uint64 :: index <= j <= o.htlcID ==> CircuitKey(ch, j) in clean {
        assert o in CI.Upward(keys, ch, index);
        forall j: uint64 | index <= j <= o.htlcID ensures CircuitKey(ch, j) in clean {
          assert CircuitKey(ch, j) in keys && (j == o.htlcID ==> CircuitKey(ch, j) == o);
        }
      }
    }
    if CI.Contiguous(clean, ch, index) {
      forall gap, later | Uncommitted(s, ch, index, gap) && Uncommitted(s, ch, index, later) && gap.htlcID < later.htlcID
        ensures StaleKeystone(s.keystones, closedChans, gap) ==> StaleKeystone(s.keystones, closedChans, later)
      {
        assert gap == CircuitKey(ch, gap.htlcID);
        assert later in clean ==> later in CI.Upward(clean, ch, index);
      }
    }
  }

  lemma ReloadKeepsIndex(c: CH.Chan)
    requires HR.InStep(c)
    ensures HR.InStep(CH.Reloaded(c)) && CH.NextIndex(CH.Reloaded(c)) == CH.NextIndex(c)
  {
    HR.IndexMoves(c, HR.Restart);
  }

  lemma StartLinkOk(n: Node, u: Startup, ch: uint64)
    requires Ok(n) && StartEnabled(n, u) && ch in n.links
    ensures LinkOk(Started(n, u).w.s.keystones.Keys, Started(n, u).w.up, ch, Reread(n.links[ch]))
  {
    var l, n' := n.links[ch], Started(n, u);
    assert LinkOk(n.w.s.keystones.Keys, n.w.up, ch, l);
    ReloadKeepsIndex(l.chan);
    var i :| 0 <= i < |u.chans| && Reads(n, u, i, ch);
    CleanContiguousIff(n.w.s, u.closedChans, ch, IndexOf(l));
    StartKeepsDisk(n.w.s, u, i);
    var clean, keys' := Clean(Crashed(n.w.s), u.closedChans).keystones.Keys, n'.w.s.keystones.Keys;
    if keys' != n.w.s.keystones.Keys {
      KeptOrTrimmedContiguous(clean, keys', ch, IndexOf(l));
    }
    if n'.w.up {
      CI.RestartTrimsIff(n.w.s, u, i);
    }
  }

  lemma StepOk(n: Node, step: Step)
    requires Ok(n) && Enabled(n, step)
    ensures Ok(Next(n, step))
  {
    match step
    case Circuits(st) => CircuitStepOk(n, st);
    case OpenHtlcs(ch, inKeys, ok) => OpenStepOk(n, ch, inKeys, ok);
    case ChannelStep(ch, st) => ChannelStepOk(n, ch, st);
    case Start(u) =>
      CR.CarefulStep(n.w, CR.DoRestart(u));
      var n' := Next(n, step);
      forall ch | ch in n'.links ensures LinkOk(n'.w.s.keystones.Keys, n'.w.up, ch, n'.links[ch]) {
        StartLinkOk(n, u, ch);
      }
  }

  /** Over every run, through every crash and every startup, finished or not. */
  lemma {:induction false} RunOk(n: Node, steps: seq<Step>)
    requires Ok(n) && IsRun(n, steps)
    ensures Ok(Run(n, steps)) && Run(n, steps).links.Keys == n.links.Keys
  {
    if steps != [] {
      var before := Run(n, steps[..|steps| - 1]);
      RunOk(n, steps[..|steps| - 1]);
      StepOk(before, steps[|steps| - 1]);
      SameLinks(before, steps[|steps| - 1]);
    }
  }

  lemma SameLinks(n: Node, step: Step)
    requires Enabled(n, step)
    ensures Next(n, step).links.Keys == n.links.Keys
  {
  }

  /* ---------- what survives ---------- */

  /** A step persists a diff of the channel that covers the HTLC. */
  ghost predicate Persists(n: Node, step: Step, o: CircuitKey) {
    && step.ChannelStep? && step.chanID == o.chanID && step.chanID in n.links
    && HR.Appends(n.links[o.chanID].chan, step.step) && o.htlcID < step.step.diff.commitment.localHtlcIndex
  }

  /** The HTLC is in a diff that was persisted before or during the run. */
  ghost predicate InDiff(n: Node, steps: seq<Step>, o: CircuitKey)
    requires IsRun(n, steps) && o.chanID in n.links
  {
    if steps == [] then o.htlcID < IndexOf(n.links[o.chanID])
    else InDiff(n, steps[..|steps| - 1], o) || Persists(Run(n, steps[..|steps| - 1]), steps[|steps| - 1], o)
  }

  lemma ChannelIndexAfter(n: Node, ch: uint64, st: HR.Step, o: CircuitKey)
    requires Ok(n) && ChannelEnabled(n, ch, st) && o.chanID == ch
    ensures o.htlcID < CH.NextIndex(HR.Next(n.links[ch].chan, st)) <==>
            o.htlcID < IndexOf(n.links[ch]) || Persists(n, ChannelStep(ch, st), o)
  {
    assert LinkOk(n.w.s.keystones.Keys, n.w.up, ch, n.links[ch]);
    HR.IndexMoves(n.links[ch].chan, st);
  }

  /** One step moves the index of a channel only up, and only by persisting a diff. */
  lemma IndexAfter(n: Node, step: Step, o: CircuitKey)
    requires Ok(n) && Enabled(n, step) && o.chanID in n.links && o.chanID in Next(n, step).links
    ensures o.htlcID < IndexOf(Next(n, step).links[o.chanID]) <==> o.htlcID < IndexOf(n.links[o.chanID]) || Persists(n, step, o)
  {
    match step
    case ChannelStep(ch, st) =>
      if ch == o.chanID {
        ChannelIndexAfter(n, ch, st, o);
      }
    case Start(u) =>
      assert LinkOk(n.w.s.keystones.Keys, n.w.up, o.chanID, n.links[o.chanID]);
      ReloadKeepsIndex(n.links[o.chanID].chan);
    case _ =>
  }

  /** The next HTLC index of a channel is exactly what its persisted diffs cover; no assumption says that it grows. */
  lemma {:induction false} IndexIsPersisted(n: Node, steps: seq<Step>, o: CircuitKey)
    requires Ok(n) && IsRun(n, steps) && o.chanID in n.links
    ensures o.chanID in Run(n, steps).links
    ensures InDiff(n, steps, o) <==> o.htlcID < IndexOf(Run(n, steps).links[o.chanID])
  {
    if steps != [] {
      var before := steps[..|steps| - 1];
      IndexIsPersisted(n, before, o);
      RunOk(n, before);
      RunOk(n, steps);
      IndexAfter(Run(n, before), steps[|steps| - 1], o);
    }
  }

  /** Of the channel's keystones that cleaning leaves, exactly those survive whose HTLC is in a persisted diff. */
  ghost predicate PersistedSurvive(n: Node, steps: seq<Step>, s: State, u: Startup, ch: uint64)
    requires IsRun(n, steps) && ch in n.links && Possible(s, u)
  {
    forall o: CircuitKey :: o.chanID == ch ==>
      (o in Restart(s, u).0.keystones <==> o in Clean(Crashed(s), u.closedChans).keystones && InDiff(n, steps, o))
  }

  lemma SurviveIsBelow(n: Node, steps: seq<Step>, s: State, u: Startup, ch: uint64, index: uint64)
    requires IsRun(n, steps) && ch in n.links && Possible(s, u)
    requires forall o: CircuitKey :: o.chanID == ch ==> (InDiff(n, steps, o) <==> o.htlcID < index)
    ensures PersistedSurvive(n, steps, s, u, ch) <==>
            CI.LeavesBelow(Restart(s, u).0.keystones.Keys, Clean(Crashed(s), u.closedChans).keystones.Keys, ch, index)
  {
  }

  /**
    After any run of circuits, commitments, failed writes, crashes and unfinished startups, a startup
    that succeeds leaves a channel exactly the keystones whose HTLC is in a persisted diff, of those
    that cleaning leaves, if and only if cleaning takes only the last of those that are in none.
   */
  lemma PersistedSurviveIff(n: Node, steps: seq<Step>, m: Node, u: Startup, ch: uint64)
    requires Ok(n) && IsRun(n, steps) && m == Run(n, steps) && ch in n.links && ch in m.links
    requires Possible(m.w.s, u) && ReadsAll(m, u) && Restart(m.w.s, u).1
    ensures PersistedSurvive(n, steps, m.w.s, u, ch) <==> StaleSuffix(m.w.s, u.closedChans, ch, IndexOf(m.links[ch]))
  {
    RunOk(n, steps);
    forall o: CircuitKey | o.chanID == ch ensures InDiff(n, steps, o) <==> o.htlcID < IndexOf(m.links[ch]) {
      IndexIsPersisted(n, steps, o);
    }
    SurviveIsBelow(n, steps, m.w.s, u, ch, IndexOf(m.links[ch]));
    StartLeavesIff(m, u, ch);
  }

  lemma StartLeavesIff(n: Node, u: Startup, ch: uint64)
    requires Ok(n) && ch in n.links && Possible(n.w.s, u) && ReadsAll(n, u) && Restart(n.w.s, u).1
    ensures CI.LeavesBelow(Restart(n.w.s, u).0.keystones.Keys, Clean(Crashed(n.w.s), u.closedChans).keystones.Keys, ch, IndexOf(n.links[ch])) <==>
            StaleSuffix(n.w.s, u.closedChans, ch, IndexOf(n.links[ch]))
  {
    assert LinkOk(n.w.s.keystones.Keys, n.w.up, ch, n.links[ch]);
    ReloadKeepsIndex(n.links[ch].chan);
    var i :| 0 <= i < |u.chans| && Reads(n, u, i, ch);
    CI.RestartTrimsIff(n.w.s, u, i);
    CleanContiguousIff(n.w.s, u.closedChans, ch, IndexOf(n.links[ch]));
  }

  /* ---------- a run on which an HTLC that is not persisted survives ---------- */

  const CLOSED: CircuitKey := CircuitKey(3, 0)
  const OTHER: CircuitKey := CircuitKey(4, 0)

  function Record(incoming: CircuitKey): (rec: CircuitRecord) {
    CircuitRecord(AddRef(0, 0), incoming, [], 0, 0, 0, None)
  }

  /** Every record serializes. */
  const Any: CircuitRecord -> bool := (r: CircuitRecord) => true

  function Batch(): (batch: seq<CircuitPtr>) {
    [CircuitPtr(1, Record(CLOSED)), CircuitPtr(2, Record(OTHER))]
  }

  /** A node with one new channel. */
  function OneChannel(): (n: Node) {
    var c := CH.ZERO_COMMITMENT;
    var chan := CH.Chan(5, {}, c, c, CH.Store({}, c, c, None, None, None, None, None), FP.Disk(false, {}, map[]));
    Node(CR.World(NOTHING, true), map[5 := Link(chan, 0)])
  }

  ghost function GapSteps(): (steps: seq<Step>) {
    [Circuits(CR.DoCommit(Batch(), Any, true)), OpenHtlcs(5, [CLOSED, OTHER], true)]
  }

  /** The disk after the two circuits are committed and opened. */
  ghost predicate GapDisk(s: State) {
    && s.keystones == map[CircuitKey(5, 0) := CLOSED, CircuitKey(5, 1) := OTHER]
    && s.adds.Keys == {CLOSED, OTHER} && s.adds[CLOSED].incoming == CLOSED && s.adds[OTHER].incoming == OTHER
  }

  /** Channel 3 has been closed meanwhile. */
  function GapStartup(): (u: Startup) {
    Startup({3}, true, true, [CircuitKey(5, 1)], [Channel(false, 5, Some(0), true)])
  }

  lemma BatchAdded()
    ensures Added(NOTHING, Batch()) == Batch()
    ensures CommitError(NOTHING, Batch(), Any, true) == None
  {
    var b, vs := Batch(), VerdictsOf(NOTHING, Batch());
    CI.AddedIffFirst(NOTHING, b, 0);
    CI.AddedIffFirst(NOTHING, b, 1);
    assert vs[1..] == [V.Add] && b[1..] == [b[1]];
    assert V.Select(b[1..], vs[1..], V.Add) == [b[1]] by {
      assert vs[1..][1..] == [] && b[1..][1..] == [];
    }
  }

  /** The state after the commit: both circuits pending and on disk, nothing open. */
  lemma BatchCommitted()
    ensures var s := Commit(NOTHING, Batch(), None);
      && s.pending == map[CLOSED := Batch()[0], OTHER := Batch()[1]] && s.outgoing == map[] && s.openedBy == map[] && s.keystones == map[]
      && s.adds == map[CLOSED := Record(CLOSED), OTHER := Record(OTHER)]
  {
    BatchAdded();
    var b := Batch();
    assert Reconciled(map[], b, 1) == map[CLOSED := b[0]];
    assert Reconciled(map[], b, 2) == map[CLOSED := b[0], OTHER := b[1]];
    assert PutCircuits(map[], b, 1) == map[CLOSED := Record(CLOSED)];
    assert PutCircuits(map[], b, 2) == map[CLOSED := Record(CLOSED), OTHER := Record(OTHER)];
  }

  lemma TwoKeystones(s: State)
    requires s.pending == map[CLOSED := Batch()[0], OTHER := Batch()[1]] && s.outgoing == map[] && s.openedBy == map[] && s.keystones == map[]
    requires s.adds == map[CLOSED := Record(CLOSED), OTHER := Record(OTHER)]
    ensures var ks := Keystones(5, 0, [CLOSED, OTHER]);
      && Known(s, ks) && OpenResult(s, ks, true).None? && CI.Unopened(s, ks) && CI.Pairs(ks)
      && GapDisk(Open(s, ks, true))
  {
    var ks := Keystones(5, 0, [CLOSED, OTHER]);
    assert ks == [Keystone(CLOSED, CircuitKey(5, 0)), Keystone(OTHER, CircuitKey(5, 1))];
    CheckedAreKnown(s, ks, 2);
    assert OpenAll(s, ks, 1).keystones == map[CircuitKey(5, 0) := CLOSED];
    TwoPair(ks);
  }

  lemma TwoPair(ks: seq<Keystone>)
    requires |ks| == 2 && ks[0].inKey != ks[1].inKey && ks[0].outKey != ks[1].outKey
    ensures CI.Pairs(ks)
  {
    assert CI.LastOut(ks, 2, ks[1].outKey) == Some(1) && CI.LastIn(ks, 2, ks[1].inKey) == Some(1);
    assert CI.LastOut(ks, 1, ks[0].outKey) == Some(0) && CI.LastIn(ks, 1, ks[0].inKey) == Some(0);
  }

  /** Cleaning takes the first of the two keystones, and the trim finds nothing at its index. */
  lemma GapCleaned(s: State)
    requires GapDisk(s)
    ensures CI.DiskValid(s) && CI.DiskCoherent(s)
    ensures Clean(Crashed(s), {3}).keystones == map[CircuitKey(5, 1) := OTHER]
    ensures Possible(s, GapStartup())
  {
    assert StaleKeystone(s.keystones, {3}, CircuitKey(5, 0)) && !StaleKeystone(s.keystones, {3}, CircuitKey(5, 1));
  }

  lemma GapTrims(r: State)
    requires r.openedBy.Keys == r.keystones.Keys == {CircuitKey(5, 1)}
    ensures var chans := [Channel(false, 5, Some(0), true)];
      TrimAll(r, chans, 1).1 && CircuitKey(5, 1) in TrimAll(r, chans, 1).0.keystones
  {
    var chans := [Channel(false, 5, Some(0), true)];
    assert TrimRun(r.openedBy.Keys, 5, 0) == {};
    assert TrimAll(r, chans, 0) == (r, true);
  }

  lemma GapStarts(s: State)
    requires GapDisk(s)
    ensures Possible(s, GapStartup()) && Restart(s, GapStartup()).1 && CircuitKey(5, 1) in Restart(s, GapStartup()).0.keystones
  {
    GapCleaned(s);
    var d := Clean(Crashed(s), {3});
    CI.CleanKeepsDisk(Crashed(s), {3});
    CI.RestoreOfCoherentDisk(d, [CircuitKey(5, 1)]);
    GapTrims(Restore(d, [CircuitKey(5, 1)]));
  }

  lemma RunOfTwo(n: Node, a: Step, b: Step)
    requires Enabled(n, a) && Enabled(Next(n, a), b)
    ensures IsRun(n, [a, b]) && Run(n, [a, b]) == Next(Next(n, a), b)
  {
    assert [a, b][..1] == [a] && [a][..0] == [];
    assert IsRun(n, []) && Run(n, []) == n;
    assert IsRun(n, [a]) && Run(n, [a]) == Next(n, a);
  }

  /** The node after the commit, and after the open. */
  lemma GapCommitted()
    ensures CircuitsEnabled(OneChannel(), CR.DoCommit(Batch(), Any, true))
    ensures CR.Next(OneChannel().w, CR.DoCommit(Batch(), Any, true)) == CR.World(Commit(NOTHING, Batch(), None), true)
  {
    BatchAdded();
  }

  lemma GapOpened(n: Node)
    requires n.links == OneChannel().links && n.w == CR.World(Commit(NOTHING, Batch(), None), true)
    ensures OpenEnabled(n, 5, [CLOSED, OTHER], true)
    ensures GapDisk(Opened(n, 5, [CLOSED, OTHER], true).w.s) && IndexOf(Opened(n, 5, [CLOSED, OTHER], true).links[5]) == 0
  {
    BatchCommitted();
    TwoKeystones(n.w.s);
  }

  /**
    From a new node: two circuits are opened as HTLCs 0 and 1 of a channel, no commitment is written,
    and after a crash the incoming channel of the first is closed. Startup then keeps the keystone of the
    second, which is in no diff.
   */
  lemma GapRun()
    ensures Ok(OneChannel()) && IsRun(OneChannel(), GapSteps())
    ensures var s := Run(OneChannel(), GapSteps()).w.s;
      && Possible(s, GapStartup()) && Restart(s, GapStartup()).1
      && CircuitKey(5, 1) in Restart(s, GapStartup()).0.keystones && !InDiff(OneChannel(), GapSteps(), CircuitKey(5, 1))
  {
    var n0, a, b := OneChannel(), Circuits(CR.DoCommit(Batch(), Any, true)), OpenHtlcs(5, [CLOSED, OTHER], true);
    NewNodeOk(n0.links);
    GapCommitted();
    GapOpened(Next(n0, a));
    RunOfTwo(n0, a, b);
    GapStarts(Run(n0, [a, b]).w.s);
    IndexIsPersisted(n0, [a, b], CircuitKey(5, 1));
  }
}
