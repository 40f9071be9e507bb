/**
  A header the clock of a reload turns away, although the node that stored it never looked at the
  clock: one accepted under a block that a later stage had refused. What stands behind it in the
  journal is lost with it.
 */
module LateHeader {
  import opened Bytes
  import opened Arena
  import opened TreeState
  import opened Journal
  import opened Recovery

  /** `a` on genesis, `b` on `a`, `c` on genesis; nothing wrong with any of them but the time of `b`. */
  ghost predicate Scene(rules: Rules, a: Header, b: Header, c: Header, now: nat) {
    var root := rules.hashOf(rules.genesis);
    && rules.checks(a) && rules.checks(b) && rules.checks(c)
    && Previous(a) == root && Previous(b) == rules.hashOf(a) && Previous(c) == root
    && rules.hashOf(a) != root && rules.hashOf(b) != root && rules.hashOf(c) != root
    && rules.hashOf(a) != rules.hashOf(b) && rules.hashOf(a) != rules.hashOf(c) && rules.hashOf(b) != rules.hashOf(c)
    && rules.accepts([rules.genesis], a) && rules.accepts([rules.genesis, a], b) && rules.accepts([rules.genesis], c)
    && Time(a) <= FutureLimit(now) && Time(c) <= FutureLimit(now) && FutureLimit(now) < Time(b)
  }

  const SOMEWHERE: Location := Location(0, 8, 81)
  const UNDONE: UndoLocation := UndoLocation(0, 8, 2)

  /** Refuse the block of `a`, store `b` under it, connect `c`, commit. */
  function Calls(a: Header, b: Header, c: Header, now: nat): seq<SysOp> {
    [OnTree(OpAccept(a, now)), OnTree(OpInvalidate(1, Refused(CheckBlock))), OnTree(OpAccept(b, now)),
     OnTree(OpAccept(c, now)), OnTree(OpCheck(3, SOMEWHERE)), OnTree(OpConnect(3, UNDONE)), Commit]
  }

  lemma RunsOn(rules: Rules, cap: nat, ops: seq<SysOp>, n: nat, x: Sys)
    requires n < |ops| && SysRun(rules, cap, ops[..n]) == Some(x) && SysLegal(rules, x, ops[n])
    ensures SysRun(rules, cap, ops[..n + 1]) == Some(SysStep(rules, cap, x, ops[n]))
  {
    hide Sound, SysStep;
    assert ops[..n + 1][..n] == ops[..n];
  }

  /** A good header under a good parent is stored as accepted; under a refused one, as it stands. */
  lemma AcceptedUnder(rules: Rules, cap: nat, s: State, header: Header, p: nat, now: nat)
    requires Shaped(s) && p < |s.nodes| < cap && rules.checks(header) && rules.hashOf(header) !in s.index
    requires Previous(header) == s.nodes[p].hash
    requires s.status[p].Invalid? || (!s.status[p].IsTerminal() && rules.accepts(Path(s.nodes, p), header)
                                      && Time(header) <= FutureLimit(now))
    ensures var t := Accept(rules, cap, s, header, now).0;
            && t.nodes == s.nodes + [Child(rules, s.nodes, p, header)] && t.tip == s.tip
            && t.index == s.index[rules.hashOf(header) := |s.nodes|] && t.dirty == s.dirty + [|s.nodes|]
            && t.status == s.status + [if s.status[p].Invalid? then InvalidAncestor(s.nodes[p].hash) else HeaderAccepted]
  {
    hide Path, Time, AncestorAt, Linked;
    assert s.index[s.nodes[p].hash] == p;
  }

  /** The tree after the first `n` nodes of the scene are in: who they are, and how they stand. */
  ghost predicate Holds(rules: Rules, s: State, headers: seq<Header>, parents: seq<nat>, status: seq<Status>) {
    && Sound(rules, s) && |s.nodes| == |headers| == |parents| && s.status == status && s.tip == 0
    && (forall i :: 0 <= i < |headers| ==>
          s.nodes[i].header == headers[i] && s.nodes[i].hash == rules.hashOf(headers[i]))
    && (forall i :: 0 < i < |headers| ==> s.nodes[i].parent == Some(parents[i]))
  }

  lemma HoldsNext(rules: Rules, cap: nat, s: State, headers: seq<Header>, parents: seq<nat>, status: seq<Status>,
                  header: Header, p: nat, now: nat)
    requires Holds(rules, s, headers, parents, status) && p < |headers| < cap && rules.checks(header)
    requires forall i :: 0 <= i < |headers| ==> rules.hashOf(header) != rules.hashOf(headers[i])
    requires Previous(header) == rules.hashOf(headers[p])
    requires status[p].Invalid? || (!status[p].IsTerminal() && rules.accepts(Path(s.nodes, p), header)
                                    && Time(header) <= FutureLimit(now))
    ensures var t := Accept(rules, cap, s, header, now).0;
            Holds(rules, t, headers + [header], parents + [p],
                  status + [if status[p].Invalid? then InvalidAncestor(rules.hashOf(headers[p])) else HeaderAccepted])
  {
    hide Verdicts, ActiveChain, IsBest, Built, DirtyList, Linked, Path, Time, Accept, Previous, AncestorAt;
    AcceptIsSound(rules, cap, s, header, now);
    AcceptedUnder(rules, cap, s, header, p, now);
  }

  lemma PathOfRoot(rules: Rules, s: State, headers: seq<Header>, parents: seq<nat>, status: seq<Status>)
    requires Holds(rules, s, headers, parents, status) && |headers| > 0
    ensures Path(s.nodes, 0) == [headers[0]]
  {
    hide Verdicts, ActiveChain, IsBest, Built, DirtyList;
  }

  lemma PathOfChild(rules: Rules, s: State, headers: seq<Header>, parents: seq<nat>, status: seq<Status>, i: nat)
    requires Holds(rules, s, headers, parents, status) && 0 < i < |headers| && parents[i] == 0
    ensures Path(s.nodes, i) == [headers[0], headers[i]]
  {
    hide Verdicts, ActiveChain, IsBest, Built, DirtyList;
    PathOfRoot(rules, s, headers, parents, status);
    assert Up(s.nodes, i) == 0;
  }

  // ----- the run ----------------------------------------------------------------------------------

  lemma StartHolds(rules: Rules)
    ensures Holds(rules, Start(rules), [rules.genesis], [0], [Genesis])
  {
    StartIsSound(rules);
  }

  /** After the block of `a` is refused. */
  lemma RefusedHolds(rules: Rules, cap: nat, a: Header, b: Header, c: Header, now: nat)
    requires Scene(rules, a, b, c, now) && cap >= 4
    ensures var s := Accept(rules, cap, Start(rules), a, now).0;
            && CanInvalidate(s, 1, Refused(CheckBlock))
            && Holds(rules, s, [rules.genesis, a], [0, 0], [Genesis, HeaderAccepted])
            && Holds(rules, Invalidate(s, 1, Refused(CheckBlock)), [rules.genesis, a], [0, 0],
                     [Genesis, Invalid(Refused(CheckBlock))])
  {
    hide Start, Accept, Path, Time, Previous, Sound, Invalidate, CanInvalidate;
    StartHolds(rules);
    HoldsSound(rules, Start(rules), [rules.genesis], [0], [Genesis]);
    PathOfRoot(rules, Start(rules), [rules.genesis], [0], [Genesis]);
    HoldsNext(rules, cap, Start(rules), [rules.genesis], [0], [Genesis], a, 0, now);
    assert [rules.genesis] + [a] == [rules.genesis, a] && [0] + [0] == [0, 0];
    assert [Genesis] + [HeaderAccepted] == [Genesis, HeaderAccepted];
    InvalidatedHolds(rules, Accept(rules, cap, Start(rules), a, now).0, a);
  }

  lemma InvalidatedHolds(rules: Rules, s: State, a: Header)
    requires Holds(rules, s, [rules.genesis, a], [0, 0], [Genesis, HeaderAccepted])
    ensures CanInvalidate(s, 1, Refused(CheckBlock))
    ensures Holds(rules, Invalidate(s, 1, Refused(CheckBlock)), [rules.genesis, a], [0, 0],
                  [Genesis, Invalid(Refused(CheckBlock))])
  {
    hide Verdicts, ActiveChain, IsBest, Built, DirtyList, BestUpTo;
    InvalidateIsSound(rules, s, 1, Refused(CheckBlock));
    var t := Invalidate(s, 1, Refused(CheckBlock));
    var marked := s.status[1 := Invalid(Refused(CheckBlock))];
    assert t.status[0] == Inherited(s.nodes, marked, 1, 0) && t.status[1] == Inherited(s.nodes, marked, 1, 1);
    assert t.status == [Genesis, Invalid(Refused(CheckBlock))];
  }

  /** After `b` and `c` are in. */
  lemma StoredHolds(rules: Rules, cap: nat, s: State, a: Header, b: Header, c: Header, now: nat)
    requires Scene(rules, a, b, c, now) && cap >= 4
    requires Holds(rules, s, [rules.genesis, a], [0, 0], [Genesis, Invalid(Refused(CheckBlock))])
    ensures var t := Accept(rules, cap, s, b, now).0;
            && Sound(rules, t)
            && Holds(rules, Accept(rules, cap, t, c, now).0, [rules.genesis, a, b, c], [0, 0, 1, 0],
                     [Genesis, Invalid(Refused(CheckBlock)), InvalidAncestor(rules.hashOf(a)), HeaderAccepted])
  {
    hide Accept, Time, Previous, Path, Verdicts, ActiveChain, IsBest, Built, DirtyList;
    var bad := Invalid(Refused(CheckBlock));
    HoldsNext(rules, cap, s, [rules.genesis, a], [0, 0], [Genesis, bad], b, 1, now);
    var t := Accept(rules, cap, s, b, now).0;
    var inherited := InvalidAncestor(rules.hashOf(a));
    assert [rules.genesis, a] + [b] == [rules.genesis, a, b] && [0, 0] + [1] == [0, 0, 1];
    assert [Genesis, bad] + [inherited] == [Genesis, bad, inherited];
    PathOfRoot(rules, t, [rules.genesis, a, b], [0, 0, 1], [Genesis, bad, inherited]);
    HoldsNext(rules, cap, t, [rules.genesis, a, b], [0, 0, 1], [Genesis, bad, inherited], c, 0, now);
    assert [rules.genesis, a, b] + [c] == [rules.genesis, a, b, c] && [0, 0, 1] + [0] == [0, 0, 1, 0];
    assert [Genesis, bad, inherited] + [HeaderAccepted] == [Genesis, bad, inherited, HeaderAccepted];
  }

  /** What the run leaves: `c` connected and committed, and `b` late. */
  ghost predicate Left(rules: Rules, cap: nat, x: Sys, a: Header, c: Header, now: nat) {
    && Sound(rules, x.tree) && JournalOk(x) && x.tree.dirty == [] && |x.journal| == 3
    && |x.tree.nodes| == 4 <= cap && x.tree.status[3].Connected?
    && x.tree.nodes[1].header == a && x.tree.nodes[3].header == c
    && FirstLate(rules, x.tree.nodes, now, 2)
  }

  lemma ConnectedHolds(rules: Rules, s: State, a: Header, b: Header, c: Header)
    requires Holds(rules, s, [rules.genesis, a, b, c], [0, 0, 1, 0],
                   [Genesis, Invalid(Refused(CheckBlock)), InvalidAncestor(rules.hashOf(a)), HeaderAccepted])
    ensures CanCheck(s, 3)
    ensures var t := Check(s, 3, SOMEWHERE);
            && Sound(rules, t) && CanConnect(t, 3)
            && Sound(rules, ConnectBlock(t, 3, UNDONE))
            && ConnectBlock(t, 3, UNDONE).nodes == s.nodes && ConnectBlock(t, 3, UNDONE).status[3].Connected?
            && ConnectBlock(t, 3, UNDONE).dirty != []
  {
    hide Verdicts, ActiveChain, IsBest, Built, DirtyList, Linked;
    CheckIsSound(rules, s, 3, SOMEWHERE);
    var t := Check(s, 3, SOMEWHERE);
    ConnectIsSound(rules, t, 3, UNDONE);
    DirtyIsListed(rules, ConnectBlock(t, 3, UNDONE), 3);
  }

  lemma DirtyIsListed(rules: Rules, s: State, i: nat)
    requires Sound(rules, s) && i < |s.flagged| && s.flagged[i]
    ensures s.dirty != []
  {
  }

  lemma SecondIsLate(rules: Rules, s: State, a: Header, b: Header, c: Header, status: seq<Status>, now: nat)
    requires Scene(rules, a, b, c, now)
    requires Holds(rules, s, [rules.genesis, a, b, c], [0, 0, 1, 0], status)
    ensures FirstLate(rules, s.nodes, now, 2)
  {
    hide Verdicts, ActiveChain, IsBest, Built, DirtyList, Time, FutureLimit, Path;
    var headers := [rules.genesis, a, b, c];
    PathOfRoot(rules, s, headers, [0, 0, 1, 0], status);
    PathOfChild(rules, s, headers, [0, 0, 1, 0], status, 1);
    assert Up(s.nodes, 2) == 1 && Up(s.nodes, 1) == 0;
    assert PathAccepted(rules, s.nodes, 0);
    assert PathAccepted(rules, s.nodes, 1);
  }

  /** The run goes through, and the load at the same clock does not know the block it connected. */
  lemma LateHeaderLosesTip(rules: Rules, cap: nat, a: Header, b: Header, c: Header, now: nat)
    requires Scene(rules, a, b, c, now) && cap >= 4
    ensures var r := SysRun(rules, cap, Calls(a, b, c, now));
            && r.Some? && Left(rules, cap, r.value, a, c, now)
            && Replay(rules, cap, r.value.journal, now).rejected
            && Load(rules, cap, r.value.journal, now, r.value.tree.nodes[3].hash) == UnknownMarker
  {
    hide Replay, Load, FirstLate, Sound, JournalOk, Scene;
    RunLeaves(rules, cap, a, b, c, now);
    var x := SysRun(rules, cap, Calls(a, b, c, now)).value;
    LateLosesMarker(rules, cap, x, now, 2, 3);
    CommittedIsKnown(rules, x);
    JournalFits(x);
    assert x.journal[..|x.ids|] == x.journal && x.ids[..|x.ids|] == x.ids;
    ReplayStopsAtLate(rules, cap, x, now, |x.ids|, 2);
  }

  lemma JournalFits(x: Sys)
    requires Shaped(x.tree) && JournalOk(x)
    ensures |x.journal| == |x.ids|
  {
  }

  lemma RunLeaves(rules: Rules, cap: nat, a: Header, b: Header, c: Header, now: nat)
    requires Scene(rules, a, b, c, now) && cap >= 4
    ensures var r := SysRun(rules, cap, Calls(a, b, c, now));
            r.Some? && Shaped(r.value.tree) && Left(rules, cap, r.value, a, c, now)
  {
    hide Scene, Holds, Sound, JournalOk, SysRun, Accept, Invalidate, Check, ConnectBlock, Committed, CanRefuse,
      CanCheck, CanConnect, FirstLate, Shaped;
    var ops := Calls(a, b, c, now);
    var x0 := Sys(Start(rules), [], []);
    RunStarts(rules, cap, ops);
    StartIsSound(rules);
    RefusedHolds(rules, cap, a, b, c, now);
    SoundIsShaped(rules, x0.tree);
    RunsOn(rules, cap, ops, 0, x0);
    var s1 := Accept(rules, cap, Start(rules), a, now).0;
    HoldsSound(rules, s1, [rules.genesis, a], [0, 0], [Genesis, HeaderAccepted]);
    RunsOn(rules, cap, ops, 1, Sys(s1, [], []));
    var s2 := Invalidate(s1, 1, Refused(CheckBlock));
    HoldsSound(rules, s2, [rules.genesis, a], [0, 0], [Genesis, Invalid(Refused(CheckBlock))]);
    StoredHolds(rules, cap, s2, a, b, c, now);
    RunsOn(rules, cap, ops, 2, Sys(s2, [], []));
    var s3 := Accept(rules, cap, s2, b, now).0;
    SoundIsShaped(rules, s3);
    RunsOn(rules, cap, ops, 3, Sys(s3, [], []));
    var s4 := Accept(rules, cap, s3, c, now).0;
    RunEnds(rules, cap, s4, a, b, c, now);
  }

  lemma HoldsSound(rules: Rules, s: State, headers: seq<Header>, parents: seq<nat>, status: seq<Status>)
    requires Holds(rules, s, headers, parents, status)
    ensures Sound(rules, s) && Shaped(s)
  {
  }

  lemma RunStarts(rules: Rules, cap: nat, ops: seq<SysOp>)
    ensures SysRun(rules, cap, ops[..0]) == Some(Sys(Start(rules), [], []))
  {
  }

  lemma RunEnds(rules: Rules, cap: nat, s: State, a: Header, b: Header, c: Header, now: nat)
    requires Scene(rules, a, b, c, now) && cap >= 4
    requires Holds(rules, s, [rules.genesis, a, b, c], [0, 0, 1, 0],
                   [Genesis, Invalid(Refused(CheckBlock)), InvalidAncestor(rules.hashOf(a)), HeaderAccepted])
    requires SysRun(rules, cap, Calls(a, b, c, now)[..4]) == Some(Sys(s, [], []))
    ensures var r := SysRun(rules, cap, Calls(a, b, c, now));
            r.Some? && Shaped(r.value.tree) && Left(rules, cap, r.value, a, c, now)
  {
    hide Scene, Sound, JournalOk, SysRun, Check, ConnectBlock, Committed, CanCheck, CanConnect, FirstLate, Shaped;
    var ops := Calls(a, b, c, now);
    var status := [Genesis, Invalid(Refused(CheckBlock)), InvalidAncestor(rules.hashOf(a)), HeaderAccepted];
    HoldsSound(rules, s, [rules.genesis, a, b, c], [0, 0, 1, 0], status);
    ConnectedHolds(rules, s, a, b, c);
    SecondIsLate(rules, s, a, b, c, status, now);
    RunsOn(rules, cap, ops, 4, Sys(s, [], []));
    var t := Check(s, 3, SOMEWHERE);
    SoundIsShaped(rules, t);
    RunsOn(rules, cap, ops, 5, Sys(t, [], []));
    var x := Sys(ConnectBlock(t, 3, UNDONE), [], []);
    RunsOn(rules, cap, ops, 6, x);
    assert ops[..7] == ops && ops[..6] == ops[..|ops| - 1];
    RunKeepsJournal(rules, cap, ops[..6]);
    CommitKeepsJournal(rules, x);
    CommitKeepsNodes(rules, x);
    FirstCommit(rules, x);
    SoundIsShaped(rules, Committed(x).tree);
  }

  lemma {:induction false} CountNewAll(dirty: seq<nat>, k: nat)
    requires forall m :: 0 <= m < |dirty| ==> dirty[m] >= k
    ensures CountNew(dirty, k) == |dirty|
  {
    if |dirty| > 0 {
      CountNewAll(dirty[..|dirty| - 1], k);
    }
  }

  /** The first commit of a small tree writes each entry once. */
  lemma FirstCommit(rules: Rules, x: Sys)
    requires Sound(rules, x.tree) && JournalOk(x) && x.journal == [] && x.ids == [] && 1 < |x.tree.nodes| <= 1024
    ensures Shaped(x.tree) && DirtyList(x.tree.flagged, x.tree.dirty)
    ensures |Committed(x).journal| == |x.tree.nodes| - 1
  {
    hide Verdicts, ActiveChain, IsBest, Built, Linked, RecordsOf, Clean;
    CountNewAll(x.tree.dirty, 1);
    DirtyIsWritten(rules, x.tree);
  }

  lemma CommitKeepsNodes(rules: Rules, x: Sys)
    requires Sound(rules, x.tree)
    ensures Shaped(x.tree) && DirtyList(x.tree.flagged, x.tree.dirty)
    ensures Committed(x).tree.nodes == x.tree.nodes && Committed(x).tree.status == x.tree.status
  {
    hide Verdicts, ActiveChain, IsBest, Built, Linked, RecordsOf;
  }

  // ----- an instance ------------------------------------------------------------------------------

  /** A header with one byte for its parent's hash, one for its own, and one for its time. */
  function HeaderWith(previous: byte, own: byte, time: byte): Header {
    seq(80, i => if 4 <= i < 36 then previous else if 36 <= i < 68 then own else if 68 <= i < 72 then time else 0)
  }

  function Toy(): Rules {
    Rules(HeaderWith(0, 1, 0), h => h[36..68], _ => 1, _ => true, (_, _) => true)
  }

  lemma ToyHeader(previous: byte, own: byte, time: byte)
    ensures var h := HeaderWith(previous, own, time);
            && Previous(h) == seq(32, _ => previous) && h[36..68] == seq(32, _ => own)
            && Time(h) == GetU32([time, time, time, time])
  {
    var h := HeaderWith(previous, own, time);
    assert Previous(h) == seq(32, _ => previous);
    assert h[36..68] == seq(32, _ => own);
    assert h[68..72] == [time, time, time, time];
  }

  lemma ToyHashes(a: byte, b: byte)
    requires a != b
    ensures seq(32, _ => a) != seq(32, _ => b)
  {
    assert seq(32, _ => a)[0] != seq(32, _ => b)[0];
  }

  /** Such rules and headers exist: at clock zero, a header dated at the end of the 32-bit field. */
  lemma SceneExists()
    ensures Scene(Toy(), HeaderWith(1, 2, 0), HeaderWith(2, 3, 255), HeaderWith(1, 4, 0), 0)
  {
    hide HeaderWith, Time, Previous;
    ToyHeader(0, 1, 0);
    ToyHeader(1, 2, 0);
    ToyHeader(2, 3, 255);
    ToyHeader(1, 4, 0);
    ToyHashes(1, 2);
    ToyHashes(1, 3);
    ToyHashes(1, 4);
    ToyHashes(2, 3);
    ToyHashes(2, 4);
    ToyHashes(3, 4);
  }
}
