/**
  A reload that stops at a late header goes through all the same, and what its session learns and
  commits stands behind that header in the file: the next load at the same clock does not see it.
 */
module ShortReload {
  import opened Bytes
  import opened Arena
  import opened TreeState
  import opened Journal
  import opened Recovery
  import opened Reading
  import opened Sessions
  import opened LateHeader

  // ----- runs as sessions -------------------------------------------------------------------------

  function AtWork(ops: seq<SysOp>): seq<SessionOp> {
    seq(|ops|, i requires 0 <= i < |ops| => Working(ops[i]))
  }

  lemma AtWorkSplits(ops: seq<SysOp>)
    ensures ops == [] ==> AtWork(ops) == []
    ensures ops != [] ==> AtWork(ops) == AtWork(ops[..|ops| - 1]) + [Working(ops[|ops| - 1])]
  {
  }

  lemma RunsTo(rules: Rules, cap: nat, ops: seq<SessionOp>, op: SessionOp, d: Desk)
    requires SessionRun(rules, cap, ops) == Some(d) && AllReadable(rules, cap, ops)
    requires SessionLegal(rules, cap, d, op)
    requires op.Reload? && d.at <= |d.sys.journal| ==> Readable(rules, cap, d, op.now)
    ensures SessionRun(rules, cap, ops + [op]) == Some(SessionStep(rules, cap, d, op))
    ensures AllReadable(rules, cap, ops + [op])
  {
    hide SessionStep, SessionLegal, Readable;
    assert (ops + [op])[..|ops|] == ops;
  }

  /** A run of a single session, seen as one of many: no gap, and the journal is the file. */
  lemma {:induction false} OneSession(rules: Rules, cap: nat, ops: seq<SysOp>)
    requires cap > 0 && SysRun(rules, cap, ops).Some?
    ensures AllReadable(rules, cap, AtWork(ops))
    ensures var r := SessionRun(rules, cap, AtWork(ops));
            r.Some? && InStep(rules, cap, r.value) && r.value.gap == [] && r.value.sys == SysRun(rules, cap, ops).value
    decreases |ops|
  {
    hide InStep, SessionStep, SysStep, Readable, SysLegal, AtWork;
    AtWorkSplits(ops);
    if |ops| == 0 {
      StartInStep(rules, cap);
    } else {
      var (front, op) := (ops[..|ops| - 1], ops[|ops| - 1]);
      OneSession(rules, cap, front);
      var d := SessionRun(rules, cap, AtWork(front)).value;
      RunsTo(rules, cap, AtWork(front), Working(op), d);
      WorkKeeps(rules, cap, d, op);
      SameStep(rules, cap, d, op);
    }
  }

  lemma SameStep(rules: Rules, cap: nat, d: Desk, op: SysOp)
    requires InStep(rules, cap, d) && d.gap == [] && SysLegal(rules, d.sys, op)
    ensures var y := SessionStep(rules, cap, d, Working(op)); y.sys == SysStep(rules, cap, d.sys, op) && y.gap == []
  {
    hide Sound, JournalOk, AboveRoot, AllBacked, Filed, Committed, Rewritten, Step;
    FiledIsCommitted(rules, cap, d);
  }

  // ----- the run ----------------------------------------------------------------------------------

  /** After the run of `LateHeader`: reload with genesis for the marker, accept `c` again, commit. */
  ghost function Again(rules: Rules, a: Header, b: Header, c: Header, now: nat): seq<SessionOp> {
    AtWork(Calls(a, b, c, now)) + [Reload(now, rules.hashOf(rules.genesis))]
    + [Working(OnTree(OpAccept(c, now)))] + [Working(Commit)]
  }

  /** The short reload: genesis and `a`, and the journal of three records read up to the second. */
  ghost predicate Shortened(rules: Rules, cap: nat, d: Desk, a: Header, c: Header, now: nat) {
    && InStep(rules, cap, d) && d.gap != [] && Stuck(rules, cap, d, now) && Base(d) == 2 && d.records <= 3
    && d.sys.tree.dirty == [] && |d.sys.tree.nodes| == 2 && Admits(rules, d.sys.tree.nodes, 2, now)
    && rules.hashOf(c) !in d.sys.tree.index
  }

  lemma FrontAdmits(rules: Rules, nodes: seq<Node>, front: seq<Node>, now: nat)
    requires Linked(nodes) && Linked(front) && front <= nodes && Admits(rules, nodes, |front|, now)
    ensures Admits(rules, front, |front|, now)
  {
    hide PathAccepted, Linked, Time;
    forall i | 0 <= i < |front| ensures !Late(rules, front, now, i) {
      assert !Late(rules, nodes, now, i) && front == nodes[..|front|];
      PathAcceptedInPrefix(rules, nodes, |front|, i);
    }
  }

  lemma ReloadShortens(rules: Rules, cap: nat, d: Desk, a: Header, c: Header, now: nat)
    requires cap >= 4 && InStep(rules, cap, d) && d.gap == [] && Left(rules, cap, d.sys, a, c, now)
    requires rules.hashOf(rules.genesis) == d.sys.tree.nodes[0].hash
    ensures Load(rules, cap, File(d), now, rules.hashOf(rules.genesis)).Loaded?
    ensures Shortened(rules, cap, Resumed(rules, cap, d, now, rules.hashOf(rules.genesis)), a, c, now)
  {
    hide Verdicts, ActiveChain, IsBest, DirtyList, Linked, JournalOk, AboveRoot, AllBacked, Load, Replay, Late, KeptIds,
      Known, Admits, Stuck;
    var (x, root) := (d.sys, rules.hashOf(rules.genesis));
    FrontOfFile(d, 0);
    GenesisLoads(rules, cap, File(d), now);
    LateLosesMarker(rules, cap, x, now, 2, 0);
    CommittedIsKnown(rules, x);
    assert x.journal[..|x.ids|] == x.journal && x.ids[..|x.ids|] == x.ids;
    ReplayStopsAtLate(rules, cap, x, now, |x.ids|, 2);
    KeptIsAFront(rules, cap, File(d), now);
    ReloadKeeps(rules, cap, d, now, root);
    var y := Resumed(rules, cap, d, now, root);
    FrontAdmits(rules, x.tree.nodes, y.sys.tree.nodes, now);
    HashIsOfHeader(rules, x.tree.nodes, 3);
    NotInFront(rules, x.tree, y.sys.tree, 3);
  }

  lemma NotInFront(rules: Rules, s: State, t: State, i: nat)
    requires Sound(rules, s) && Sound(rules, t) && t.nodes <= s.nodes && |t.nodes| <= i < |s.nodes|
    ensures s.nodes[i].hash !in t.index
  {
    hide Verdicts, ActiveChain, IsBest, DirtyList, Linked, Built;
    assert s.index[s.nodes[i].hash] == i;
    forall j | 0 <= j < |t.nodes| ensures t.nodes[j].hash != s.nodes[i].hash {
      assert s.index[s.nodes[j].hash] == j;
    }
  }

  /** `c` goes in again, as the third entry, and it is not late. */
  lemma AcceptsAgain(rules: Rules, cap: nat, d: Desk, a: Header, b: Header, c: Header, now: nat)
    requires Scene(rules, a, b, c, now) && cap >= 4 && Shortened(rules, cap, d, a, c, now)
    ensures SysLegal(rules, d.sys, OnTree(OpAccept(c, now)))
    ensures var t := SysStep(rules, cap, d.sys, OnTree(OpAccept(c, now))).tree;
            && |t.nodes| == 3 && d.sys.tree.nodes <= t.nodes && t.dirty == [2] && rules.hashOf(c) in t.index
            && Linked(t.nodes) && Admits(rules, t.nodes, 3, now)
  {
    hide Verdicts, ActiveChain, IsBest, DirtyList, JournalOk, AboveRoot, AllBacked, Accept, Path, Time, Previous,
      FutureLimit, Stuck, Base, PathAccepted, AncestorAt;
    var s := d.sys.tree;
    GenesisOnly(rules, s);
    HashIsOfHeader(rules, s.nodes, 0);
    RootPath(s.nodes, rules);
    AcceptedUnder(rules, cap, s, c, 0, now);
    AcceptIsSound(rules, cap, s, c, now);
    var t := Accept(rules, cap, s, c, now).0;
    ThirdIsTimely(rules, s.nodes, t.nodes, c, now);
  }

  lemma RootPath(nodes: seq<Node>, rules: Rules)
    requires Built(rules, nodes)
    ensures Path(nodes, 0) == [rules.genesis]
  {
  }

  lemma ThirdIsTimely(rules: Rules, front: seq<Node>, nodes: seq<Node>, c: Header, now: nat)
    requires Linked(front) && Linked(nodes) && front <= nodes && |front| == 2 && |nodes| == 3
    requires nodes[2].header == c && Time(c) <= FutureLimit(now) && Admits(rules, front, 2, now)
    ensures Admits(rules, nodes, 3, now)
  {
    hide PathAccepted, Linked, Time, FutureLimit;
    forall i | 0 <= i < 3 ensures !Late(rules, nodes, now, i) {
      if i < 2 {
        assert !Late(rules, front, now, i) && front == nodes[..2];
        PathAcceptedInPrefix(rules, nodes, 2, i);
      }
    }
  }

  /** The commit writes one record behind the gap. */
  lemma CommitsBehind(rules: Rules, cap: nat, d: Desk)
    requires InStep(rules, cap, d) && d.gap != [] && |d.sys.tree.dirty| == 1 && d.records <= 3
    ensures SysLegal(rules, d.sys, Commit)
    ensures Filed(d).gap == d.gap && Filed(d).sys.tree.index == d.sys.tree.index
  {
    hide Verdicts, ActiveChain, IsBest, Built, Linked, RecordsOf, JournalOk, AboveRoot, AllBacked;
    DirtyIsWritten(rules, d.sys.tree);
  }

  /**
    The run goes through. It ends committed, `c` in its tree and nothing in its tree late; and the
    load of its file at the same clock starts without `c`.
   */
  lemma ShortReloadLosesHeader(rules: Rules, cap: nat, a: Header, b: Header, c: Header, now: nat)
    requires Scene(rules, a, b, c, now) && cap >= 4
    ensures var (ops, root) := (Again(rules, a, b, c, now), rules.hashOf(rules.genesis));
            && AllReadable(rules, cap, ops) && SessionRun(rules, cap, ops).Some?
            && var d := SessionRun(rules, cap, ops).value;
               && InStep(rules, cap, d) && d.sys.tree.dirty == [] && rules.hashOf(c) in d.sys.tree.index
               && Admits(rules, d.sys.tree.nodes, |d.sys.tree.nodes|, now)
               && var r := Load(rules, cap, File(d), now, root);
                  r.Loaded? && |r.tree.nodes| == 2 && rules.hashOf(c) !in r.tree.index
  {
    hide Scene, InStep, Left, Load, SessionStep, SessionRun, AllReadable, Readable, SysLegal, Admits, Stuck, Base, File,
      Replay, Sound, Shortened, Accept;
    var (first, root) := (Calls(a, b, c, now), rules.hashOf(rules.genesis));
    LateHeaderLosesTip(rules, cap, a, b, c, now);
    OneSession(rules, cap, first);
    var d0 := SessionRun(rules, cap, AtWork(first)).value;
    var d1 := ThenReloads(rules, cap, AtWork(first), d0, a, b, c, now);
    var ops := AtWork(first) + [Reload(now, root)];
    var d3 := ThenCommits(rules, cap, ops, d1, a, b, c, now);
  }

  lemma ThenReloads(rules: Rules, cap: nat, ops: seq<SessionOp>, d: Desk, a: Header, b: Header, c: Header, now: nat)
    returns (y: Desk)
    requires cap >= 4 && SessionRun(rules, cap, ops) == Some(d) && AllReadable(rules, cap, ops)
    requires InStep(rules, cap, d) && d.gap == [] && Left(rules, cap, d.sys, a, c, now)
    ensures var more := ops + [Reload(now, rules.hashOf(rules.genesis))];
            SessionRun(rules, cap, more) == Some(y) && AllReadable(rules, cap, more)
    ensures Shortened(rules, cap, y, a, c, now)
  {
    hide Load, SessionRun, AllReadable, Shortened, Resumed, JournalOk, AboveRoot, AllBacked, FirstLate;
    var root := rules.hashOf(rules.genesis);
    RootOfTree(rules, d.sys.tree);
    ReloadShortens(rules, cap, d, a, c, now);
    RunsTo(rules, cap, ops, Reload(now, root), d);
    y := Resumed(rules, cap, d, now, root);
  }

  lemma ThenCommits(rules: Rules, cap: nat, ops: seq<SessionOp>, d: Desk, a: Header, b: Header, c: Header, now: nat)
    returns (y: Desk)
    requires cap >= 4 && SessionRun(rules, cap, ops) == Some(d) && AllReadable(rules, cap, ops)
    requires Scene(rules, a, b, c, now) && Shortened(rules, cap, d, a, c, now)
    ensures var more := ops + [Working(OnTree(OpAccept(c, now)))] + [Working(Commit)];
            SessionRun(rules, cap, more) == Some(y) && AllReadable(rules, cap, more)
    ensures InStep(rules, cap, y) && y.sys.tree.dirty == [] && rules.hashOf(c) in y.sys.tree.index
    ensures Admits(rules, y.sys.tree.nodes, |y.sys.tree.nodes|, now)
    ensures var r := Load(rules, cap, File(y), now, rules.hashOf(rules.genesis));
            r.Loaded? && |r.tree.nodes| == 2 && rules.hashOf(c) !in r.tree.index
  {
    hide Scene, Load, SessionRun, AllReadable, Sound, JournalOk, AboveRoot, AllBacked, Accept, Filed, Admits, Replay,
      Known, Readable;
    var accept := Working(OnTree(OpAccept(c, now)));
    AcceptsAgain(rules, cap, d, a, b, c, now);
    WorkKeeps(rules, cap, d, accept.op);
    RunsTo(rules, cap, ops, accept, d);
    var e := SessionStep(rules, cap, d, accept);
    CommitsBehind(rules, cap, e);
    WorkKeeps(rules, cap, e, Commit);
    RunsTo(rules, cap, ops + [accept], Working(Commit), e);
    FiledKeeps(rules, cap, e);
    y := Filed(e);
    StuckRestoresIff(rules, cap, y, now, rules.hashOf(rules.genesis));
    var r := Load(rules, cap, File(y), now, rules.hashOf(rules.genesis));
    LostBehind(rules, y.sys.tree, r.tree, c);
  }

  lemma LostBehind(rules: Rules, s: State, t: State, c: Header)
    requires Sound(rules, s) && Sound(rules, t) && t.nodes <= s.nodes && rules.hashOf(c) in s.index
    requires s.index[rules.hashOf(c)] >= |t.nodes|
    ensures rules.hashOf(c) !in t.index
  {
    hide Verdicts, ActiveChain, IsBest, DirtyList, Linked, Built;
    NotInFront(rules, s, t, s.index[rules.hashOf(c)]);
  }
}
