/**
  A header-stage verdict handed to `invalidate`, which the call's assertions admit: it is written as
  an accepted header, and so are the verdicts it hands down, so the next load knows none of them.
 */
module HeaderVerdict {
  import opened Bytes
  import opened Arena
  import opened TreeState
  import opened Journal
  import opened Recovery

  /** The verdict in question. */
  function Verdict(): Invalidity { Refused(AcceptHeader) }

  ghost function Given(s: State, node: nat): State
    requires CanRefuse(s, node)
  {
    Invalidate(s, node, Verdict())
  }

  /** The call changes statuses and marks one entry dirty; the rest of the tree's shape stays. */
  lemma GivenShape(rules: Rules, s: State, node: nat)
    requires Sound(rules, s) && CanRefuse(s, node)
    ensures var t := Given(s, node);
            && 0 < node && t.nodes == s.nodes && t.index == s.index && t.tip == s.tip
            && Shaped(t) && DirtyList(t.flagged, t.dirty) && t.flagged[node]
            && t.flagged == s.flagged[node := true]
            && t.dirty == (if s.flagged[node] then s.dirty else s.dirty + [node])
  {
    hide Verdicts, ActiveChain, IsBest, Built, Linked, Inherited;
    GenesisOnly(rules, s);
    InvalidateIsSound(rules, s, node, Refused(CheckBlock));
    var (t, u) := (Given(s, node), Invalidate(s, node, Refused(CheckBlock)));
    assert t.flagged == u.flagged && t.dirty == u.dirty && t.index == u.index;
    BestIsInRange(rules, s, t);
  }

  lemma BestIsInRange(rules: Rules, s: State, t: State)
    requires Sound(rules, s) && t.nodes == s.nodes && t.index == s.index && t.tip == s.tip
    requires |t.status| == |t.flagged| == |s.nodes| && t.best < |s.nodes|
    ensures Shaped(t)
  {
    hide Verdicts, ActiveChain, IsBest, Built, DirtyList;
  }

  /** An entry whose status the call changed was neither refused nor connected, and is written as accepted. */
  lemma ChangedIsAccepted(rules: Rules, s: State, node: nat, i: nat)
    requires Sound(rules, s) && CanRefuse(s, node) && i < |s.nodes|
    requires Given(s, node).status[i] != s.status[i]
    ensures 0 < i && !s.status[i].IsTerminal() && !s.status[i].IsConnected()
    ensures PersistedOf(Given(s, node).status[i]) == Some(Accepted)
  {
    hide IsBest, DirtyList, BestUpTo;
    var marked := s.status[node := Invalid(Verdict())];
    assert Given(s, node).status[i] == Inherited(s.nodes, marked, node, i);
    if s.status[i].IsConnected() {
      ActiveIsUntouched(rules, s, node, Verdict(), i);
    }
    GenesisOnly(rules, s);
  }

  // ----- what the journal takes the tree for ------------------------------------------------------

  /** Some of the changed entries put back as headers without block data, the others as they were. */
  ghost function Demoted(s: State, t: State, all: bool): State
    requires |s.status| == |s.nodes| == |t.status| == |t.flagged|
  {
    t.(status := seq(|s.nodes|, i requires 0 <= i < |s.nodes| => DemotedTo(s, t, all, i)), best := s.best)
  }

  ghost function DemotedTo(s: State, t: State, all: bool, i: nat): Status
    requires i < |s.status| == |t.status| == |t.flagged|
  {
    if t.status[i] != s.status[i] && (all || t.flagged[i]) then HeaderAccepted else s.status[i]
  }

  /** Such a tree differs from the old one in block data only. */
  lemma DemotedSays(rules: Rules, s: State, node: nat, all: bool, i: nat)
    requires Sound(rules, s) && CanRefuse(s, node) && i < |s.nodes|
    ensures var (t, d) := (Given(s, node), DemotedTo(s, Given(s, node), all, i));
            && (d.IsTerminal() <==> s.status[i].IsTerminal()) && (d.IsConnected() <==> s.status[i].IsConnected())
            && (d == Genesis <==> s.status[i] == Genesis)
            && (d.IsTerminal() || d.IsConnected() ==> d == s.status[i])
            && (all || t.flagged[i] ==> PersistedOf(d) == PersistedOf(t.status[i]))
            && (!all && !t.flagged[i] ==> d == s.status[i])
  {
    hide Sound, Invalidate;
    GivenShape(rules, s, node);
    if Given(s, node).status[i] != s.status[i] {
      ChangedIsAccepted(rules, s, node, i);
    }
  }

  lemma DemotedIsSound(rules: Rules, s: State, node: nat, all: bool)
    requires Sound(rules, s) && CanRefuse(s, node)
    ensures var d := Demoted(s, Given(s, node), all);
            Sound(rules, d) && d.nodes == s.nodes
  {
    hide Invalidate, DemotedTo, Path, Verdicts, ActiveChain, IsBest, Built, Linked, DirtyList;
    GivenShape(rules, s, node);
    var d := Demoted(s, Given(s, node), all);
    forall i | 0 <= i < |s.nodes|
      ensures d.status[i].IsTerminal() <==> s.status[i].IsTerminal()
      ensures d.status[i].IsConnected() <==> s.status[i].IsConnected()
      ensures d.status[i] == Genesis <==> s.status[i] == Genesis
      ensures d.status[i].IsTerminal() ==> d.status[i] == s.status[i]
    {
      DemotedSays(rules, s, node, all, i);
    }
    VerdictsSurvive(rules, s.nodes, s.status, d.status);
    ActiveSurvives(s, d);
    BestSurvives(s.nodes, s.status, d.status, s.best);
  }

  lemma BestSurvives(nodes: seq<Node>, a: seq<Status>, b: seq<Status>, best: nat)
    requires |a| == |b| == |nodes| && IsBest(nodes, a, |nodes|, best)
    requires forall i :: 0 <= i < |nodes| ==> (b[i].IsTerminal() <==> a[i].IsTerminal())
    ensures IsBest(nodes, b, |nodes|, best)
  {
  }

  lemma VerdictsSurvive(rules: Rules, nodes: seq<Node>, a: seq<Status>, b: seq<Status>)
    requires Linked(nodes) && |a| == |b| == |nodes| && Verdicts(rules, nodes, a)
    requires forall i :: 0 <= i < |nodes| ==>
               && (b[i].IsTerminal() <==> a[i].IsTerminal()) && (b[i] == Genesis <==> a[i] == Genesis)
               && (b[i].IsTerminal() ==> b[i] == a[i])
    ensures Verdicts(rules, nodes, b)
  {
    hide Path;
    forall i | 0 < i < |nodes| ensures VerdictOk(rules, nodes, b, i) {
      assert VerdictOk(rules, nodes, a, i);
      assert b[Up(nodes, i)].IsTerminal() ==> b[Up(nodes, i)] == a[Up(nodes, i)];
    }
  }

  lemma ActiveSurvives(s: State, d: State)
    requires Linked(s.nodes) && d.nodes == s.nodes && |s.status| == |d.status| == |s.nodes| && d.tip == s.tip < |s.nodes|
    requires ActiveChain(s.nodes, s.status, s.tip)
    requires forall i :: 0 <= i < |s.nodes| ==> (d.status[i].IsConnected() <==> s.status[i].IsConnected())
    ensures ActiveChain(d.nodes, d.status, d.tip)
  {
    hide OnPath, Linked;
  }

  /** Entry by entry, the two trees are written the same way. */
  lemma {:induction false} WrittenAlike(s: State, t: State, ids: seq<nat>)
    requires |s.status| == |s.nodes| == |t.status| && t.nodes == s.nodes
    requires forall k :: 0 <= k < |ids| ==>
               ids[k] < |s.nodes| && PersistedOf(t.status[ids[k]]) == PersistedOf(s.status[ids[k]])
    ensures RecordsOf(t, ids) == RecordsOf(s, ids)
    decreases |ids|
  {
    hide PersistedOf;
    if |ids| > 0 {
      WrittenAlike(s, t, ids[..|ids| - 1]);
    }
  }

  /** A journal in step with the old tree is in step with the demoted one. */
  lemma DemotedIsInStep(rules: Rules, x: Sys, node: nat)
    requires Sound(rules, x.tree) && JournalOk(x) && CanRefuse(x.tree, node)
    ensures var d := Demoted(x.tree, Given(x.tree, node), false);
            Sound(rules, d) && JournalOk(x.(tree := d))
  {
    hide Verdicts, ActiveChain, IsBest, Built, Linked, DirtyList, Invalidate, JournalOk, DemotedTo;
    var (s, t) := (x.tree, Given(x.tree, node));
    GivenShape(rules, s, node);
    var d := Demoted(s, t, false);
    DemotedIsSound(rules, s, node, false);
    forall i | 0 <= i < |s.nodes| && !d.flagged[i] ensures !s.flagged[i] && d.status[i] == s.status[i] {
      DemotedSays(rules, s, node, false, i);
    }
    TreeStepKeepsJournal(x, d);
  }

  // ----- the commit and the load ------------------------------------------------------------------

  /** The commit after the verdict writes what the commit of a demoted tree would have written. */
  lemma CommitsAlike(rules: Rules, x: Sys, node: nat) returns (d: State)
    requires Sound(rules, x.tree) && JournalOk(x) && CanRefuse(x.tree, node)
    ensures var t := Given(x.tree, node);
            && Shaped(t) && DirtyList(t.flagged, t.dirty)
            && var z := Committed(x.(tree := t));
               && Sound(rules, d) && d.nodes == x.tree.nodes && d.dirty == [] && JournalOk(Sys(d, z.journal, z.ids))
               && forall i :: 0 <= i < |d.nodes| ==>
                    && (d.status[i].IsTerminal() <==> x.tree.status[i].IsTerminal())
                    && (d.status[i].IsConnected() <==> x.tree.status[i].IsConnected())
  {
    hide Verdicts, ActiveChain, IsBest, Built, Linked, JournalOk, Invalidate, RecordsOf, Everything, DemotedTo,
      PersistedOf;
    var (s, t) := (x.tree, Given(x.tree, node));
    GivenShape(rules, s, node);
    var y := x.(tree := t);
    var (some, every) := (Demoted(s, t, false), Demoted(s, t, true));
    DemotedIsInStep(rules, x, node);
    DemotedIsSound(rules, s, node, true);
    BatchAlike(rules, s, t, node);
    SnapshotAlike(rules, s, t, node);
    AppendSpeaksForAll(rules, x.(tree := some));
    ClearDirtyIsSound(rules, some);
    ClearDirtyIsSound(rules, every);
    DirtyIsWritten(rules, some);
    RewriteSpeaksForAll(rules, Sys(ClearDirty(every), [], []));
    var appended := Appended(y);
    var live := if |t.nodes| > MIN_LIVE_RECORDS then |t.nodes| else MIN_LIVE_RECORDS;
    if |appended.journal| <= 2 * live {
      d := ClearDirty(some);
    } else {
      d := ClearDirty(every);
    }
    forall i | 0 <= i < |d.nodes|
      ensures (d.status[i].IsTerminal() <==> s.status[i].IsTerminal())
      ensures (d.status[i].IsConnected() <==> s.status[i].IsConnected())
    {
      DemotedSays(rules, s, node, false, i);
      DemotedSays(rules, s, node, true, i);
    }
  }

  lemma BatchAlike(rules: Rules, s: State, t: State, node: nat)
    requires Sound(rules, s) && CanRefuse(s, node) && t == Given(s, node)
    requires Shaped(t) && t.nodes == s.nodes && |s.status| == |s.nodes| && DirtyList(t.flagged, t.dirty)
    ensures t.dirty != [] && RecordsOf(t, t.dirty) == RecordsOf(Demoted(s, t, false), t.dirty)
  {
    hide Sound, Linked, Invalidate, DemotedTo, PersistedOf, RecordsOf;
    GivenShape(rules, s, node);
    assert node in t.dirty;
    forall k | 0 <= k < |t.dirty|
      ensures PersistedOf(t.status[t.dirty[k]]) == PersistedOf(Demoted(s, t, false).status[t.dirty[k]])
    {
      DemotedSays(rules, s, node, false, t.dirty[k]);
    }
    WrittenAlike(Demoted(s, t, false), t, t.dirty);
  }

  lemma SnapshotAlike(rules: Rules, s: State, t: State, node: nat)
    requires Sound(rules, s) && CanRefuse(s, node) && t == Given(s, node)
    requires Shaped(t) && t.nodes == s.nodes && |s.status| == |s.nodes| && Shaped(Demoted(s, t, true))
    ensures RecordsOf(ClearDirty(t), Everything(|t.nodes|))
            == RecordsOf(ClearDirty(Demoted(s, t, true)), Everything(|t.nodes|))
  {
    hide Sound, Linked, Invalidate, DemotedTo, PersistedOf, RecordsOf;
    forall i | 0 <= i < |t.nodes| ensures PersistedOf(t.status[i]) == PersistedOf(Demoted(s, t, true).status[i]) {
      DemotedSays(rules, s, node, true, i);
    }
    WrittenAlike(ClearDirty(Demoted(s, t, true)), ClearDirty(t), Everything(|t.nodes|));
  }

  /**
    The verdict does not outlive the session. Give it to any entry the call admits, commit, and load
    with any marker that was connected: the entries that are terminal are those that were terminal
    before the call. The one it was given to is not among them, although the tree that was committed
    has it so.
   */
  lemma HeaderVerdictIsLost(rules: Rules, cap: nat, x: Sys, node: nat, now: nat, m: nat)
    requires Sound(rules, x.tree) && JournalOk(x) && CanRefuse(x.tree, node) && |x.tree.nodes| <= cap
    requires Admits(rules, x.tree.nodes, |x.tree.nodes|, now)
    requires m < |x.tree.nodes| && x.tree.status[m].IsConnected()
    ensures var t := Given(x.tree, node);
            && t.status[node].IsTerminal() && Shaped(t) && DirtyList(t.flagged, t.dirty)
            && var r := Load(rules, cap, Committed(x.(tree := t)).journal, now, x.tree.nodes[m].hash);
               && r.Loaded? && r.tree.nodes == x.tree.nodes && r.tree.tip == m && |r.tree.status| == |x.tree.nodes|
               && !r.tree.status[node].IsTerminal()
               && forall i :: 0 <= i < |x.tree.nodes| ==>
                    (r.tree.status[i].IsTerminal() <==> x.tree.status[i].IsTerminal())
  {
    hide Verdicts, ActiveChain, IsBest, Built, Linked, JournalOk, Invalidate, Committed, Load, Admits, DirtyList;
    NodeIsRefused(x.tree, node);
    var d := CommitsAlike(rules, x, node);
    var z := Committed(x.(tree := Given(x.tree, node)));
    LoadRestores(rules, cap, Sys(d, z.journal, z.ids), now, m);
    var r := Load(rules, cap, z.journal, now, d.nodes[m].hash);
    forall i | 0 <= i < |x.tree.nodes| ensures r.tree.status[i].IsTerminal() <==> x.tree.status[i].IsTerminal() {
      assert r.tree.status[i] == r.tree.status[i];
    }
  }

  lemma NodeIsRefused(s: State, node: nat)
    requires CanRefuse(s, node)
    ensures Given(s, node).status[node].IsTerminal()
  {
    hide BestUpTo, Linked;
    assert Given(s, node).status[node] == Inherited(s.nodes, s.status[node := Invalid(Verdict())], node, node);
  }
}
