/**
  A commit cut short: what the tree that a load makes of the surviving records has to do with the
  tree of the last commit and with the one that was being committed.
 */
module CrashRestores {
  import opened Bytes
  import opened Arena
  import opened TreeState
  import opened Recovery
  import J = Journal
  import Restart
  import Sessions
  import Series
  import JournalBytes
  import opened Store

  /** A tree, and not the store around it. */
  type State = TreeState.State

  /** The record is one that stands for the entry in the committed tree, or the one made of it as it is now. */
  ghost predicate OneOfTwo(saved: seq<Status>, running: seq<Status>, i: nat, p: J.Persisted) {
    || (i < |saved| && J.Agrees(p, saved[i]))
    || (i < |running| && J.PersistedOf(running[i]) == Some(p))
  }

  /** So is every record that a load goes by. */
  ghost predicate AllOneOfTwo(saved: seq<Status>, running: seq<Status>, n: nat, statuses: seq<Option<J.Persisted>>) {
    forall i {:trigger StatusAt(statuses, i)} :: 0 < i < n ==>
      StatusAt(statuses, i).Some? && OneOfTwo(saved, running, i, StatusAt(statuses, i).value)
  }

  /** The last word on an entry, after the committed records and any part of the batch. */
  lemma LastIsOneOfTwo(g: Config, s: Store.State, n: nat, i: nat)
    requires Inv(g, s) && Sound(g.rules, s.sys.tree)
    requires var x := Credited(g, s); |s.sys.journal| <= n <= |x.ids| == |x.journal| && 0 < i < J.Known(x.ids[..n])
    ensures var (x, last) := (Credited(g, s), J.Last(Credited(g, s).journal[..n], Credited(g, s).ids[..n], i));
            last.Some? && OneOfTwo(s.saved.status, s.sys.tree.status, i, last.value)
  {
    hide Inv, Sound, Credited, J.Last, J.Known, J.Agrees, J.PersistedOf, J.JournalOk;
    var x := Credited(g, s);
    var (journal, ids, k) := (x.journal[..n], x.ids[..n], |s.sys.journal|);
    CreditedExtends(g, s);
    CreditedIsInStep(g, s);
    OrderedFront(x, n);
    Sessions.KnownHasLast(journal, ids, i);
    Restart.LastSplits(journal, ids, k, i);
    assert journal[..k] == s.sys.journal && ids[..k] == s.sys.ids;
    if J.Last(journal, ids, i) == J.Last(s.sys.journal, s.sys.ids, i) {
      CommittedWord(g, s, i);
    } else {
      var j :| k <= j < |ids| && ids[j] == i && J.Last(journal, ids, i) == Some(journal[j].persisted);
      BatchWord(g, s, j);
    }
  }

  lemma OrderedFront(x: J.Sys, n: nat)
    requires Shaped(x.tree) && J.JournalOk(x) && n <= |x.ids|
    ensures J.Ordered(x.ids[..n])
  {
    OrderedPrefix(x.ids, n);
  }

  /** What the committed records say last about an entry stands for it in the committed tree. */
  lemma CommittedWord(g: Config, s: Store.State, i: nat)
    requires Inv(g, s) && 0 < i && |s.sys.journal| == |s.sys.ids| && J.Last(s.sys.journal, s.sys.ids, i).Some?
    ensures i < |s.saved.status| && J.Agrees(J.Last(s.sys.journal, s.sys.ids, i).value, s.saved.status[i])
  {
    hide TreeOk, BlocksOk, StatusesOk, FileOk, CertifiedOk, Verdicts, ActiveChain, IsBest, Built, Linked,
      J.Last, J.Known, J.Ordered, J.NewInOrder, J.Agrees;
    var y := s.sys.(tree := s.saved);
    var k := Restart.LastIsARecord(y.journal, y.ids, i);
    assert i < |s.saved.nodes| && !s.saved.flagged[i];
    assert J.Clean(y, i);
  }

  /** A record of the batch was made of the running tree's entry. */
  lemma BatchWord(g: Config, s: Store.State, k: nat)
    requires Inv(g, s) && Sound(g.rules, s.sys.tree)
    requires |s.sys.journal| <= k < |Credited(g, s).journal| == |Credited(g, s).ids|
    ensures var (x, i) := (Credited(g, s), Credited(g, s).ids[k]);
            i < |s.sys.tree.status| && J.PersistedOf(s.sys.tree.status[i]) == Some(x.journal[k].persisted)
  {
    hide BlocksOk, StatusesOk, FileOk, SavedOk, J.RecordsOf, J.JournalOk, ActiveChain, IsBest, Built, Linked,
      Restart.Certified, J.PersistedOf;
    J.DirtyIsWritten(g.rules, s.sys.tree);
  }

  // ----- the verdicts -----------------------------------------------------------------------------

  /** What the three trees have to do with each other. */
  ghost predicate Over(rules: Rules, saved: State, running: State, t: State, statuses: seq<Option<J.Persisted>>) {
    && Sound(rules, saved) && Sound(rules, running) && Sound(rules, t)
    && saved.nodes <= t.nodes <= running.nodes && Stand(saved.status, running.status)
    && AllOneOfTwo(saved.status, running.status, |t.nodes|, statuses) && Sessions.AllAgree(t.status, statuses)
  }

  /** An entry's verdict against its parent's and against what the rules say of its header. */
  predicate Fair(parent: Status, own: Status, accepted: bool) {
    && (parent.IsTerminal() ==> own.IsTerminal()) && (own.InvalidAncestor? ==> parent.IsTerminal())
    && (own == Invalid(Refused(AcceptHeader)) ==> !accepted) && (!own.IsTerminal() ==> accepted)
  }

  lemma IsFair(rules: Rules, s: State, i: nat)
    requires Sound(rules, s) && 0 < i < |s.nodes|
    ensures |s.status| == |s.nodes| && Linked(s.nodes)
    ensures var p := Up(s.nodes, i);
            Fair(s.status[p], s.status[i], rules.accepts(Path(s.nodes, p), s.nodes[i].header))
  {
    hide ActiveChain, IsBest, Built, DirtyList, Path;
    assert VerdictOk(rules, s.nodes, s.status, i);
  }

  /** The three trees at one entry: one parent, one answer of the rules, and the record the load went by. */
  lemma OverAt(
    rules: Rules, saved: State, running: State, t: State, statuses: seq<Option<J.Persisted>>, i: nat)
    returns (p: nat, accepted: bool, w: J.Persisted)
    requires Over(rules, saved, running, t, statuses) && 0 < i < |t.nodes|
    ensures |saved.status| == |saved.nodes| && |running.status| == |running.nodes| && |t.status| == |t.nodes|
    ensures p < i < |running.status| && Fair(t.status[p], t.status[i], accepted)
    ensures Fair(running.status[p], running.status[i], accepted)
    ensures i < |saved.status| ==> Fair(saved.status[p], saved.status[i], accepted)
    ensures OneOfTwo(saved.status, running.status, i, w) && J.Agrees(w, t.status[i])
    ensures Stand(saved.status, running.status)
  {
    hide ActiveChain, IsBest, Built, DirtyList, Path, J.Agrees, OneOfTwo, StatusAt, Fair, Verdicts, Stand;
    p := Up(t.nodes, i);
    accepted := rules.accepts(Path(t.nodes, p), t.nodes[i].header);
    w := StatusAt(statuses, i).value;
    IsFair(rules, t, i);
    assert NodeLinked(t.nodes, i);
    PathExtends(t.nodes, running.nodes, p);
    IsFair(rules, running, i);
    if i < |saved.nodes| {
      PathExtends(saved.nodes, t.nodes, p);
      IsFair(rules, saved, i);
    }
    assert t.status[i] == t.status[i];
    assert OneOfTwo(saved.status, running.status, i, w);
  }

  /** One entry's verdict, once its parent's is settled. */
  lemma VerdictBetween(
    saved: seq<Status>, running: seq<Status>, t: seq<Status>, p: nat, i: nat, accepted: bool, w: J.Persisted)
    requires p < i < |t| <= |running| && Stand(saved, running)
    requires Fair(t[p], t[i], accepted) && Fair(running[p], running[i], accepted)
    requires i < |saved| ==> Fair(saved[p], saved[i], accepted)
    requires OneOfTwo(saved, running, i, w) && J.Agrees(w, t[i])
    requires i < |saved| && saved[p].IsTerminal() ==> t[p].IsTerminal()
    requires t[p].IsTerminal() ==> running[p].IsTerminal()
    ensures i < |saved| && saved[i].IsTerminal() ==> t[i].IsTerminal()
    ensures t[i].IsTerminal() ==> running[i].IsTerminal()
  {
  }

  /** A verdict of the committed tree is there again, and there is none but the running tree has it. */
  lemma {:induction false} VerdictsBetween(
    rules: Rules, saved: State, running: State, t: State, statuses: seq<Option<J.Persisted>>, i: nat)
    requires Over(rules, saved, running, t, statuses) && i < |t.nodes| == |t.status|
    ensures |saved.status| == |saved.nodes| && |running.status| == |running.nodes|
    ensures i < |saved.nodes| && saved.status[i].IsTerminal() ==> t.status[i].IsTerminal()
    ensures t.status[i].IsTerminal() ==> running.status[i].IsTerminal()
    decreases i
  {
    hide Over, J.Agrees, OneOfTwo, Fair, Stand;
    GenesisIsFine(rules, saved, running, t, statuses);
    if i > 0 {
      var p, accepted, w := OverAt(rules, saved, running, t, statuses, i);
      VerdictsBetween(rules, saved, running, t, statuses, p);
      VerdictBetween(saved.status, running.status, t.status, p, i, accepted, w);
    }
  }

  lemma GenesisIsFine(rules: Rules, saved: State, running: State, t: State, statuses: seq<Option<J.Persisted>>)
    requires Over(rules, saved, running, t, statuses)
    ensures |saved.status| == |saved.nodes| > 0 && |running.status| == |running.nodes| && Linked(t.nodes)
    ensures Stand(saved.status, running.status)
    ensures |t.nodes| <= |running.nodes| && |t.status| == |t.nodes| > 0
    ensures t.status[0] == Genesis && saved.status[0] == Genesis
  {
    hide ActiveChain, IsBest, Built, DirtyList, Sessions.AllAgree, AllOneOfTwo;
  }

  /**
    Entry by entry. A verdict of the committed tree is kept, and none is made up that the running tree
    does not have; an entry without one has its block where one of the two trees has it; and the
    connected entries are those up to the tip.
   */
  ghost predicate Between(saved: State, running: State, t: State)
    requires Linked(t.nodes) && |t.status| == |t.nodes| && t.tip < |t.nodes| <= |running.status|
  {
    forall i {:trigger t.status[i]} :: 0 <= i < |t.nodes| ==>
      && (i < |saved.status| && saved.status[i].IsTerminal() ==> t.status[i].IsTerminal())
      && (t.status[i].IsTerminal() ==> running.status[i].IsTerminal())
      && (!t.status[i].IsTerminal() ==>
            || (i < |saved.status| && t.status[i].Where() == saved.status[i].Where())
            || t.status[i].Where() == running.status[i].Where())
      && (t.status[i].IsConnected() <==> OnPath(t.nodes, i, t.tip))
  }

  lemma PlaceBetween(saved: seq<Status>, running: seq<Status>, t: seq<Status>, i: nat, w: J.Persisted)
    requires 0 < i < |t| <= |running| && OneOfTwo(saved, running, i, w) && J.Agrees(w, t[i])
    requires i < |saved| && saved[i].IsTerminal() ==> t[i].IsTerminal()
    ensures !t[i].IsTerminal() ==>
              || (i < |saved| && t[i].Where() == saved[i].Where())
              || t[i].Where() == running[i].Where()
  {
  }

  lemma IsBetween(rules: Rules, saved: State, running: State, t: State, statuses: seq<Option<J.Persisted>>)
    requires Over(rules, saved, running, t, statuses)
    ensures Shaped(t) && |t.nodes| <= |running.status| && Between(saved, running, t)
  {
    hide Verdicts, IsBest, Built, DirtyList, OnPath, Linked, AllOneOfTwo, Sessions.AllAgree, OneOfTwo, J.Agrees, Fair;
    GenesisIsFine(rules, saved, running, t, statuses);
    forall i | 0 <= i < |t.nodes|
      ensures i < |saved.status| && saved.status[i].IsTerminal() ==> t.status[i].IsTerminal()
      ensures t.status[i].IsTerminal() ==> running.status[i].IsTerminal()
      ensures !t.status[i].IsTerminal() ==>
                || (i < |saved.status| && t.status[i].Where() == saved.status[i].Where())
                || t.status[i].Where() == running.status[i].Where()
    {
      VerdictsBetween(rules, saved, running, t, statuses, i);
      if i > 0 {
        var p, accepted, w := OverAt(rules, saved, running, t, statuses, i);
        PlaceBetween(saved.status, running.status, t.status, i, w);
      }
    }
    assert ActiveChain(t.nodes, t.status, t.tip);
  }

  // ----- the crash --------------------------------------------------------------------------------

  /**
    Wherever the crash falls, a batch cut anywhere included: at a clock by which no committed entry is
    late, a load that goes through gives a tree between the last commit and the next, with all the
    entries of the one and none but those of the other.
   */
  lemma CrashLoadsBetween(
    g: Config, trace: seq<Store.State>, ops: seq<Store.Op>, files: Series.Files, journal: seq<byte>, now: nat,
    marker: Hash)
    requires IsRun(g, trace, ops) && CrashLeaves(trace[|ops|], files, journal)
    requires var s := trace[|ops|];
             && Linked(s.sys.tree.nodes) && |s.saved.nodes| <= |s.sys.tree.nodes|
             && Admits(g.rules, s.sys.tree.nodes, |s.saved.nodes|, now)
    requires Load(g.rules, g.cap, JournalBytes.ReadAll(g.checksum, journal).0, now, marker).Loaded?
    ensures var s := trace[|ops|];
            var t := Load(g.rules, g.cap, JournalBytes.ReadAll(g.checksum, journal).0, now, marker).tree;
            && s.saved.nodes <= t.nodes <= s.sys.tree.nodes && Shaped(t) && |t.nodes| <= |s.sys.tree.status|
            && Between(s.saved, s.sys.tree, t)
  {
    hide Inv, CrashLeaves, Next, Begins, JournalBytes.ReadAll, Load, Admits, Over, Between, Sound;
    var s := trace[|ops|];
    RunKeeps(g, trace, ops, |ops|);
    var t := Load(g.rules, g.cap, JournalBytes.ReadAll(g.checksum, journal).0, now, marker).tree;
    var statuses := StateIsOver(g, s, files, journal, now, marker);
    OverNodes(g.rules, s.saved, s.sys.tree, t, statuses);
    IsBetween(g.rules, s.saved, s.sys.tree, t, statuses);
  }

  lemma OverNodes(rules: Rules, saved: State, running: State, t: State, statuses: seq<Option<J.Persisted>>)
    requires Over(rules, saved, running, t, statuses)
    ensures saved.nodes <= t.nodes <= running.nodes
  {
    hide Sound, AllOneOfTwo, Sessions.AllAgree;
  }

  lemma StateIsOver(g: Config, s: Store.State, files: Series.Files, journal: seq<byte>, now: nat, marker: Hash)
    returns (statuses: seq<Option<J.Persisted>>)
    requires Inv(g, s) && CrashLeaves(s, files, journal)
    requires Linked(s.sys.tree.nodes) && |s.saved.nodes| <= |s.sys.tree.nodes|
    requires Admits(g.rules, s.sys.tree.nodes, |s.saved.nodes|, now)
    requires Load(g.rules, g.cap, JournalBytes.ReadAll(g.checksum, journal).0, now, marker).Loaded?
    ensures var t := Load(g.rules, g.cap, JournalBytes.ReadAll(g.checksum, journal).0, now, marker).tree;
            Over(g.rules, s.saved, s.sys.tree, t, statuses)
  {
    hide Inv, CrashLeaves, JournalBytes.ReadAll, Load, Replay, Admits, Rebuilt, Sound, J.JournalOk, J.Known, Credited,
      Restart.Vouched, InFile, OneOfTwo, Sessions.AllAgree;
    var j := StateVouches(g, s, files, journal, now);
    CreditedIsInStep(g, s);
    var (x, records) := (Credited(g, s), JournalBytes.ReadAll(g.checksum, journal).0);
    var r := Replay(g.rules, g.cap, x.journal[..j], now);
    statuses := r.statuses;
    RebuiltIsPrefix(x, r, j);
    RebuiltRemembers(x, r, j);
    SavedIsKnown(g, s, x, j);
    Sessions.LoadAgrees(g.rules, g.cap, records, now, marker);
    forall i | 0 < i < |r.tree.nodes|
      ensures StatusAt(statuses, i).Some? && OneOfTwo(s.saved.status, s.sys.tree.status, i, StatusAt(statuses, i).value)
    {
      LastIsOneOfTwo(g, s, j, i);
      assert StatusAt(statuses, i) == J.Last(x.journal[..j], x.ids[..j], i);
    }
    SavedStands(g, s);
    PrefixesNest(s.saved.nodes, r.tree.nodes, s.sys.tree.nodes);
  }

  lemma SavedStands(g: Config, s: Store.State)
    requires Inv(g, s)
    ensures Sound(g.rules, s.saved) && Sound(g.rules, s.sys.tree)
    ensures s.saved.nodes <= s.sys.tree.nodes && Stand(s.saved.status, s.sys.tree.status)
  {
    hide BlocksOk, StatusesOk, FileOk, CertifiedOk, J.JournalOk, Sound;
  }

  lemma PrefixesNest(a: seq<Node>, b: seq<Node>, c: seq<Node>)
    requires a <= c && b <= c && |a| <= |b|
    ensures a <= b
  {
  }
}
