/**
  What a load comes to on any records a run can leave behind, whole or cut short, at any clock and
  for any marker: it reaches the marker or says why not, and no assertion of the tree stops it.
 */
module Restart {
  import opened Bytes
  import opened Arena
  import opened TreeState
  import opened Journal
  import opened Recovery

  /** The last record about an entry says its block was connected. */
  predicate RecordedConnected(statuses: seq<Option<Persisted>>, i: nat) {
    StatusAt(statuses, i).Some? && StatusAt(statuses, i).value.WasConnected?
  }

  /** So does the one about every entry from above genesis to `m`. */
  ghost predicate AllRecorded(nodes: seq<Node>, statuses: seq<Option<Persisted>>, m: nat)
    requires Linked(nodes) && m < |nodes|
    decreases m
  {
    m > 0 ==> AllRecorded(nodes, statuses, Up(nodes, m)) && RecordedConnected(statuses, m)
  }

  /** The contextual check passes on one header. */
  ghost predicate HeaderAccepts(rules: Rules, nodes: seq<Node>, i: nat)
    requires Linked(nodes) && 0 < i < |nodes|
  {
    rules.accepts(Path(nodes, Up(nodes, i)), nodes[i].header)
  }

  /** No entry recorded as connected is one the header rules refuse. */
  ghost predicate Vouched(rules: Rules, nodes: seq<Node>, statuses: seq<Option<Persisted>>)
    requires Linked(nodes)
  {
    forall i {:trigger RecordedConnected(statuses, i)} ::
      0 < i < |nodes| && RecordedConnected(statuses, i) ==> HeaderAccepts(rules, nodes, i)
  }

  // ----- connecting to a marker -------------------------------------------------------------------

  /** What a connect that got to `m` has left alone. */
  ghost predicate Above(t: State, u: State, m: nat)
    requires Linked(t.nodes) && m < |t.nodes| == |t.status| == |u.status|
  {
    && u.tip == m && forall i {:trigger u.status[i]} ::
         0 <= i < |t.nodes| && !OnPath(t.nodes, i, m) ==> u.status[i] == t.status[i]
  }

  /** An entry recorded as connected, just above a tip, can be connected. */
  lemma RecordedCanConnect(rules: Rules, t: State, statuses: seq<Option<Persisted>>, u: State, m: nat)
    requires Sound(rules, t) && Applied(t, statuses, |t.nodes|) && Vouched(rules, t.nodes, statuses)
    requires Sound(rules, u) && u.nodes == t.nodes && 0 < m < |t.nodes|
    requires Above(t, u, Up(t.nodes, m)) && RecordedConnected(statuses, m)
    ensures CanConnect(u, m)
  {
    hide Built, IsBest, DirtyList, Path, Linked, Applied, AncestorAt;
    var p := Up(t.nodes, m);
    AppliedSays(t, statuses, m);
    NotOnParentPath(t.nodes, m);
    TipIsOnItsPath(u.nodes, p);
    assert u.status[p].IsConnected();
    assert VerdictOk(rules, u.nodes, u.status, m);
    assert HeaderAccepts(rules, t.nodes, m);
  }

  lemma AppliedSays(t: State, statuses: seq<Option<Persisted>>, m: nat)
    requires Applied(t, statuses, |t.nodes|) && 0 < m < |t.nodes| == |t.status| && RecordedConnected(statuses, m)
    ensures t.status[m].BlockChecked? || t.status[m].InvalidAncestor? || t.status[m] == Invalid(Refused(AcceptHeader))
  {
    assert AppliedAt(t.status[m], StatusAt(statuses, m), m, |t.nodes|);
  }

  lemma NotOnParentPath(nodes: seq<Node>, m: nat)
    requires Linked(nodes) && 0 < m < |nodes|
    ensures !OnPath(nodes, m, Up(nodes, m))
  {
    hide AncestorAt;
  }

  lemma TipIsOnItsPath(nodes: seq<Node>, p: nat)
    requires Linked(nodes) && p < |nodes|
    ensures OnPath(nodes, p, p)
  {
  }

  /**
    Connecting to a marker gets there exactly when every block on the way is recorded as connected;
    otherwise it names one that is not, and no assertion fails.
   */
  lemma {:induction false} ConnectOutcome(rules: Rules, t: State, statuses: seq<Option<Persisted>>, m: nat)
    requires Sound(rules, t) && Applied(t, statuses, |t.nodes|) && Vouched(rules, t.nodes, statuses)
    requires t.tip == 0 && m < |t.nodes|
    ensures var r := ConnectUpTo(rules, t, statuses, m);
            && (r.Loaded? <==> AllRecorded(t.nodes, statuses, m))
            && (r.Loaded? ==> Above(t, r.tree, m))
            && (r.Loaded? || r.NoUndoRecord?)
    decreases m
  {
    hide Verdicts, ActiveChain, IsBest, Built, DirtyList, Applied, Vouched, AncestorAt, CanConnect, OnPath,
      RecordedConnected;
    if m > 0 {
      var p := Up(t.nodes, m);
      ConnectOutcome(rules, t, statuses, p);
      var r := ConnectUpTo(rules, t, statuses, p);
      RecordedMeans(statuses, m);
      if r.Loaded? && RecordedConnected(statuses, m) {
        RecordedCanConnect(rules, t, statuses, r.tree, m);
        ConnectedIsAbove(t, r.tree, m, StatusAt(statuses, m).value.undo);
      }
    }
  }

  lemma RecordedMeans(statuses: seq<Option<Persisted>>, m: nat)
    ensures RecordedConnected(statuses, m) <==> StatusAt(statuses, m).Some? && StatusAt(statuses, m).value.WasConnected?
  {
  }

  lemma ConnectedIsAbove(t: State, u: State, m: nat, undo: UndoLocation)
    requires Linked(t.nodes) && 0 < m < |t.nodes| == |t.status| == |u.status| && u.nodes == t.nodes
    requires Above(t, u, Up(t.nodes, m)) && CanConnect(u, m)
    ensures Above(t, ConnectBlock(u, m, undo), m)
  {
    hide AncestorAt, Linked;
    var v := ConnectBlock(u, m, undo);
    forall i | 0 <= i < |t.nodes| && !OnPath(t.nodes, i, m) ensures v.status[i] == t.status[i] {
      OnPathUp(t.nodes, i, m);
      assert u.status[i] == t.status[i];
    }
    TipIsOnItsPath(t.nodes, m);
  }

  // ----- the whole load ---------------------------------------------------------------------------

  /** The four ways a load can go, and when: three of them, for records that are vouched for. */
  lemma LoadOutcome(rules: Rules, cap: nat, journal: seq<Record>, now: nat, m: nat)
    requires var replayed := Replay(rules, cap, journal, now);
             Vouched(rules, replayed.tree.nodes, replayed.statuses) && m < |replayed.tree.nodes|
    ensures var replayed := Replay(rules, cap, journal, now);
            var r := Load(rules, cap, journal, now, replayed.tree.nodes[m].hash);
            && (r.Loaded? || r.NoUndoRecord?)
            && (r.Loaded? <==> AllRecorded(replayed.tree.nodes, replayed.statuses, m))
            && (r.Loaded? ==> r.tree.tip == m && r.tree.nodes == replayed.tree.nodes && r.tree.dirty == [])
  {
    hide Verdicts, ActiveChain, IsBest, Built, DirtyList, Linked, ApplyUpTo, ConnectUpTo, Fresh, Replay, Applied,
      Vouched, AllRecorded;
    var replayed := Replay(rules, cap, journal, now);
    FreshIsReady(rules, replayed.tree, replayed.statuses);
    var n := |replayed.tree.nodes|;
    ApplyUpToApplies(rules, replayed.tree, replayed.statuses, n);
    var applied := ApplyUpTo(replayed.tree, replayed.statuses, n);
    assert applied.index[applied.nodes[m].hash] == m;
    ConnectOutcome(rules, applied, replayed.statuses, m);
  }

  /** A marker the replayed arena does not have is reported as unknown, and nothing is connected. */
  lemma NeverPanics(rules: Rules, cap: nat, journal: seq<Record>, now: nat, marker: Hash)
    requires var replayed := Replay(rules, cap, journal, now);
             Vouched(rules, replayed.tree.nodes, replayed.statuses)
    ensures !Load(rules, cap, journal, now, marker).Panics?
  {
    hide Sound, Load, Replay, Vouched, AllRecorded, Fresh;
    var t := Replay(rules, cap, journal, now).tree;
    LoadIsOverReplayed(rules, cap, journal, now, marker);
    if m :| 0 <= m < |t.nodes| && t.nodes[m].hash == marker {
      LoadOutcome(rules, cap, journal, now, m);
    }
  }

  // ----- what a run's records say -----------------------------------------------------------------

  /** Every entry the journal ever called connected passed the header rules. */
  ghost predicate Certified(rules: Rules, nodes: seq<Node>, journal: seq<Record>, ids: seq<nat>)
    requires Linked(nodes) && |journal| == |ids|
  {
    forall k {:trigger journal[k]} :: 0 <= k < |ids| && journal[k].persisted.WasConnected? ==>
      0 < ids[k] < |nodes| && HeaderAccepts(rules, nodes, ids[k])
  }

  lemma {:induction false} LastIsARecord(journal: seq<Record>, ids: seq<nat>, i: nat) returns (k: nat)
    requires |journal| == |ids| && Last(journal, ids, i).Some?
    ensures k < |ids| && ids[k] == i && Last(journal, ids, i) == Some(journal[k].persisted)
    decreases |ids|
  {
    var n := |ids| - 1;
    if ids[n] == i {
      k := n;
    } else {
      k := LastIsARecord(journal[..n], ids[..n], i);
    }
  }

  /** The last word on an entry is the last word of the first `n` records, or one spoken behind them. */
  lemma {:induction false} LastSplits(journal: seq<Record>, ids: seq<nat>, n: nat, i: nat)
    requires |journal| == |ids| && n <= |ids|
    ensures Last(journal, ids, i) == Last(journal[..n], ids[..n], i)
            || exists k :: n <= k < |ids| && ids[k] == i && Last(journal, ids, i) == Some(journal[k].persisted)
    decreases |ids|
  {
    var top := |ids| - 1;
    if n == |ids| {
      assert journal[..n] == journal && ids[..n] == ids;
    } else if ids[top] != i {
      LastSplits(journal[..top], ids[..top], n, i);
      assert journal[..top][..n] == journal[..n] && ids[..top][..n] == ids[..n];
      if Last(journal[..top], ids[..top], i) != Last(journal[..n], ids[..n], i) {
        var k :| n <= k < top && ids[..top][k] == i
                 && Last(journal[..top], ids[..top], i) == Some(journal[..top][k].persisted);
        assert ids[k] == i && journal[k].persisted == journal[..top][k].persisted;
      }
    }
  }

  /** Whatever part of such a journal is replayed, the statuses it leaves are vouched for. */
  lemma CertifiedIsVouched(
    rules: Rules, s: State, r: Replayed, journal: seq<Record>, ids: seq<nat>)
    requires Linked(s.nodes) && |journal| == |ids| && Certified(rules, s.nodes, journal, ids)
    requires Rebuilt(s, r, journal, ids) && Linked(r.tree.nodes)
    ensures Vouched(rules, r.tree.nodes, r.statuses)
  {
    hide Last, Known, Linked, Path;
    forall i | 0 < i < |r.tree.nodes| && RecordedConnected(r.statuses, i)
      ensures HeaderAccepts(rules, r.tree.nodes, i)
    {
      assert StatusAt(r.statuses, i) == Last(journal, ids, i);
      var k := LastIsARecord(journal, ids, i);
      assert journal[k].persisted.WasConnected?;
      SamePath(rules, r.tree.nodes, s.nodes, i);
    }
  }

  lemma SamePath(rules: Rules, nodes: seq<Node>, more: seq<Node>, i: nat)
    requires Linked(nodes) && Linked(more) && nodes <= more && 0 < i < |nodes|
    ensures HeaderAccepts(rules, nodes, i) <==> HeaderAccepts(rules, more, i)
  {
    PathExtends(nodes, more, Up(nodes, i));
  }

  /** A replay stands where the replay of some prefix that was kept whole stands. */
  lemma {:induction false} ReplayIsSomePrefix(rules: Rules, cap: nat, x: Sys, now: nat, k: nat) returns (j: nat)
    requires Sound(rules, x.tree) && JournalOk(x) && |x.tree.nodes| <= cap && k <= |x.ids|
    ensures j <= k
    ensures Rebuilt(x.tree, Replay(rules, cap, x.journal[..j], now), x.journal[..j], x.ids[..j])
    ensures var (a, b) := (Replay(rules, cap, x.journal[..k], now), Replay(rules, cap, x.journal[..j], now));
            a.tree == b.tree && a.statuses == b.statuses
    ensures Known(x.ids[..k]) <= |x.tree.nodes|
    ensures forall i {:trigger x.ids[..i]} ::
              (0 <= i <= k && Known(x.ids[..i]) <= |x.tree.nodes| && Linked(x.tree.nodes)
               && Admits(rules, x.tree.nodes, Known(x.ids[..i]), now)) ==> i <= j
    decreases k
  {
    hide Sound, Clean, NewInOrder, Replay, Rebuilt, Ordered, Known, Late, Admits;
    SoundLinks(rules, x.tree);
    ReplayRejectsNothingIff(rules, cap, x, now, k);
    if Admits(rules, x.tree.nodes, Known(x.ids[..k]), now) {
      ReplayRebuilds(rules, cap, x, now, k);
      j := k;
    } else {
      var journal := x.journal[..k];
      NoneLateInGenesis(rules, x, now, k);
      j := ReplayIsSomePrefix(rules, cap, x, now, k - 1);
      assert journal[..k - 1] == x.journal[..k - 1];
      ReplayMayStop(rules, cap, journal, now);
    }
  }

  lemma NoneLateInGenesis(rules: Rules, x: Sys, now: nat, k: nat)
    requires Linked(x.tree.nodes) && k <= |x.ids| && Known(x.ids[..k]) <= |x.tree.nodes|
    requires !Admits(rules, x.tree.nodes, Known(x.ids[..k]), now)
    ensures k > 0
  {
    hide PathAccepted, Linked;
    assert Known(x.ids[..0]) == 1;
  }

  /** A record that is turned away, or never looked at, changes nothing. */
  lemma ReplayMayStop(rules: Rules, cap: nat, journal: seq<Record>, now: nat)
    requires |journal| > 0 && Replay(rules, cap, journal, now).rejected
    ensures var (a, b) := (Replay(rules, cap, journal, now), Replay(rules, cap, journal[..|journal| - 1], now));
            a.tree == b.tree && a.statuses == b.statuses
  {
    hide Sound, Accept;
  }

  /** Records made of a sound tree are certified. */
  lemma BatchIsCertified(rules: Rules, s: State, ids: seq<nat>)
    requires Sound(rules, s) && forall k :: 0 <= k < |ids| ==> 0 < ids[k] < |s.nodes|
    ensures |RecordsOf(s, ids)| == |ids| && Certified(rules, s.nodes, RecordsOf(s, ids), ids)
  {
    hide ActiveChain, IsBest, Built, DirtyList, Path, Linked, RecordsOf;
    GenesisOnly(rules, s);
    RecordsOfEntries(s, ids);
    forall k | 0 <= k < |ids| && RecordsOf(s, ids)[k].persisted.WasConnected?
      ensures HeaderAccepts(rules, s.nodes, ids[k])
    {
      assert VerdictOk(rules, s.nodes, s.status, ids[k]);
    }
  }

  lemma CertifiedTogether(
    rules: Rules, nodes: seq<Node>, journal: seq<Record>, ids: seq<nat>, batch: seq<Record>, more: seq<nat>)
    requires Linked(nodes) && |journal| == |ids| && |batch| == |more|
    requires Certified(rules, nodes, journal, ids) && Certified(rules, nodes, batch, more)
    ensures Certified(rules, nodes, journal + batch, ids + more)
  {
    hide HeaderAccepts, Linked;
  }

  lemma CertifiedGrows(rules: Rules, nodes: seq<Node>, more: seq<Node>, journal: seq<Record>, ids: seq<nat>)
    requires Linked(nodes) && Linked(more) && nodes <= more && |journal| == |ids|
    requires Certified(rules, nodes, journal, ids)
    ensures Certified(rules, more, journal, ids)
  {
    hide HeaderAccepts, Linked;
    forall k | 0 <= k < |ids| && journal[k].persisted.WasConnected?
      ensures 0 < ids[k] < |more| && HeaderAccepts(rules, more, ids[k])
    {
      SamePath(rules, nodes, more, ids[k]);
    }
  }

  /** A commit, rewriting or not, keeps the journal certified; so does the batch alone. */
  lemma CommitIsCertified(rules: Rules, x: Sys)
    requires Sound(rules, x.tree) && |x.journal| == |x.ids| && Certified(rules, x.tree.nodes, x.journal, x.ids)
    ensures |Appended(x).journal| == |Appended(x).ids| && |Committed(x).journal| == |Committed(x).ids|
    ensures Committed(x).tree.nodes == x.tree.nodes && Appended(x).tree.nodes == x.tree.nodes
    ensures Certified(rules, x.tree.nodes, Appended(x).journal, Appended(x).ids)
    ensures Certified(rules, x.tree.nodes, Committed(x).journal, Committed(x).ids)
  {
    hide Verdicts, ActiveChain, IsBest, Built, Linked, RecordsOf, Certified, Everything;
    var s := ClearDirty(x.tree);
    ClearDirtyIsSound(rules, x.tree);
    BatchIsCertified(rules, x.tree, x.tree.dirty);
    CertifiedTogether(rules, x.tree.nodes, x.journal, x.ids, RecordsOf(x.tree, x.tree.dirty), x.tree.dirty);
    SnapshotIsCertified(rules, s);
  }

  lemma SnapshotIsCertified(rules: Rules, s: State)
    requires Sound(rules, s)
    ensures var ids := Everything(|s.nodes|);
            && |RecordsOf(s, ids)| == |ids[1..]|
            && Certified(rules, s.nodes, RecordsOf(s, ids), ids[1..])
  {
    hide Verdicts, ActiveChain, IsBest, Built, Linked, RecordsOf, Certified;
    GenesisOnly(rules, s);
    RecordsOfEverything(s, |s.nodes|);
    BatchIsCertified(rules, s, Everything(|s.nodes|)[1..]);
  }
}
