/**
  The journal in its own form: the batch built in a loop over the dirty list, the rewrite over the
  whole arena, and the load's three loops over a tree they change, each proved against the
  functions of `Journal` and `Recovery`.
 */
module Loader {
  import opened Bytes
  import opened Arena
  import opened HeaderTrees
  import TS = TreeState
  import J = Journal
  import R = Recovery
  import Rd = Reading
  import S = Sessions
  import Series

  /**
    The file and the count of its records that the journal keeps. Beside them, for the proofs: the
    records the tree goes by, which entry each is about, and where the others stand among them.
   */
  class JournalFile {
    var content: seq<J.Record>
    var records: nat
    ghost var known: seq<J.Record>
    ghost var ids: seq<nat>
    ghost var at: nat
    ghost var gap: seq<J.Record>

    constructor ()
      ensures content == [] && records == 0 && known == [] && ids == [] && at == 0 && gap == []
    {
      content, records, known, ids, at, gap := [], 0, [], [], 0, [];
    }

    ghost function View(tree: TS.State): S.Desk
      reads this
    {
      S.Desk(J.Sys(tree, known, ids), at, gap, records)
    }

    ghost predicate Valid()
      reads this
    {
      at <= |known| == |ids| && content == known[..at] + gap + known[at..]
    }

    /** The records of a list of entries, in its order. */
    method Batch(nodes: seq<nat>, tree: HeaderTree) returns (batch: seq<J.Record>)
      requires tree.Valid() && forall k :: 0 <= k < |nodes| ==> nodes[k] < |tree.nodes|
      ensures batch == J.RecordsOf(tree.View(), nodes)
    {
      batch := [];
      var k := 0;
      assert nodes[..0] == [];
      while k < |nodes|
        invariant k <= |nodes|
        invariant batch == J.RecordsOf(tree.View(), nodes[..k])
      {
        var persisted := J.PersistedOf(tree.status[nodes[k]]);
        assert nodes[..k + 1][..k] == nodes[..k];
        if persisted.Some? {
          batch := batch + [J.Record(tree.nodes[nodes[k]].header, persisted.value)];
        }
        k := k + 1;
      }
      assert nodes[..k] == nodes;
    }

    /** One record per entry, genesis passed over, in place of all that was there. */
    method Rewrite(tree: HeaderTree)
      requires tree.Valid()
      modifies this
      ensures Valid() && View(tree.View()) == S.Snapshot(J.Sys(tree.View(), old(known), old(ids)))
    {
      hide TS.Verdicts, TS.ActiveChain, TS.IsBest, Built, Linked, J.RecordsOf;
      var everything := seq(|tree.nodes|, i => i);
      assert everything == J.Everything(|tree.nodes|);
      var snapshot := Batch(everything, tree);
      SnapshotIsWhole(tree.rules, tree.View());
      content, records := snapshot, |snapshot|;
      known, ids, at, gap := snapshot, everything[1..], 0, [];
    }
  }

  lemma SnapshotIsWhole(rules: Rules, s: TS.State)
    requires TS.Sound(rules, s)
    ensures |J.RecordsOf(s, J.Everything(|s.nodes|))| == |s.nodes| - 1
  {
    hide TS.ActiveChain, TS.IsBest, Built, J.RecordsOf;
    TS.GenesisOnly(rules, s);
    J.RecordsOfEverything(s, |s.nodes|);
    J.RecordsOfEntries(s, J.Everything(|s.nodes|)[1..]);
  }

  /** Every block an entry names is in its file, and on the disk as far as its end. */
  ghost predicate AllOnDisk(shape: Series.Shape, v: Series.View, status: seq<TS.Status>) {
    forall i :: 0 <= i < |status| && status[i].Where().Some? ==>
      Series.Durable(shape, v, AsPlaced(status[i].Where().value))
  }

  function AsPlaced(at: TS.Location): Series.Placed {
    Series.Placed(at.file, at.offset, at.len)
  }

  /**
    The dirty entries filed and unmarked, with a snapshot once the count calls for one. A record may
    only be written once the block it names is on the disk, and the writer of the blocks, as it stands
    at the call, has to show that.
   */
  method Commit(file: JournalFile, tree: HeaderTree, ghost blocks: Series.SeriesWriter)
    requires tree.Valid() && file.Valid()
    requires AllOnDisk(blocks.shape, blocks.View(), tree.status)
    modifies file, tree
    ensures tree.Valid() && file.Valid()
    ensures file.View(tree.View()) == S.Filed(old(file.View(tree.View())))
    ensures tree.status == old(tree.status)
  {
    hide TS.Verdicts, TS.ActiveChain, TS.IsBest, Built, Linked, J.RecordsOf, AllOnDisk;
    if tree.dirty == [] {
      return;
    }
    ghost var before := file.View(tree.View());
    var batch := file.Batch(tree.dirty, tree);
    J.DirtyIsWritten(tree.rules, tree.View());
    S.AppendedFile(before, batch, tree.dirty);
    file.known, file.ids := file.known + batch, file.ids + tree.dirty;
    file.content := file.content + batch;
    file.records := file.records + |batch|;
    var live := if |tree.nodes| > J.MIN_LIVE_RECORDS then |tree.nodes| else J.MIN_LIVE_RECORDS;
    if file.records > 2 * live {
      file.Rewrite(tree);
      MarksAreNotWritten(tree.View(), J.Everything(|tree.nodes|));
    }
    tree.ClearDirty();
  }

  /** What a record says does not depend on the dirty marks. */
  lemma {:induction false} MarksAreNotWritten(s: TS.State, ids: seq<nat>)
    requires TS.Shaped(s) && forall k :: 0 <= k < |ids| ==> ids[k] < |s.nodes|
    ensures J.RecordsOf(TS.ClearDirty(s), ids) == J.RecordsOf(s, ids)
  {
    if |ids| > 0 {
      MarksAreNotWritten(s, ids[..|ids| - 1]);
    }
  }

  /** Every header the replay stores can be added to the tree the records before it lead to. */
  ghost predicate WorkFits(rules: Rules, cap: nat, records: seq<J.Record>, now: nat) {
    forall k {:trigger records[k]} :: 0 <= k < |records| && !R.Replay(rules, cap, records[..k], now).rejected ==>
      Addable(rules, cap, R.Replay(rules, cap, records[..k], now).tree, records[k].header, now)
  }

  /** The adder's own assertion, for one header and the tree that is about to store it. */
  ghost predicate Addable(rules: Rules, cap: nat, s: TS.State, header: Header, now: nat)
    requires TS.Shaped(s)
  {
    TS.StoredAs(TS.Judge(rules, s, header, now)).Some? && |s.nodes| < cap && Previous(header) in s.index ==>
      s.nodes[s.index[Previous(header)]].chainwork + rules.workOf(Bits(header)) < Pow256(32)
  }

  /** One record further: kept, or the end of what any longer file with this front is read to. */
  lemma ReplayNext(rules: Rules, cap: nat, records: seq<J.Record>, k: nat, now: nat, before: R.Replayed)
    requires k < |records| && before == R.Replay(rules, cap, records[..k], now) && !before.rejected
    requires |Rd.KeptIds(rules, cap, records[..k], now)| == k
    ensures var (t, outcome) := TS.Accept(rules, cap, before.tree, records[k].header, now);
            match R.KeptAt(outcome)
            case None =>
              && t == before.tree && R.Replay(rules, cap, records, now) == before.(rejected := true)
              && |Rd.KeptIds(rules, cap, records, now)| == k
            case Some(node) =>
              && R.Replay(rules, cap, records[..k + 1], now)
                 == R.Replayed(t, R.Noted(before.statuses, node, records[k].persisted), false)
              && |Rd.KeptIds(rules, cap, records[..k + 1], now)| == k + 1
  {
    hide TS.Sound, TS.Accept, R.Fresh, R.Noted;
    TS.SoundIsShaped(rules, before.tree);
    var front := records[..k + 1];
    assert front[..|front| - 1] == records[..k];
    RefusedIsUnchanged(rules, cap, before.tree, records[k].header, now);
    if R.Replay(rules, cap, front, now).rejected {
      Rd.NothingBehindIsRead(rules, cap, front, records[k + 1..], now);
      assert front + records[k + 1..] == records;
    }
  }

  /** One `accept`, and the position of the entry if its outcome is one that has any. */
  method Keep(tree: HeaderTree, header: Header, now: nat) returns (kept: Option<nat>)
    requires tree.Valid() && Addable(tree.rules, tree.cap, tree.View(), header, now)
    modifies tree
    ensures tree.Valid()
    ensures var (t, outcome) := TS.Accept(tree.rules, tree.cap, old(tree.View()), header, now);
            tree.View() == t && kept == R.KeptAt(outcome)
  {
    hide TS.Sound, TS.Accept;
    var outcome := tree.Accept(header, now);
    kept := R.KeptAt(outcome);
  }

  /** The replay loop over a mutable tree, equal to the fold over the records. */
  method Replay(tree: HeaderTree, records: seq<J.Record>, now: nat)
    returns (statuses: seq<Option<J.Persisted>>, read: nat, rejected: nat)
    requires tree.Valid() && tree.View() == TS.Start(tree.rules)
    requires WorkFits(tree.rules, tree.cap, records, now)
    modifies tree
    ensures tree.Valid() && rejected <= 1
    ensures R.Replayed(tree.View(), statuses, rejected > 0) == R.Replay(tree.rules, tree.cap, records, now)
    ensures read == |Rd.KeptIds(tree.rules, tree.cap, records, now)| + rejected
  {
    ReplaysNothing(tree.rules, tree.cap, records, now);
    hide TS.Sound, Built, TS.Accept, R.Fresh, R.Noted, R.Replay, Rd.KeptIds, WorkFits, Linked, Addable, R.KeptAt;
    statuses, read, rejected := [], 0, 0;
    while read < |records|
      invariant read <= |records| && tree.Valid() && rejected == 0
      invariant R.Replayed(tree.View(), statuses, false) == R.Replay(tree.rules, tree.cap, records[..read], now)
      invariant |Rd.KeptIds(tree.rules, tree.cap, records[..read], now)| == read
    {
      var record := records[read];
      NextFits(tree.rules, tree.cap, records, read, now);
      ReplayNext(tree.rules, tree.cap, records, read, now, R.Replayed(tree.View(), statuses, false));
      read := read + 1;
      var kept := Keep(tree, record.header, now);
      if kept.None? {
        rejected := 1;
        return;
      }
      statuses := R.Noted(statuses, kept.value, record.persisted);
    }
    assert records[..read] == records;
  }

  lemma NextFits(rules: Rules, cap: nat, records: seq<J.Record>, k: nat, now: nat)
    requires WorkFits(rules, cap, records, now) && k < |records| && !R.Replay(rules, cap, records[..k], now).rejected
    ensures TS.Shaped(R.Replay(rules, cap, records[..k], now).tree)
    ensures Addable(rules, cap, R.Replay(rules, cap, records[..k], now).tree, records[k].header, now)
  {
    hide Addable, R.Replay;
    assert records[k] == records[k];
  }

  lemma ReplaysNothing(rules: Rules, cap: nat, records: seq<J.Record>, now: nat)
    ensures R.Replay(rules, cap, records[..0], now) == R.Replayed(TS.Start(rules), [], false)
    ensures Rd.KeptIds(rules, cap, records[..0], now) == []
  {
  }

  lemma RefusedIsUnchanged(rules: Rules, cap: nat, s: TS.State, header: Header, now: nat)
    requires TS.Shaped(s)
    ensures var (t, outcome) := TS.Accept(rules, cap, s, header, now);
            R.KeptAt(outcome) == None ==> t == s
  {
    hide TS.Shaped, Path;
  }

  /** The apply loop over a mutable tree, equal to the fold over the arena. */
  method Apply(tree: HeaderTree, statuses: seq<Option<J.Persisted>>)
    requires tree.Valid() && R.Ready(tree.rules, tree.View(), statuses, 0)
    modifies tree
    ensures tree.Valid()
    ensures tree.View() == R.ApplyUpTo(old(tree.View()), statuses, old(|tree.nodes|))
  {
    hide TS.Sound, R.Ready, R.ApplyOne;
    ghost var before := tree.View();
    var n := |tree.nodes|;
    var i := 0;
    while i < n
      invariant i <= n && tree.Valid() && tree.nodes == before.nodes
      invariant R.Ready(tree.rules, tree.View(), statuses, i)
      invariant tree.View() == R.ApplyUpTo(before, statuses, i)
    {
      R.ApplyOneApplies(tree.rules, tree.View(), statuses, i);
      ApplyAt(tree, statuses, i);
      i := i + 1;
    }
  }

  /** One entry's turn: the call its record asks for, whose assertion holds. */
  method ApplyAt(tree: HeaderTree, statuses: seq<Option<J.Persisted>>, i: nat)
    requires tree.Valid() && R.Ready(tree.rules, tree.View(), statuses, i) && i < |tree.nodes|
    modifies tree
    ensures tree.Valid() && tree.View() == R.ApplyOne(old(tree.View()), statuses, i)
  {
    hide TS.Verdicts, TS.ActiveChain, TS.IsBest, TS.DirtyList, Built, Linked, R.Applied, TS.Invalidate;
    R.ApplyOneApplies(tree.rules, tree.View(), statuses, i);
    TS.GenesisOnly(tree.rules, tree.View());
    var p := R.StatusAt(statuses, i);
    if p.Some? && !tree.status[i].IsTerminal() && tree.status[i] != TS.Genesis {
      match p.value
      case Accepted =>
      case Checked(location) => tree.BlockChecked(i, location);
      case WasConnected(location, _) => tree.BlockChecked(i, location);
      case RefusedBy(stage) => tree.Invalidate(i, TS.Reloaded(stage));
    }
  }

  /** The entries from just above genesis up to `m`. */
  ghost function PathIds(nodes: seq<Node>, m: nat): seq<nat>
    requires Linked(nodes) && m < |nodes|
    decreases m
  {
    if m == 0 then [] else PathIds(nodes, Up(nodes, m)) + [m]
  }

  lemma {:induction false} PathShape(nodes: seq<Node>, m: nat)
    requires Linked(nodes) && m < |nodes|
    ensures var path := PathIds(nodes, m);
            && |path| == nodes[m].height
            && (m > 0 ==> |path| > 0 && path[|path| - 1] == m)
            && forall k {:trigger OnPathAt(nodes, path, m, k)} :: 0 <= k < |path| ==> OnPathAt(nodes, path, m, k)
    decreases m
  {
    if m > 0 {
      var p := Up(nodes, m);
      PathShape(nodes, p);
      var path := PathIds(nodes, m);
      forall k | 0 <= k < |path| ensures OnPathAt(nodes, path, m, k) {
        if k < |path| - 1 {
          assert OnPathAt(nodes, PathIds(nodes, p), p, k);
          OnPathUp(nodes, path[k], m);
        }
      }
    }
  }

  /** Each entry of the path is an ancestor of its end and hangs off the entry before it. */
  ghost predicate OnPathAt(nodes: seq<Node>, path: seq<nat>, m: nat, k: nat)
    requires Linked(nodes) && m < |nodes| && k < |path|
  {
    && 0 < path[k] < |nodes| && OnPath(nodes, path[k], m)
    && Up(nodes, path[k]) == if k == 0 then 0 else path[k - 1]
  }

  /** Once a step of the connect fails, every longer one fails the same way. */
  lemma {:induction false} FailureSticks(
    rules: Rules, s: TS.State, statuses: seq<Option<J.Persisted>>, a: nat, m: nat)
    requires TS.Sound(rules, s) && m < |s.nodes| && OnPath(s.nodes, a, m)
    requires !R.ConnectUpTo(rules, s, statuses, a).Loaded?
    ensures R.ConnectUpTo(rules, s, statuses, m) == R.ConnectUpTo(rules, s, statuses, a)
    decreases m
  {
    hide TS.Verdicts, TS.ActiveChain, TS.IsBest, TS.DirtyList, Built;
    if a != m {
      OnPathUp(s.nodes, a, m);
      FailureSticks(rules, s, statuses, a, Up(s.nodes, m));
    }
  }

  /** The walk from a node down to genesis, turned around. */
  method PathTo(tree: HeaderTree, target: nat) returns (path: seq<nat>)
    requires tree.Standing() && target < |tree.nodes|
    ensures path == PathIds(tree.nodes, target)
  {
    hide NodeBuilt, NodeLinked;
    path := [];
    var walk: nat := target;
    while walk != 0
      invariant walk < |tree.nodes|
      invariant PathIds(tree.nodes, target) == PathIds(tree.nodes, walk) + path
      decreases walk
    {
      assert PathIds(tree.nodes, walk) == PathIds(tree.nodes, Up(tree.nodes, walk)) + [walk];
      path := [walk] + path;
      walk := tree.nodes[walk].parent.value;
    }
  }

  lemma ConnectsNothing(rules: Rules, s: TS.State, statuses: seq<Option<J.Persisted>>)
    requires TS.Sound(rules, s)
    ensures R.ConnectUpTo(rules, s, statuses, 0) == R.Loaded(s)
  {
  }

  /** One step along the path: it connects, or the whole connect stops here. */
  lemma StepAlong(rules: Rules, s: TS.State, statuses: seq<Option<J.Persisted>>, target: nat, node: nat, t: TS.State)
    requires TS.Sound(rules, s) && target < |s.nodes| && 0 < node < |s.nodes| && OnPath(s.nodes, node, target)
    requires R.ConnectUpTo(rules, s, statuses, Up(s.nodes, node)) == R.Loaded(t)
    ensures var p := R.StatusAt(statuses, node);
            if p.None? || !p.value.WasConnected?
            then R.ConnectUpTo(rules, s, statuses, target) == R.NoUndoRecord(node)
            else if !TS.CanConnect(t, node)
            then R.ConnectUpTo(rules, s, statuses, target) == R.Panics(node)
            else R.ConnectUpTo(rules, s, statuses, node)
                 == R.Loaded(TS.ConnectBlock(t, node, p.value.undo))
  {
    hide TS.Verdicts, TS.ActiveChain, TS.IsBest, TS.DirtyList, Built, OnPath;
    if !R.ConnectUpTo(rules, s, statuses, node).Loaded? {
      FailureSticks(rules, s, statuses, node, target);
    }
  }

  /** What a load reports; `Panicked` where an assertion of the tree stops it. */
  datatype Report =
    | Loaded(records: nat, headers: nat, connected: nat, rejected: nat)
    | UnknownMarker
    | NoUndoRecord(node: nat)
    | Panicked(node: nat)

  /** The report stands for the way a connect stopped. */
  ghost predicate StoppedAs(report: Report, r: R.Loaded) {
    match report
    case NoUndoRecord(node) => r == R.NoUndoRecord(node)
    case Panicked(node) => r == R.Panics(node)
    case _ => false
  }

  /** One block of the marker's chain: connected with the undo record the journal kept, if any. */
  method ConnectNext(tree: HeaderTree, statuses: seq<Option<J.Persisted>>, node: nat,
                     ghost before: TS.State, ghost target: nat)
    returns (stopped: Option<Report>)
    requires tree.Valid() && tree.nodes == before.nodes && TS.Sound(tree.rules, before)
    requires target < |before.nodes| && 0 < node < |before.nodes| && OnPath(before.nodes, node, target)
    requires R.ConnectUpTo(tree.rules, before, statuses, Up(before.nodes, node)) == R.Loaded(tree.View())
    modifies tree
    ensures tree.Valid() && tree.nodes == before.nodes
    ensures stopped.None? ==> R.ConnectUpTo(tree.rules, before, statuses, node) == R.Loaded(tree.View())
    ensures stopped.Some? ==>
              StoppedAs(stopped.value, R.ConnectUpTo(tree.rules, before, statuses, target))
  {
    hide TS.Verdicts, TS.ActiveChain, TS.IsBest, TS.DirtyList, Built, OnPath, R.ConnectUpTo;
    StepAlong(tree.rules, before, statuses, target, node, tree.View());
    var p := R.StatusAt(statuses, node);
    if p.None? || !p.value.WasConnected? {
      return Some(NoUndoRecord(node));
    }
    if tree.nodes[node].parent != Some(tree.tip) || !tree.status[node].BlockChecked? {
      return Some(Panicked(node));
    }
    tree.Connected(node, p.value.undo);
    stopped := None;
  }

  /** Connect along the path to `target`, or say what stopped it. */
  method ConnectAlong(tree: HeaderTree, statuses: seq<Option<J.Persisted>>, target: nat)
    returns (stopped: Option<Report>)
    requires tree.Valid() && target < |tree.nodes|
    modifies tree
    ensures tree.Valid()
    ensures var r := R.ConnectUpTo(tree.rules, old(tree.View()), statuses, target);
            if stopped.Some? then StoppedAs(stopped.value, r) else r == R.Loaded(tree.View())
  {
    hide TS.Sound, OnPath, R.ConnectUpTo, PathIds;
    ghost var before := tree.View();
    ConnectsNothing(tree.rules, before, statuses);
    var path := PathTo(tree, target);
    PathShape(before.nodes, target);
    ghost var reached := 0;
    var k := 0;
    while k < |path|
      invariant k <= |path| && tree.Valid() && tree.nodes == before.nodes
      invariant reached == (if k == 0 then 0 else path[k - 1]) && reached < |before.nodes|
      invariant R.ConnectUpTo(tree.rules, before, statuses, reached) == R.Loaded(tree.View())
    {
      assert OnPathAt(before.nodes, path, target, k);
      stopped := ConnectNext(tree, statuses, path[k], before, target);
      if stopped.Some? {
        return;
      }
      reached := path[k];
      k := k + 1;
    }
    stopped := None;
  }

  /** Read the file into a new tree. The count starts over from the records read; the file is not touched. */
  method ReadFile(file: JournalFile, tree: HeaderTree, now: nat)
    returns (statuses: seq<Option<J.Persisted>>, rejected: nat)
    requires tree.Valid() && file.Valid() && tree.View() == TS.Start(tree.rules)
    requires WorkFits(tree.rules, tree.cap, file.content, now)
    modifies file, tree
    ensures tree.Valid() && file.Valid() && file.content == old(file.content) && rejected <= 1
    ensures R.Replayed(tree.View(), statuses, rejected > 0) == R.Replay(tree.rules, tree.cap, file.content, now)
    ensures var ids := Rd.KeptIds(tree.rules, tree.cap, file.content, now);
            && |ids| <= |file.content| && file.records == |ids| + rejected
            && file.ids == ids && file.at == |ids|
            && file.known == file.content[..|ids|] && file.gap == file.content[|ids|..]
  {
    hide TS.Sound, R.Replay, Rd.KeptIds;
    var read;
    statuses, read, rejected := Replay(tree, file.content, now);
    ghost var ids := Rd.KeptIds(tree.rules, tree.cap, file.content, now);
    Rd.KeptIsAFront(tree.rules, tree.cap, file.content, now);
    file.records := read;
    file.known, file.ids := file.content[..|ids|], ids;
    file.at, file.gap := |ids|, file.content[|ids|..];
    Whole(file.content, |ids|);
  }

  lemma Whole(content: seq<J.Record>, k: nat)
    requires k <= |content|
    ensures content == content[..k][..k] + content[k..] + content[..k][k..]
  {
  }

  /** Replay, apply, connect to the marker, and nothing left dirty: the functional load, for any file. */
  method Load(file: JournalFile, tree: HeaderTree, now: nat, marker: Hash) returns (report: Report)
    requires tree.Valid() && file.Valid() && tree.View() == TS.Start(tree.rules)
    requires WorkFits(tree.rules, tree.cap, file.content, now)
    modifies file, tree
    ensures tree.Valid() && file.Valid() && file.content == old(file.content)
    ensures match R.Load(tree.rules, tree.cap, file.content, now, marker)
            case Loaded(t) =>
              && tree.View() == t
              && report == Loaded(file.records, |tree.nodes|, tree.nodes[tree.tip].height,
                                  if R.Replay(tree.rules, tree.cap, file.content, now).rejected then 1 else 0)
              && file.View(t) == S.Resumed(tree.rules, tree.cap, old(file.View(tree.View())), now, marker)
            case UnknownMarker => report == UnknownMarker
            case NoUndoRecord(node) => report == NoUndoRecord(node)
            case Panics(node) => report == Panicked(node)
  {
    hide TS.Verdicts, TS.ActiveChain, TS.IsBest, TS.DirtyList, Built, R.Replay, R.ConnectUpTo, R.Fresh, R.ApplyUpTo,
      Rd.KeptIds, WorkFits, Linked, R.Applied, S.Resumed, S.File;
    ghost var before := file.View(tree.View());
    SameContent(before, file.content);
    var statuses, rejected := ReadFile(file, tree, now);
    R.FreshIsReady(tree.rules, tree.View(), statuses);
    R.ApplyUpToApplies(tree.rules, tree.View(), statuses, |tree.nodes|);
    Apply(tree, statuses);
    if marker !in tree.index {
      return UnknownMarker;
    }
    var target := tree.index[marker];
    var stopped := ConnectAlong(tree, statuses, target);
    if stopped.Some? {
      return stopped.value;
    }
    tree.ClearDirty();
    report := Loaded(file.records, |tree.nodes|, tree.nodes[tree.tip].height, rejected);
    IsResumed(tree.rules, tree.cap, before, now, marker, file.View(tree.View()));
  }

  lemma SameContent(d: S.Desk, content: seq<J.Record>)
    requires d.at <= |d.sys.journal| && content == d.sys.journal[..d.at] + d.gap + d.sys.journal[d.at..]
    ensures content == S.File(d)
  {
  }

  lemma IsResumed(rules: Rules, cap: nat, d: S.Desk, now: nat, marker: Hash, y: S.Desk)
    requires d.at <= |d.sys.journal| && R.Load(rules, cap, S.File(d), now, marker) == R.Loaded(y.sys.tree)
    requires var (file, ids) := (S.File(d), Rd.KeptIds(rules, cap, S.File(d), now));
             && |ids| <= |file| && y.sys.journal == file[..|ids|] && y.sys.ids == ids && y.at == |ids|
             && y.gap == file[|ids|..]
             && y.records == |ids| + if R.Replay(rules, cap, file, now).rejected then 1 else 0
    ensures y == S.Resumed(rules, cap, d, now, marker)
  {
    hide R.Load, R.Replay, Rd.KeptIds, S.File;
  }
}
