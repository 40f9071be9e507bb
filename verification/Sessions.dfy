/**
  One node over many sessions: tree calls, commits and rewrites as before, and at any moment a stop
  and a reload of the file as it stands, whatever was not committed dropped.

  A reload that turns a record away still starts, with the arena ahead of that record, and what its
  session commits is written behind it. So the file is not always the journal of the tree: a gap of
  records the tree was not told about may stand in its middle.
 */
module Sessions {
  import opened Bytes
  import opened Arena
  import opened TreeState
  import opened Journal
  import opened Recovery
  import opened Restart
  import opened Reading

  /**
    The tree with the journal it goes by; the records the last load did not get through, and where
    in the journal they stand; and the count of records the file is thought to hold.
   */
  datatype Desk = Desk(sys: Sys, at: nat, gap: seq<Record>, records: nat)

  /** The file: what the last load kept, what it did not get through, and what was written since. */
  ghost function File(d: Desk): seq<Record>
    requires d.at <= |d.sys.journal|
  {
    d.sys.journal[..d.at] + d.gap + d.sys.journal[d.at..]
  }

  datatype SessionOp = Working(op: SysOp) | Reload(now: nat, marker: Hash)

  ghost function Opened(rules: Rules): Desk {
    Desk(Sys(Start(rules), [], []), 0, [], 0)
  }

  // ----- the steps --------------------------------------------------------------------------------

  /** A snapshot in place of the file, gap and all. */
  ghost function Snapshot(x: Sys): Desk
    requires |x.tree.status| == |x.tree.nodes| > 0
  {
    Desk(Rewritten(x), 0, [], |Rewritten(x).journal|)
  }

  /** The dirty entries written at the end of the file, and a snapshot once the count is past twice the live entries. */
  ghost function Filed(d: Desk): Desk
    requires Shaped(d.sys.tree) && DirtyList(d.sys.tree.flagged, d.sys.tree.dirty)
  {
    var batch := RecordsOf(d.sys.tree, d.sys.tree.dirty);
    var live := if |d.sys.tree.nodes| > MIN_LIVE_RECORDS then |d.sys.tree.nodes| else MIN_LIVE_RECORDS;
    if d.sys.tree.dirty == [] then d
    else if batch == [] then d.(sys := d.sys.(tree := ClearDirty(d.sys.tree)))
    else if d.records + |batch| <= 2 * live then d.(sys := Appended(d.sys), records := d.records + |batch|)
    else Snapshot(Appended(d.sys))
  }

  ghost predicate SessionLegal(rules: Rules, cap: nat, d: Desk, op: SessionOp) {
    match op
    case Working(work) => SysLegal(rules, d.sys, work)
    case Reload(now, marker) => d.at <= |d.sys.journal| && Load(rules, cap, File(d), now, marker).Loaded?
  }

  /** The tree the load gives, the records it kept, and the rest as the gap; the count is of the records it read. */
  ghost function Resumed(rules: Rules, cap: nat, d: Desk, now: nat, marker: Hash): Desk
    requires d.at <= |d.sys.journal| && Load(rules, cap, File(d), now, marker).Loaded?
  {
    KeptIsAFront(rules, cap, File(d), now);
    var (file, ids) := (File(d), KeptIds(rules, cap, File(d), now));
    var rejected := Replay(rules, cap, file, now).rejected;
    Desk(Sys(Load(rules, cap, file, now, marker).tree, file[..|ids|], ids), |ids|, file[|ids|..],
         |ids| + if rejected then 1 else 0)
  }

  ghost function SessionStep(rules: Rules, cap: nat, d: Desk, op: SessionOp): Desk
    requires SessionLegal(rules, cap, d, op)
  {
    match op
    case Working(OnTree(t)) => d.(sys := SysStep(rules, cap, d.sys, OnTree(t)))
    case Working(Commit) => Filed(d)
    case Working(Rewrite) => Snapshot(d.sys)
    case Reload(now, marker) => Resumed(rules, cap, d, now, marker)
  }

  ghost function SessionRun(rules: Rules, cap: nat, ops: seq<SessionOp>): Option<Desk> {
    if |ops| == 0 then Some(Opened(rules))
    else
      match SessionRun(rules, cap, ops[..|ops| - 1])
      case None => None
      case Some(d) =>
        var op := ops[|ops| - 1];
        if SessionLegal(rules, cap, d, op) then Some(SessionStep(rules, cap, d, op)) else None
  }

  /** What every state of every run of sessions satisfies. */
  ghost predicate InStep(rules: Rules, cap: nat, d: Desk) {
    && Sound(rules, d.sys.tree) && JournalOk(d.sys) && |d.sys.tree.nodes| <= cap && |d.sys.journal| == |d.sys.ids|
    && d.at <= |d.sys.journal| && d.records == |d.sys.journal| + (if d.gap == [] then 0 else 1)
    && AboveRoot(rules, File(d)) && AllBacked(rules, File(d))
  }

  /**
    What a reload at this clock keeps has no two headers of one hash. It can only fail where the
    reload reads on past a record an earlier one stopped at.
   */
  ghost predicate Readable(rules: Rules, cap: nat, d: Desk, now: nat)
    requires d.at <= |d.sys.journal|
  {
    var k := |KeptIds(rules, cap, File(d), now)|;
    d.gap == [] || k <= d.at || (k <= |File(d)| && NoClash(rules, File(d)[..k]))
  }

  /** No reload of the run meets two headers of one hash. */
  ghost predicate AllReadable(rules: Rules, cap: nat, ops: seq<SessionOp>) {
    |ops| > 0 ==>
      && AllReadable(rules, cap, ops[..|ops| - 1])
      && var (before, op) := (SessionRun(rules, cap, ops[..|ops| - 1]), ops[|ops| - 1]);
         before.Some? && op.Reload? && before.value.at <= |before.value.sys.journal| ==>
           Readable(rules, cap, before.value, op.now)
  }

  // ----- what an ordered journal knows ------------------------------------------------------------

  lemma {:induction false} OrderedIsKnown(ids: seq<nat>, k: nat)
    requires Ordered(ids) && k < |ids|
    ensures 0 < ids[k] < Known(ids)
    decreases |ids|
  {
    var n := |ids| - 1;
    if k < n {
      OrderedIsKnown(ids[..n], k);
      assert ids[..n][k] == ids[k];
    }
  }

  /** Every entry an ordered journal introduced has a last word in it. */
  lemma {:induction false} KnownHasLast(journal: seq<Record>, ids: seq<nat>, i: nat)
    requires |journal| == |ids| && Ordered(ids) && 0 < i < Known(ids)
    ensures Last(journal, ids, i).Some?
    decreases |ids|
  {
    var n := |ids| - 1;
    if ids[n] != i {
      KnownHasLast(journal[..n], ids[..n], i);
    }
  }

  // ----- a reload ---------------------------------------------------------------------------------

  /** Every status agrees with the last word on its entry. */
  ghost predicate AllAgree(status: seq<Status>, statuses: seq<Option<Persisted>>) {
    forall i {:trigger status[i]} :: 0 < i < |status| && StatusAt(statuses, i).Some? ==>
      Agrees(StatusAt(statuses, i).value, status[i])
  }

  lemma AppliedAgrees(rules: Rules, s: State, statuses: seq<Option<Persisted>>)
    requires Sound(rules, s) && Applied(s, statuses, |s.nodes|)
    ensures AllAgree(s.status, statuses)
  {
    hide Verdicts, ActiveChain, IsBest, Built, DirtyList, Linked;
    forall i | 0 < i < |s.status| && StatusAt(statuses, i).Some?
      ensures Agrees(StatusAt(statuses, i).value, s.status[i])
    {
      assert AppliedAt(s.status[i], StatusAt(statuses, i), i, |s.nodes|);
    }
  }

  /** Connecting along the recorded path keeps them agreeing: the undo record is the one recorded. */
  lemma {:induction false} ConnectAgrees(rules: Rules, s: State, statuses: seq<Option<Persisted>>, m: nat)
    requires Sound(rules, s) && m < |s.nodes| && AllAgree(s.status, statuses)
    requires ConnectUpTo(rules, s, statuses, m).Loaded?
    ensures AllAgree(ConnectUpTo(rules, s, statuses, m).tree.status, statuses)
    decreases m
  {
    hide Verdicts, ActiveChain, IsBest, Built, DirtyList, AllAgree;
    if m > 0 {
      ConnectAgrees(rules, s, statuses, Up(s.nodes, m));
      var t := ConnectUpTo(rules, s, statuses, Up(s.nodes, m)).tree;
      OneConnectAgrees(t, statuses, m);
    }
  }

  lemma OneConnectAgrees(t: State, statuses: seq<Option<Persisted>>, m: nat)
    requires 0 < m && CanConnect(t, m) && AllAgree(t.status, statuses)
    requires StatusAt(statuses, m).Some? && StatusAt(statuses, m).value.WasConnected?
    ensures AllAgree(ConnectBlock(t, m, StatusAt(statuses, m).value.undo).status, statuses)
  {
    hide Linked;
    var u := ConnectBlock(t, m, StatusAt(statuses, m).value.undo);
    forall i | 0 < i < |u.status| && StatusAt(statuses, i).Some?
      ensures Agrees(StatusAt(statuses, i).value, u.status[i])
    {
      assert Agrees(StatusAt(statuses, i).value, t.status[i]);
    }
  }

  /** What a load makes of its records: the replayed arena, agreeing with them entry by entry. */
  lemma LoadAgrees(rules: Rules, cap: nat, journal: seq<Record>, now: nat, marker: Hash)
    requires Load(rules, cap, journal, now, marker).Loaded?
    ensures var (r, t) := (Replay(rules, cap, journal, now), Load(rules, cap, journal, now, marker).tree);
            t.nodes == r.tree.nodes && t.dirty == [] && |t.status| == |t.nodes| && AllAgree(t.status, r.statuses)
  {
    hide Verdicts, ActiveChain, IsBest, Built, DirtyList, Linked, ApplyUpTo, ConnectUpTo, Fresh, Replay, Applied,
      AllAgree;
    var replayed := Replay(rules, cap, journal, now);
    FreshIsReady(rules, replayed.tree, replayed.statuses);
    var n := |replayed.tree.nodes|;
    ApplyUpToApplies(rules, replayed.tree, replayed.statuses, n);
    var applied := ApplyUpTo(replayed.tree, replayed.statuses, n);
    AppliedAgrees(rules, applied, replayed.statuses);
    ConnectAgrees(rules, applied, replayed.statuses, applied.index[marker]);
  }

  /** The part of the file that is kept, as far as the hashes tell its headers apart. */
  lemma KeptIsRead(rules: Rules, cap: nat, d: Desk, now: nat)
    requires InStep(rules, cap, d) && Readable(rules, cap, d, now)
    ensures var (file, ids) := (File(d), KeptIds(rules, cap, File(d), now));
            && StopsAfter(rules, cap, file, now, |ids|)
            && NoClash(rules, file[..|ids|]) && AboveRoot(rules, file[..|ids|]) && AllBacked(rules, file[..|ids|])
            && Read(rules, cap, Replay(rules, cap, file[..|ids|], now), file[..|ids|], ids)
  {
    hide Sound, Replay, KeptIds, Read, Ordered, Known, Clean, NewInOrder, Backed, Headed;
    var (file, k) := (File(d), |KeptIds(rules, cap, File(d), now)|);
    KeptIsAFront(rules, cap, file, now);
    HeadedHasNoClash(rules, d.sys.tree, d.sys.journal, d.sys.ids);
    FrontIsBacked(rules, file, k);
    WholeIsRead(rules, cap, file[..k], now);
    FrontOfFile(d, k);
  }

  lemma FrontOfFile(d: Desk, k: nat)
    requires d.at <= |d.sys.journal| && k <= |File(d)|
    ensures d.gap == [] ==> File(d) == d.sys.journal
    ensures k <= d.at ==> File(d)[..k] == d.sys.journal[..k]
  {
  }

  /** Tree and kept records are in step, whatever the file was. */
  lemma ReadIsInStep(rules: Rules, cap: nat, t: State, r: Replayed, kept: seq<Record>, ids: seq<nat>)
    requires Sound(rules, t) && t.nodes == r.tree.nodes && t.dirty == [] && AllAgree(t.status, r.statuses)
    requires Read(rules, cap, r, kept, ids) && Headed(t.nodes, kept, ids)
    ensures Shaped(t) && JournalOk(Sys(t, kept, ids))
  {
    hide Verdicts, ActiveChain, IsBest, Built, Linked, Known, Ordered, Last, Headed, Carries, AllIntroduced, DirtyList;
    var y := Sys(t, kept, ids);
    CountNewNone([], Known(ids));
    forall i | 0 < i < |t.nodes| ensures Clean(y, i) {
      KnownHasLast(kept, ids, i);
      assert StatusAt(r.statuses, i) == Last(kept, ids, i);
      assert t.status[i] == t.status[i];
    }
  }

  /**
    A reload of the file as it stands, at any clock: tree and kept records are in step again, the
    file is as it was, and there is a gap exactly if a record was turned away.
   */
  lemma ReloadKeeps(rules: Rules, cap: nat, d: Desk, now: nat, marker: Hash)
    requires cap > 0 && InStep(rules, cap, d) && Readable(rules, cap, d, now)
    requires Load(rules, cap, File(d), now, marker).Loaded?
    ensures var y := Resumed(rules, cap, d, now, marker);
            && InStep(rules, cap, y) && y.sys.tree.dirty == [] && File(y) == File(d)
            && (y.gap != [] <==> Replay(rules, cap, File(d), now).rejected)
            && (y.gap != [] ==> Stuck(rules, cap, y, now)) && Base(y) == |y.sys.tree.nodes|
  {
    hide Sound, Load, Replay, KeptIds, Ordered, Known, Last, JournalOk, AllAgree, Headed, AboveRoot, AllBacked, NoClash,
      Remembers, Carries, AllIntroduced;
    var y := Resumed(rules, cap, d, now, marker);
    var (file, ids) := (File(d), KeptIds(rules, cap, File(d), now));
    KeptIsRead(rules, cap, d, now);
    var r := Replay(rules, cap, file[..|ids|], now);
    LoadAgrees(rules, cap, file, now, marker);
    ReadIsHeaded(rules, cap, r, file[..|ids|], ids);
    ReadIsInStep(rules, cap, y.sys.tree, r, file[..|ids|], ids);
    assert File(y) == file;
    assert y.gap != [] ==> y.sys.journal[..y.at] + y.gap[..1] == file[..|ids| + 1];
    assert ids[..|ids|] == ids;
  }

  /** The record the last load turned away, or one before it, is turned away at this clock. */
  ghost predicate Stuck(rules: Rules, cap: nat, d: Desk, now: nat)
    requires d.at <= |d.sys.journal| && d.gap != []
  {
    Replay(rules, cap, d.sys.journal[..d.at] + d.gap[..1], now).rejected
  }

  /** The size of the arena the last load gave. */
  ghost function Base(d: Desk): nat
    requires d.at <= |d.sys.ids|
  {
    Known(d.sys.ids[..d.at])
  }

  // ----- working between reloads ------------------------------------------------------------------

  /** The file has every record of the journal. */
  ghost predicate Contains(file: seq<Record>, journal: seq<Record>) {
    forall k {:trigger journal[k]} :: 0 <= k < |journal| ==> Mentioned(file, |file|, journal[k].header)
  }

  /** A batch of entries written as records. */
  ghost predicate WrittenAs(s: State, batch: seq<nat>, records: seq<Record>) {
    && |records| == |batch| && |s.status| == |s.nodes|
    && forall k :: 0 <= k < |batch| ==>
         && 0 < batch[k] < |s.nodes| && records[k].header == s.nodes[batch[k]].header
         && PersistedOf(s.status[batch[k]]) == Some(records[k].persisted)
  }

  /** By the time an entry is written, so is every entry that came before it in the arena. */
  lemma EarlierIsMentioned(
    s: State, journal: seq<Record>, ids: seq<nat>, file: seq<Record>, batch: seq<nat>, records: seq<Record>, q: nat, a: nat)
    requires Headed(s.nodes, journal, ids) && Contains(file, journal) && WrittenAs(s, batch, records)
    requires q < |batch| && Ordered(ids + batch[..q + 1]) && 0 < a <= batch[q]
    ensures a < |s.nodes| && Mentioned(file + records, |file| + q, s.nodes[a].header)
  {
    hide Ordered, Known, Last, PersistedOf;
    var (more, all) := (ids + batch[..q + 1], journal + records[..q + 1]);
    OrderedIsKnown(more, |ids| + q);
    KnownHasLast(all, more, a);
    var k := LastIsARecord(all, more, a);
    if k < |ids| {
      assert Mentioned(file, |file|, journal[k].header);
      var j :| 0 <= j < |file| && file[j].header == journal[k].header;
      assert (file + records)[j].header == s.nodes[a].header;
    } else {
      assert (file + records)[|file| + k - |ids|].header == s.nodes[a].header;
    }
  }

  /** A record made of a connected entry of a sound tree is backed. */
  lemma BatchIsBacked(
    rules: Rules, s: State, journal: seq<Record>, ids: seq<nat>, file: seq<Record>, batch: seq<nat>,
    records: seq<Record>, q: nat)
    requires Sound(rules, s) && Headed(s.nodes, journal, ids) && Contains(file, journal) && WrittenAs(s, batch, records)
    requires q < |batch| && Ordered(ids + batch[..q + 1]) && records[q].persisted.WasConnected?
    ensures Backed(rules, file + records, |file| + q)
  {
    hide ActiveChain, IsBest, DirtyList, Built, Linked, AncestorAt, Ordered, Chain, Headed, Contains, Mentioned;
    var i := batch[q];
    var path := Path(s.nodes, i);
    PathIsChain(rules, s, i);
    assert VerdictOk(rules, s.nodes, s.status, i);
    assert path[..|path| - 1] == Path(s.nodes, Up(s.nodes, i));
    forall j | 0 < j < |path| ensures Mentioned(file + records, |file| + q, path[j]) {
      var a :| 0 < a <= i && s.nodes[a].header == path[j];
      EarlierIsMentioned(s, journal, ids, file, batch, records, q, a);
    }
    assert Backing(rules, file + records, |file| + q, path);
  }

  /** Such a batch may be written behind any file that has the journal's records. */
  lemma BatchKeepsFile(
    rules: Rules, s: State, journal: seq<Record>, ids: seq<nat>, file: seq<Record>, batch: seq<nat>, records: seq<Record>)
    requires Sound(rules, s) && Headed(s.nodes, journal, ids) && Contains(file, journal) && WrittenAs(s, batch, records)
    requires Ordered(ids + batch) && AboveRoot(rules, file) && AllBacked(rules, file)
    ensures AboveRoot(rules, file + records) && AllBacked(rules, file + records)
  {
    hide Sound, Headed, Contains, Backed, Ordered, PersistedOf;
    forall q | 0 <= q < |records| && records[q].persisted.WasConnected? ensures Backed(rules, file + records, |file| + q) {
      OrderedPrefix(ids + batch, |ids| + q + 1);
      assert (ids + batch)[..|ids| + q + 1] == ids + batch[..q + 1];
      BatchIsBacked(rules, s, journal, ids, file, batch, records, q);
    }
    AllBackedTogether(rules, file, records);
    WrittenIsHeaded(s, batch, records);
    HeadedHasNoClash(rules, s, records, batch);
  }

  lemma WrittenIsHeaded(s: State, batch: seq<nat>, records: seq<Record>)
    requires WrittenAs(s, batch, records)
    ensures Headed(s.nodes, records, batch)
  {
  }

  lemma FileHolds(d: Desk)
    requires d.at <= |d.sys.journal|
    ensures Contains(File(d), d.sys.journal)
  {
    forall k | 0 <= k < |d.sys.journal| ensures Mentioned(File(d), |File(d)|, d.sys.journal[k].header) {
      assert File(d)[if k < d.at then k else k + |d.gap|] == d.sys.journal[k];
    }
  }

  /** A batch at the end of the file is a batch at the end of the journal, gap or no gap. */
  lemma AppendKeeps(rules: Rules, cap: nat, d: Desk)
    requires InStep(rules, cap, d)
    ensures var (batch, x) := (RecordsOf(d.sys.tree, d.sys.tree.dirty), Appended(d.sys));
            var y := d.(sys := x, records := d.records + |batch|);
            && InStep(rules, cap, y) && File(y) == File(d) + batch && y.sys.tree.nodes == d.sys.tree.nodes
            && y.sys.tree.dirty == [] && Base(y) == Base(d) && y.sys.journal[..y.at] == d.sys.journal[..d.at]
  {
    hide Verdicts, ActiveChain, IsBest, Built, Linked, RecordsOf, Known, Ordered, Clean, NewInOrder, Headed,
      AboveRoot, AllBacked;
    var (s, file) := (d.sys.tree, File(d));
    var batch := RecordsOf(s, s.dirty);
    var y := d.(sys := Appended(d.sys), records := d.records + |batch|);
    ClearDirtyIsSound(rules, s);
    AppendSpeaksForAll(rules, d.sys);
    AppendIsOrdered(d.sys);
    DirtyIsWritten(rules, s);
    FileHolds(d);
    DirtyIsFiled(s, batch);
    BatchKeepsFile(rules, s, d.sys.journal, d.sys.ids, file, s.dirty, batch);
    AppendedFile(d, batch, s.dirty);
  }

  lemma DirtyIsFiled(s: State, batch: seq<Record>)
    requires Shaped(s) && DirtyList(s.flagged, s.dirty) && |batch| == |s.dirty|
    requires forall k :: 0 <= k < |s.dirty| ==>
               && PersistedOf(s.status[s.dirty[k]]) == Some(batch[k].persisted)
               && batch[k].header == s.nodes[s.dirty[k]].header
    ensures WrittenAs(s, s.dirty, batch)
  {
    hide Linked, PersistedOf;
  }

  lemma AppendedFile(d: Desk, batch: seq<Record>, dirty: seq<nat>)
    requires d.at <= |d.sys.journal| == |d.sys.ids|
    ensures var journal := d.sys.journal + batch;
            journal[..d.at] + d.gap + journal[d.at..] == File(d) + batch
    ensures (d.sys.ids + dirty)[..d.at] == d.sys.ids[..d.at]
    ensures (d.sys.journal + batch)[..d.at] == d.sys.journal[..d.at]
  {
    assert (d.sys.journal + batch)[..d.at] == d.sys.journal[..d.at];
    assert (d.sys.journal + batch)[d.at..] == d.sys.journal[d.at..] + batch;
  }

  /** A snapshot closes the gap, whatever the file was. */
  lemma SnapshotKeeps(rules: Rules, cap: nat, x: Sys)
    requires Sound(rules, x.tree) && |x.tree.nodes| <= cap
    ensures var y := Snapshot(x);
            InStep(rules, cap, y) && y.gap == [] && File(y) == y.sys.journal && y.sys.tree == x.tree
  {
    hide Verdicts, ActiveChain, IsBest, Built, Linked, RecordsOf, Known, Ordered, Clean, NewInOrder, DirtyList, PersistedOf;
    var (s, y) := (x.tree, Snapshot(x));
    var ids := Everything(|s.nodes|)[1..];
    RewriteSpeaksForAll(rules, x);
    GenesisOnly(rules, s);
    EntriesHavePersisted(s);
    RecordsOfEverything(s, |s.nodes|);
    RecordsOfEntries(s, ids);
    KnownEverything(|s.nodes|);
    assert [] + ids == ids && [] + y.sys.journal == y.sys.journal;
    BatchKeepsFile(rules, s, [], [], [], ids, y.sys.journal);
    assert File(y) == y.sys.journal;
  }

  /** A commit leaves nothing dirty, and a file of bounded length but for what the last load did not get through. */
  lemma FiledKeeps(rules: Rules, cap: nat, d: Desk)
    requires InStep(rules, cap, d)
    ensures Shaped(d.sys.tree) && DirtyList(d.sys.tree.flagged, d.sys.tree.dirty)
    ensures var y := Filed(d);
            && InStep(rules, cap, y) && y.sys.tree.dirty == [] && y.sys.tree.nodes == d.sys.tree.nodes
            && (y.gap == [] || (y.gap == d.gap && y.at == d.at && y.sys.journal[..y.at] == d.sys.journal[..d.at]
                                && Base(y) == Base(d)))
            && var live := if |y.sys.tree.nodes| > MIN_LIVE_RECORDS then |y.sys.tree.nodes| else MIN_LIVE_RECORDS;
               d.sys.tree.dirty != [] ==> |File(y)| <= 2 * live + (if y.gap == [] then 0 else |y.gap| - 1)
    ensures var (n, count) := (|d.sys.tree.nodes|, d.records + |d.sys.tree.dirty|);
            d.sys.tree.dirty != [] ==>
              Filed(d).records == if count <= 2 * n || count <= 2048 then count else n - 1
  {
    hide Verdicts, ActiveChain, IsBest, Built, Linked, RecordsOf, Appended, Rewritten, JournalOk, AboveRoot, AllBacked;
    AppendKeeps(rules, cap, d);
    DirtyIsWritten(rules, d.sys.tree);
    SnapshotKeeps(rules, cap, Appended(d.sys));
    SnapshotIsShort(rules, cap, Appended(d.sys));
  }

  lemma SnapshotIsShort(rules: Rules, cap: nat, x: Sys)
    requires Sound(rules, x.tree) && InStep(rules, cap, Snapshot(x))
    ensures |Snapshot(x).sys.journal| == |x.tree.nodes| - 1
  {
    hide Verdicts, ActiveChain, IsBest, Built, DirtyList, Linked, JournalOk, AboveRoot, AllBacked, RecordsOf;
  }

  /** Without a gap a commit is the one the journal of a single session makes. */
  lemma FiledIsCommitted(rules: Rules, cap: nat, d: Desk)
    requires InStep(rules, cap, d) && d.gap == []
    ensures Shaped(d.sys.tree) && DirtyList(d.sys.tree.flagged, d.sys.tree.dirty)
    ensures Filed(d).sys == Committed(d.sys) && Filed(d).gap == []
  {
    hide Verdicts, ActiveChain, IsBest, Built, Linked, RecordsOf, JournalOk, AboveRoot, AllBacked, ClearDirty;
    DirtyIsWritten(rules, d.sys.tree);
  }

  /**
    Work keeps tree and file in step. It makes no gap and does not touch the one there is, nor what
    the last load kept ahead of it, until a snapshot closes it.
   */
  lemma WorkKeeps(rules: Rules, cap: nat, d: Desk, op: SysOp)
    requires cap > 0 && InStep(rules, cap, d) && SysLegal(rules, d.sys, op)
    ensures var y := SessionStep(rules, cap, d, Working(op));
            && InStep(rules, cap, y)
            && (y.gap == [] || (y.gap == d.gap && y.at == d.at && y.sys.journal[..y.at] == d.sys.journal[..d.at]
                                && Base(y) == Base(d)))
            && (op == Rewrite ==> y.gap == [])
  {
    hide Sound, JournalOk, Filed, Step, AboveRoot, AllBacked, File;
    match op
    case OnTree(t) =>
      SysStepKeepsJournal(rules, cap, d.sys, op);
      StepKeepsCap(rules, cap, d.sys, op);
      SameFile(d, SysStep(rules, cap, d.sys, op));
    case Commit => FiledKeeps(rules, cap, d);
    case Rewrite => SnapshotKeeps(rules, cap, d.sys);
  }

  lemma SameFile(d: Desk, x: Sys)
    requires d.at <= |d.sys.journal| && x.journal == d.sys.journal
    ensures File(d.(sys := x)) == File(d)
  {
  }

  // ----- every run of sessions --------------------------------------------------------------------

  /** Every state any run of sessions reaches is in step with its file. */
  lemma {:induction false} SessionsKeep(rules: Rules, cap: nat, ops: seq<SessionOp>)
    requires cap > 0 && AllReadable(rules, cap, ops)
    ensures var r := SessionRun(rules, cap, ops); r.Some? ==> InStep(rules, cap, r.value)
    decreases |ops|
  {
    hide InStep, SessionStep, SessionLegal, Readable;
    if |ops| == 0 {
      StartInStep(rules, cap);
    } else {
      SessionsKeep(rules, cap, ops[..|ops| - 1]);
      var before := SessionRun(rules, cap, ops[..|ops| - 1]);
      if before.Some? && SessionLegal(rules, cap, before.value, ops[|ops| - 1]) {
        InStepFits(rules, cap, before.value);
        SessionStepKeeps(rules, cap, before.value, ops[|ops| - 1]);
      }
    }
  }

  lemma StartInStep(rules: Rules, cap: nat)
    requires cap > 0
    ensures InStep(rules, cap, Opened(rules))
  {
    EmptyJournalOk(rules);
  }

  lemma InStepFits(rules: Rules, cap: nat, d: Desk)
    requires InStep(rules, cap, d)
    ensures d.at <= |d.sys.journal| == |d.sys.ids|
  {
    hide Sound, JournalOk, AboveRoot, AllBacked;
  }

  lemma SessionStepKeeps(rules: Rules, cap: nat, d: Desk, op: SessionOp)
    requires cap > 0 && InStep(rules, cap, d) && SessionLegal(rules, cap, d, op)
    requires op.Reload? && d.at <= |d.sys.journal| ==> Readable(rules, cap, d, op.now)
    ensures InStep(rules, cap, SessionStep(rules, cap, d, op))
  {
    hide InStep, SysStep, SysLegal, Resumed, Load, Readable;
    match op
    case Working(work) => WorkKeeps(rules, cap, d, work);
    case Reload(now, marker) => ReloadKeeps(rules, cap, d, now, marker);
  }

  // ----- what the next load brings back -----------------------------------------------------------

  /** Without a gap: the whole tree, connected to the marker, if and only if no entry is late. */
  lemma WholeRestoresIff(rules: Rules, cap: nat, d: Desk, now: nat, m: nat)
    requires InStep(rules, cap, d) && d.gap == [] && d.sys.tree.dirty == []
    requires m < |d.sys.tree.nodes| && d.sys.tree.status[m].IsConnected()
    ensures var s := d.sys.tree;
            var r := Load(rules, cap, File(d), now, s.nodes[m].hash);
            && (r.Loaded? && r.tree.nodes == s.nodes <==> Admits(rules, s.nodes, |s.nodes|, now))
            && (Admits(rules, s.nodes, |s.nodes|, now) ==>
                  && r.tree.index == s.index && r.tree.best == s.best
                  && r.tree.tip == m && r.tree.dirty == [] && Restores(s, r.tree, m))
  {
    hide Sound, JournalOk, AboveRoot, AllBacked, Load, Restores, Admits;
    FrontOfFile(d, 0);
    SoundIsShaped(rules, d.sys.tree);
    LoadRestoresIff(rules, cap, d.sys, now, m);
    if Admits(rules, d.sys.tree.nodes, |d.sys.tree.nodes|, now) {
      LoadRestores(rules, cap, d.sys, now, m);
    }
  }

  /**
    While the record behind which the session wrote is turned away, a load sees nothing the session
    wrote: it is the load of what the last one kept. So it gives the tree's arena back if and only if
    that load had all of it already, and no entry of it is late.
   */
  lemma StuckRestoresIff(rules: Rules, cap: nat, d: Desk, now: nat, marker: Hash)
    requires InStep(rules, cap, d) && d.gap != [] && Stuck(rules, cap, d, now)
    ensures Load(rules, cap, File(d), now, marker) == Load(rules, cap, d.sys.journal[..d.at], now, marker)
    ensures Replay(rules, cap, File(d), now).rejected
    ensures var (s, r) := (d.sys.tree, Load(rules, cap, File(d), now, rules.hashOf(rules.genesis)));
            && r.Loaded? && r.tree.nodes <= s.nodes
            && (r.tree.nodes == s.nodes <==> Base(d) == |s.nodes| && Admits(rules, s.nodes, |s.nodes|, now))
            && (Admits(rules, s.nodes, |s.nodes|, now) ==> |r.tree.nodes| == Base(d))
  {
    hide Sound, JournalOk, AboveRoot, AllBacked, Load, Admits, Replay, Known;
    var (kept, first) := (d.sys.journal[..d.at], d.gap[..1]);
    var rest := d.gap[1..] + d.sys.journal[d.at..];
    assert File(d) == kept + first + rest;
    NothingBehindIsRead(rules, cap, kept + first, rest, now);
    assert (kept + first)[..|kept + first| - 1] == kept;
    ReplayMayStop(rules, cap, kept + first, now);
    LoadSeesKept(rules, cap, File(d), kept, now, marker);
    GenesisLoads(rules, cap, File(d), now);
    FrontRebuilds(rules, cap, d.sys, now, d.at);
  }

  /** The arena the first `k` records of a journal in step give. */
  lemma FrontRebuilds(rules: Rules, cap: nat, x: Sys, now: nat, k: nat)
    requires Sound(rules, x.tree) && JournalOk(x) && |x.tree.nodes| <= cap && k <= |x.ids| == |x.journal|
    ensures var (nodes, all) := (Replay(rules, cap, x.journal[..k], now).tree.nodes, x.tree.nodes);
            && nodes <= all && Known(x.ids[..k]) <= |all|
            && (nodes == all <==> Known(x.ids[..k]) == |all| && Admits(rules, all, |all|, now))
            && (Admits(rules, all, |all|, now) ==> |nodes| == Known(x.ids[..k]))
  {
    hide Sound, Clean, NewInOrder, Replay, Ordered, Known, Late, Remembers, Headed;
    var all := x.tree.nodes;
    SoundLinks(rules, x.tree);
    OrderedPrefix(x.ids, k);
    if Admits(rules, all, Known(x.ids[..k]), now) {
      ReplayRebuilds(rules, cap, x, now, k);
      assert all[..|all|] == all;
    } else {
      var i := LateHasFirst(rules, all, now, Known(x.ids[..k]));
      ReplayStopsAtLate(rules, cap, x, now, k, i);
    }
  }

  /**
    Once nothing in the file is turned away, every header of the tree comes back, with those of the
    gap beside them: exactly the tree's headers if and only if it has learnt those of the gap again.
   */
  lemma ClearedRestoresIff(rules: Rules, cap: nat, d: Desk, now: nat, marker: Hash)
    requires InStep(rules, cap, d) && d.sys.tree.dirty == [] && !Replay(rules, cap, File(d), now).rejected
    requires Load(rules, cap, File(d), now, marker).Loaded?
    ensures var (s, t) := (d.sys.tree, Load(rules, cap, File(d), now, marker).tree);
            && s.index.Keys <= t.index.Keys
            && (t.index.Keys == s.index.Keys <==>
                forall k :: 0 <= k < |d.gap| ==> rules.hashOf(d.gap[k].header) in s.index)
  {
    hide Sound, JournalOk, AllBacked, Load, Replay, KeptIds, File, Read;
    var (s, t, file) := (d.sys.tree, Load(rules, cap, File(d), now, marker).tree, File(d));
    WholeIsRead(rules, cap, file, now);
    LoadAgrees(rules, cap, file, now, marker);
    var (r, ids) := (Replay(rules, cap, file, now), KeptIds(rules, cap, file, now));
    forall h ensures h in t.index <==> h == rules.hashOf(rules.genesis) || Carried(rules, file, h) {
      IndexIsCarried(rules, cap, t, r, file, ids, h);
    }
    forall h ensures h in s.index <==> h == rules.hashOf(rules.genesis) || Carried(rules, d.sys.journal, h) {
      CommittedIsCarried(rules, d.sys, h);
    }
    forall h ensures Carried(rules, file, h) <==> Carried(rules, d.sys.journal, h) || Carried(rules, d.gap, h) {
      FileCarries(rules, d, h);
    }
    forall k | 0 <= k < |d.gap| ensures Carried(rules, d.gap, rules.hashOf(d.gap[k].header)) {
    }
  }

  /** Some record's header has this hash. */
  ghost predicate Carried(rules: Rules, file: seq<Record>, hash: Hash) {
    exists k :: 0 <= k < |file| && rules.hashOf(file[k].header) == hash
  }

  lemma IndexIsCarried(
    rules: Rules, cap: nat, t: State, r: Replayed, file: seq<Record>, ids: seq<nat>, hash: Hash)
    requires Sound(rules, t) && t.nodes == r.tree.nodes && Read(rules, cap, r, file, ids)
    ensures hash in t.index <==> hash == rules.hashOf(rules.genesis) || Carried(rules, file, hash)
  {
    hide Verdicts, ActiveChain, IsBest, DirtyList, Known, Ordered, Remembers;
    HashIsOfHeader(rules, t.nodes, 0);
    IndexNames(rules, t, hash);
    if i :| 0 < i < |t.nodes| && t.nodes[i].hash == hash {
      assert Introduced(r.tree.nodes, file, ids, i);
      HashIsOfHeader(rules, t.nodes, i);
    }
    if k :| 0 <= k < |file| && rules.hashOf(file[k].header) == hash {
      assert t.nodes[ids[k]].hash == hash;
    }
  }

  lemma CommittedIsCarried(rules: Rules, x: Sys, hash: Hash)
    requires Sound(rules, x.tree) && JournalOk(x) && x.tree.dirty == []
    ensures hash in x.tree.index <==> hash == rules.hashOf(rules.genesis) || Carried(rules, x.journal, hash)
  {
    hide Verdicts, ActiveChain, IsBest, DirtyList, Known, Ordered, Last, Clean, NewInOrder;
    HashIsOfHeader(rules, x.tree.nodes, 0);
    IndexNames(rules, x.tree, hash);
    CommittedIsKnown(rules, x);
    if i :| 0 < i < |x.tree.nodes| && x.tree.nodes[i].hash == hash {
      KnownHasLast(x.journal, x.ids, i);
      var k := LastIsARecord(x.journal, x.ids, i);
      HashIsOfHeader(rules, x.tree.nodes, i);
      assert rules.hashOf(x.journal[k].header) == hash;
    }
    if k :| 0 <= k < |x.journal| && rules.hashOf(x.journal[k].header) == hash {
      HashIsOfHeader(rules, x.tree.nodes, x.ids[k]);
    }
  }

  lemma FileCarries(rules: Rules, d: Desk, hash: Hash)
    requires d.at <= |d.sys.journal|
    ensures Carried(rules, File(d), hash) <==> Carried(rules, d.sys.journal, hash) || Carried(rules, d.gap, hash)
  {
    var (file, n) := (File(d), |d.gap|);
    if k :| 0 <= k < |file| && rules.hashOf(file[k].header) == hash {
      if k < d.at {
        assert d.sys.journal[k] == file[k];
      } else if k < d.at + n {
        assert d.gap[k - d.at] == file[k];
      } else {
        assert d.sys.journal[k - n] == file[k];
      }
    }
    if k :| 0 <= k < |d.sys.journal| && rules.hashOf(d.sys.journal[k].header) == hash {
      assert file[if k < d.at then k else k + n] == d.sys.journal[k];
    }
    if k :| 0 <= k < n && rules.hashOf(d.gap[k].header) == hash {
      assert file[d.at + k] == d.gap[k];
    }
  }

  /**
    Restoration for every run of sessions, wherever nothing is left to write. If the last load turned
    no record away, or a snapshot was taken since, the next brings the whole tree back, connected
    exactly to its marker, if and only if no entry is late at its clock. Otherwise, while the record
    is still turned away, it brings back what the last load did; and once nothing is, every header.
   */
  lemma EverySessionRestores(rules: Rules, cap: nat, ops: seq<SessionOp>, now: nat, m: nat)
    requires cap > 0 && AllReadable(rules, cap, ops) && SessionRun(rules, cap, ops).Some?
    requires var s := SessionRun(rules, cap, ops).value.sys.tree;
             s.dirty == [] && m < |s.nodes| == |s.status| && s.status[m].IsConnected()
    ensures var d := SessionRun(rules, cap, ops).value;
            && InStep(rules, cap, d)
            && var (s, file) := (d.sys.tree, File(d));
               var (r, g) := (Load(rules, cap, file, now, s.nodes[m].hash), Load(rules, cap, file, now, s.nodes[0].hash));
               && (d.gap == [] ==>
                     && (r.Loaded? && r.tree.nodes == s.nodes <==> Admits(rules, s.nodes, |s.nodes|, now))
                     && (Admits(rules, s.nodes, |s.nodes|, now) ==>
                           && r.tree.index == s.index && r.tree.best == s.best
                           && r.tree.tip == m && r.tree.dirty == [] && Restores(s, r.tree, m)))
               && g.Loaded?
               && (d.gap != [] && Stuck(rules, cap, d, now) ==>
                     && r == Load(rules, cap, d.sys.journal[..d.at], now, s.nodes[m].hash)
                     && (g.tree.nodes == s.nodes <==> Base(d) == |s.nodes| && Admits(rules, s.nodes, |s.nodes|, now)))
               && (!Replay(rules, cap, file, now).rejected ==>
                     && s.index.Keys <= g.tree.index.Keys
                     && (g.tree.index.Keys == s.index.Keys <==>
                         forall k :: 0 <= k < |d.gap| ==> rules.hashOf(d.gap[k].header) in s.index))
  {
    hide Sound, JournalOk, AboveRoot, AllBacked, Load, Restores, Admits, Replay, AllReadable, Stuck, File;
    SessionsKeep(rules, cap, ops);
    var d := SessionRun(rules, cap, ops).value;
    RootOfTree(rules, d.sys.tree);
    GenesisLoads(rules, cap, File(d), now);
    if d.gap == [] {
      WholeRestoresIff(rules, cap, d, now, m);
    } else if Stuck(rules, cap, d, now) {
      StuckRestoresIff(rules, cap, d, now, d.sys.tree.nodes[m].hash);
    }
    if !Replay(rules, cap, File(d), now).rejected {
      ClearedRestoresIff(rules, cap, d, now, d.sys.tree.nodes[0].hash);
    }
  }

  lemma RootOfTree(rules: Rules, s: State)
    requires Sound(rules, s)
    ensures Shaped(s) && s.nodes[0].hash == rules.hashOf(rules.genesis)
  {
    HashIsOfHeader(rules, s.nodes, 0);
  }

  /** A record turned away at one clock is turned away at every earlier one. */
  lemma StuckBefore(rules: Rules, cap: nat, d: Desk, now: nat, later: nat)
    requires d.at <= |d.sys.journal| && d.gap != [] && now <= later && Stuck(rules, cap, d, later)
    ensures Stuck(rules, cap, d, now)
  {
    hide Replay;
    var file := d.sys.journal[..d.at] + d.gap[..1];
    if !Replay(rules, cap, file, now).rejected {
      LaterReadsTheSame(rules, cap, file, now, later);
    }
  }

  /** In every state of every run of sessions, at every clock and for every marker, a load fails no assertion. */
  lemma EverySessionLoads(rules: Rules, cap: nat, ops: seq<SessionOp>, now: nat, marker: Hash)
    requires cap > 0 && AllReadable(rules, cap, ops + [Reload(now, marker)]) && SessionRun(rules, cap, ops).Some?
    ensures var d := SessionRun(rules, cap, ops).value;
            d.at <= |d.sys.journal| && !Load(rules, cap, File(d), now, marker).Panics?
  {
    hide InStep, Load, Replay, Readable, KeptIds, SessionRun, Read, File;
    assert (ops + [Reload(now, marker)])[..|ops|] == ops;
    SessionsKeep(rules, cap, ops);
    var d := SessionRun(rules, cap, ops).value;
    InStepFits(rules, cap, d);
    KeptIsRead(rules, cap, d, now);
    var (file, ids) := (File(d), KeptIds(rules, cap, File(d), now));
    var r := Replay(rules, cap, file[..|ids|], now);
    BackedIsVouched(rules, cap, r, file[..|ids|], ids);
    Restart.NeverPanics(rules, cap, file, now, marker);
  }
}
