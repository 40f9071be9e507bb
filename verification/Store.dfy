/**
  The chain store: blocks written to their series, the index committed behind them, and a crash at
  any point. The one ordering rule, blocks first and the records that name them second, is what
  makes every location in a surviving journal readable.
 */
module Store {
  import opened Bytes
  import opened Arena
  import opened Series
  import opened JournalBytes
  import TS = TreeState
  import J = Journal
  import R = Recovery
  import Restart
  import L = Loader
  import Sessions
  import H = HeaderTrees

  /** Where a commit has got to. */
  datatype Phase = Idle | BlocksSynced | BatchWritten

  /**
    `sys` is the tree with the records committed so far and `saved` the tree as it was committed;
    `blocks` is the block series and `log` what was placed in it; `journal` is the index file and
    `synced` how much of it is on the disk.
   */
  datatype State = State(
    sys: J.Sys,
    saved: TS.State,
    blocks: View,
    log: seq<Entry>,
    journal: seq<byte>,
    synced: nat,
    phase: Phase)

  datatype Op = OnTree(op: TS.Op) | WriteBlock(bytes: seq<byte>) | SyncBlocks | WriteBatch | SyncBatch

  datatype Config = Config(rules: Rules, cap: nat, shape: Shape, checksum: Checksum)

  ghost predicate Sane(g: Config) {
    g.cap > 0 && Proper(g.shape) && g.shape.trailerBytes == 0
  }

  /** A location some earlier write of this run returned. */
  ghost predicate Named(log: seq<Entry>, at: TS.Location) {
    exists k :: 0 <= k < |log| && log[k].at == L.AsPlaced(at)
  }

  ghost function Batch(x: J.Sys): seq<J.Record>
    requires TS.Shaped(x.tree) && TS.DirtyList(x.tree.flagged, x.tree.dirty)
  {
    J.RecordsOf(x.tree, x.tree.dirty)
  }

  // ----- the steps --------------------------------------------------------------------------------

  ghost predicate Begins(g: Config, s: State) {
    && Sane(g) && s.sys == J.Sys(TS.Start(g.rules), [], []) && s.saved == TS.Start(g.rules)
    && Valid(g.shape, s.blocks) && s.log == [] && s.journal == [] && s.synced == 0 && s.phase == Idle
  }

  /** A call on the tree. Locations come from the block series, and numbers are 32-bit. */
  ghost predicate TreeCall(g: Config, s: State, op: TS.Op, t: State) {
    && J.SysLegal(g.rules, s.sys, J.OnTree(op))
    && (op.OpCheck? ==> Named(s.log, op.location))
    && (op.OpConnect? ==> Fits32(op.undo.file, op.undo.offset, op.undo.len))
    && t == s.(sys := J.SysStep(g.rules, g.cap, s.sys, J.OnTree(op)))
  }

  ghost predicate BlockWrite(g: Config, s: State, bytes: seq<byte>, t: State) {
    && Valid(g.shape, s.blocks) && Suits(g.shape, bytes, [])
    && var (v, placed) := Appended(g.shape, s.blocks, bytes, []);
       t == s.(blocks := v, log := if placed.Ok? then s.log + [Entry(placed.value, bytes, [])] else s.log)
  }

  /** The batch is appended to the index file, not yet synced. */
  ghost predicate BatchWrite(g: Config, s: State, t: State) {
    && TS.Sound(g.rules, s.sys.tree) && AllWritable(Batch(s.sys))
    && t == s.(journal := s.journal + JournalOf(g.checksum, Batch(s.sys)), phase := BatchWritten)
  }

  /** The file is synced, replaced whole by a snapshot when it has grown stale, and the marks cleared. */
  ghost predicate BatchSync(g: Config, s: State, t: State) {
    && TS.Sound(g.rules, s.sys.tree)
    && var x := J.Committed(s.sys);
       && AllWritable(x.journal)
       && var file := if x.journal == s.sys.journal + Batch(s.sys) then s.journal
                      else JournalOf(g.checksum, x.journal);
          t == s.(sys := x, saved := x.tree, journal := file, synced := |file|, phase := Idle)
  }

  ghost predicate Next(g: Config, s: State, op: Op, t: State) {
    match op
    case OnTree(call) => s.phase == Idle && TreeCall(g, s, call, t)
    case WriteBlock(bytes) => s.phase == Idle && BlockWrite(g, s, bytes, t)
    case SyncBlocks =>
      s.phase == Idle && s.sys.tree.dirty != [] && t == s.(blocks := Synced(s.blocks), phase := BlocksSynced)
    case WriteBatch => s.phase == BlocksSynced && BatchWrite(g, s, t)
    case SyncBatch => s.phase == BatchWritten && BatchSync(g, s, t)
  }

  ghost predicate IsRun(g: Config, trace: seq<State>, ops: seq<Op>) {
    && |trace| == |ops| + 1 && Begins(g, trace[0])
    && forall k :: 0 <= k < |ops| ==> Next(g, trace[k], ops[k], trace[k + 1])
  }

  // ----- what every state keeps -------------------------------------------------------------------

  function PlaceOf(p: J.Persisted): Option<TS.Location> {
    match p
    case Checked(at) => Some(at)
    case WasConnected(at, _) => Some(at)
    case _ => None
  }

  ghost predicate PersistedOk(log: seq<Entry>, p: J.Persisted) {
    Writable(p) && (PlaceOf(p).Some? ==> Named(log, PlaceOf(p).value))
  }

  ghost predicate StatusOk(log: seq<Entry>, status: TS.Status) {
    J.PersistedOf(status).Some? ==> PersistedOk(log, J.PersistedOf(status).value)
  }

  ghost predicate StatusesOk(log: seq<Entry>, status: seq<TS.Status>) {
    forall i :: 0 <= i < |status| ==> StatusOk(log, status[i])
  }

  /** A record names a block that is on the disk. */
  ghost predicate RecordOk(shape: Shape, v: View, log: seq<Entry>, r: J.Record) {
    PersistedOk(log, r.persisted)
    && (PlaceOf(r.persisted).Some? ==> Durable(shape, v, L.AsPlaced(PlaceOf(r.persisted).value)))
  }

  ghost predicate RecordsOk(shape: Shape, v: View, log: seq<Entry>, records: seq<J.Record>) {
    forall k :: 0 <= k < |records| ==> RecordOk(shape, v, log, records[k])
  }

  ghost predicate TreeOk(g: Config, s: State) {
    && TS.Sound(g.rules, s.sys.tree) && J.JournalOk(s.sys) && |s.sys.tree.nodes| <= g.cap
  }

  /** The records committed are those of `saved`, which has nothing left to write; its verdicts stand. */
  ghost predicate SavedOk(g: Config, s: State) {
    && TS.Sound(g.rules, s.saved) && J.JournalOk(s.sys.(tree := s.saved))
    && s.saved.dirty == [] && |s.saved.nodes| <= g.cap && s.saved.nodes <= s.sys.tree.nodes
    && TS.Stand(s.saved.status, s.sys.tree.status)
  }

  /** Every entry the index ever called connected passed the header rules. */
  ghost predicate CertifiedOk(g: Config, s: State) {
    && Linked(s.sys.tree.nodes) && |s.sys.journal| == |s.sys.ids|
    && Restart.Certified(g.rules, s.sys.tree.nodes, s.sys.journal, s.sys.ids)
  }

  ghost predicate BlocksOk(g: Config, s: State) {
    && Valid(g.shape, s.blocks) && AllHold(g.shape, s.blocks.files, s.log)
    && Disjoint(g.shape, s.log) && AllBounded(g.shape, s.log)
    && (s.phase != Idle ==> !s.blocks.unsynced)
  }

  ghost predicate FileOk(g: Config, s: State)
    requires TS.Sound(g.rules, s.sys.tree)
  {
    && RecordsOk(g.shape, s.blocks, s.log, InFile(g, s))
    && RecordsOk(g.shape, s.blocks, s.log, s.sys.journal)
    && AllWritable(InFile(g, s)) && AllWritable(s.sys.journal)
    && s.journal == JournalOf(g.checksum, InFile(g, s))
    && s.synced == |JournalOf(g.checksum, s.sys.journal)|
  }

  /** Every record in the index file, synced or not. */
  ghost function InFile(g: Config, s: State): seq<J.Record>
    requires TS.Sound(g.rules, s.sys.tree)
  {
    if s.phase == BatchWritten then s.sys.journal + Batch(s.sys) else s.sys.journal
  }

  ghost predicate Inv(g: Config, s: State) {
    && Sane(g) && TreeOk(g, s) && SavedOk(g, s) && CertifiedOk(g, s) && BlocksOk(g, s)
    && StatusesOk(s.log, s.sys.tree.status) && FileOk(g, s)
  }

  // ----- each step keeps it -----------------------------------------------------------------------

  lemma BeginsOk(g: Config, s: State)
    requires Begins(g, s)
    ensures Inv(g, s)
  {
    J.EmptyJournalOk(g.rules);
    NothingPlaced(g.shape, s.blocks);
    assert StatusOk([], TS.Genesis);
  }

  /** A tree call gives an entry no location but the one it was handed. */
  lemma TreeCallNames(g: Config, s: State, op: TS.Op, t: State)
    requires Sane(g) && TreeCall(g, s, op, t) && StatusesOk(s.log, s.sys.tree.status)
    requires op.OpCheck? ==> Fits32(op.location.file, op.location.offset, op.location.len)
    ensures StatusesOk(t.log, t.sys.tree.status)
  {
    hide TS.Sound, TS.Shaped, TS.Judge, TS.BestUpTo, Child, TS.Inherited, TS.Propagated, Named, StatusOk;
    var a := s.sys.tree;
    TS.SoundIsShaped(g.rules, a);
    match op
    case OpAccept(header, now) => AcceptNames(g.rules, g.cap, a, header, now, s.log);
    case OpCheck(node, location) => CheckNames(s.log, location);
    case OpConnect(node, undo) => ConnectNames(s.log, a.status[node].location, undo, a.status[node]);
    case OpDisconnect(node) => DisconnectNames(s.log, a.status[node]);
    case OpInvalidate(node, invalidity) => InvalidateNames(a, node, invalidity, s.log);
    case OpClearDirty => assert false;
  }

  lemma AcceptNames(rules: Rules, cap: nat, s: TS.State, header: Header, now: nat, log: seq<Entry>)
    requires TS.Shaped(s) && StatusesOk(log, s.status)
    ensures StatusesOk(log, TS.Accept(rules, cap, s, header, now).0.status)
  {
    hide TS.Shaped, TS.Judge, Child, Named;
  }

  lemma CheckNames(log: seq<Entry>, location: TS.Location)
    requires Named(log, location) && Fits32(location.file, location.offset, location.len)
    ensures StatusOk(log, TS.BlockChecked(location))
  {
  }

  lemma ConnectNames(log: seq<Entry>, location: TS.Location, undo: TS.UndoLocation, was: TS.Status)
    requires was == TS.BlockChecked(location) && StatusOk(log, was) && Fits32(undo.file, undo.offset, undo.len)
    ensures StatusOk(log, TS.Connected(location, undo))
  {
  }

  lemma DisconnectNames(log: seq<Entry>, was: TS.Status)
    requires was.Connected? && StatusOk(log, was)
    ensures StatusOk(log, TS.BlockChecked(was.location))
  {
  }

  lemma InvalidateNames(s: TS.State, node: nat, invalidity: TS.Invalidity, log: seq<Entry>)
    requires TS.CanInvalidate(s, node, invalidity) && StatusesOk(log, s.status)
    ensures StatusesOk(log, TS.Invalidate(s, node, invalidity).status)
  {
    hide TS.BestUpTo, Named;
    var marked := TS.SetStatus(s, node, TS.Invalid(invalidity));
    assert StatusesOk(log, marked.status);
    PropagatedNames(s.nodes, marked.status, node, log);
  }

  lemma PropagatedNames(nodes: seq<Node>, status: seq<TS.Status>, from: nat, log: seq<Entry>)
    requires Linked(nodes) && |status| == |nodes| && from < |nodes| && StatusesOk(log, status)
    ensures StatusesOk(log, TS.Propagated(nodes, status, from))
  {
  }

  lemma NamedFits(g: Config, s: State, at: TS.Location)
    requires Sane(g) && BlocksOk(g, s) && Named(s.log, at)
    ensures Fits32(at.file, at.offset, at.len)
  {
    var k :| 0 <= k < |s.log| && s.log[k].at == L.AsPlaced(at);
    assert EntryHolds(g.shape, s.blocks.files, s.log[k]);
    assert Bounded(g.shape, s.log, k);
  }

  lemma TreeCallKeeps(g: Config, s: State, op: TS.Op, t: State)
    requires Inv(g, s) && s.phase == Idle && TreeCall(g, s, op, t)
    ensures Inv(g, t)
  {
    hide TS.Sound, J.JournalOk, BlocksOk, RecordsOk, StatusesOk, J.SysStep, SavedOk, CertifiedOk;
    J.SysStepKeepsJournal(g.rules, g.cap, s.sys, J.OnTree(op));
    J.StepKeepsCap(g.rules, g.cap, s.sys, J.OnTree(op));
    JournalUntouched(g, s.sys, op);
    if op.OpCheck? {
      NamedFits(g, s, op.location);
    }
    TreeCallNames(g, s, op, t);
    TreeCallCertified(g, s, op, t);
    SameSaved(g, s, t);
    SameBlocks(g, s, t);
  }

  lemma TreeCallCertified(g: Config, s: State, op: TS.Op, t: State)
    requires CertifiedOk(g, s) && TreeCall(g, s, op, t)
    requires TS.Sound(g.rules, t.sys.tree) && t.sys.journal == s.sys.journal && t.sys.ids == s.sys.ids
    ensures CertifiedOk(g, t) && s.sys.tree.nodes <= t.sys.tree.nodes
  {
    hide TS.Verdicts, TS.ActiveChain, TS.IsBest, TS.DirtyList, Built, Linked, TS.Step, Restart.Certified;
    J.TreeStepIsBenign(g.rules, g.cap, s.sys.tree, op);
    Restart.CertifiedGrows(g.rules, s.sys.tree.nodes, t.sys.tree.nodes, s.sys.journal, s.sys.ids);
  }

  lemma SameCertified(g: Config, s: State, t: State)
    requires CertifiedOk(g, s) && t.sys == s.sys
    ensures CertifiedOk(g, t)
  {
  }

  lemma JournalUntouched(g: Config, x: J.Sys, op: TS.Op)
    requires J.SysLegal(g.rules, x, J.OnTree(op))
    ensures var y := J.SysStep(g.rules, g.cap, x, J.OnTree(op));
            y.journal == x.journal && y.ids == x.ids && TS.Stand(x.tree.status, y.tree.status)
  {
    hide TS.Sound, TS.Step;
    TS.VerdictsStand(g.rules, g.cap, x.tree, op);
  }

  lemma SameSaved(g: Config, s: State, t: State)
    requires SavedOk(g, s) && t.saved == s.saved && t.sys.journal == s.sys.journal && t.sys.ids == s.sys.ids
    requires s.sys.tree.nodes <= t.sys.tree.nodes && TS.Stand(s.sys.tree.status, t.sys.tree.status)
    ensures SavedOk(g, t)
  {
    assert s.sys.(tree := s.saved) == t.sys.(tree := t.saved);
  }

  lemma SameBlocks(g: Config, s: State, t: State)
    requires BlocksOk(g, s) && t.blocks == s.blocks && t.log == s.log
    requires t.phase == Idle || s.phase != Idle
    ensures BlocksOk(g, t)
  {
  }

  // ----- writing a block --------------------------------------------------------------------------

  lemma LongerLog(log: seq<Entry>, more: seq<Entry>, p: J.Persisted)
    requires PersistedOk(log, p) && log <= more
    ensures PersistedOk(more, p)
  {
    if PlaceOf(p).Some? {
      var k :| 0 <= k < |log| && log[k].at == L.AsPlaced(PlaceOf(p).value);
      assert more[k].at == L.AsPlaced(PlaceOf(p).value);
    }
  }

  lemma DurableStays(shape: Shape, v: View, body: seq<byte>, trailer: seq<byte>, at: Placed)
    requires Valid(shape, v) && Suits(shape, body, trailer) && Durable(shape, v, at)
    ensures Durable(shape, Appended(shape, v, body, trailer).0, at)
  {
    hide Frame;
    SyncedIsValid(shape, v);
  }

  lemma BlockWriteKeeps(g: Config, s: State, bytes: seq<byte>, t: State)
    requires Inv(g, s) && s.phase == Idle && BlockWrite(g, s, bytes, t)
    ensures Inv(g, t)
  {
    hide TS.Sound, J.JournalOk, Appended, Valid, AllHold, Disjoint, AllBounded, PersistedOk, Durable, SavedOk,
      CertifiedOk;
    AppendedIsValid(g.shape, s.blocks, bytes, []);
    OneMoreAppend(g.shape, s.blocks.files, s.blocks, s.log, bytes, []);
    forall k | 0 <= k < |s.sys.journal| ensures RecordOk(g.shape, t.blocks, t.log, s.sys.journal[k]) {
      var p := s.sys.journal[k].persisted;
      assert RecordOk(g.shape, s.blocks, s.log, s.sys.journal[k]);
      LongerLog(s.log, t.log, p);
      if PlaceOf(p).Some? {
        DurableStays(g.shape, s.blocks, bytes, [], L.AsPlaced(PlaceOf(p).value));
      }
    }
    forall i | 0 <= i < |s.sys.tree.status| ensures StatusOk(t.log, s.sys.tree.status[i]) {
      assert StatusOk(s.log, s.sys.tree.status[i]);
      if J.PersistedOf(s.sys.tree.status[i]).Some? {
        LongerLog(s.log, t.log, J.PersistedOf(s.sys.tree.status[i]).value);
      }
    }
    SameSaved(g, s, t);
    SameCertified(g, s, t);
  }

  // ----- committing -------------------------------------------------------------------------------

  lemma AllDurable(g: Config, s: State, v: View, at: TS.Location)
    requires BlocksOk(g, s) && v == Synced(s.blocks) && Named(s.log, at)
    ensures Durable(g.shape, v, L.AsPlaced(at))
  {
    var k :| 0 <= k < |s.log| && s.log[k].at == L.AsPlaced(at);
    assert EntryHolds(g.shape, s.blocks.files, s.log[k]);
    SyncMakesDurable(g.shape, s.blocks, s.log[k]);
  }

  lemma SyncBlocksKeeps(g: Config, s: State, t: State)
    requires Inv(g, s) && Next(g, s, SyncBlocks, t)
    ensures Inv(g, t)
  {
    hide TS.Sound, J.JournalOk, AllHold, Disjoint, AllBounded, PersistedOk, StatusesOk, SavedOk, Synced, Valid,
      Durable, CertifiedOk;
    SyncedIsValid(g.shape, s.blocks);
    forall k | 0 <= k < |s.sys.journal| ensures RecordOk(g.shape, t.blocks, t.log, s.sys.journal[k]) {
      var p := s.sys.journal[k].persisted;
      assert RecordOk(g.shape, s.blocks, s.log, s.sys.journal[k]);
      if PlaceOf(p).Some? {
        PersistedIsNamed(s.log, p);
        AllDurable(g, s, t.blocks, PlaceOf(p).value);
      }
    }
    SameSaved(g, s, t);
    SameCertified(g, s, t);
  }

  lemma PersistedIsNamed(log: seq<Entry>, p: J.Persisted)
    requires PersistedOk(log, p) && PlaceOf(p).Some?
    ensures Named(log, PlaceOf(p).value)
  {
  }

  /** Records made from entries whose locations are known and synced name what is on the disk. */
  lemma {:induction false} RecordsOfOk(g: Config, s: State, tree: TS.State, ids: seq<nat>)
    requires BlocksOk(g, s) && s.phase != Idle && StatusesOk(s.log, tree.status)
    requires |tree.status| == |tree.nodes| && forall k :: 0 <= k < |ids| ==> ids[k] < |tree.nodes|
    ensures RecordsOk(g.shape, s.blocks, s.log, J.RecordsOf(tree, ids))
    decreases |ids|
  {
    hide BlocksOk, Named, Writable, PersistedOk, Durable;
    if |ids| > 0 {
      RecordsOfOk(g, s, tree, ids[..|ids| - 1]);
      var i := ids[|ids| - 1];
      assert StatusOk(s.log, tree.status[i]);
      var p := J.PersistedOf(tree.status[i]);
      if p.Some? && PlaceOf(p.value).Some? {
        PersistedIsNamed(s.log, p.value);
        SyncedAlready(g, s);
        AllDurable(g, s, s.blocks, PlaceOf(p.value).value);
      }
    }
  }

  lemma SyncedAlready(g: Config, s: State)
    requires BlocksOk(g, s) && s.phase != Idle
    ensures Synced(s.blocks) == s.blocks
  {
  }

  lemma RecordsAreWritable(shape: Shape, v: View, log: seq<Entry>, records: seq<J.Record>)
    requires RecordsOk(shape, v, log, records)
    ensures AllWritable(records)
  {
    forall k | 0 <= k < |records| ensures Writable(records[k].persisted) {
      assert RecordOk(shape, v, log, records[k]);
    }
  }

  /** The batch can always be encoded: the guard in the step never stops a commit. */
  lemma BatchIsWritable(g: Config, s: State)
    requires Inv(g, s) && s.phase != Idle
    ensures RecordsOk(g.shape, s.blocks, s.log, Batch(s.sys)) && AllWritable(Batch(s.sys))
  {
    hide J.JournalOk, BlocksOk, RecordsOk, StatusesOk, SavedOk, J.RecordsOf, FileOk, CertifiedOk, TS.Verdicts,
      TS.ActiveChain, TS.IsBest, Built, Linked;
    RecordsOfOk(g, s, s.sys.tree, s.sys.tree.dirty);
    RecordsAreWritable(g.shape, s.blocks, s.log, Batch(s.sys));
  }

  lemma BothOk(shape: Shape, v: View, log: seq<Entry>, a: seq<J.Record>, b: seq<J.Record>)
    requires RecordsOk(shape, v, log, a) && RecordsOk(shape, v, log, b)
    ensures RecordsOk(shape, v, log, a + b)
  {
  }

  lemma WriteBatchKeeps(g: Config, s: State, t: State)
    requires Inv(g, s) && Next(g, s, WriteBatch, t)
    ensures Inv(g, t)
  {
    hide J.JournalOk, BlocksOk, RecordsOk, StatusesOk, SavedOk, Batch, AllWritable, JournalOf, CertifiedOk,
      TS.Verdicts, TS.ActiveChain, TS.IsBest, Built, Linked, TS.Shaped, TS.DirtyList;
    BatchIsWritable(g, s);
    BothOk(g.shape, s.blocks, s.log, s.sys.journal, Batch(s.sys));
    JournalOfAppended(g.checksum, s.sys.journal, Batch(s.sys));
    SameSaved(g, s, t);
    SameCertified(g, s, t);
    SameBlocks(g, s, t);
  }

  lemma CommittedOk(g: Config, s: State)
    requires Inv(g, s) && s.phase == BatchWritten
    ensures var x := J.Committed(s.sys);
            && RecordsOk(g.shape, s.blocks, s.log, x.journal) && AllWritable(x.journal)
            && x.tree.status == s.sys.tree.status && |x.tree.nodes| == |s.sys.tree.nodes|
            && TS.Sound(g.rules, x.tree) && J.JournalOk(x) && x.tree.dirty == []
            && (Batch(s.sys) == [] ==> x.journal == s.sys.journal)
            && x.tree.nodes == s.sys.tree.nodes && |x.journal| == |x.ids|
            && Restart.Certified(g.rules, x.tree.nodes, x.journal, x.ids)
  {
    hide BlocksOk, RecordsOk, StatusesOk, SavedOk, J.RecordsOf, TS.Verdicts, TS.ActiveChain, TS.IsBest, Built,
      Linked, J.JournalOk, FileOk, J.Everything, Restart.Certified;
    J.CommitKeepsJournal(g.rules, s.sys);
    Restart.CommitIsCertified(g.rules, s.sys);
    BatchIsWritable(g, s);
    CommittedTree(g, s.sys);
    FileRecordsOk(g, s);
    BothOk(g.shape, s.blocks, s.log, s.sys.journal, Batch(s.sys));
    var y := TS.ClearDirty(s.sys.tree);
    EverythingInRange(|y.nodes|);
    RecordsOfOk(g, s, y, J.Everything(|y.nodes|));
    RecordsAreWritable(g.shape, s.blocks, s.log, J.Committed(s.sys).journal);
    NothingBehind(s.sys.journal);
  }

  lemma EverythingInRange(n: nat)
    ensures forall k :: 0 <= k < |J.Everything(n)| ==> J.Everything(n)[k] < n
  {
  }

  lemma FileRecordsOk(g: Config, s: State)
    requires Inv(g, s)
    ensures RecordsOk(g.shape, s.blocks, s.log, s.sys.journal)
  {
    hide TS.Sound, J.JournalOk, BlocksOk, RecordsOk, StatusesOk, SavedOk, AllWritable, JournalOf;
  }

  lemma CommittedTree(g: Config, x: J.Sys)
    requires TS.Sound(g.rules, x.tree)
    ensures J.Committed(x).tree == x.tree || J.Committed(x).tree == TS.ClearDirty(x.tree)
    ensures TS.ClearDirty(x.tree).status == x.tree.status && TS.ClearDirty(x.tree).nodes == x.tree.nodes
  {
    hide TS.Verdicts, TS.ActiveChain, TS.IsBest, Built, Linked, J.RecordsOf;
  }

  lemma SyncBatchKeeps(g: Config, s: State, t: State)
    requires Inv(g, s) && Next(g, s, SyncBatch, t)
    ensures Inv(g, t)
  {
    hide TS.Sound, J.JournalOk, BlocksOk, RecordsOk, StatusesOk, Batch, AllWritable, JournalOf, J.Committed,
      Restart.Certified, Linked;
    CommittedOk(g, s);
    SameBlocks(g, s, t);
    assert t.sys.(tree := t.saved) == t.sys;
  }

  lemma NextKeeps(g: Config, s: State, op: Op, t: State)
    requires Inv(g, s) && Next(g, s, op, t)
    ensures Inv(g, t)
  {
    hide Inv, TreeCall, BlockWrite, BatchWrite, BatchSync;
    match op
    case OnTree(call) => TreeCallKeeps(g, s, call, t);
    case WriteBlock(bytes) => BlockWriteKeeps(g, s, bytes, t);
    case SyncBlocks => SyncBlocksKeeps(g, s, t);
    case WriteBatch => WriteBatchKeeps(g, s, t);
    case SyncBatch => SyncBatchKeeps(g, s, t);
  }

  lemma {:induction false} RunKeeps(g: Config, trace: seq<State>, ops: seq<Op>, k: nat)
    requires IsRun(g, trace, ops) && k < |trace|
    ensures Inv(g, trace[k])
    decreases k
  {
    hide Inv, Next, Begins;
    if k == 0 {
      BeginsOk(g, trace[0]);
    } else {
      RunKeeps(g, trace, ops, k - 1);
      NextKeeps(g, trace[k - 1], ops[k - 1], trace[k]);
    }
  }

  // ----- the crash --------------------------------------------------------------------------------

  /** All that was synced of the two files, and any prefix of what was not. */
  ghost predicate CrashLeaves(s: State, files: Files, journal: seq<byte>) {
    && Survives(s.blocks, files)
    && s.synced <= |journal| && journal <= s.journal
  }

  /** The location reads back the bytes of the one write that returned it. */
  ghost predicate ReadsBack(g: Config, log: seq<Entry>, files: Files, at: TS.Location)
    requires Proper(g.shape)
  {
    exists k :: 0 <= k < |log| && log[k].at == L.AsPlaced(at)
                && ReadAt(g.shape, files, L.AsPlaced(at)) == Ok((log[k].body, []))
  }

  ghost predicate AllReadBack(g: Config, s: State, files: Files, records: seq<J.Record>)
    requires Proper(g.shape)
  {
    forall k :: 0 <= k < |records| && PlaceOf(records[k].persisted).Some? ==>
      ReadsBack(g, s.log, files, PlaceOf(records[k].persisted).value)
  }

  lemma NamedReadsBack(g: Config, s: State, files: Files, r: J.Record)
    requires Sane(g) && BlocksOk(g, s) && Survives(s.blocks, files)
    requires RecordOk(g.shape, s.blocks, s.log, r) && PlaceOf(r.persisted).Some?
    ensures ReadsBack(g, s.log, files, PlaceOf(r.persisted).value)
  {
    hide Valid, ReadAt, Disjoint, AllBounded, Survives, Writable;
    var at := PlaceOf(r.persisted).value;
    var k :| 0 <= k < |s.log| && s.log[k].at == L.AsPlaced(at);
    assert EntryHolds(g.shape, s.blocks.files, s.log[k]);
    DurableSurvives(g.shape, s.blocks, files, s.log[k]);
    assert s.log[k].trailer == [];
  }

  /**
    After any run of tree calls, block writes and commits, and a crash anywhere in it: the index
    file decodes to a prefix of the records written, the committed ones all among them, it is never
    found broken, and every block location in it reads back exactly the bytes that were written.
   */
  lemma CrashReadsBack(g: Config, trace: seq<State>, ops: seq<Op>, files: Files, journal: seq<byte>)
    requires IsRun(g, trace, ops) && CrashLeaves(trace[|ops|], files, journal)
    ensures var s := trace[|ops|];
            && Inv(g, s)
            && var (records, ending) := ReadAll(g.checksum, journal);
               && s.sys.journal <= records <= InFile(g, s)
               && !ending.Broken?
               && AllReadBack(g, s, files, records)
  {
    hide Inv, Next, Begins;
    RunKeeps(g, trace, ops, |ops|);
    StateReadsBack(g, trace[|ops|], files, journal);
  }

  lemma StateReadsBack(g: Config, s: State, files: Files, journal: seq<byte>)
    requires Inv(g, s) && CrashLeaves(s, files, journal)
    ensures var (records, ending) := ReadAll(g.checksum, journal);
            && s.sys.journal <= records <= InFile(g, s)
            && !ending.Broken?
            && AllReadBack(g, s, files, records)
  {
    hide TS.Sound, J.JournalOk, BlocksOk, StatusesOk, SavedOk, AllWritable, JournalOf, Batch, ReadAll, Survives,
      RecordOk, ReadsBack;
    var all := InFile(g, s);
    var n := CutReadsLongestPrefix(g.checksum, all, |journal|);
    assert s.journal[..|journal|] == journal;
    assert all[..|s.sys.journal|] == s.sys.journal;
    LongestIsMonotone(g.checksum, all, |s.sys.journal|, |journal|, n);
    forall k | 0 <= k < n && PlaceOf(all[k].persisted).Some?
      ensures ReadsBack(g, s.log, files, PlaceOf(all[k].persisted).value)
    {
      assert RecordOk(g.shape, s.blocks, s.log, all[k]);
      NamedReadsBack(g, s, files, all[k]);
    }
    assert all[..n][..|s.sys.journal|] == s.sys.journal;
  }

  /**
    Unless the crash falls between writing a batch and syncing it, loading what it left restores
    the tree of the last commit, with the active chain up to the marker.
   */
  lemma CrashThenLoad(
    g: Config, trace: seq<State>, ops: seq<Op>, files: Files, journal: seq<byte>, now: nat, m: nat)
    requires IsRun(g, trace, ops) && trace[|ops|].phase != BatchWritten
    requires CrashLeaves(trace[|ops|], files, journal)
    requires var s := trace[|ops|].saved;
             && m < |s.nodes| == |s.status| && s.status[m].IsConnected()
             && Linked(s.nodes) && R.Admits(g.rules, s.nodes, |s.nodes|, now)
    ensures var s := trace[|ops|].saved;
            var r := R.Load(g.rules, g.cap, ReadAll(g.checksum, journal).0, now, s.nodes[m].hash);
            && r.Loaded? && TS.Shaped(s)
            && r.tree.nodes == s.nodes && r.tree.index == s.index
            && r.tree.best == s.best && r.tree.tip == m && r.tree.dirty == []
            && R.Restores(s, r.tree, m)
  {
    hide Inv, CrashLeaves, Next, Begins, ReadAll, R.Load, R.Restores, R.Admits;
    var s := trace[|ops|];
    RunKeeps(g, trace, ops, |ops|);
    CommittedReads(g, s, files, journal);
    SavedLoads(g, s, now, m);
  }

  /** The tree with every record in the file credited to it, the unsynced batch included. */
  ghost function Credited(g: Config, s: State): J.Sys
    requires TS.Sound(g.rules, s.sys.tree)
  {
    if s.phase == BatchWritten then J.Appended(s.sys) else s.sys
  }

  /**
    Wherever the crash falls, a batch write included, the records that survive introduce the first
    `k` entries of the arena, all of what was committed among them; replaying them turns none away,
    and rebuilds those entries in their order, if and only if none of the `k` is late.
   */
  lemma CrashThenReplay(g: Config, trace: seq<State>, ops: seq<Op>, files: Files, journal: seq<byte>, now: nat)
    returns (k: nat)
    requires IsRun(g, trace, ops) && CrashLeaves(trace[|ops|], files, journal)
    ensures var s := trace[|ops|];
            var r := R.Replay(g.rules, g.cap, ReadAll(g.checksum, journal).0, now);
            && |s.saved.nodes| <= k <= |s.sys.tree.nodes| && Linked(s.sys.tree.nodes)
            && (!r.rejected <==> R.Admits(g.rules, s.sys.tree.nodes, k, now))
            && (!r.rejected ==> r.tree.nodes == s.sys.tree.nodes[..k])
            && r.tree.nodes <= s.sys.tree.nodes
  {
    hide Inv, CrashLeaves, Next, Begins, ReadAll, R.Replay, R.Admits;
    RunKeeps(g, trace, ops, |ops|);
    k := StateReplays(g, trace[|ops|], files, journal, now);
  }

  lemma StateReplays(g: Config, s: State, files: Files, journal: seq<byte>, now: nat) returns (k: nat)
    requires Inv(g, s) && CrashLeaves(s, files, journal)
    ensures var r := R.Replay(g.rules, g.cap, ReadAll(g.checksum, journal).0, now);
            && |s.saved.nodes| <= k <= |s.sys.tree.nodes| && Linked(s.sys.tree.nodes)
            && (!r.rejected <==> R.Admits(g.rules, s.sys.tree.nodes, k, now))
            && (!r.rejected ==> r.tree.nodes == s.sys.tree.nodes[..k])
            && r.tree.nodes <= s.sys.tree.nodes
  {
    hide Inv, ReadAll, AllReadBack, R.Replay, R.Admits, R.Rebuilt, TS.Sound, J.JournalOk, J.Known,
      CrashLeaves, InFile, Credited;
    InvSound(g, s);
    StateReadsBack(g, s, files, journal);
    CreditedIsInStep(g, s);
    var records, x := ReadAll(g.checksum, journal).0, Credited(g, s);
    var n := |records|;
    assert x.journal[..n] == records;
    R.SoundLinks(g.rules, x.tree);
    R.ReplayRejectsNothingIff(g.rules, g.cap, x, now, n);
    k := J.Known(x.ids[..n]);
    SavedIsKnown(g, s, x, n);
    var j := Restart.ReplayIsSomePrefix(g.rules, g.cap, x, now, n);
    RebuiltIsPrefix(x, R.Replay(g.rules, g.cap, x.journal[..j], now), j);
    if R.Admits(g.rules, x.tree.nodes, k, now) {
      R.ReplayRebuilds(g.rules, g.cap, x, now, n);
      RebuiltIsPrefix(x, R.Replay(g.rules, g.cap, records, now), n);
    }
  }

  lemma RebuiltIsPrefix(x: J.Sys, r: R.Replayed, k: nat)
    requires k <= |x.ids| == |x.journal| && R.Rebuilt(x.tree, r, x.journal[..k], x.ids[..k])
    ensures !r.rejected && |r.tree.nodes| == J.Known(x.ids[..k]) <= |x.tree.nodes|
    ensures r.tree.nodes == x.tree.nodes[..J.Known(x.ids[..k])] && r.tree.nodes <= x.tree.nodes
  {
    hide R.Remembers, J.Known;
  }

  lemma CreditedIsInStep(g: Config, s: State)
    requires Inv(g, s)
    ensures var x := Credited(g, s);
            && TS.Sound(g.rules, x.tree) && J.JournalOk(x) && x.tree.nodes == s.sys.tree.nodes
            && |x.tree.nodes| <= g.cap && x.journal == InFile(g, s) && s.sys.ids <= x.ids
            && |x.journal| == |x.ids| && |s.sys.journal| == |s.sys.ids| && TS.Shaped(x.tree)
  {
    hide BlocksOk, StatusesOk, FileOk, SavedOk, CertifiedOk, J.RecordsOf, J.Ordered, J.Known, J.NewInOrder, J.Clean,
      TS.Verdicts, TS.ActiveChain, TS.IsBest, Built, Linked;
    if s.phase == BatchWritten {
      J.AppendSpeaksForAll(g.rules, s.sys);
      TS.ClearDirtyIsSound(g.rules, s.sys.tree);
    }
  }

  /** What was committed is known to the committed records, so to any longer list of them. */
  lemma SavedIsKnown(g: Config, s: State, x: J.Sys, k: nat)
    requires Inv(g, s) && TS.Shaped(x.tree) && J.JournalOk(x)
    requires s.sys.ids <= x.ids && |s.sys.ids| == |s.sys.journal| <= k <= |x.ids|
    ensures |s.saved.nodes| <= J.Known(x.ids[..k])
  {
    hide J.Ordered, J.Known, J.Headed, J.Clean, TS.Verdicts, TS.ActiveChain, TS.IsBest, Built, Linked, BlocksOk,
      StatusesOk, FileOk, TreeOk, CertifiedOk;
    var n := |s.sys.ids|;
    assert J.Known(s.sys.ids) == |s.saved.nodes|;
    R.OrderedPrefix(x.ids, k);
    R.OrderedPrefix(x.ids[..k], n);
    assert x.ids[..k][..n] == s.sys.ids;
  }

  // ----- loading after any crash ------------------------------------------------------------------

  /**
    For every run, every crash, every clock and every marker, no assertion of the tree stops the
    load: it reaches the marker, or says that the marker or an undo record is not there.
   */
  lemma CrashNeverPanics(
    g: Config, trace: seq<State>, ops: seq<Op>, files: Files, journal: seq<byte>, now: nat, marker: Hash)
    requires IsRun(g, trace, ops) && CrashLeaves(trace[|ops|], files, journal)
    ensures !R.Load(g.rules, g.cap, ReadAll(g.checksum, journal).0, now, marker).Panics?
  {
    hide Inv, CrashLeaves, Next, Begins, ReadAll, R.Load, R.Replay, R.Rebuilt, Restart.Vouched;
    RunKeeps(g, trace, ops, |ops|);
    var j := StateVouches(g, trace[|ops|], files, journal, now);
    Restart.NeverPanics(g.rules, g.cap, ReadAll(g.checksum, journal).0, now, marker);
  }

  /** The replay stands where some prefix of the credited records stands, and is vouched for. */
  lemma StateVouches(g: Config, s: State, files: Files, journal: seq<byte>, now: nat) returns (j: nat)
    requires Inv(g, s) && CrashLeaves(s, files, journal)
    ensures TS.Sound(g.rules, s.sys.tree)
    ensures var (x, records) := (Credited(g, s), ReadAll(g.checksum, journal).0);
            var r := R.Replay(g.rules, g.cap, records, now);
            && j <= |records| <= |x.journal| == |x.ids| && x.journal[..|records|] == records
            && R.Rebuilt(x.tree, R.Replay(g.rules, g.cap, x.journal[..j], now), x.journal[..j], x.ids[..j])
            && r.tree == R.Replay(g.rules, g.cap, x.journal[..j], now).tree
            && r.statuses == R.Replay(g.rules, g.cap, x.journal[..j], now).statuses
            && Restart.Vouched(g.rules, r.tree.nodes, r.statuses)
    ensures Linked(s.sys.tree.nodes) && |s.saved.nodes| <= |s.sys.tree.nodes|
    ensures R.Admits(g.rules, s.sys.tree.nodes, |s.saved.nodes|, now) ==> |s.sys.journal| <= j
  {
    hide Inv, ReadAll, AllReadBack, R.Replay, R.Admits, R.Rebuilt, TS.Sound, J.JournalOk, J.Known,
      CrashLeaves, InFile, Credited, Restart.Certified, Restart.Vouched;
    InvSound(g, s);
    StateReadsBack(g, s, files, journal);
    CreditedIsInStep(g, s);
    CreditedIsCertified(g, s);
    var records, x := ReadAll(g.checksum, journal).0, Credited(g, s);
    assert x.journal[..|records|] == records;
    j := Restart.ReplayIsSomePrefix(g.rules, g.cap, x, now, |records|);
    var r := R.Replay(g.rules, g.cap, x.journal[..j], now);
    R.SoundLinks(g.rules, x.tree);
    R.SoundLinks(g.rules, r.tree);
    CertifiedPrefix(g.rules, x, j);
    Restart.CertifiedIsVouched(g.rules, x.tree, r, x.journal[..j], x.ids[..j]);
    SavedIsExactly(g, s, x);
  }

  lemma CertifiedPrefix(rules: Rules, x: J.Sys, j: nat)
    requires Linked(x.tree.nodes) && |x.journal| == |x.ids| && j <= |x.ids|
    requires Restart.Certified(rules, x.tree.nodes, x.journal, x.ids)
    ensures Restart.Certified(rules, x.tree.nodes, x.journal[..j], x.ids[..j])
  {
    hide Restart.HeaderAccepts, Linked;
  }

  lemma CreditedIsCertified(g: Config, s: State)
    requires Inv(g, s)
    ensures var x := Credited(g, s);
            && Linked(x.tree.nodes) && |x.journal| == |x.ids|
            && Restart.Certified(g.rules, x.tree.nodes, x.journal, x.ids)
  {
    hide BlocksOk, StatusesOk, FileOk, SavedOk, J.RecordsOf, J.JournalOk, TS.Verdicts, TS.ActiveChain, TS.IsBest,
      Built, Restart.Certified;
    if s.phase == BatchWritten {
      Restart.CommitIsCertified(g.rules, s.sys);
    }
  }

  /** The committed records introduce what was committed, exactly. */
  lemma SavedIsExactly(g: Config, s: State, x: J.Sys)
    requires Inv(g, s) && TS.Shaped(x.tree) && J.JournalOk(x) && x.tree.nodes == s.sys.tree.nodes
    requires s.sys.ids <= x.ids && |s.sys.ids| == |s.sys.journal|
    ensures x.ids[..|s.sys.journal|] == s.sys.ids && J.Known(s.sys.ids) == |s.saved.nodes| <= |x.tree.nodes|
  {
    hide J.Ordered, J.Known, J.Headed, J.Clean, TS.Verdicts, TS.ActiveChain, TS.IsBest, Built, Linked, BlocksOk,
      StatusesOk, FileOk, TreeOk, CertifiedOk;
    R.OrderedPrefix(x.ids, |s.sys.ids|);
    assert x.ids[..|s.sys.ids|] == s.sys.ids;
  }

  /**
    A marker that is connected in the committed tree and still connected in the running one is
    reached after every crash, a batch write cut anywhere included, at a clock by which no committed
    entry is late.
   */
  lemma CrashReachesMarker(
    g: Config, trace: seq<State>, ops: seq<Op>, files: Files, journal: seq<byte>, now: nat, m: nat)
    requires IsRun(g, trace, ops) && CrashLeaves(trace[|ops|], files, journal)
    requires var s := trace[|ops|];
             && m < |s.saved.nodes| == |s.saved.status| <= |s.sys.tree.nodes| == |s.sys.tree.status|
             && s.saved.status[m].IsConnected() && s.sys.tree.status[m].IsConnected()
             && Linked(s.sys.tree.nodes) && R.Admits(g.rules, s.sys.tree.nodes, |s.saved.nodes|, now)
    ensures var s := trace[|ops|].sys.tree;
            var r := R.Load(g.rules, g.cap, ReadAll(g.checksum, journal).0, now, s.nodes[m].hash);
            && r.Loaded? && r.tree.tip == m && r.tree.dirty == [] && r.tree.nodes <= s.nodes
            && |trace[|ops|].saved.nodes| <= |r.tree.nodes|
  {
    hide Inv, CrashLeaves, Next, Begins, ReadAll, R.Load, R.Admits;
    RunKeeps(g, trace, ops, |ops|);
    StateReaches(g, trace[|ops|], files, journal, now, m);
  }

  lemma StateReaches(g: Config, s: State, files: Files, journal: seq<byte>, now: nat, m: nat)
    requires Inv(g, s) && CrashLeaves(s, files, journal)
    requires m < |s.saved.nodes| == |s.saved.status| <= |s.sys.tree.nodes| == |s.sys.tree.status|
    requires s.saved.status[m].IsConnected() && s.sys.tree.status[m].IsConnected()
    requires Linked(s.sys.tree.nodes) && R.Admits(g.rules, s.sys.tree.nodes, |s.saved.nodes|, now)
    ensures var r := R.Load(g.rules, g.cap, ReadAll(g.checksum, journal).0, now, s.sys.tree.nodes[m].hash);
            && r.Loaded? && r.tree.tip == m && r.tree.dirty == [] && r.tree.nodes <= s.sys.tree.nodes
            && |s.saved.nodes| <= |r.tree.nodes|
  {
    hide Inv, CrashLeaves, ReadAll, R.Load, R.Replay, R.Admits, R.Rebuilt, TS.Sound, J.JournalOk, J.Known,
      Credited, Restart.Vouched, Restart.AllRecorded, InFile;
    var j := StateVouches(g, s, files, journal, now);
    CreditedIsInStep(g, s);
    var x, records := Credited(g, s), ReadAll(g.checksum, journal).0;
    var r := R.Replay(g.rules, g.cap, records, now);
    RebuiltIsPrefix(x, R.Replay(g.rules, g.cap, x.journal[..j], now), j);
    SavedIsKnown(g, s, x, j);
    R.SoundLinks(g.rules, r.tree);
    RebuiltRemembers(x, R.Replay(g.rules, g.cap, x.journal[..j], now), j);
    PathIsRecorded(g, s, x, r, j, m);
    assert r.tree.nodes[m] == s.sys.tree.nodes[m];
    Restart.LoadOutcome(g.rules, g.cap, records, now, m);
  }

  lemma RebuiltRemembers(x: J.Sys, r: R.Replayed, k: nat)
    requires k <= |x.ids| == |x.journal| && R.Rebuilt(x.tree, r, x.journal[..k], x.ids[..k])
    ensures R.Remembers(r.statuses, x.journal[..k], x.ids[..k])
  {
  }

  /** Every block on the way to the marker is still recorded as connected. */
  lemma {:induction false} PathIsRecorded(g: Config, s: State, x: J.Sys, r: R.Replayed, j: nat, m: nat)
    requires Inv(g, s) && TS.Sound(g.rules, s.sys.tree) && x == Credited(g, s)
    requires |s.sys.journal| <= j <= |x.ids| == |x.journal|
    requires |r.tree.nodes| <= |s.sys.tree.nodes| && r.tree.nodes <= s.sys.tree.nodes && Linked(r.tree.nodes)
    requires R.Remembers(r.statuses, x.journal[..j], x.ids[..j])
    requires m < |s.saved.nodes| == |s.saved.status| <= |r.tree.nodes| && |s.sys.tree.nodes| == |s.sys.tree.status|
    requires s.saved.status[m].IsConnected() && s.sys.tree.status[m].IsConnected()
    ensures Restart.AllRecorded(r.tree.nodes, r.statuses, m)
    decreases m
  {
    hide Inv, TS.Sound, Credited, R.Remembers, Linked, TS.Verdicts;
    if m > 0 {
      SavedIsPrefix(g, s);
      ParentIsConnected(g, s, m);
      PathIsRecorded(g, s, x, r, j, Up(r.tree.nodes, m));
      MarkerIsRecorded(g, s, x, r, j, m);
    }
  }

  lemma SavedIsPrefix(g: Config, s: State)
    requires Inv(g, s)
    ensures s.saved.nodes <= s.sys.tree.nodes
  {
    hide TreeOk, BlocksOk, StatusesOk, FileOk, CertifiedOk, J.JournalOk, TS.Sound;
  }

  lemma MarkerIsRecorded(g: Config, s: State, x: J.Sys, r: R.Replayed, j: nat, m: nat)
    requires Inv(g, s) && TS.Sound(g.rules, s.sys.tree) && x == Credited(g, s)
    requires |s.sys.journal| <= j <= |x.ids| == |x.journal|
    requires R.Remembers(r.statuses, x.journal[..j], x.ids[..j])
    requires 0 < m < |s.saved.nodes| == |s.saved.status| <= |s.sys.tree.nodes| == |s.sys.tree.status|
    requires s.saved.status[m].IsConnected() && s.sys.tree.status[m].IsConnected()
    ensures Restart.RecordedConnected(r.statuses, m)
  {
    hide Inv, TS.Sound, Credited, J.Last;
    var n, journal, ids := |s.sys.journal|, x.journal[..j], x.ids[..j];
    CreditedExtends(g, s);
    Restart.LastSplits(journal, ids, n, m);
    assert journal[..n] == s.sys.journal && ids[..n] == s.sys.ids;
    assert R.StatusAt(r.statuses, m) == J.Last(journal, ids, m);
    SavedSpeaks(g, s, m);
    if J.Last(journal, ids, m) != J.Last(s.sys.journal, s.sys.ids, m) {
      var k :| n <= k < |ids| && ids[k] == m && J.Last(journal, ids, m) == Some(journal[k].persisted);
      BatchSpeaks(g, s, k);
    }
  }

  lemma CreditedExtends(g: Config, s: State)
    requires Inv(g, s)
    ensures TS.Sound(g.rules, s.sys.tree) && |s.sys.journal| == |s.sys.ids|
    ensures s.sys.journal <= Credited(g, s).journal && s.sys.ids <= Credited(g, s).ids
  {
    hide BlocksOk, StatusesOk, FileOk, SavedOk, J.RecordsOf, J.JournalOk, TS.Verdicts, TS.ActiveChain, TS.IsBest,
      Built, Linked, Restart.Certified;
  }

  /** The committed records call a block connected that is connected in the committed tree. */
  lemma SavedSpeaks(g: Config, s: State, m: nat)
    requires Inv(g, s) && 0 < m < |s.saved.nodes| == |s.saved.status| && s.saved.status[m].IsConnected()
    ensures |s.sys.journal| == |s.sys.ids|
    ensures var last := J.Last(s.sys.journal, s.sys.ids, m); last.Some? && last.value.WasConnected?
  {
    hide TreeOk, BlocksOk, StatusesOk, FileOk, CertifiedOk, TS.Verdicts, TS.ActiveChain, TS.IsBest, Built, Linked,
      J.Last, J.Known, J.Ordered, J.NewInOrder;
    var y := s.sys.(tree := s.saved);
    SavedGenesis(g, s);
    assert !s.saved.flagged[m];
    assert J.Clean(y, m);
  }

  lemma SavedGenesis(g: Config, s: State)
    requires Inv(g, s)
    ensures |s.saved.status| == |s.saved.nodes| && forall i :: 0 < i < |s.saved.nodes| ==> s.saved.status[i] != TS.Genesis
  {
    hide TreeOk, BlocksOk, StatusesOk, FileOk, CertifiedOk, J.JournalOk, TS.ActiveChain, TS.IsBest, Built,
      TS.DirtyList;
    TS.GenesisOnly(g.rules, s.saved);
  }

  /** So does a record of the batch about a block that is connected in the running tree. */
  lemma BatchSpeaks(g: Config, s: State, k: nat)
    requires Inv(g, s) && TS.Sound(g.rules, s.sys.tree)
    requires |s.sys.journal| <= k < |Credited(g, s).journal| == |Credited(g, s).ids|
    ensures var m := Credited(g, s).ids[k];
            && 0 < m < |s.sys.tree.status|
            && (s.sys.tree.status[m].IsConnected() ==> Credited(g, s).journal[k].persisted.WasConnected?)
  {
    hide BlocksOk, StatusesOk, FileOk, SavedOk, J.RecordsOf, J.JournalOk, TS.ActiveChain, TS.IsBest, Built, Linked,
      Restart.Certified;
    J.DirtyIsWritten(g.rules, s.sys.tree);
    TS.GenesisOnly(g.rules, s.sys.tree);
  }

  lemma ParentIsConnected(g: Config, s: State, m: nat)
    requires Inv(g, s) && TS.Sound(g.rules, s.sys.tree) && 0 < m < |s.saved.nodes| == |s.saved.status|
    requires s.saved.nodes <= s.sys.tree.nodes && |s.sys.tree.nodes| == |s.sys.tree.status|
    requires s.saved.status[m].IsConnected() && s.sys.tree.status[m].IsConnected()
    ensures Linked(s.sys.tree.nodes) && Linked(s.saved.nodes)
    ensures var p := Up(s.sys.tree.nodes, m);
            p == Up(s.saved.nodes, m) && s.saved.status[p].IsConnected() && s.sys.tree.status[p].IsConnected()
  {
    hide TreeOk, BlocksOk, StatusesOk, FileOk, CertifiedOk, J.JournalOk, TS.Verdicts, TS.IsBest, Built, TS.DirtyList;
    R.ActiveUp(g.rules, s.saved, m);
    R.ActiveUp(g.rules, s.sys.tree, m);
  }

  lemma CommittedReads(g: Config, s: State, files: Files, journal: seq<byte>)
    requires Inv(g, s) && CrashLeaves(s, files, journal) && s.phase != BatchWritten
    ensures ReadAll(g.checksum, journal).0 == s.sys.journal
  {
    hide TS.Sound, J.JournalOk, BlocksOk, StatusesOk, SavedOk, AllWritable, JournalOf, Batch, ReadAll, Survives,
      AllReadBack, RecordsOk;
    StateReadsBack(g, s, files, journal);
  }

  lemma SavedLoads(g: Config, s: State, now: nat, m: nat)
    requires Inv(g, s) && m < |s.saved.nodes| == |s.saved.status|
    requires s.saved.status[m].IsConnected() && Linked(s.saved.nodes)
    requires R.Admits(g.rules, s.saved.nodes, |s.saved.nodes|, now)
    ensures var t := s.saved;
            var r := R.Load(g.rules, g.cap, s.sys.journal, now, t.nodes[m].hash);
            && r.Loaded? && TS.Shaped(t)
            && r.tree.nodes == t.nodes && r.tree.index == t.index
            && r.tree.best == t.best && r.tree.tip == m && r.tree.dirty == []
            && R.Restores(t, r.tree, m)
  {
    hide R.Load, R.Restores, J.JournalOk, TreeOk, BlocksOk, StatusesOk, FileOk, TS.Verdicts, TS.ActiveChain,
      TS.IsBest, Built, TS.DirtyList, Linked;
    R.LoadRestores(g.rules, g.cap, s.sys.(tree := s.saved), now, m);
  }

  // ----- the calls --------------------------------------------------------------------------------

  /** A commit is the three steps, none of which can be stopped, and leaves nothing to write. */
  lemma CommitGoesThrough(g: Config, s: State) returns (a: State, b: State, t: State)
    requires Inv(g, s) && s.phase == Idle && s.sys.tree.dirty != []
    ensures Next(g, s, SyncBlocks, a) && Next(g, a, WriteBatch, b) && Next(g, b, SyncBatch, t)
    ensures Inv(g, t) && t.phase == Idle && t.saved == t.sys.tree && t.saved.dirty == []
    ensures TS.Sound(g.rules, s.sys.tree) && t.sys == J.Committed(s.sys) && t.blocks == Synced(s.blocks)
  {
    hide Inv, TS.Sound, J.Committed, Synced, AllWritable, Batch, JournalOf;
    a := s.(blocks := Synced(s.blocks), phase := BlocksSynced);
    SyncBlocksKeeps(g, s, a);
    InvSound(g, a);
    BatchIsWritable(g, a);
    b := a.(journal := a.journal + JournalOf(g.checksum, Batch(a.sys)), phase := BatchWritten);
    WriteBatchKeeps(g, a, b);
    CommittedOk(g, b);
    var x := J.Committed(b.sys);
    var file := if x.journal == b.sys.journal + Batch(b.sys) then b.journal else JournalOf(g.checksum, x.journal);
    t := b.(sys := x, saved := x.tree, journal := file, synced := |file|, phase := Idle);
    SyncBatchKeeps(g, b, t);
  }

  lemma InvSound(g: Config, s: State)
    requires Inv(g, s)
    ensures TS.Sound(g.rules, s.sys.tree)
    ensures TS.Shaped(s.sys.tree) && TS.DirtyList(s.sys.tree.flagged, s.sys.tree.dirty)
  {
    hide J.JournalOk, BlocksOk, StatusesOk, SavedOk, FileOk, TS.Verdicts, TS.ActiveChain, TS.IsBest, Built;
  }

  method WriteBlockBytes(blocks: SeriesWriter, bytes: seq<byte>) returns (at: Io<TS.Location>)
    requires blocks.Good() && Suits(blocks.shape, bytes, [])
    modifies blocks
    ensures blocks.Good()
    ensures var (v, placed) := Appended(blocks.shape, old(blocks.View()), bytes, []);
            && blocks.View() == v
            && match placed
               case Ok(p) => at.Ok? && L.AsPlaced(at.value) == p
               case Err(error) => at == Err(error)
  {
    hide Appended, Valid;
    var placed := blocks.Append(bytes, []);
    match placed
    case Err(error) => at := Err(error);
    case Ok(p) => at := Ok(TS.Location(p.file, p.offset, p.len));
  }

  /** Every block an entry names was written to this series. */
  ghost predicate AllPlaced(shape: Shape, files: Files, status: seq<TS.Status>) {
    forall i :: 0 <= i < |status| && status[i].Where().Some? ==> IsPlaced(shape, files, status[i].Where().value)
  }

  ghost predicate IsPlaced(shape: Shape, files: Files, at: TS.Location) {
    exists body :: Holds(shape, files, L.AsPlaced(at), body, [])
  }

  lemma PlacedIsOnDisk(shape: Shape, v: View, status: seq<TS.Status>)
    requires Valid(shape, v) && AllPlaced(shape, v.files, status)
    ensures L.AllOnDisk(shape, Synced(v), status)
  {
    hide Valid, Synced;
    forall i | 0 <= i < |status| && status[i].Where().Some?
      ensures Durable(shape, Synced(v), L.AsPlaced(status[i].Where().value))
    {
      var at := status[i].Where().value;
      assert IsPlaced(shape, v.files, at);
      var body :| Holds(shape, v.files, L.AsPlaced(at), body, []);
      SyncMakesDurable(shape, v, Entry(L.AsPlaced(at), body, []));
    }
  }

  /**
    The blocks are synced before a record that could name them is written: the write asks for it, and
    nothing but the sync can answer for a block that was just placed.
   */
  method CommitIndex(blocks: SeriesWriter, file: L.JournalFile, tree: H.HeaderTree)
    requires blocks.Good() && tree.Valid() && file.Valid()
    requires AllPlaced(blocks.shape, blocks.files, tree.status)
    modifies blocks, file, tree
    ensures blocks.Good() && tree.Valid() && file.Valid()
    ensures blocks.View() == if old(tree.dirty) == [] then old(blocks.View()) else Synced(old(blocks.View()))
    ensures file.View(tree.View()) == Sessions.Filed(old(file.View(tree.View())))
    ensures old(tree.dirty) != [] ==> L.AllOnDisk(blocks.shape, blocks.View(), tree.status)
  {
    hide TS.Verdicts, TS.ActiveChain, TS.IsBest, Built, Linked, J.RecordsOf, Valid, Synced, L.AllOnDisk, AllPlaced;
    if tree.dirty == [] {
      return;
    }
    PlacedIsOnDisk(blocks.shape, blocks.View(), tree.status);
    blocks.Sync();
    L.Commit(file, tree, blocks);
  }

  // ----- undo records -----------------------------------------------------------------------------

  /** The hash behind an undo record's trailer. */
  type Digest = d: seq<byte> -> seq<byte> | forall s :: |d(s)| == 32 witness (_ => seq(32, _ => 0))

  /** The digest of the previous hash and the record together. */
  function TrailerOf(digest: Digest, record: seq<byte>, previous: Hash): seq<byte> {
    digest(previous + record)
  }

  ghost function UndoAt(digest: Digest, shape: Shape, files: Files, at: Placed, previous: Hash): Io<seq<byte>>
    requires Proper(shape)
  {
    match ReadAt(shape, files, at)
    case Err(error) => Err(error)
    case Ok(read) => if read.1 == TrailerOf(digest, read.0, previous) then Ok(read.0) else Err(BadChecksum)
  }

  /** An undo record comes back under the block it was written for, and under another only if the digests collide. */
  lemma UndoReadsBackIff(
    digest: Digest, shape: Shape, v: View, record: seq<byte>, previous: Hash, asked: Hash)
    requires Valid(shape, v) && Suits(shape, record, TrailerOf(digest, record, previous))
    requires Appended(shape, v, record, TrailerOf(digest, record, previous)).1.Ok?
    ensures var (w, placed) := Appended(shape, v, record, TrailerOf(digest, record, previous));
            UndoAt(digest, shape, w.files, placed.value, asked) == Ok(record)
            <==> digest(asked + record) == digest(previous + record)
  {
    hide Appended, ReadAt, Valid;
    var trailer := TrailerOf(digest, record, previous);
    AppendedHolds(shape, v, record, trailer);
    var (w, placed) := Appended(shape, v, record, trailer);
    ReadsWhatIsHeld(shape, w.files, placed.value, record, trailer);
  }

  method WriteUndo(undo: SeriesWriter, digest: Digest, bytes: seq<byte>, previous: Hash)
    returns (at: Io<TS.UndoLocation>)
    requires undo.Good() && Suits(undo.shape, bytes, TrailerOf(digest, bytes, previous))
    modifies undo
    ensures undo.Good()
    ensures var (v, placed) := Appended(undo.shape, old(undo.View()), bytes, TrailerOf(digest, bytes, previous));
            && undo.View() == v
            && match placed
               case Ok(p) => at == Ok(TS.UndoLocation(p.file, p.offset, p.len))
               case Err(error) => at == Err(error)
  {
    hide Appended, Valid;
    var placed := undo.Append(bytes, TrailerOf(digest, bytes, previous));
    match placed
    case Err(error) => at := Err(error);
    case Ok(p) => at := Ok(TS.UndoLocation(p.file, p.offset, p.len));
  }

  method ReadUndo(digest: Digest, shape: Shape, files: Files, at: Placed, previous: Hash)
    returns (r: Io<seq<byte>>)
    requires Proper(shape)
    ensures r == UndoAt(digest, shape, files, at, previous)
  {
    hide ReadAt;
    var read := Series.Read(shape, files, at);
    match read
    case Err(error) => r := Err(error);
    case Ok(both) =>
      r := if both.1 == TrailerOf(digest, both.0, previous) then Ok(both.0) else Err(BadChecksum);
  }
}
