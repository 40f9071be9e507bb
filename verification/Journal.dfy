/**
  The block index journal at the level of records: what is written down, and why it is enough.

  A record keeps a header and what this node has of the block behind it. Heights, work, links,
  the best header and most verdicts are left for the replay to derive again.
 */
module Journal {
  import opened Bytes
  import opened Arena
  import opened TreeState

  /** The part of a status that is written out. */
  datatype Persisted =
    | Accepted
    | Checked(location: Location)
    | WasConnected(location: Location, undo: UndoLocation)
    | RefusedBy(stage: Stage)

  datatype Record = Record(header: Header, persisted: Persisted)

  /** The record made of a status. Genesis has none, and a verdict a replay reaches unaided leaves no trace in one. */
  function PersistedOf(status: Status): Option<Persisted> {
    match status
    case Genesis => None
    case HeaderAccepted => Some(Accepted)
    case InvalidAncestor(_) => Some(Accepted)
    case BlockChecked(location) => Some(Checked(location))
    case Connected(location, undo) => Some(WasConnected(location, undo))
    case Invalid(invalidity) =>
      if invalidity == Refused(AcceptHeader) then Some(Accepted) else Some(RefusedBy(invalidity.stage))
  }

  /** The records a batch of entries is written as. */
  ghost function RecordsOf(s: State, ids: seq<nat>): seq<Record>
    requires |s.status| == |s.nodes| && forall k :: 0 <= k < |ids| ==> ids[k] < |s.nodes|
  {
    if |ids| == 0 then []
    else
      var i := ids[|ids| - 1];
      RecordsOf(s, ids[..|ids| - 1])
      + (match PersistedOf(s.status[i])
         case None => []
         case Some(p) => [Record(s.nodes[i].header, p)])
  }

  // ----- the node as tree and journal together ----------------------------------------------

  /** The tree, the journal beside it, and which entry each record is about. */
  datatype Sys = Sys(tree: State, journal: seq<Record>, ids: seq<nat>)

  datatype SysOp = OnTree(op: Op) | Commit | Rewrite

  const MIN_LIVE_RECORDS: nat := 1024

  ghost function Everything(n: nat): (ids: seq<nat>)
    ensures |ids| == n && forall k :: 0 <= k < n ==> ids[k] == k
  {
    seq(n, i => i)
  }

  ghost function Rewritten(x: Sys): Sys
    requires |x.tree.status| == |x.tree.nodes| > 0
  {
    var n := |x.tree.nodes|;
    Sys(x.tree, RecordsOf(x.tree, Everything(n)), Everything(n)[1..])
  }

  /** The dirty entries appended, the file snapshotted past twice the live count, the marks gone. */
  ghost function Committed(x: Sys): Sys
    requires Shaped(x.tree) && DirtyList(x.tree.flagged, x.tree.dirty)
  {
    if x.tree.dirty == [] then x
    else
      var appended := Appended(x);
      var live := if |x.tree.nodes| > MIN_LIVE_RECORDS then |x.tree.nodes| else MIN_LIVE_RECORDS;
      if RecordsOf(x.tree, x.tree.dirty) == [] then x.(tree := ClearDirty(x.tree))
      else if |appended.journal| <= 2 * live then appended
      else Rewritten(appended)
  }

  ghost predicate SysLegal(rules: Rules, x: Sys, op: SysOp) {
    && Sound(rules, x.tree)
    && match op
       case OnTree(t) => Legal(rules, x.tree, t) && t != OpClearDirty
       case Commit => true
       case Rewrite => true
  }

  ghost function SysStep(rules: Rules, cap: nat, x: Sys, op: SysOp): Sys
    requires SysLegal(rules, x, op)
  {
    match op
    case OnTree(t) => x.(tree := Step(rules, cap, x.tree, t))
    case Commit => Committed(x)
    case Rewrite => Rewritten(x)
  }

  ghost function SysRun(rules: Rules, cap: nat, ops: seq<SysOp>): Option<Sys> {
    if |ops| == 0 then Some(Sys(Start(rules), [], []))
    else
      match SysRun(rules, cap, ops[..|ops| - 1])
      case None => None
      case Some(x) =>
        var op := ops[|ops| - 1];
        if SysLegal(rules, x, op) then Some(SysStep(rules, cap, x, op)) else None
  }

  // ----- what the journal says about the tree -----------------------------------------------

  /** How much of the arena a list of records has introduced, genesis included. */
  ghost function Known(ids: seq<nat>): (n: nat)
    ensures n >= 1
  {
    if |ids| == 0 then 1
    else
      var n := Known(ids[..|ids| - 1]);
      if ids[|ids| - 1] == n then n + 1 else n
  }

  /** Every record is about a known entry or introduces the next one. */
  ghost predicate Ordered(ids: seq<nat>) {
    |ids| > 0 ==>
      && Ordered(ids[..|ids| - 1])
      && 0 < ids[|ids| - 1] <= Known(ids[..|ids| - 1])
  }

  /** The last thing the journal said about an entry. */
  ghost function Last(journal: seq<Record>, ids: seq<nat>, i: nat): Option<Persisted>
    requires |journal| == |ids|
  {
    if |ids| == 0 then None
    else if ids[|ids| - 1] == i then Some(journal[|ids| - 1].persisted)
    else Last(journal[..|ids| - 1], ids[..|ids| - 1], i)
  }

  /**
    Whether a record still stands for a status: up to the verdicts a replay derives by itself, and up
    to a connect that a reload below it took back.
   */
  predicate Agrees(p: Persisted, status: Status) {
    match status
    case Genesis => false
    case InvalidAncestor(_) => true
    case BlockChecked(location) => p == Checked(location) || (p.WasConnected? && p.location == location)
    case Invalid(invalidity) => invalidity == Refused(AcceptHeader) || PersistedOf(status) == Some(p)
    case _ => PersistedOf(status) == Some(p)
  }

  /** How many entries of a list are new to a journal that knows `k`. */
  ghost function CountNew(dirty: seq<nat>, k: nat): nat {
    if |dirty| == 0 then 0
    else CountNew(dirty[..|dirty| - 1], k) + (if dirty[|dirty| - 1] >= k then 1 else 0)
  }

  /** The entries the journal has not seen are in the dirty list, all of them, in arena order. */
  ghost predicate NewInOrder(dirty: seq<nat>, k: nat, n: nat) {
    && CountNew(dirty, k) + k == n
    && forall m :: 0 <= m < |dirty| && dirty[m] >= k ==> dirty[m] == k + CountNew(dirty[..m], k)
  }

  /** Each record carries the header of the entry it is about. */
  ghost predicate Headed(nodes: seq<Node>, journal: seq<Record>, ids: seq<nat>) {
    && |journal| == |ids|
    && forall k :: 0 <= k < |ids| ==> 0 < ids[k] < |nodes| && journal[k].header == nodes[ids[k]].header
  }

  /** An entry that is not marked dirty is known, and the last record about it stands. */
  ghost predicate Clean(x: Sys, i: nat)
    requires |x.journal| == |x.ids| && i < |x.tree.status|
  {
    i < Known(x.ids)
    && var last := Last(x.journal, x.ids, i); last.Some? && Agrees(last.value, x.tree.status[i])
  }

  ghost predicate JournalOk(x: Sys)
    requires Shaped(x.tree)
  {
    && Headed(x.tree.nodes, x.journal, x.ids)
    && Ordered(x.ids)
    && Known(x.ids) <= |x.tree.nodes|
    && NewInOrder(x.tree.dirty, Known(x.ids), |x.tree.nodes|)
    && forall i {:trigger Clean(x, i)} ::
         0 < i < |x.tree.nodes| && !x.tree.flagged[i] ==> Clean(x, i)
  }

  // ----- tree operations --------------------------------------------------------------------

  /** What any tree operation may do to the entries the journal already agrees with. */
  ghost predicate Benign(s: State, t: State)
    requires Shaped(s) && Shaped(t)
  {
    && s.nodes <= t.nodes
    && (forall i :: 0 <= i < |s.nodes| && !t.flagged[i] ==>
          !s.flagged[i] && (t.status[i] == s.status[i]
                            || (t.status[i].InvalidAncestor? && !s.status[i].IsTerminal())))
    && (forall i :: |s.nodes| <= i < |t.nodes| ==> t.flagged[i])
    && (|t.nodes| == |s.nodes| ==>
          t.dirty == s.dirty
          || exists i :: 0 < i < |s.nodes| && !s.flagged[i] && t.dirty == s.dirty + [i])
    && (|t.nodes| > |s.nodes| ==>
          |t.nodes| == |s.nodes| + 1 && t.dirty == s.dirty + [|s.nodes|])
  }

  lemma SetStatusIsBenign(s: State, node: nat, state: Status, tip: nat)
    requires Shaped(s) && 0 < node < |s.nodes| && tip < |s.nodes|
    requires Shaped(SetStatus(s, node, state).(tip := tip))
    ensures Benign(s, SetStatus(s, node, state).(tip := tip))
  {
  }

  lemma AcceptIsBenign(rules: Rules, cap: nat, s: State, header: Header, now: nat)
    requires Shaped(s) && Shaped(Accept(rules, cap, s, header, now).0)
    ensures Benign(s, Accept(rules, cap, s, header, now).0)
  {
  }

  lemma TreeStepIsBenign(rules: Rules, cap: nat, s: State, op: Op)
    requires Sound(rules, s) && Legal(rules, s, op) && op != OpClearDirty
    requires Shaped(Step(rules, cap, s, op))
    ensures Benign(s, Step(rules, cap, s, op))
  {
    hide Verdicts, ActiveChain, Built, IsBest, DirtyList, Linked, Benign, Inherited, BestUpTo, Judge, Child;
    GenesisOnly(rules, s);
    RootHasNoParent(s);
    match op
    case OpAccept(header, now) => AcceptIsBenign(rules, cap, s, header, now);
    case OpCheck(node, location) => SetStatusIsBenign(s, node, BlockChecked(location), s.tip);
    case OpConnect(node, undo) =>
      SetStatusIsBenign(s, node, Connected(s.status[node].location, undo), node);
    case OpDisconnect(node) =>
      SetStatusIsBenign(s, node, BlockChecked(s.status[node].location), s.nodes[node].parent.value);
    case OpInvalidate(node, invalidity) => InvalidateIsBenign(s, node, invalidity);
  }

  lemma RootHasNoParent(s: State)
    requires Shaped(s)
    ensures |s.status| == |s.nodes| > 0 && s.nodes[0].parent == None
    ensures forall i :: 0 < i < |s.nodes| && s.nodes[i].parent.Some? ==> s.nodes[i].parent.value < |s.nodes|
  {
    forall i | 0 < i < |s.nodes| ensures s.nodes[i].parent.Some? ==> s.nodes[i].parent.value < |s.nodes| {
      assert NodeLinked(s.nodes, i);
    }
  }

  lemma InvalidateIsBenign(s: State, node: nat, invalidity: Invalidity)
    requires CanInvalidate(s, node, invalidity) && node > 0
    requires Shaped(Invalidate(s, node, invalidity))
    ensures Benign(s, Invalidate(s, node, invalidity))
  {
  }

  lemma {:induction false} CountNewNone(dirty: seq<nat>, k: nat)
    requires forall m :: 0 <= m < |dirty| ==> dirty[m] < k
    ensures CountNew(dirty, k) == 0
  {
    if |dirty| > 0 {
      CountNewNone(dirty[..|dirty| - 1], k);
    }
  }

  lemma NewInOrderPush(dirty: seq<nat>, k: nat, n: nat, i: nat)
    requires NewInOrder(dirty, k, n) && k <= n && (i < k || i == n)
    ensures NewInOrder(dirty + [i], k, if i == n then n + 1 else n)
  {
    var more := dirty + [i];
    assert more[..|dirty|] == dirty;
    forall m | 0 <= m < |more| && more[m] >= k
      ensures more[m] == k + CountNew(more[..m], k)
    {
      if m < |dirty| {
        assert more[..m] == dirty[..m];
      }
    }
  }

  /** A tree operation leaves every record it does not supersede standing. */
  lemma TreeStepKeepsJournal(x: Sys, t: State)
    requires Shaped(x.tree) && Shaped(t) && JournalOk(x) && Benign(x.tree, t)
    ensures JournalOk(x.(tree := t))
  {
    var y := x.(tree := t);
    var k := Known(x.ids);
    hide Known, Last, CountNew, Ordered, Linked;
    if |t.nodes| > |x.tree.nodes| {
      NewInOrderPush(x.tree.dirty, k, |x.tree.nodes|, |x.tree.nodes|);
    } else if t.dirty != x.tree.dirty {
      var i :| 0 < i < |x.tree.nodes| && !x.tree.flagged[i] && t.dirty == x.tree.dirty + [i];
      assert Clean(x, i);
      NewInOrderPush(x.tree.dirty, k, |x.tree.nodes|, i);
    }
    forall i | 0 < i < |t.nodes| && !t.flagged[i] ensures Clean(y, i) {
      assert Clean(x, i);
    }
  }

  // ----- commits ----------------------------------------------------------------------------

  lemma {:induction false} RecordsOfEntries(s: State, ids: seq<nat>)
    requires |s.status| == |s.nodes|
    requires forall k :: 0 <= k < |ids| ==> ids[k] < |s.nodes| && s.status[ids[k]] != Genesis
    ensures |RecordsOf(s, ids)| == |ids|
    ensures forall k :: 0 <= k < |ids| ==>
              RecordsOf(s, ids)[k] == Record(s.nodes[ids[k]].header, PersistedOf(s.status[ids[k]]).value)
  {
    if |ids| > 0 {
      RecordsOfEntries(s, ids[..|ids| - 1]);
    }
  }

  /** Genesis is passed over, and nothing else is. */
  lemma {:induction false} RecordsOfEverything(s: State, n: nat)
    requires |s.status| == |s.nodes| && 0 < n <= |s.nodes| && s.status[0] == Genesis
    requires forall i :: 0 < i < |s.nodes| ==> s.status[i] != Genesis
    ensures RecordsOf(s, Everything(n)) == RecordsOf(s, Everything(n)[1..])
  {
    var ids := Everything(n);
    assert ids[..n - 1] == Everything(n - 1);
    if n == 1 {
      assert ids[..0] == [];
    } else {
      RecordsOfEverything(s, n - 1);
      assert ids[1..][..n - 2] == Everything(n - 1)[1..];
      assert ids[1..][n - 2] == n - 1;
    }
  }

  lemma OrderedPush(ids: seq<nat>, i: nat)
    requires Ordered(ids) && 0 < i <= Known(ids)
    ensures Ordered(ids + [i]) && Known(ids + [i]) == if i == Known(ids) then i + 1 else Known(ids)
  {
    assert (ids + [i])[..|ids|] == ids;
  }

  lemma CountNewPush(dirty: seq<nat>, i: nat, k: nat)
    ensures CountNew(dirty + [i], k) == CountNew(dirty, k) + if i >= k then 1 else 0
  {
    assert (dirty + [i])[..|dirty|] == dirty;
  }

  /** Appending a batch written from the tree, entry by entry. */
  lemma {:induction false} BatchKeepsOrder(ids: seq<nat>, batch: seq<nat>, n: nat, m: nat)
    requires Ordered(ids) && m <= |batch| && NewInOrder(batch, Known(ids), n)
    requires forall j :: 0 <= j < |batch| ==> batch[j] > 0
    ensures Ordered(ids + batch[..m])
    ensures Known(ids + batch[..m]) == Known(ids) + CountNew(batch[..m], Known(ids))
    decreases m
  {
    if m == 0 {
      assert ids + batch[..0] == ids;
    } else {
      hide Ordered, Known, CountNew;
      BatchKeepsOrder(ids, batch, n, m - 1);
      assert batch[..m] == batch[..m - 1] + [batch[m - 1]];
      Associates(ids, batch[..m - 1], [batch[m - 1]]);
      OrderedPush(ids + batch[..m - 1], batch[m - 1]);
      CountNewPush(batch[..m - 1], batch[m - 1], Known(ids));
    }
  }

  lemma {:induction false} LastAfterBatch(
    s: State, journal: seq<Record>, ids: seq<nat>, more: seq<Record>, batch: seq<nat>, i: nat)
    requires |journal| == |ids| && |more| == |batch| && i < |s.status| == |s.nodes|
    requires forall k :: 0 <= k < |batch| ==>
               batch[k] < |s.nodes| && PersistedOf(s.status[batch[k]]) == Some(more[k].persisted)
    ensures i in batch ==> Last(journal + more, ids + batch, i) == PersistedOf(s.status[i])
    ensures i !in batch ==> Last(journal + more, ids + batch, i) == Last(journal, ids, i)
    decreases |batch|
  {
    var m := |batch|;
    if m == 0 {
      assert journal + more == journal && ids + batch == ids;
    } else {
      LastAfterBatch(s, journal, ids, more[..m - 1], batch[..m - 1], i);
      assert (journal + more)[..|ids| + m - 1] == journal + more[..m - 1];
      assert (ids + batch)[..|ids| + m - 1] == ids + batch[..m - 1];
      assert batch == batch[..m - 1] + [batch[m - 1]];
      assert (journal + more)[|ids| + m - 1] == more[m - 1];
    }
  }

  lemma AgreesWithItself(status: Status)
    requires status != Genesis
    ensures PersistedOf(status).Some? && Agrees(PersistedOf(status).value, status)
  {
  }

  ghost function Appended(x: Sys): Sys
    requires Shaped(x.tree) && DirtyList(x.tree.flagged, x.tree.dirty)
  {
    Sys(ClearDirty(x.tree), x.journal + RecordsOf(x.tree, x.tree.dirty), x.ids + x.tree.dirty)
  }

  lemma CleanAfterAppend(x: Sys, more: seq<Record>, i: nat)
    requires Shaped(x.tree) && DirtyList(x.tree.flagged, x.tree.dirty)
    requires |x.journal| == |x.ids| && |more| == |x.tree.dirty| && 0 < i < |x.tree.nodes|
    requires forall k :: 0 <= k < |more| ==>
               PersistedOf(x.tree.status[x.tree.dirty[k]]) == Some(more[k].persisted)
    requires x.tree.status[i] != Genesis && (!x.tree.flagged[i] ==> Clean(x, i))
    ensures var last := Last(x.journal + more, x.ids + x.tree.dirty, i);
            last.Some? && Agrees(last.value, x.tree.status[i])
  {
    var s := x.tree;
    LastAfterBatch(s, x.journal, x.ids, more, s.dirty, i);
    AgreesWithItself(s.status[i]);
    hide Last, Known;
    if !s.flagged[i] {
      assert i !in s.dirty;
    }
  }

  /** The journal after a batch of every dirty entry speaks for the whole tree. */
  lemma AppendSpeaksForAll(rules: Rules, x: Sys)
    requires Sound(rules, x.tree) && JournalOk(x)
    ensures Shaped(Appended(x).tree) && JournalOk(Appended(x))
  {
    var y := Appended(x);
    hide Known, Last, CountNew, Ordered, RecordsOf, Linked, Verdicts, ActiveChain, Built, IsBest,
      NewInOrder, Headed, DirtyList, Clean;
    AppendIsHeaded(rules, x);
    AppendIsOrdered(x);
    forall i | 0 < i < |y.tree.nodes| && !y.tree.flagged[i] ensures Clean(y, i) {
      AppendIsClean(rules, x, i);
    }
  }

  lemma AppendIsHeaded(rules: Rules, x: Sys)
    requires Sound(rules, x.tree) && JournalOk(x)
    ensures Headed(x.tree.nodes, Appended(x).journal, Appended(x).ids)
  {
    hide Known, Last, CountNew, Ordered, RecordsOf, Verdicts, ActiveChain, Built, IsBest, Headed;
    DirtyIsHeaded(rules, x.tree);
    HeadedTogether(x.tree.nodes, x.journal, x.ids, RecordsOf(x.tree, x.tree.dirty), x.tree.dirty);
  }

  lemma DirtyIsHeaded(rules: Rules, s: State)
    requires Sound(rules, s)
    ensures Headed(s.nodes, RecordsOf(s, s.dirty), s.dirty)
  {
    hide RecordsOf, Verdicts, ActiveChain, Built, IsBest;
    DirtyIsWritten(rules, s);
  }

  lemma HeadedTogether(nodes: seq<Node>, journal: seq<Record>, ids: seq<nat>, more: seq<Record>, batch: seq<nat>)
    requires Headed(nodes, journal, ids) && Headed(nodes, more, batch)
    ensures Headed(nodes, journal + more, ids + batch)
  {
  }

  lemma AppendIsClean(rules: Rules, x: Sys, i: nat)
    requires Sound(rules, x.tree) && JournalOk(x) && 0 < i < |x.tree.nodes|
    requires |Appended(x).journal| == |Appended(x).ids|
    requires Known(Appended(x).ids) == |x.tree.nodes|
    ensures Clean(Appended(x), i)
  {
    assert !x.tree.flagged[i] ==> Clean(x, i);
    GenesisOnly(rules, x.tree);
    DirtyIsWritten(rules, x.tree);
    hide Known, Last, CountNew, Ordered, RecordsOf, Linked, Verdicts, ActiveChain, Built, IsBest, NewInOrder;
    CleanAfterAppend(x, RecordsOf(x.tree, x.tree.dirty), i);
  }

  lemma AppendIsOrdered(x: Sys)
    requires Shaped(x.tree) && DirtyList(x.tree.flagged, x.tree.dirty) && JournalOk(x)
    ensures Ordered(x.ids + x.tree.dirty) && Known(x.ids + x.tree.dirty) == |x.tree.nodes|
    ensures NewInOrder([], |x.tree.nodes|, |x.tree.nodes|)
  {
    var dirty := x.tree.dirty;
    BatchKeepsOrder(x.ids, dirty, |x.tree.nodes|, |dirty|);
    assert dirty[..|dirty|] == dirty;
  }

  lemma DirtyIsWritten(rules: Rules, s: State)
    requires Sound(rules, s)
    ensures |RecordsOf(s, s.dirty)| == |s.dirty|
    ensures forall k :: 0 <= k < |s.dirty| ==>
              && PersistedOf(s.status[s.dirty[k]]) == Some(RecordsOf(s, s.dirty)[k].persisted)
              && RecordsOf(s, s.dirty)[k].header == s.nodes[s.dirty[k]].header
  {
    GenesisOnly(rules, s);
    RecordsOfEntries(s, s.dirty);
  }

  lemma {:induction false} KnownEverything(n: nat)
    requires n > 0
    ensures Known(Everything(n)[1..]) == n && Ordered(Everything(n)[1..])
  {
    var ids := Everything(n)[1..];
    if n > 1 {
      KnownEverything(n - 1);
      assert ids[..n - 2] == Everything(n - 1)[1..];
      assert ids[n - 2] == n - 1;
    }
  }

  /** A rewrite speaks for the whole tree, whatever the journal held before it. */
  lemma RewriteSpeaksForAll(rules: Rules, x: Sys)
    requires Sound(rules, x.tree)
    ensures JournalOk(Rewritten(x))
  {
    hide Known, Last, CountNew, Ordered, RecordsOf, Linked, Verdicts, ActiveChain, Built, IsBest, PersistedOf;
    var s := x.tree;
    var n := |s.nodes|;
    var y := Rewritten(x);
    GenesisOnly(rules, s);
    EntriesHavePersisted(s);
    RecordsOfEverything(s, n);
    RecordsOfEntries(s, y.ids);
    KnownEverything(n);
    CountNewNone(s.dirty, n);
    assert Headed(s.nodes, y.journal, y.ids);
    forall i | 0 < i < n ensures Clean(y, i) {
      CleanAfterRewrite(s, y.journal, y.ids, i);
    }
  }

  lemma EntriesHavePersisted(s: State)
    requires forall i :: 0 < i < |s.status| ==> s.status[i] != Genesis
    ensures forall i :: 0 < i < |s.status| ==> PersistedOf(s.status[i]).Some?
  {
  }

  lemma CleanAfterRewrite(s: State, journal: seq<Record>, ids: seq<nat>, i: nat)
    requires 0 < i < |s.nodes| == |s.status| && s.status[i] != Genesis
    requires ids == Everything(|s.nodes|)[1..] && |journal| == |ids|
    requires forall k :: 0 <= k < |ids| ==> PersistedOf(s.status[ids[k]]) == Some(journal[k].persisted)
    ensures var last := Last(journal, ids, i); last.Some? && Agrees(last.value, s.status[i])
  {
    hide Last, Agrees, PersistedOf;
    LastAfterBatch(s, [], [], journal, ids, i);
    assert [] + journal == journal && [] + ids == ids;
    assert ids[i - 1] == i;
    AgreesWithItself(s.status[i]);
  }

  // ----- runs -------------------------------------------------------------------------------

  lemma CommitKeepsJournal(rules: Rules, x: Sys)
    requires Sound(rules, x.tree) && JournalOk(x)
    ensures Sound(rules, Committed(x).tree) && JournalOk(Committed(x))
    ensures Committed(x).tree.dirty == []
  {
    if x.tree.dirty != [] {
      var a := Appended(x);
      hide Verdicts, ActiveChain, IsBest, Built, JournalOk, RecordsOf, Linked;
      ClearDirtyIsSound(rules, x.tree);
      AppendSpeaksForAll(rules, x);
      DirtyIsWritten(rules, x.tree);
      RewriteSpeaksForAll(rules, a);
    }
  }

  lemma SysStepKeepsJournal(rules: Rules, cap: nat, x: Sys, op: SysOp)
    requires SysLegal(rules, x, op) && JournalOk(x)
    ensures Sound(rules, SysStep(rules, cap, x, op).tree) && JournalOk(SysStep(rules, cap, x, op))
  {
    match op
    case OnTree(t) =>
      StepIsSound(rules, cap, x.tree, t);
      TreeStepIsBenign(rules, cap, x.tree, t);
      TreeStepKeepsJournal(x, Step(rules, cap, x.tree, t));
    case Commit => CommitKeepsJournal(rules, x);
    case Rewrite => RewriteSpeaksForAll(rules, x);
  }

  lemma StepKeepsCap(rules: Rules, cap: nat, x: Sys, op: SysOp)
    requires SysLegal(rules, x, op) && |x.tree.nodes| <= cap
    ensures |SysStep(rules, cap, x, op).tree.nodes| <= cap
  {
    hide Sound, Judge, Inherited, BestUpTo, RecordsOf, Child;
  }

  lemma EmptyJournalOk(rules: Rules)
    ensures Sound(rules, Start(rules)) && JournalOk(Sys(Start(rules), [], []))
  {
    StartIsSound(rules);
    CountNewNone([], 1);
  }

  /** After every run of tree operations, commits and rewrites, the journal is in step. */
  lemma {:induction false} RunKeepsJournal(rules: Rules, cap: nat, ops: seq<SysOp>)
    ensures var r := SysRun(rules, cap, ops);
            r.Some? ==>
              && Sound(rules, r.value.tree) && JournalOk(r.value)
              && (cap > 0 ==> |r.value.tree.nodes| <= cap)
    decreases |ops|
  {
    hide JournalOk, SysStep, Sound;
    if |ops| == 0 {
      EmptyJournalOk(rules);
    } else {
      RunKeepsJournal(rules, cap, ops[..|ops| - 1]);
      var before := SysRun(rules, cap, ops[..|ops| - 1]);
      if before.Some? && SysLegal(rules, before.value, ops[|ops| - 1]) {
        SysStepKeepsJournal(rules, cap, before.value, ops[|ops| - 1]);
        if cap > 0 {
          StepKeepsCap(rules, cap, before.value, ops[|ops| - 1]);
        }
      }
    }
  }
}
