/**
  Loading the journal: replay the headers, give back the block data and the verdicts, and connect
  as far as the coin store's marker. The main theorem is that what a run wrote down is enough.
 */
module Recovery {
  import opened Bytes
  import opened SkipList
  import opened Arena
  import opened TreeState
  import opened Journal

  datatype Replayed = Replayed(tree: State, statuses: seq<Option<Persisted>>, rejected: bool)

  /** Where the tree kept a header, when it kept it. */
  function KeptAt(outcome: Outcome): Option<nat> {
    match outcome
    case First(node) => Some(node)
    case Duplicate(node) => Some(node)
    case StoredInvalid(node) => Some(node)
    case StoredInvalidAncestor(node, _) => Some(node)
    case _ => None
  }

  /** Note a status at an entry's position, filling up with blanks to reach it. */
  function Noted(statuses: seq<Option<Persisted>>, node: nat, p: Persisted): (r: seq<Option<Persisted>>)
    ensures node < |r|
    ensures forall i: nat :: StatusAt(r, i) == if i == node then Some(p) else StatusAt(statuses, i)
  {
    var grown := if |statuses| <= node then statuses + seq(node + 1 - |statuses|, _ => None) else statuses;
    grown[node := Some(p)]
  }

  function StatusAt(statuses: seq<Option<Persisted>>, i: nat): Option<Persisted> {
    if i < |statuses| then statuses[i] else None
  }

  function LocationIn(p: Option<Persisted>): Option<Location> {
    match p
    case Some(Checked(location)) => Some(location)
    case Some(WasConnected(location, _)) => Some(location)
    case _ => None
  }

  /** What a load has done to one entry once the first `k` have been applied. */
  ghost predicate AppliedAt(status: Status, p: Option<Persisted>, i: nat, k: nat) {
    match status
    case Genesis => i == 0
    case HeaderAccepted => i >= k || p == None || p == Some(Accepted)
    case BlockChecked(location) => i < k && LocationIn(p) == Some(location)
    case Connected(_, _) => false
    case Invalid(invalidity) =>
      invalidity == Refused(AcceptHeader) || (i < k && p == Some(RefusedBy(invalidity.stage)))
    case InvalidAncestor(_) => true
  }

  ghost predicate Applied(s: State, statuses: seq<Option<Persisted>>, k: nat) {
    forall i :: 0 <= i < |s.status| ==> AppliedAt(s.status[i], StatusAt(statuses, i), i, k)
  }

  /** The first `k` entries have been applied to a sound tree. */
  ghost predicate Ready(rules: Rules, s: State, statuses: seq<Option<Persisted>>, k: nat) {
    Sound(rules, s) && k <= |s.nodes| && Applied(s, statuses, k)
  }

  /** No block data yet, and no verdict but a header's. */
  ghost predicate Fresh(status: seq<Status>) {
    forall i :: 0 <= i < |status| ==> AppliedAt(status[i], None, i, 0)
  }

  lemma AcceptKeepsFresh(rules: Rules, cap: nat, s: State, header: Header, now: nat)
    requires Shaped(s) && Fresh(s.status)
    ensures Fresh(Accept(rules, cap, s, header, now).0.status)
    ensures Accept(rules, cap, s, header, now).0.tip == s.tip
  {
    hide Judge, Child, Linked;
    var status := Accept(rules, cap, s, header, now).0.status;
    forall i | 0 <= i < |status| ensures AppliedAt(status[i], None, i, 0) {
      assert i < |s.status| ==> AppliedAt(s.status[i], None, i, 0);
    }
  }

  /** Read every record, stopping at the first header the tree does not keep. */
  ghost function Replay(rules: Rules, cap: nat, journal: seq<Record>, now: nat): (r: Replayed)
    ensures Sound(rules, r.tree) && r.tree.tip == 0 && Fresh(r.tree.status)
  {
    if |journal| == 0 then
      StartIsSound(rules);
      Replayed(Start(rules), [], false)
    else
      var before := Replay(rules, cap, journal[..|journal| - 1], now);
      var record := journal[|journal| - 1];
      if before.rejected then before
      else
        AcceptIsSound(rules, cap, before.tree, record.header, now);
        AcceptKeepsFresh(rules, cap, before.tree, record.header, now);
        var (tree, outcome) := Accept(rules, cap, before.tree, record.header, now);
        match KeptAt(outcome)
        case None => before.(rejected := true)
        case Some(node) => Replayed(tree, Noted(before.statuses, node, record.persisted), false)
  }

  /**
    One entry takes on its noted status. The guards are the assertions of the two
    calls; `ApplyOneApplies` shows that a load never fails one.
   */
  ghost function ApplyOne(s: State, statuses: seq<Option<Persisted>>, i: nat): State {
    var p := StatusAt(statuses, i);
    if i >= |s.status| || p == None || s.status[i].IsTerminal() || s.status[i] == Genesis then s
    else
      match p.value
      case Accepted => s
      case Checked(location) => if CanCheck(s, i) then Check(s, i, location) else s
      case WasConnected(location, _) => if CanCheck(s, i) then Check(s, i, location) else s
      case RefusedBy(stage) =>
        if CanInvalidate(s, i, Reloaded(stage)) then Invalidate(s, i, Reloaded(stage)) else s
  }

  lemma CheckApplies(s: State, statuses: seq<Option<Persisted>>, i: nat, location: Location)
    requires CanCheck(s, i) && Applied(s, statuses, i) && LocationIn(StatusAt(statuses, i)) == Some(location)
    ensures Applied(Check(s, i, location), statuses, i + 1)
  {
    var r := Check(s, i, location);
    hide Shaped;
    forall j | 0 <= j < |r.status| ensures AppliedAt(r.status[j], StatusAt(statuses, j), j, i + 1) {
      assert AppliedAt(s.status[j], StatusAt(statuses, j), j, i);
    }
  }

  lemma RefuseApplies(s: State, statuses: seq<Option<Persisted>>, i: nat, stage: Stage)
    requires CanInvalidate(s, i, Reloaded(stage)) && Applied(s, statuses, i)
    requires StatusAt(statuses, i) == Some(RefusedBy(stage))
    ensures Applied(Invalidate(s, i, Reloaded(stage)), statuses, i + 1)
  {
    var r := Invalidate(s, i, Reloaded(stage));
    var marked := s.status[i := Invalid(Reloaded(stage))];
    forall j | 0 <= j < |r.status| ensures AppliedAt(r.status[j], StatusAt(statuses, j), j, i + 1) {
      assert AppliedAt(s.status[j], StatusAt(statuses, j), j, i);
      assert r.status[j] == Inherited(s.nodes, marked, i, j);
    }
  }

  lemma KeepApplies(s: State, statuses: seq<Option<Persisted>>, i: nat)
    requires i < |s.status| && Applied(s, statuses, i)
    requires s.status[i].IsTerminal() || s.status[i] == Genesis
             || StatusAt(statuses, i) == None || StatusAt(statuses, i) == Some(Accepted)
    ensures Applied(s, statuses, i + 1)
  {
    forall j | 0 <= j < |s.status| ensures AppliedAt(s.status[j], StatusAt(statuses, j), j, i + 1) {
      assert AppliedAt(s.status[j], StatusAt(statuses, j), j, i);
    }
  }

  /** An entry whose turn has not come is genesis, terminal, or a header with no block data. */
  lemma NotYetApplied(rules: Rules, s: State, statuses: seq<Option<Persisted>>, i: nat)
    requires Sound(rules, s) && i < |s.nodes| && Applied(s, statuses, i)
    ensures s.status[i].IsTerminal() || s.status[i] == HeaderAccepted || i == 0
    ensures s.status[i] == Genesis <==> i == 0
  {
    hide ActiveChain, IsBest, Built, DirtyList, Linked;
    GenesisOnly(rules, s);
    assert AppliedAt(s.status[i], StatusAt(statuses, i), i, i);
  }

  lemma ApplyOneApplies(rules: Rules, s: State, statuses: seq<Option<Persisted>>, i: nat)
    requires Ready(rules, s, statuses, i) && i < |s.nodes|
    ensures var r := ApplyOne(s, statuses, i);
            Ready(rules, r, statuses, i + 1) && r.nodes == s.nodes && r.tip == s.tip
    ensures var p := StatusAt(statuses, i);
            p.Some? && !s.status[i].IsTerminal() && i > 0 ==>
              && (LocationIn(p).Some? ==> CanCheck(s, i))
              && (p.value.RefusedBy? ==> CanInvalidate(s, i, Reloaded(p.value.stage)))
  {
    hide Verdicts, ActiveChain, IsBest, Built, DirtyList, Linked, Applied, Propagated, Inherited, BestUpTo, AppliedAt;
    var p := StatusAt(statuses, i);
    NotYetApplied(rules, s, statuses, i);
    if p.None? || s.status[i].IsTerminal() || s.status[i] == Genesis || p.value == Accepted {
      KeepApplies(s, statuses, i);
    } else {
      match p.value
      case Checked(location) =>
        CheckIsSound(rules, s, i, location);
        CheckApplies(s, statuses, i, location);
      case WasConnected(location, _) =>
        CheckIsSound(rules, s, i, location);
        CheckApplies(s, statuses, i, location);
      case RefusedBy(stage) =>
        InvalidateIsSound(rules, s, i, Reloaded(stage));
        RefuseApplies(s, statuses, i, stage);
    }
  }

  /** The first `k` entries, in arena order, each take on their noted status. */
  ghost function ApplyUpTo(s: State, statuses: seq<Option<Persisted>>, k: nat): State {
    if k == 0 then s else ApplyOne(ApplyUpTo(s, statuses, k - 1), statuses, k - 1)
  }

  lemma {:induction false} ApplyUpToApplies(rules: Rules, s: State, statuses: seq<Option<Persisted>>, k: nat)
    requires Ready(rules, s, statuses, 0) && k <= |s.nodes|
    ensures var r := ApplyUpTo(s, statuses, k);
            Ready(rules, r, statuses, k) && r.nodes == s.nodes && r.tip == s.tip
  {
    hide Ready, ApplyOne;
    if k > 0 {
      ApplyUpToApplies(rules, s, statuses, k - 1);
      ApplyOneApplies(rules, ApplyUpTo(s, statuses, k - 1), statuses, k - 1);
    }
  }

  datatype Loaded =
    | Loaded(tree: State)
    | UnknownMarker
    | NoUndoRecord(node: nat)
    | Panics(node: nat)

  /** Connecting entry by entry along the path to `m`: the tree at its end, or the first entry where it fails. */
  ghost function ConnectUpTo(rules: Rules, s: State, statuses: seq<Option<Persisted>>, m: nat): (r: Loaded)
    requires Sound(rules, s) && m < |s.nodes|
    ensures r.Loaded? ==> Sound(rules, r.tree) && r.tree.nodes == s.nodes
    decreases m
  {
    if m == 0 then Loaded(s)
    else
      match ConnectUpTo(rules, s, statuses, Up(s.nodes, m))
      case Loaded(t) =>
        var p := StatusAt(statuses, m);
        if p.None? || !p.value.WasConnected? then NoUndoRecord(m)
        else if !CanConnect(t, m) then Panics(m)
        else
          ConnectIsSound(rules, t, m, p.value.undo);
          Loaded(ConnectBlock(t, m, p.value.undo))
      case failed => failed
  }

  /** The load, from the records to the tree the node starts with. */
  ghost function Load(rules: Rules, cap: nat, journal: seq<Record>, now: nat, marker: Hash): (r: Loaded)
    ensures r.Loaded? ==> Sound(rules, r.tree)
  {
    var replayed := Replay(rules, cap, journal, now);
    FreshIsReady(rules, replayed.tree, replayed.statuses);
    ApplyUpToApplies(rules, replayed.tree, replayed.statuses, |replayed.tree.nodes|);
    var applied := ApplyUpTo(replayed.tree, replayed.statuses, |replayed.tree.nodes|);
    if marker !in applied.index then UnknownMarker
    else
      match ConnectUpTo(rules, applied, replayed.statuses, applied.index[marker])
      case Loaded(t) =>
        ClearDirtyIsSound(rules, t);
        Loaded(ClearDirty(t))
      case failed => failed
  }

  lemma FreshIsReady(rules: Rules, s: State, statuses: seq<Option<Persisted>>)
    requires Sound(rules, s) && Fresh(s.status)
    ensures Ready(rules, s, statuses, 0)
  {
    hide Sound;
    forall i | 0 <= i < |s.status| ensures AppliedAt(s.status[i], StatusAt(statuses, i), i, 0) {
      assert AppliedAt(s.status[i], None, i, 0);
    }
  }

  // ----- replaying what a run wrote ---------------------------------------------------------

  /** The contextual check passes on every header from above genesis to this one. */
  ghost predicate PathAccepted(rules: Rules, nodes: seq<Node>, i: nat)
    requires Linked(nodes) && i < |nodes|
    decreases i
  {
    i > 0 ==>
      PathAccepted(rules, nodes, Up(nodes, i)) && rules.accepts(Path(nodes, Up(nodes, i)), nodes[i].header)
  }

  /**
    A header a replay at this clock turns away: nothing but its time is wrong. One that was stored
    under a block refused at a later stage was never held against a clock before.
   */
  ghost predicate Late(rules: Rules, nodes: seq<Node>, now: nat, i: nat)
    requires Linked(nodes) && i < |nodes|
  {
    i > 0 && PathAccepted(rules, nodes, i) && Time(nodes[i].header) > FutureLimit(now)
  }

  /** None of the first `n` entries is late. */
  ghost predicate Admits(rules: Rules, nodes: seq<Node>, n: nat, now: nat)
    requires Linked(nodes) && n <= |nodes|
  {
    forall i {:trigger Late(rules, nodes, now, i)} :: 0 <= i < n ==> !Late(rules, nodes, now, i)
  }

  lemma {:induction false} PathAcceptedInPrefix(rules: Rules, nodes: seq<Node>, k: nat, i: nat)
    requires i < k <= |nodes| && Linked(nodes) && Linked(nodes[..k])
    ensures PathAccepted(rules, nodes[..k], i) <==> PathAccepted(rules, nodes, i)
    decreases i
  {
    if i > 0 {
      PathAcceptedInPrefix(rules, nodes, k, Up(nodes, i));
      PathExtends(nodes[..k], nodes, Up(nodes, i));
    }
  }

  /** In a tree that has seen headers only, the terminal entries are those whose path is not accepted. */
  lemma {:induction false} FreshVerdicts(rules: Rules, t: State, i: nat)
    requires Sound(rules, t) && Fresh(t.status) && i < |t.nodes|
    ensures t.status[i].IsTerminal() <==> !PathAccepted(rules, t.nodes, i)
    decreases i
  {
    hide Built, ActiveChain, IsBest, DirtyList, Path, Linked;
    assert AppliedAt(t.status[i], None, i, 0);
    if i > 0 {
      assert VerdictOk(rules, t.nodes, t.status, i);
      FreshVerdicts(rules, t, Up(t.nodes, i));
    }
  }

  lemma PrefixIsLinked(nodes: seq<Node>, k: nat)
    requires Linked(nodes) && 0 < k <= |nodes|
    ensures Linked(nodes[..k])
  {
    forall i | 0 < i < k ensures NodeLinked(nodes[..k], i) {
      assert NodeLinked(nodes, i);
    }
  }

  /** The arena's next node is the one its own header and prefix give. */
  lemma NextIsChild(rules: Rules, nodes: seq<Node>, k: nat)
    requires Built(rules, nodes) && 0 < k < |nodes|
    ensures Linked(nodes[..k])
    ensures var p := Up(nodes, k);
            nodes[k] == Child(rules, nodes[..k], p, nodes[k].header)
            && Previous(nodes[k].header) == nodes[p].hash && rules.checks(nodes[k].header)
  {
    PrefixIsLinked(nodes, k);
    assert NodeBuilt(rules, nodes, k);
    var p := Up(nodes, k);
    AncestorExtends(nodes[..k], nodes, p, SkipHeight(nodes[k].height));
  }

  /** A record about a known entry changes nothing in the tree. */
  lemma KnownIsDuplicate(rules: Rules, cap: nat, s: State, t: State, k: nat, i: nat, now: nat)
    requires Sound(rules, s) && Sound(rules, t) && k <= |s.nodes| && t.nodes == s.nodes[..k] && i < k
    ensures Accept(rules, cap, t, s.nodes[i].header, now) == (t, Duplicate(i))
  {
    HashIsOfHeader(rules, s.nodes, i);
    assert t.index[t.nodes[i].hash] == i;
    hide Judge;
  }

  lemma HashIsOfHeader(rules: Rules, nodes: seq<Node>, i: nat)
    requires Built(rules, nodes) && i < |nodes|
    ensures nodes[i].hash == rules.hashOf(nodes[i].header)
  {
    if i > 0 {
      assert NodeBuilt(rules, nodes, i);
    }
  }

  lemma NextIsNew(rules: Rules, s: State, t: State, k: nat)
    requires Shaped(s) && Shaped(t) && k < |s.nodes| && t.nodes == s.nodes[..k]
    ensures s.nodes[k].hash !in t.index
  {
  }

  lemma ParentIsKnown(s: State, t: State, k: nat, p: nat)
    requires Shaped(t) && k <= |s.nodes| && t.nodes == s.nodes[..k] && p < k
    ensures s.nodes[p].hash in t.index && t.index[s.nodes[p].hash] == p
  {
    assert t.nodes[p] == s.nodes[p];
  }

  lemma NextIsKept(rules: Rules, t: State, header: Header, p: nat, now: nat)
    requires Shaped(t) && p < |t.nodes| && rules.checks(header) && rules.hashOf(header) !in t.index
    requires Previous(header) in t.index && t.index[Previous(header)] == p
    ensures var outcome := Judge(rules, t, header, now);
            var kept := t.status[p].IsTerminal() || !rules.accepts(Path(t.nodes, p), header)
                        || Time(header) <= FutureLimit(now);
            && (kept ==> StoredAs(outcome).Some? && KeptAt(outcome) == Some(|t.nodes|))
            && (!kept ==> StoredAs(outcome).None? && KeptAt(outcome).None?)
  {
    hide Path, Time, Previous, Linked;
  }

  /** Whether the next entry is late, read off the tree replay has built so far. */
  lemma NextIsLate(rules: Rules, s: State, t: State, k: nat, now: nat)
    requires Sound(rules, s) && Sound(rules, t) && Fresh(t.status)
    requires 0 < k < |s.nodes| && t.nodes == s.nodes[..k]
    ensures var p := Up(s.nodes, k);
            && p < |t.status|
            && (Late(rules, s.nodes, now, k) <==>
                !(t.status[p].IsTerminal() || !rules.accepts(Path(t.nodes, p), s.nodes[k].header)
                  || Time(s.nodes[k].header) <= FutureLimit(now)))
  {
    hide Verdicts, ActiveChain, IsBest, Built, DirtyList, Time, FutureLimit, Path, Fresh;
    var p := Up(s.nodes, k);
    FreshVerdicts(rules, t, p);
    PrefixIsLinked(s.nodes, k);
    PathAcceptedInPrefix(rules, s.nodes, k, p);
    PathExtends(t.nodes, s.nodes, p);
  }

  /** The record that introduces an entry is kept, and the entry rebuilt, exactly when it is not late. */
  lemma NextIsRebuiltIff(rules: Rules, cap: nat, s: State, t: State, k: nat, now: nat)
    requires Sound(rules, s) && Sound(rules, t) && Fresh(t.status)
    requires 0 < k < |s.nodes| <= cap && t.nodes == s.nodes[..k]
    ensures var (u, outcome) := Accept(rules, cap, t, s.nodes[k].header, now);
            && (!Late(rules, s.nodes, now, k) ==> KeptAt(outcome) == Some(k) && u.nodes == s.nodes[..k + 1])
            && (Late(rules, s.nodes, now, k) ==> KeptAt(outcome) == None)
  {
    hide AncestorAt, Child, Judge, Time, Previous, ActiveChain, Verdicts, IsBest, DirtyList, Path, SkipHeight,
      BestUpTo, Late, Fresh;
    var header, p := s.nodes[k].header, Up(s.nodes, k);
    NextIsChild(rules, s.nodes, k);
    HashIsOfHeader(rules, s.nodes, k);
    NextIsNew(rules, s, t, k);
    ParentIsKnown(s, t, k, p);
    NextIsKept(rules, t, header, p, now);
    NextIsLate(rules, s, t, k, now);
    assert s.nodes[..k + 1] == s.nodes[..k] + [s.nodes[k]];
  }

  /** One more record, once the tree is known to keep its header. */
  lemma ReplayOneMore(rules: Rules, cap: nat, journal: seq<Record>, now: nat, before: Replayed, node: nat)
    requires |journal| > 0 && before == Replay(rules, cap, journal[..|journal| - 1], now) && !before.rejected
    requires KeptAt(Accept(rules, cap, before.tree, journal[|journal| - 1].header, now).1) == Some(node)
    ensures Replay(rules, cap, journal, now)
            == Replayed(Accept(rules, cap, before.tree, journal[|journal| - 1].header, now).0,
                        Noted(before.statuses, node, journal[|journal| - 1].persisted), false)
  {
    hide Sound, Accept;
  }

  ghost predicate Remembers(statuses: seq<Option<Persisted>>, journal: seq<Record>, ids: seq<nat>)
    requires |journal| == |ids|
  {
    forall i: nat :: StatusAt(statuses, i) == Last(journal, ids, i)
  }

  lemma RemembersOneMore(statuses: seq<Option<Persisted>>, journal: seq<Record>, ids: seq<nat>)
    requires |journal| == |ids| > 0
    requires Remembers(statuses, journal[..|ids| - 1], ids[..|ids| - 1])
    ensures Remembers(Noted(statuses, ids[|ids| - 1], journal[|ids| - 1].persisted), journal, ids)
  {
    var k := |ids| - 1;
    var more := Noted(statuses, ids[k], journal[k].persisted);
    hide Noted, StatusAt;
    forall i: nat ensures StatusAt(more, i) == Last(journal, ids, i) {
      assert StatusAt(statuses, i) == Last(journal[..k], ids[..k], i);
    }
  }

  /** What replaying the records about `ids` leaves behind. */
  ghost predicate Rebuilt(s: State, r: Replayed, journal: seq<Record>, ids: seq<nat>)
    requires |journal| == |ids|
  {
    && !r.rejected
    && Known(ids) <= |s.nodes|
    && r.tree.nodes == s.nodes[..Known(ids)]
    && Remembers(r.statuses, journal, ids)
  }

  lemma RebuiltOneMore(rules: Rules, cap: nat, s: State, journal: seq<Record>, ids: seq<nat>, now: nat)
    requires Sound(rules, s) && |s.nodes| <= cap && |journal| == |ids| > 0
    requires Ordered(ids) && Known(ids) <= |s.nodes| && ids[|ids| - 1] < |s.nodes|
    requires journal[|ids| - 1].header == s.nodes[ids[|ids| - 1]].header
    requires ids[|ids| - 1] == Known(ids[..|ids| - 1]) ==> !Late(rules, s.nodes, now, ids[|ids| - 1])
    requires Rebuilt(s, Replay(rules, cap, journal[..|ids| - 1], now), journal[..|ids| - 1], ids[..|ids| - 1])
    ensures Rebuilt(s, Replay(rules, cap, journal, now), journal, ids)
  {
    hide Sound, Accept, Replay, Last, Remembers, Late, Noted, Fresh;
    var k := |ids| - 1;
    var before, known, i := Replay(rules, cap, journal[..k], now), Known(ids[..k]), ids[k];
    if i < known {
      KnownIsDuplicate(rules, cap, s, before.tree, known, i, now);
    } else {
      NextIsRebuiltIff(rules, cap, s, before.tree, known, now);
    }
    ReplayOneMore(rules, cap, journal, now, before, i);
    RemembersOneMore(before.statuses, journal, ids);
  }

  /** Replaying a journal that is in step rebuilds the arena, record by record, while no entry is late. */
  lemma {:induction false} ReplayRebuilds(rules: Rules, cap: nat, x: Sys, now: nat, k: nat)
    requires Sound(rules, x.tree) && JournalOk(x) && |x.tree.nodes| <= cap && k <= |x.ids|
    requires Known(x.ids[..k]) <= |x.tree.nodes| && Admits(rules, x.tree.nodes, Known(x.ids[..k]), now)
    ensures Rebuilt(x.tree, Replay(rules, cap, x.journal[..k], now), x.journal[..k], x.ids[..k])
    decreases k
  {
    hide Sound, Clean, NewInOrder, Replay, Rebuilt, Ordered, Known, Late;
    var journal, ids := x.journal[..k], x.ids[..k];
    OrderedPrefix(x.ids, k);
    if k == 0 {
      NothingRebuilt(rules, cap, x.tree, now);
      assert journal == [] && ids == [];
    } else {
      assert journal[..k - 1] == x.journal[..k - 1] && ids[..k - 1] == x.ids[..k - 1];
      KnownGrows(ids);
      ReplayRebuilds(rules, cap, x, now, k - 1);
      RebuiltOneMore(rules, cap, x.tree, journal, ids, now);
    }
  }

  lemma KnownGrows(ids: seq<nat>)
    requires |ids| > 0
    ensures var n := |ids| - 1;
            Known(ids) == if ids[n] == Known(ids[..n]) then ids[n] + 1 else Known(ids[..n])
  {
  }

  /** The first late entry. */
  ghost predicate FirstLate(rules: Rules, nodes: seq<Node>, now: nat, i: nat)
    requires Linked(nodes)
  {
    i < |nodes| && Late(rules, nodes, now, i) && Admits(rules, nodes, i, now)
  }

  lemma {:induction false} LateHasFirst(rules: Rules, nodes: seq<Node>, now: nat, n: nat) returns (i: nat)
    requires Linked(nodes) && n <= |nodes| && !Admits(rules, nodes, n, now)
    ensures i < n && FirstLate(rules, nodes, now, i)
  {
    hide Late;
    if Admits(rules, nodes, n - 1, now) {
      i := n - 1;
    } else {
      i := LateHasFirst(rules, nodes, now, n - 1);
    }
  }

  /** Once the first late entry is introduced the replay has stopped, with the arena up to it. */
  lemma {:induction false} ReplayStopsAtLate(rules: Rules, cap: nat, x: Sys, now: nat, k: nat, i: nat)
    requires Sound(rules, x.tree) && JournalOk(x) && |x.tree.nodes| <= cap && k <= |x.ids|
    requires FirstLate(rules, x.tree.nodes, now, i) && i < Known(x.ids[..k])
    ensures var r := Replay(rules, cap, x.journal[..k], now);
            r.rejected && r.tree.nodes == x.tree.nodes[..i]
    decreases k
  {
    hide Sound, Clean, NewInOrder, Replay, Rebuilt, Ordered, Known, Late;
    var journal, ids := x.journal[..k], x.ids[..k];
    NothingKnown(ids);
    SoundLinks(rules, x.tree);
    LateIsAboveGenesis(rules, x.tree.nodes, now, i);
    var before := Replay(rules, cap, x.journal[..k - 1], now);
    assert journal[..k - 1] == x.journal[..k - 1] && ids[..k - 1] == x.ids[..k - 1];
    KnownGrows(ids);
    if i < Known(x.ids[..k - 1]) {
      ReplayStopsAtLate(rules, cap, x, now, k - 1, i);
      ReplayStaysStopped(rules, cap, journal, now);
    } else {
      ReplayRebuilds(rules, cap, x, now, k - 1);
      ReplayStopsHere(rules, cap, x, now, k, i);
    }
  }

  lemma SoundLinks(rules: Rules, s: State)
    requires Sound(rules, s)
    ensures Linked(s.nodes)
  {
  }

  lemma NothingKnown(ids: seq<nat>)
    ensures |ids| == 0 ==> Known(ids) == 1
  {
  }

  lemma LateIsAboveGenesis(rules: Rules, nodes: seq<Node>, now: nat, i: nat)
    requires Linked(nodes) && FirstLate(rules, nodes, now, i)
    ensures i > 0
  {
  }

  lemma ReplayStaysStopped(rules: Rules, cap: nat, journal: seq<Record>, now: nat)
    requires |journal| > 0 && Replay(rules, cap, journal[..|journal| - 1], now).rejected
    ensures Replay(rules, cap, journal, now) == Replay(rules, cap, journal[..|journal| - 1], now)
  {
    hide Sound, Accept;
  }

  lemma ReplayStopsHere(rules: Rules, cap: nat, x: Sys, now: nat, k: nat, i: nat)
    requires Sound(rules, x.tree) && |x.tree.nodes| <= cap && 0 < k <= |x.ids| == |x.journal|
    requires Headed(x.tree.nodes, x.journal, x.ids) && 0 < i < |x.tree.nodes|
    requires Known(x.ids[..k - 1]) == i == x.ids[k - 1] && Late(rules, x.tree.nodes, now, i)
    requires Rebuilt(x.tree, Replay(rules, cap, x.journal[..k - 1], now), x.journal[..k - 1], x.ids[..k - 1])
    ensures var r := Replay(rules, cap, x.journal[..k], now);
            r.rejected && r.tree.nodes == x.tree.nodes[..i]
  {
    hide Sound, Accept, Replay, Remembers, Late, Known, Fresh;
    var journal := x.journal[..k];
    var before := Replay(rules, cap, x.journal[..k - 1], now);
    assert journal[..k - 1] == x.journal[..k - 1];
    NextIsRebuiltIff(rules, cap, x.tree, before.tree, i, now);
    ReplayRefuses(rules, cap, journal, now, before);
  }

  lemma ReplayRefuses(rules: Rules, cap: nat, journal: seq<Record>, now: nat, before: Replayed)
    requires |journal| > 0 && before == Replay(rules, cap, journal[..|journal| - 1], now) && !before.rejected
    requires KeptAt(Accept(rules, cap, before.tree, journal[|journal| - 1].header, now).1) == None
    ensures Replay(rules, cap, journal, now) == before.(rejected := true)
  {
    hide Sound, Accept;
  }

  /** Replay turns no record away if and only if none of the entries it introduces is late. */
  lemma ReplayRejectsNothingIff(rules: Rules, cap: nat, x: Sys, now: nat, k: nat)
    requires Sound(rules, x.tree) && JournalOk(x) && |x.tree.nodes| <= cap && k <= |x.ids|
    ensures Known(x.ids[..k]) <= |x.tree.nodes|
    ensures !Replay(rules, cap, x.journal[..k], now).rejected
            <==> Admits(rules, x.tree.nodes, Known(x.ids[..k]), now)
  {
    hide Sound, Clean, NewInOrder, Replay, Ordered, Known, Late, Remembers;
    SoundLinks(rules, x.tree);
    OrderedPrefix(x.ids, k);
    if Admits(rules, x.tree.nodes, Known(x.ids[..k]), now) {
      ReplayRebuilds(rules, cap, x, now, k);
    } else {
      var i := LateHasFirst(rules, x.tree.nodes, now, Known(x.ids[..k]));
      ReplayStopsAtLate(rules, cap, x, now, k, i);
    }
  }

  lemma NothingRebuilt(rules: Rules, cap: nat, s: State, now: nat)
    requires Sound(rules, s)
    ensures Rebuilt(s, Replay(rules, cap, [], now), [], [])
  {
    hide Verdicts, ActiveChain, IsBest, DirtyList;
    assert s.nodes[..1] == [GenesisNode(rules)];
  }

  lemma {:induction false} OrderedPrefix(ids: seq<nat>, k: nat)
    requires Ordered(ids) && k <= |ids|
    ensures Ordered(ids[..k]) && Known(ids[..k]) <= Known(ids)
    decreases |ids|
  {
    if k < |ids| {
      OrderedPrefix(ids[..|ids| - 1], k);
      assert ids[..|ids| - 1][..k] == ids[..k];
    } else {
      assert ids[..k] == ids;
    }
  }

  // ----- what comes back --------------------------------------------------------------------

  /** The replayed statuses speak for every entry of the tree that wrote them. */
  ghost predicate Speaks(statuses: seq<Option<Persisted>>, status: seq<Status>) {
    forall i :: 0 < i < |status| ==>
      StatusAt(statuses, i).Some? && Agrees(StatusAt(statuses, i).value, status[i])
  }

  lemma CommittedSpeaks(rules: Rules, x: Sys, statuses: seq<Option<Persisted>>)
    requires Sound(rules, x.tree) && JournalOk(x) && x.tree.dirty == []
    requires Remembers(statuses, x.journal, x.ids)
    ensures Speaks(statuses, x.tree.status) && Known(x.ids) == |x.tree.nodes|
  {
    hide Verdicts, ActiveChain, IsBest, Built, Known, Last, StatusAt;
    assert CountNew([], Known(x.ids)) == 0;
    forall i | 0 < i < |x.tree.status|
      ensures StatusAt(statuses, i).Some? && Agrees(StatusAt(statuses, i).value, x.tree.status[i])
    {
      assert !x.tree.flagged[i];
      assert Clean(x, i);
    }
  }

  /** The verdict on every entry comes back, although most verdicts were never written. */
  lemma {:induction false} VerdictsComeBack(
    rules: Rules, s: State, t: State, statuses: seq<Option<Persisted>>, i: nat)
    requires Sound(rules, s) && Sound(rules, t) && t.nodes == s.nodes && i < |s.nodes|
    requires Speaks(statuses, s.status) && Applied(t, statuses, |s.nodes|)
    ensures t.status[i].IsTerminal() <==> s.status[i].IsTerminal()
    decreases i
  {
    hide ActiveChain, IsBest, Built, Path, Linked, DirtyList;
    assert AppliedAt(t.status[i], StatusAt(statuses, i), i, |s.nodes|);
    if i > 0 {
      VerdictsComeBack(rules, s, t, statuses, Up(s.nodes, i));
      assert VerdictOk(rules, s.nodes, s.status, i);
      assert VerdictOk(rules, t.nodes, t.status, i);
    }
  }

  /** Every block's place on the disk comes back, and nothing is connected yet. */
  lemma PlacesComeBack(rules: Rules, s: State, t: State, statuses: seq<Option<Persisted>>, i: nat)
    requires Sound(rules, s) && Sound(rules, t) && t.nodes == s.nodes && i < |s.nodes|
    requires Speaks(statuses, s.status) && Applied(t, statuses, |s.nodes|)
    requires !s.status[i].IsTerminal() && !t.status[i].IsTerminal()
    ensures t.status[i].Where() == s.status[i].Where()
    ensures s.status[i].Connected? ==>
              t.status[i] == BlockChecked(s.status[i].location)
              && StatusAt(statuses, i) == Some(WasConnected(s.status[i].location, s.status[i].undo))
  {
    assert AppliedAt(t.status[i], StatusAt(statuses, i), i, |s.nodes|);
    GenesisOnly(rules, s);
    hide Sound;
  }

  /** Status by status, what connecting up to `m` has done. */
  ghost predicate ConnectedTo(s: State, t: State, u: State, m: nat, i: nat)
    requires Linked(s.nodes) && m < |s.nodes| && i < |s.nodes| == |s.status| == |t.status| == |u.status|
  {
    u.status[i] == if OnPath(s.nodes, i, m) then s.status[i] else t.status[i]
  }

  ghost predicate Reached(s: State, t: State, r: Loaded, m: nat)
    requires Linked(s.nodes) && m < |s.nodes| == |s.status| == |t.status|
  {
    && r.Loaded? && r.tree.tip == m && r.tree.best == t.best && r.tree.index == t.index
    && |r.tree.status| == |s.nodes|
    && forall i {:trigger r.tree.status[i]} ::
         0 <= i < |s.nodes| ==> ConnectedTo(s, t, r.tree, m, i)
  }

  /** The marker's chain is connected again, with the undo records it had. */
  lemma {:induction false} MarkerIsReached(
    rules: Rules, s: State, t: State, statuses: seq<Option<Persisted>>, m: nat)
    requires Sound(rules, s) && Sound(rules, t) && t.nodes == s.nodes && m < |s.nodes|
    requires Speaks(statuses, s.status) && Applied(t, statuses, |s.nodes|)
    requires t.tip == 0 && s.status[m].IsConnected()
    ensures Reached(s, t, ConnectUpTo(rules, t, statuses, m), m)
    decreases m
  {
    hide Verdicts, ActiveChain, IsBest, Built, DirtyList, Applied, Speaks, Reached, ConnectUpTo;
    if m == 0 {
      ConnectNothing(rules, s, t, statuses);
    } else {
      ActiveUp(rules, s, m);
      MarkerIsReached(rules, s, t, statuses, Up(s.nodes, m));
      ConnectOneMore(rules, s, t, statuses, m);
    }
  }

  lemma ActiveUp(rules: Rules, s: State, m: nat)
    requires Sound(rules, s) && 0 < m < |s.nodes| && s.status[m].IsConnected()
    ensures s.status[Up(s.nodes, m)].IsConnected()
  {
    OnPathUp(s.nodes, Up(s.nodes, m), m);
    OnPathTrans(s.nodes, Up(s.nodes, m), m, s.tip);
  }

  lemma ConnectNothing(rules: Rules, s: State, t: State, statuses: seq<Option<Persisted>>)
    requires Sound(rules, s) && Sound(rules, t) && t.nodes == s.nodes && t.tip == 0
    ensures Reached(s, t, ConnectUpTo(rules, t, statuses, 0), 0)
  {
    forall i | 0 <= i < |s.nodes| ensures ConnectedTo(s, t, t, 0, i) {
      assert s.status[0] == t.status[0] == Genesis;
    }
  }

  lemma ConnectOneMore(rules: Rules, s: State, t: State, statuses: seq<Option<Persisted>>, m: nat)
    requires Sound(rules, s) && Sound(rules, t) && t.nodes == s.nodes && 0 < m < |s.nodes|
    requires Speaks(statuses, s.status) && Applied(t, statuses, |s.nodes|)
    requires s.status[m].IsConnected()
    requires Reached(s, t, ConnectUpTo(rules, t, statuses, Up(s.nodes, m)), Up(s.nodes, m))
    ensures Reached(s, t, ConnectUpTo(rules, t, statuses, m), m)
  {
    hide Verdicts, ActiveChain, IsBest, Built, DirtyList, AncestorAt, Applied, Speaks, ConnectedTo;
    var before := ConnectUpTo(rules, t, statuses, Up(s.nodes, m)).tree;
    NextConnects(rules, s, t, statuses, before, m);
    var u := ConnectBlock(before, m, s.status[m].undo);
    forall i | 0 <= i < |s.nodes| ensures ConnectedTo(s, t, u, m, i) {
      assert before.status[i] == before.status[i] && ConnectedTo(s, t, before, Up(s.nodes, m), i);
      ConnectedOnPath(s, t, before, m, i);
    }
  }

  /** The next block of the marker's chain can be connected, with the undo record it had. */
  lemma NextConnects(
    rules: Rules, s: State, t: State, statuses: seq<Option<Persisted>>, before: State, m: nat)
    requires Sound(rules, s) && Sound(rules, t) && t.nodes == s.nodes && 0 < m < |s.nodes|
    requires Speaks(statuses, s.status) && Applied(t, statuses, |s.nodes|)
    requires Sound(rules, before) && before.nodes == s.nodes
    requires s.status[m].IsConnected() && Reached(s, t, Loaded(before), Up(s.nodes, m))
    ensures s.status[m].Connected? && CanConnect(before, m)
    ensures StatusAt(statuses, m) == Some(WasConnected(s.status[m].location, s.status[m].undo))
    ensures before.status[m] == BlockChecked(s.status[m].location)
  {
    hide Verdicts, ActiveChain, IsBest, Built, DirtyList, AncestorAt;
    VerdictsComeBack(rules, s, t, statuses, m);
    PlacesComeBack(rules, s, t, statuses, m);
    GenesisOnly(rules, s);
    assert ConnectedTo(s, t, before, Up(s.nodes, m), m);
  }

  lemma ConnectedOnPath(s: State, t: State, before: State, m: nat, i: nat)
    requires Shaped(s) && Shaped(t) && Shaped(before) && t.nodes == s.nodes == before.nodes
    requires 0 < m < |s.nodes| && i < |s.nodes|
    requires ConnectedTo(s, t, before, Up(s.nodes, m), i) && CanConnect(before, m)
    requires s.status[m].Connected? && before.status[m] == BlockChecked(s.status[m].location)
    ensures ConnectedTo(s, t, ConnectBlock(before, m, s.status[m].undo), m, i)
  {
    hide AncestorAt;
    OnPathUp(s.nodes, i, m);
  }

  /** Two trees over one arena with one terminal set have one best header and one index. */
  lemma SameVerdictsSameBest(rules: Rules, s: State, t: State)
    requires Sound(rules, s) && Sound(rules, t) && t.nodes == s.nodes
    requires forall i :: 0 <= i < |s.nodes| ==> (t.status[i].IsTerminal() <==> s.status[i].IsTerminal())
    ensures t.best == s.best && t.index == s.index
  {
    hide ActiveChain, Verdicts, Built, Linked, DirtyList;
    assert forall h :: h in s.index <==> h in t.index;
  }

  /** The tree that comes back, entry by entry. */
  ghost predicate Restores(s: State, t: State, m: nat)
    requires Shaped(s) && Shaped(t) && t.nodes == s.nodes && m < |s.nodes|
  {
    forall i {:trigger t.status[i]} :: 0 <= i < |s.nodes| ==>
      && (t.status[i].IsTerminal() <==> s.status[i].IsTerminal())
      && (!s.status[i].IsTerminal() ==> t.status[i].Where() == s.status[i].Where())
      && (t.status[i].IsConnected() <==> OnPath(s.nodes, i, m))
      && (t.status[i].IsConnected() ==> t.status[i] == s.status[i])
  }

  /**
    What is written is enough. Load the journal of any committed node, at a clock by which no entry
    is late and with a marker on its active chain: the arena comes back node for node, with
    the same index, the same best header, the same terminal set and the same block locations,
    connected exactly as far as the marker and with nothing left to write.
   */
  lemma LoadRestores(rules: Rules, cap: nat, x: Sys, now: nat, m: nat)
    requires Sound(rules, x.tree) && JournalOk(x) && x.tree.dirty == [] && |x.tree.nodes| <= cap
    requires Admits(rules, x.tree.nodes, |x.tree.nodes|, now)
    requires m < |x.tree.nodes| && x.tree.status[m].IsConnected()
    ensures var s := x.tree;
            var r := Load(rules, cap, x.journal, now, s.nodes[m].hash);
            && r.Loaded?
            && r.tree.nodes == s.nodes && r.tree.index == s.index
            && r.tree.best == s.best && r.tree.tip == m && r.tree.dirty == []
            && Restores(s, r.tree, m)
  {
    hide Known, Ordered, Last, Clean, NewInOrder, Replay, Late, ApplyUpTo, ConnectUpTo, ClearDirty,
      JournalOk, Applied, Remembers, Speaks, Restores, Verdicts, ActiveChain, Built, IsBest, DirtyList;
    var s := x.tree;
    var n := |s.nodes|;
    var replayed := Replay(rules, cap, x.journal, now);
    ReplayAll(rules, cap, x, now);
    CommittedSpeaks(rules, x, replayed.statuses);
    FreshIsReady(rules, replayed.tree, replayed.statuses);
    assert s.nodes[..n] == s.nodes;
    ApplyUpToApplies(rules, replayed.tree, replayed.statuses, n);
    var applied := ApplyUpTo(replayed.tree, replayed.statuses, n);
    LoadFromApplied(rules, s, applied, replayed.statuses, m);
    ClearRestores(s, ConnectUpTo(rules, applied, replayed.statuses, m).tree, m);
  }

  lemma {:induction false} ConnectKnowsItsMarker(rules: Rules, s: State, statuses: seq<Option<Persisted>>, m: nat)
    requires Sound(rules, s) && m < |s.nodes|
    ensures ConnectUpTo(rules, s, statuses, m) != UnknownMarker
    decreases m
  {
    hide Verdicts, ActiveChain, IsBest, Built, DirtyList, CanConnect, ConnectBlock;
    if m > 0 {
      ConnectKnowsItsMarker(rules, s, statuses, Up(s.nodes, m));
    }
  }

  /** What a load makes its tree of is what replay rebuilt. */
  lemma LoadIsOverReplayed(rules: Rules, cap: nat, journal: seq<Record>, now: nat, marker: Hash)
    ensures var (r, t) := (Load(rules, cap, journal, now, marker), Replay(rules, cap, journal, now).tree);
            && (r.Loaded? ==> r.tree.nodes == t.nodes)
            && (r == UnknownMarker <==> forall i :: 0 <= i < |t.nodes| ==> t.nodes[i].hash != marker)
  {
    hide Sound, ApplyUpTo, ConnectUpTo, Fresh, Replay;
    var replayed := Replay(rules, cap, journal, now);
    FreshIsReady(rules, replayed.tree, replayed.statuses);
    ApplyUpToApplies(rules, replayed.tree, replayed.statuses, |replayed.tree.nodes|);
    var applied := ApplyUpTo(replayed.tree, replayed.statuses, |replayed.tree.nodes|);
    IndexNames(rules, applied, marker);
    if marker in applied.index {
      ConnectKnowsItsMarker(rules, applied, replayed.statuses, applied.index[marker]);
    }
  }

  lemma IndexNames(rules: Rules, s: State, hash: Hash)
    requires Sound(rules, s)
    ensures hash in s.index <==> exists i :: 0 <= i < |s.nodes| && s.nodes[i].hash == hash
    ensures hash in s.index ==> s.index[hash] < |s.nodes|
  {
    hide Verdicts, ActiveChain, IsBest, Built, DirtyList, Linked;
    if hash in s.index {
      assert s.nodes[s.index[hash]].hash == hash;
    }
  }

  /** The first late entry and everything behind it is lost, a marker there with it. */
  lemma LateLosesMarker(rules: Rules, cap: nat, x: Sys, now: nat, i: nat, m: nat)
    requires Sound(rules, x.tree) && JournalOk(x) && x.tree.dirty == [] && |x.tree.nodes| <= cap
    requires FirstLate(rules, x.tree.nodes, now, i) && m < |x.tree.nodes|
    ensures var r := Load(rules, cap, x.journal, now, x.tree.nodes[m].hash);
            && (r.Loaded? ==> r.tree.nodes == x.tree.nodes[..i])
            && (r == UnknownMarker <==> m >= i)
  {
    hide Verdicts, ActiveChain, IsBest, Built, DirtyList, Linked, Load, Replay, Late, Known, Ordered, Clean,
      Last, Admits;
    CommittedIsKnown(rules, x);
    assert x.journal[..|x.ids|] == x.journal && x.ids[..|x.ids|] == x.ids;
    ReplayStopsAtLate(rules, cap, x, now, |x.ids|, i);
    LoadIsOverReplayed(rules, cap, x.journal, now, x.tree.nodes[m].hash);
    var t := Replay(rules, cap, x.journal, now).tree;
    if m >= i {
      forall j | 0 <= j < |t.nodes| ensures t.nodes[j].hash != x.tree.nodes[m].hash {
        assert x.tree.index[x.tree.nodes[j].hash] == j && x.tree.index[x.tree.nodes[m].hash] == m;
      }
    } else {
      assert t.nodes[m] == x.tree.nodes[m];
    }
  }

  lemma CommittedIsKnown(rules: Rules, x: Sys)
    requires Sound(rules, x.tree) && JournalOk(x) && x.tree.dirty == []
    ensures Known(x.ids) == |x.tree.nodes|
  {
    hide Known, Sound, Ordered, Clean;
  }

  /** The exact condition: a load brings the whole arena back if and only if no entry is late. */
  lemma LoadRestoresIff(rules: Rules, cap: nat, x: Sys, now: nat, m: nat)
    requires Sound(rules, x.tree) && JournalOk(x) && x.tree.dirty == [] && |x.tree.nodes| <= cap
    requires m < |x.tree.nodes| && x.tree.status[m].IsConnected()
    ensures var r := Load(rules, cap, x.journal, now, x.tree.nodes[m].hash);
            r.Loaded? && r.tree.nodes == x.tree.nodes <==> Admits(rules, x.tree.nodes, |x.tree.nodes|, now)
  {
    hide Verdicts, ActiveChain, IsBest, Built, DirtyList, Linked, Load, Late, JournalOk, Restores;
    if Admits(rules, x.tree.nodes, |x.tree.nodes|, now) {
      LoadRestores(rules, cap, x, now, m);
    } else {
      var i := LateHasFirst(rules, x.tree.nodes, now, |x.tree.nodes|);
      LateLosesMarker(rules, cap, x, now, i, m);
    }
  }

  /** The same, read off a run: whatever happened before the last commit, the load restores it. */
  lemma EveryCommittedRunLoads(rules: Rules, cap: nat, ops: seq<SysOp>, now: nat, m: nat)
    requires cap > 0 && |ops| > 0 && ops[|ops| - 1] == Commit && SysRun(rules, cap, ops).Some?
    requires var s := SysRun(rules, cap, ops).value.tree;
             && m < |s.nodes| == |s.status| && s.status[m].IsConnected()
             && Linked(s.nodes) && Admits(rules, s.nodes, |s.nodes|, now)
    ensures var x := SysRun(rules, cap, ops).value;
            var r := Load(rules, cap, x.journal, now, x.tree.nodes[m].hash);
            && r.Loaded? && Shaped(x.tree)
            && r.tree.nodes == x.tree.nodes && r.tree.index == x.tree.index
            && r.tree.best == x.tree.best && r.tree.tip == m && r.tree.dirty == []
            && Restores(x.tree, r.tree, m)
  {
    hide Verdicts, ActiveChain, IsBest, Built, DirtyList, JournalOk, Load, Restores, Admits;
    RunKeepsJournal(rules, cap, ops);
    RunKeepsJournal(rules, cap, ops[..|ops| - 1]);
    CommitKeepsJournal(rules, SysRun(rules, cap, ops[..|ops| - 1]).value);
    LoadRestores(rules, cap, SysRun(rules, cap, ops).value, now, m);
  }

  lemma ClearRestores(s: State, u: State, m: nat)
    requires Shaped(s) && Shaped(u) && u.nodes == s.nodes && m < |s.nodes| && Restores(s, u, m)
    ensures var t := ClearDirty(u);
            && Shaped(t) && t.nodes == u.nodes && t.index == u.index && t.best == u.best && t.tip == u.tip
            && t.dirty == [] && Restores(s, t, m)
  {
    assert ClearDirty(u).status == u.status;
  }

  lemma ConnectedRestores(rules: Rules, s: State, t: State, u: State, statuses: seq<Option<Persisted>>, m: nat)
    requires Sound(rules, s) && Sound(rules, t) && Sound(rules, u) && t.nodes == s.nodes == u.nodes
    requires Speaks(statuses, s.status) && Applied(t, statuses, |s.nodes|)
    requires m < |s.nodes| && s.status[m].IsConnected()
    requires Reached(s, t, Loaded(u), m)
    ensures Restores(s, u, m)
  {
    forall i | 0 <= i < |s.nodes|
      ensures (u.status[i].IsTerminal() <==> s.status[i].IsTerminal())
              && (!s.status[i].IsTerminal() ==> u.status[i].Where() == s.status[i].Where())
              && (u.status[i].IsConnected() <==> OnPath(s.nodes, i, m))
              && (u.status[i].IsConnected() ==> u.status[i] == s.status[i])
    {
      assert u.status[i] == u.status[i] && ConnectedTo(s, t, u, m, i);
      OneRestored(rules, s, t, statuses, m, i);
    }
  }

  /** An entry on the marker's chain is connected in the old tree; any other is not in the new. */
  lemma OneRestored(rules: Rules, s: State, t: State, statuses: seq<Option<Persisted>>, m: nat, i: nat)
    requires Sound(rules, s) && Sound(rules, t) && t.nodes == s.nodes
    requires Speaks(statuses, s.status) && Applied(t, statuses, |s.nodes|)
    requires m < |s.nodes| && s.status[m].IsConnected() && i < |s.nodes|
    ensures OnPath(s.nodes, i, m) ==> s.status[i].IsConnected()
    ensures !OnPath(s.nodes, i, m) ==> !t.status[i].IsConnected()
    ensures t.status[i].IsTerminal() <==> s.status[i].IsTerminal()
    ensures !s.status[i].IsTerminal() ==> t.status[i].Where() == s.status[i].Where()
  {
    VerdictsComeBack(rules, s, t, statuses, i);
    if !s.status[i].IsTerminal() {
      PlacesComeBack(rules, s, t, statuses, i);
    }
    assert AppliedAt(t.status[i], StatusAt(statuses, i), i, |s.nodes|);
    if OnPath(s.nodes, i, m) {
      OnPathTrans(s.nodes, i, m, s.tip);
    }
    GenesisOnPath(s.nodes, m);
  }

  lemma LoadFromApplied(rules: Rules, s: State, t: State, statuses: seq<Option<Persisted>>, m: nat)
    requires Sound(rules, s) && Sound(rules, t) && t.nodes == s.nodes && t.tip == 0
    requires Speaks(statuses, s.status) && Applied(t, statuses, |s.nodes|)
    requires m < |s.nodes| && s.status[m].IsConnected()
    ensures s.nodes[m].hash in t.index && t.index[s.nodes[m].hash] == m
    ensures var r := ConnectUpTo(rules, t, statuses, m);
            && r.Loaded? && r.tree.tip == m && r.tree.best == s.best && r.tree.index == s.index
            && Restores(s, r.tree, m)
  {
    hide Verdicts, ActiveChain, IsBest, Built, DirtyList, Linked, Applied, Speaks, ConnectUpTo, ConnectedTo;
    MarkerIsReached(rules, s, t, statuses, m);
    var u := ConnectUpTo(rules, t, statuses, m).tree;
    ConnectedRestores(rules, s, t, u, statuses, m);
    SameVerdictsSameBest(rules, s, u);
  }

  lemma ReplayAll(rules: Rules, cap: nat, x: Sys, now: nat)
    requires Sound(rules, x.tree) && JournalOk(x) && |x.tree.nodes| <= cap
    requires Admits(rules, x.tree.nodes, |x.tree.nodes|, now)
    ensures Rebuilt(x.tree, Replay(rules, cap, x.journal, now), x.journal, x.ids)
  {
    hide Sound, Replay, Rebuilt, Clean, Ordered, Known, NewInOrder, Late;
    OrderedPrefix(x.ids, |x.ids|);
    ReplayRebuilds(rules, cap, x, now, |x.ids|);
    assert x.journal[..|x.ids|] == x.journal && x.ids[..|x.ids|] == x.ids;
  }
}
