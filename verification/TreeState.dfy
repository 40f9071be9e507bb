/**
  The tree as a value: a status for every node, a tip and a best header, what each call makes of
  them, and the invariant every run of calls keeps.
 */
module TreeState {
  import opened Bytes
  import opened SkipList
  import opened Arena

  datatype Location = Location(file: nat, offset: nat, len: nat)

  datatype UndoLocation = UndoLocation(file: nat, offset: nat, len: nat)

  datatype Stage = AcceptHeader | CheckBlock | AcceptBlock | Confirm | Connect

  /** Which stage refused a block: in this run, or in an earlier one whose journal says so. */
  datatype Invalidity = Refused(stage: Stage) | Reloaded(stage: Stage)

  datatype Status =
    | Genesis
    | HeaderAccepted
    | BlockChecked(location: Location)
    | Connected(location: Location, undo: UndoLocation)
    | Invalid(invalidity: Invalidity)
    | InvalidAncestor(culprit: Hash)
  {
    predicate IsTerminal() { Invalid? || InvalidAncestor? }

    predicate IsConnected() { Genesis? || Connected? }

    function Where(): Option<Location> {
      match this
      case BlockChecked(location) => Some(location)
      case Connected(location, _) => Some(location)
      case _ => None
    }
  }

  /** The tree's fields. `flagged` is the per-entry dirty mark, `dirty` the list it guards. */
  datatype State = State(
    nodes: seq<Node>,
    status: seq<Status>,
    flagged: seq<bool>,
    index: map<Hash, nat>,
    tip: nat,
    best: nat,
    dirty: seq<nat>)

  // ----- the operations -------------------------------------------------------------------

  datatype Outcome =
    | First(node: nat)
    | Duplicate(node: nat)
    | RefusedByCheck
    | UnknownParent
    | StoredInvalid(node: nat)
    | StoredInvalidAncestor(node: nat, culprit: Hash)
    | TooFarInFuture
    | TreeFull

  const MAX_FUTURE_BLOCK_TIME: nat := 7200

  /** Two hours ahead of the clock, or the largest 32-bit time. */
  function FutureLimit(now: nat): nat {
    if now + MAX_FUTURE_BLOCK_TIME > U32_MAX then U32_MAX else now + MAX_FUTURE_BLOCK_TIME
  }

  /** The verdict a child of this entry inherits. */
  function CulpritOf(hash: Hash, status: Status): Option<Hash> {
    match status
    case Invalid(_) => Some(hash)
    case InvalidAncestor(culprit) => Some(culprit)
    case _ => None
  }

  ghost function Start(rules: Rules): State {
    State([GenesisNode(rules)], [Genesis], [false],
          map[rules.hashOf(rules.genesis) := 0], 0, 0, [])
  }

  ghost function Insert(rules: Rules, s: State, header: Header, parent: nat, status: Status): State
    requires Linked(s.nodes) && parent < |s.nodes| && s.best < |s.nodes|
  {
    var node := Child(rules, s.nodes, parent, header);
    var n := |s.nodes|;
    State(
      s.nodes + [node],
      s.status + [status],
      s.flagged + [true],
      s.index[node.hash := n],
      s.tip,
      if !status.IsTerminal() && node.chainwork > s.nodes[s.best].chainwork then n else s.best,
      s.dirty + [n])
  }

  /** What `accept` decides about a header, before it stores anything. */
  ghost function Judge(rules: Rules, s: State, header: Header, now: nat): Outcome
    requires Shaped(s)
  {
    var hash := rules.hashOf(header);
    var n := |s.nodes|;
    if hash in s.index then Duplicate(s.index[hash])
    else if !rules.checks(header) then RefusedByCheck
    else if Previous(header) !in s.index then UnknownParent
    else
      var p := s.index[Previous(header)];
      match CulpritOf(s.nodes[p].hash, s.status[p])
      case Some(culprit) => StoredInvalidAncestor(n, culprit)
      case None =>
        if !rules.accepts(Path(s.nodes, p), header) then StoredInvalid(n)
        else if Time(header) > FutureLimit(now) then TooFarInFuture
        else First(n)
  }

  /**
    The verdict on a new header put together from its fields, the clock written out in seconds. What is
    wrong with it in its context comes before its time: a header refused there is refused for good,
    whenever it is dated, and one that is only early is not recorded at all.
   */
  lemma JudgedByFields(rules: Rules, s: State, version: nat, previous: Hash, root: Hash, time: nat, bits: nat,
                       nonce: nat, now: nat)
    requires Shaped(s) && version < U32_LIMIT && time < U32_LIMIT && bits < U32_LIMIT && nonce < U32_LIMIT
    requires |previous| == 32 && |root| == 32
    ensures var h := HeaderOf(version, previous, root, time, bits, nonce);
            var outcome := Judge(rules, s, h, now);
            && (rules.hashOf(h) in s.index ==> outcome == Duplicate(s.index[rules.hashOf(h)]))
            && (rules.hashOf(h) !in s.index && !rules.checks(h) ==> outcome == RefusedByCheck)
            && (rules.hashOf(h) !in s.index && rules.checks(h) ==>
                  && (previous !in s.index ==> outcome == UnknownParent)
                  && (previous in s.index ==>
                        var p := s.index[previous];
                        && (s.status[p].Invalid? ==> outcome == StoredInvalidAncestor(|s.nodes|, previous))
                        && (s.status[p].InvalidAncestor? ==>
                              outcome == StoredInvalidAncestor(|s.nodes|, s.status[p].culprit))
                        && (!s.status[p].IsTerminal() ==>
                              outcome == if !rules.accepts(Path(s.nodes, p), h) then StoredInvalid(|s.nodes|)
                                         else if time <= now + 7200 then First(|s.nodes|)
                                         else TooFarInFuture)))
  {
    FieldsComeBack(version, previous, root, time, bits, nonce);
    hide HeaderOf, Previous, Time, Path, Linked;
  }

  /** The status a stored verdict is stored as. */
  function StoredAs(outcome: Outcome): Option<Status> {
    match outcome
    case First(_) => Some(HeaderAccepted)
    case StoredInvalid(_) => Some(Invalid(Refused(AcceptHeader)))
    case StoredInvalidAncestor(_, culprit) => Some(InvalidAncestor(culprit))
    case _ => None
  }

  ghost function Accept(rules: Rules, cap: nat, s: State, header: Header, now: nat): (State, Outcome)
    requires Shaped(s)
  {
    var outcome := Judge(rules, s, header, now);
    match StoredAs(outcome)
    case None => (s, outcome)
    case Some(status) =>
      if |s.nodes| >= cap then (s, TreeFull)
      else (Insert(rules, s, header, s.index[Previous(header)], status), outcome)
  }

  ghost function MarkDirty(s: State, node: nat): State
    requires node < |s.flagged|
  {
    if s.flagged[node] then s
    else s.(flagged := s.flagged[node := true], dirty := s.dirty + [node])
  }

  ghost function SetStatus(s: State, node: nat, status: Status): State
    requires node < |s.status| && node < |s.flagged|
  {
    MarkDirty(s.(status := s.status[node := status]), node)
  }

  ghost predicate CanCheck(s: State, node: nat) {
    Shaped(s) && node < |s.nodes| && s.status[node] == HeaderAccepted
  }

  ghost function Check(s: State, node: nat, location: Location): State
    requires CanCheck(s, node)
  {
    SetStatus(s, node, BlockChecked(location))
  }

  ghost predicate CanConnect(s: State, node: nat) {
    Shaped(s) && node < |s.nodes| && s.nodes[node].parent == Some(s.tip) && s.status[node].BlockChecked?
  }

  ghost function ConnectBlock(s: State, node: nat, undo: UndoLocation): State
    requires CanConnect(s, node)
  {
    SetStatus(s, node, Connected(s.status[node].location, undo)).(tip := node)
  }

  ghost predicate CanDisconnect(s: State, node: nat) {
    Shaped(s) && node < |s.nodes| && node == s.tip && s.status[node].Connected?
    && s.nodes[node].parent.Some?
  }

  ghost function DisconnectBlock(s: State, node: nat): State
    requires CanDisconnect(s, node)
  {
    SetStatus(s, node, BlockChecked(s.status[node].location)).(tip := s.nodes[node].parent.value)
  }

  /** An entry the call's own assertions let be refused. */
  ghost predicate CanRefuse(s: State, node: nat) {
    Shaped(s) && node < |s.nodes| && !s.status[node].IsTerminal() && !s.status[node].IsConnected()
  }

  ghost predicate CanInvalidate(s: State, node: nat, invalidity: Invalidity) {
    CanRefuse(s, node) && invalidity != Refused(AcceptHeader)
  }

  /** A node's status after the ascending pass that starts just above `from`. */
  ghost function Inherited(nodes: seq<Node>, status: seq<Status>, from: nat, i: nat): Status
    requires Linked(nodes) && |status| == |nodes| && i < |nodes|
    decreases i
  {
    if i <= from || status[i].IsTerminal() then status[i]
    else
      var p := Up(nodes, i);
      match CulpritOf(nodes[p].hash, Inherited(nodes, status, from, p))
      case Some(culprit) => InvalidAncestor(culprit)
      case None => status[i]
  }

  ghost function Propagated(nodes: seq<Node>, status: seq<Status>, from: nat): (r: seq<Status>)
    requires Linked(nodes) && |status| == |nodes|
    ensures |r| == |nodes|
    ensures forall i :: 0 <= i < |nodes| ==> r[i] == Inherited(nodes, status, from, i)
  {
    seq(|nodes|, i requires 0 <= i < |nodes| => Inherited(nodes, status, from, i))
  }

  /** The most-work header of the first `n`, the earliest on a tie. */
  ghost function BestUpTo(nodes: seq<Node>, status: seq<Status>, n: nat): (b: nat)
    requires 0 < |nodes| == |status| && n <= |nodes|
    ensures b < |nodes|
  {
    if n == 0 then 0
    else
      var b := BestUpTo(nodes, status, n - 1);
      if !status[n - 1].IsTerminal() && nodes[n - 1].chainwork > nodes[b].chainwork then n - 1 else b
  }

  ghost function Invalidate(s: State, node: nat, invalidity: Invalidity): State
    requires CanRefuse(s, node)
  {
    var status := Propagated(s.nodes, s.status[node := Invalid(invalidity)], node);
    MarkDirty(s.(status := status, best := BestUpTo(s.nodes, status, |s.nodes|)), node)
  }

  ghost function ClearDirty(s: State): State
    requires Shaped(s)
  {
    s.(flagged := seq(|s.nodes|, _ => false), dirty := [])
  }

  // ----- what every reachable tree satisfies ------------------------------------------------

  /** The columns line up and the hash index names exactly the nodes. */
  ghost predicate Shaped(s: State) {
    && Linked(s.nodes)
    && |s.status| == |s.flagged| == |s.nodes|
    && s.tip < |s.nodes| && s.best < |s.nodes|
    && (forall i :: 0 <= i < |s.nodes| ==> s.nodes[i].hash in s.index && s.index[s.nodes[i].hash] == i)
    && (forall h :: h in s.index ==> s.index[h] < |s.nodes| && s.nodes[s.index[h]].hash == h)
  }

  /** The connected entries are the tip and its ancestors, and no others. */
  ghost predicate ActiveChain(nodes: seq<Node>, status: seq<Status>, tip: nat)
    requires Linked(nodes) && |status| == |nodes| && tip < |nodes|
  {
    forall i {:trigger status[i]} ::
      0 <= i < |nodes| ==> (status[i].IsConnected() <==> OnPath(nodes, i, tip))
  }

  /** One entry's verdict against its parent's and against the rules. */
  ghost predicate VerdictOk(rules: Rules, nodes: seq<Node>, status: seq<Status>, i: nat)
    requires Linked(nodes) && |status| == |nodes| && 0 < i < |nodes|
  {
    var p := Up(nodes, i);
    && status[i] != Genesis
    && (status[p].IsTerminal() ==> status[i].IsTerminal())
    && (status[i].InvalidAncestor?
        ==> CulpritOf(nodes[p].hash, status[p]) == Some(status[i].culprit))
    && (status[i] == Invalid(Refused(AcceptHeader))
        ==> !rules.accepts(Path(nodes, p), nodes[i].header))
    && (!status[i].IsTerminal() ==> rules.accepts(Path(nodes, p), nodes[i].header))
  }

  ghost predicate Verdicts(rules: Rules, nodes: seq<Node>, status: seq<Status>)
    requires Linked(nodes) && |status| == |nodes|
  {
    && status[0] == Genesis
    && forall i {:trigger VerdictOk(rules, nodes, status, i)} ::
         0 < i < |nodes| ==> VerdictOk(rules, nodes, status, i)
  }

  /** `b` is the earliest entry of maximal work among the first `n` that are not terminal. */
  ghost predicate IsBest(nodes: seq<Node>, status: seq<Status>, n: nat, b: nat)
    requires n <= |nodes| == |status|
  {
    && b < n && !status[b].IsTerminal()
    && (forall i :: 0 <= i < n && !status[i].IsTerminal() ==> nodes[i].chainwork <= nodes[b].chainwork)
    && (forall i :: 0 <= i < b && !status[i].IsTerminal() ==> nodes[i].chainwork < nodes[b].chainwork)
  }

  /** The dirty list holds each flagged entry once, and never genesis. */
  ghost predicate DirtyList(flagged: seq<bool>, dirty: seq<nat>) {
    && (forall k :: 0 <= k < |dirty| ==> 0 < dirty[k] < |flagged| && flagged[dirty[k]])
    && (forall i :: 0 <= i < |flagged| && flagged[i] ==> i in dirty)
    && (forall j, k :: 0 <= j < k < |dirty| ==> dirty[j] != dirty[k])
  }

  ghost predicate Sound(rules: Rules, s: State) {
    && Shaped(s)
    && Built(rules, s.nodes)
    && ActiveChain(s.nodes, s.status, s.tip)
    && Verdicts(rules, s.nodes, s.status)
    && IsBest(s.nodes, s.status, |s.nodes|, s.best)
    && DirtyList(s.flagged, s.dirty)
  }

  lemma StartIsSound(rules: Rules)
    ensures Sound(rules, Start(rules))
  {
    GenesisOnPath(Start(rules).nodes, 0);
  }

  lemma SoundIsShaped(rules: Rules, s: State)
    requires Sound(rules, s)
    ensures Shaped(s) && |s.status| == |s.nodes|
  {
  }

  // ----- insertion --------------------------------------------------------------------------

  lemma GenesisOnly(rules: Rules, s: State)
    requires Sound(rules, s)
    ensures s.status[0] == Genesis && forall i :: 0 < i < |s.nodes| ==> s.status[i] != Genesis
  {
    forall i | 0 < i < |s.nodes| ensures s.status[i] != Genesis {
      assert VerdictOk(rules, s.nodes, s.status, i);
    }
  }

  lemma InsertKeepsShape(rules: Rules, s: State, header: Header, parent: nat, status: Status)
    requires Shaped(s) && Built(rules, s.nodes) && parent < |s.nodes|
    requires Previous(header) == s.nodes[parent].hash && rules.checks(header)
    requires rules.hashOf(header) !in s.index
    ensures Shaped(Insert(rules, s, header, parent, status))
    ensures Built(rules, Insert(rules, s, header, parent, status).nodes)
  {
    ChildKeepsBuilt(rules, s.nodes, parent, header);
  }

  lemma GrowthKeepsActive(nodes: seq<Node>, status: seq<Status>, tip: nat, node: Node, state: Status)
    requires Linked(nodes) && Linked(nodes + [node]) && |status| == |nodes| && tip < |nodes|
    requires ActiveChain(nodes, status, tip) && !state.IsConnected()
    ensures ActiveChain(nodes + [node], status + [state], tip)
  {
    var more := nodes + [node];
    forall i | 0 <= i < |more|
      ensures (status + [state])[i].IsConnected() <==> OnPath(more, i, tip)
    {
      if i < |nodes| {
        assert status[i] == (status + [state])[i];
        if nodes[i].height <= nodes[tip].height {
          AncestorExtends(nodes, more, tip, nodes[i].height);
        }
      }
    }
  }

  /** What a new entry's status may be, given its parent's. */
  ghost predicate Fits(rules: Rules, nodes: seq<Node>, status: seq<Status>, header: Header, parent: nat, state: Status)
    requires Linked(nodes) && |status| == |nodes| && parent < |nodes|
  {
    && !state.IsConnected()
    && (status[parent].IsTerminal() ==> state.IsTerminal())
    && (state.InvalidAncestor?
        ==> CulpritOf(nodes[parent].hash, status[parent]) == Some(state.culprit))
    && (state == Invalid(Refused(AcceptHeader)) ==> !rules.accepts(Path(nodes, parent), header))
    && (!state.IsTerminal() ==> rules.accepts(Path(nodes, parent), header))
  }

  lemma GrowthKeepsVerdicts(rules: Rules, nodes: seq<Node>, status: seq<Status>, node: Node, parent: nat, state: Status)
    requires Linked(nodes) && Linked(nodes + [node]) && |status| == |nodes| && parent < |nodes|
    requires node.parent == Some(parent) && Verdicts(rules, nodes, status)
    requires Fits(rules, nodes, status, node.header, parent, state)
    ensures Verdicts(rules, nodes + [node], status + [state])
  {
    hide Path;
    var more := nodes + [node];
    forall i | 0 < i < |more| ensures VerdictOk(rules, more, status + [state], i) {
      if i < |nodes| {
        assert VerdictOk(rules, nodes, status, i);
        PathExtends(nodes, more, Up(nodes, i));
      } else {
        PathExtends(nodes, more, parent);
      }
    }
  }

  lemma GrowthKeepsDirtyList(flagged: seq<bool>, dirty: seq<nat>)
    requires DirtyList(flagged, dirty) && |flagged| > 0
    ensures DirtyList(flagged + [true], dirty + [|flagged|])
  {
    var more := dirty + [|flagged|];
    assert forall k :: 0 <= k < |dirty| ==> more[k] == dirty[k];
    assert more[|dirty|] == |flagged|;
  }

  lemma GrowthKeepsBest(nodes: seq<Node>, status: seq<Status>, best: nat, node: Node, state: Status)
    requires |status| == |nodes| && IsBest(nodes, status, |nodes|, best)
    ensures var b := if !state.IsTerminal() && node.chainwork > nodes[best].chainwork then |nodes| else best;
            IsBest(nodes + [node], status + [state], |nodes| + 1, b)
  {
  }

  lemma InsertIsSound(rules: Rules, s: State, header: Header, parent: nat, status: Status)
    requires Sound(rules, s) && parent < |s.nodes|
    requires Previous(header) == s.nodes[parent].hash && rules.checks(header)
    requires rules.hashOf(header) !in s.index
    requires Fits(rules, s.nodes, s.status, header, parent, status)
    ensures Sound(rules, Insert(rules, s, header, parent, status))
  {
    InsertKeepsShape(rules, s, header, parent, status);
    var node := Child(rules, s.nodes, parent, header);
    hide ActiveChain, Verdicts, IsBest, DirtyList, NodeBuilt, NodeLinked, Fits;
    GrowthKeepsActive(s.nodes, s.status, s.tip, node, status);
    GrowthKeepsVerdicts(rules, s.nodes, s.status, node, parent, status);
    GrowthKeepsBest(s.nodes, s.status, s.best, node, status);
    GrowthKeepsDirtyList(s.flagged, s.dirty);
  }

  lemma AcceptIsSound(rules: Rules, cap: nat, s: State, header: Header, now: nat)
    requires Sound(rules, s)
    ensures Sound(rules, Accept(rules, cap, s, header, now).0)
  {
    var outcome := Judge(rules, s, header, now);
    var stored := StoredAs(outcome);
    if stored.Some? && |s.nodes| < cap {
      var p := s.index[Previous(header)];
      InsertIsSound(rules, s, header, p, stored.value);
    }
  }

  // ----- block steps ------------------------------------------------------------------------

  lemma MarkIsSound(rules: Rules, s: State, node: nat)
    requires Sound(rules, s) && 0 < node < |s.flagged|
    ensures Sound(rules, MarkDirty(s, node))
  {
    hide ActiveChain, Verdicts, IsBest, Built;
    var t := MarkDirty(s, node);
    assert forall k :: 0 <= k < |s.dirty| ==> t.dirty[k] == s.dirty[k];
    if !s.flagged[node] {
      assert t.dirty[|s.dirty|] == node;
    }
  }

  /** Replacing one non-terminal, non-genesis status by another keeps the verdicts. */
  lemma StepKeepsVerdicts(rules: Rules, nodes: seq<Node>, status: seq<Status>, node: nat, state: Status)
    requires Linked(nodes) && |status| == |nodes| && 0 < node < |nodes| && Verdicts(rules, nodes, status)
    requires !status[node].IsTerminal() && !state.IsTerminal() && state != Genesis
    ensures Verdicts(rules, nodes, status[node := state])
  {
    hide Path;
    var after := status[node := state];
    forall i | 0 < i < |nodes| ensures VerdictOk(rules, nodes, after, i) {
      assert VerdictOk(rules, nodes, status, i);
    }
  }

  lemma StepKeepsBest(nodes: seq<Node>, status: seq<Status>, best: nat, node: nat, state: Status)
    requires |status| == |nodes| && node < |nodes| && IsBest(nodes, status, |nodes|, best)
    requires !status[node].IsTerminal() && !state.IsTerminal()
    ensures IsBest(nodes, status[node := state], |nodes|, best)
  {
  }

  /** A block step that keeps the active chain keeps everything. */
  lemma BlockStepIsSound(rules: Rules, s: State, node: nat, state: Status, tip: nat)
    requires Sound(rules, s) && 0 < node < |s.nodes| && tip < |s.nodes|
    requires !s.status[node].IsTerminal() && !state.IsTerminal() && state != Genesis
    requires ActiveChain(s.nodes, s.status[node := state], tip)
    ensures Sound(rules, SetStatus(s, node, state).(tip := tip))
  {
    hide ActiveChain, DirtyList, Built, Linked, IsBest, Verdicts;
    StepKeepsVerdicts(rules, s.nodes, s.status, node, state);
    StepKeepsBest(s.nodes, s.status, s.best, node, state);
    MarkIsSound(rules, s.(status := s.status[node := state], tip := tip), node);
  }

  lemma CheckIsSound(rules: Rules, s: State, node: nat, location: Location)
    requires Sound(rules, s) && CanCheck(s, node)
    ensures Sound(rules, Check(s, node, location))
  {
    var status := s.status[node := BlockChecked(location)];
    forall i | 0 <= i < |status|
      ensures status[i].IsConnected() <==> OnPath(s.nodes, i, s.tip)
    {
      assert s.status[i].IsConnected() == status[i].IsConnected();
    }
    hide AncestorAt;
    BlockStepIsSound(rules, s, node, BlockChecked(location), s.tip);
  }

  lemma ConnectIsSound(rules: Rules, s: State, node: nat, undo: UndoLocation)
    requires Sound(rules, s) && CanConnect(s, node)
    ensures Sound(rules, ConnectBlock(s, node, undo))
  {
    var state := Connected(s.status[node].location, undo);
    hide AncestorAt;
    var status := s.status[node := state];
    forall i | 0 <= i < |status|
      ensures status[i].IsConnected() <==> OnPath(s.nodes, i, node)
    {
      OnPathUp(s.nodes, i, node);
      assert i != node ==> s.status[i] == status[i];
    }
    BlockStepIsSound(rules, s, node, state, node);
  }

  lemma DisconnectIsSound(rules: Rules, s: State, node: nat)
    requires Sound(rules, s) && CanDisconnect(s, node)
    ensures Sound(rules, DisconnectBlock(s, node))
  {
    var state := BlockChecked(s.status[node].location);
    var p := Up(s.nodes, node);
    hide AncestorAt;
    var status := s.status[node := state];
    forall i | 0 <= i < |status|
      ensures status[i].IsConnected() <==> OnPath(s.nodes, i, p)
    {
      OnPathUp(s.nodes, i, node);
      assert i != node ==> s.status[i] == status[i];
    }
    BlockStepIsSound(rules, s, node, state, p);
  }

  lemma ClearDirtyIsSound(rules: Rules, s: State)
    requires Sound(rules, s)
    ensures Sound(rules, ClearDirty(s))
  {
    hide ActiveChain, Verdicts, IsBest, Built;
  }

  // ----- invalidation -----------------------------------------------------------------------

  lemma {:induction false} BestUpToIsBest(nodes: seq<Node>, status: seq<Status>, n: nat)
    requires 0 < n <= |nodes| == |status| && !status[0].IsTerminal()
    ensures IsBest(nodes, status, n, BestUpTo(nodes, status, n))
  {
    if n > 1 {
      BestUpToIsBest(nodes, status, n - 1);
    } else {
      assert BestUpTo(nodes, status, 0) == 0;
    }
  }

  /** The pass makes terminal exactly what already was and what descends from `node`. */
  lemma {:induction false} InheritedIsTerminal(
    rules: Rules, nodes: seq<Node>, status: seq<Status>, node: nat, invalidity: Invalidity, i: nat)
    requires Linked(nodes) && |status| == |nodes| && Verdicts(rules, nodes, status)
    requires node < |nodes| && i < |nodes|
    ensures Inherited(nodes, status[node := Invalid(invalidity)], node, i).IsTerminal()
            <==> status[i].IsTerminal() || OnPath(nodes, node, i)
    decreases i
  {
    if i > node {
      OnPathUp(nodes, node, i);
      assert VerdictOk(rules, nodes, status, i);
      InheritedIsTerminal(rules, nodes, status, node, invalidity, Up(nodes, i));
    }
  }

  /** No entry of the active chain is reached by the pass. */
  lemma ActiveIsUntouched(rules: Rules, s: State, node: nat, invalidity: Invalidity, i: nat)
    requires Sound(rules, s) && i < |s.nodes|
    requires CanRefuse(s, node) && s.status[i].IsConnected()
    ensures Inherited(s.nodes, s.status[node := Invalid(invalidity)], node, i) == s.status[i]
  {
    InheritedIsTerminal(rules, s.nodes, s.status, node, invalidity, i);
    if OnPath(s.nodes, node, i) {
      OnPathTrans(s.nodes, node, i, s.tip);
    }
  }

  lemma InvalidateKeepsVerdicts(
    rules: Rules, nodes: seq<Node>, status: seq<Status>, node: nat, invalidity: Invalidity)
    requires Linked(nodes) && |status| == |nodes| && Verdicts(rules, nodes, status)
    requires 0 < node < |nodes| && !status[node].IsTerminal() && invalidity != Refused(AcceptHeader)
    ensures Verdicts(rules, nodes, Propagated(nodes, status[node := Invalid(invalidity)], node))
  {
    hide Path;
    var marked := status[node := Invalid(invalidity)];
    var after := Propagated(nodes, marked, node);
    forall i | 0 < i < |nodes| ensures VerdictOk(rules, nodes, after, i) {
      assert VerdictOk(rules, nodes, status, i);
      var p := Up(nodes, i);
      InheritedIsTerminal(rules, nodes, status, node, invalidity, i);
      InheritedIsTerminal(rules, nodes, status, node, invalidity, p);
      OnPathUp(nodes, node, i);
      assert after[i] == Inherited(nodes, marked, node, i);
      assert after[p] == Inherited(nodes, marked, node, p);
      assert status[i].InvalidAncestor? ==> after[i] == status[i] && after[p] == status[p];
    }
  }

  lemma InvalidateKeepsActive(rules: Rules, s: State, node: nat, invalidity: Invalidity)
    requires Sound(rules, s) && CanInvalidate(s, node, invalidity)
    ensures ActiveChain(s.nodes, Propagated(s.nodes, s.status[node := Invalid(invalidity)], node), s.tip)
  {
    var after := Propagated(s.nodes, s.status[node := Invalid(invalidity)], node);
    forall i | 0 <= i < |s.nodes|
      ensures after[i].IsConnected() <==> OnPath(s.nodes, i, s.tip)
    {
      assert after[i] == Inherited(s.nodes, s.status[node := Invalid(invalidity)], node, i);
      if s.status[i].IsConnected() {
        ActiveIsUntouched(rules, s, node, invalidity, i);
      }
    }
  }

  lemma InvalidateIsSound(rules: Rules, s: State, node: nat, invalidity: Invalidity)
    requires Sound(rules, s) && CanInvalidate(s, node, invalidity)
    ensures Sound(rules, Invalidate(s, node, invalidity))
  {
    hide IsBest, DirtyList, Built, Inherited, BestUpTo, ActiveChain, OnPath, VerdictOk, Linked;
    InvalidateKeepsVerdicts(rules, s.nodes, s.status, node, invalidity);
    InvalidateKeepsActive(rules, s, node, invalidity);
    var status := Propagated(s.nodes, s.status[node := Invalid(invalidity)], node);
    var best := BestUpTo(s.nodes, status, |s.nodes|);
    BestUpToIsBest(s.nodes, status, |s.nodes|);
    MarkIsSound(rules, s.(status := status, best := best), node);
  }

  /**
    Any verdict may be given to any entry the call's assertions admit, except one: this run's own
    header-stage refusal. The rules accept every header not yet refused, so it would leave the tree
    saying what the rules do not. `HeaderVerdict` says what becomes of it at the next load.
   */
  lemma InvalidateIsSoundIff(rules: Rules, s: State, node: nat, invalidity: Invalidity)
    requires Sound(rules, s) && CanRefuse(s, node)
    ensures Sound(rules, Invalidate(s, node, invalidity)) <==> invalidity != Refused(AcceptHeader)
  {
    if invalidity != Refused(AcceptHeader) {
      InvalidateIsSound(rules, s, node, invalidity);
    } else {
      hide ActiveChain, IsBest, Built, DirtyList, Path, BestUpTo;
      var t := Invalidate(s, node, invalidity);
      assert VerdictOk(rules, s.nodes, s.status, node);
      assert t.status[node] == Inherited(s.nodes, s.status[node := Invalid(invalidity)], node, node);
      assert !VerdictOk(rules, t.nodes, t.status, node);
    }
  }

  // ----- runs -------------------------------------------------------------------------------

  datatype Op =
    | OpAccept(header: Header, now: nat)
    | OpCheck(node: nat, location: Location)
    | OpConnect(node: nat, undo: UndoLocation)
    | OpDisconnect(node: nat)
    | OpInvalidate(node: nat, invalidity: Invalidity)
    | OpClearDirty

  /** The calls the tree's own assertions admit, a fresh header-stage refusal apart. */
  ghost predicate Legal(rules: Rules, s: State, op: Op) {
    && Shaped(s)
    && match op
       case OpAccept(_, _) => true
       case OpCheck(node, _) => CanCheck(s, node)
       case OpConnect(node, _) => CanConnect(s, node)
       case OpDisconnect(node) => CanDisconnect(s, node)
       case OpInvalidate(node, invalidity) => CanInvalidate(s, node, invalidity)
       case OpClearDirty => true
  }

  ghost function Step(rules: Rules, cap: nat, s: State, op: Op): State
    requires Legal(rules, s, op)
  {
    match op
    case OpAccept(header, now) => Accept(rules, cap, s, header, now).0
    case OpCheck(node, location) => Check(s, node, location)
    case OpConnect(node, undo) => ConnectBlock(s, node, undo)
    case OpDisconnect(node) => DisconnectBlock(s, node)
    case OpInvalidate(node, invalidity) => Invalidate(s, node, invalidity)
    case OpClearDirty => ClearDirty(s)
  }

  /** The tree a sequence of calls leads to, or nothing when an assertion stops one of them. */
  ghost function Run(rules: Rules, cap: nat, ops: seq<Op>): Option<State> {
    if |ops| == 0 then Some(Start(rules))
    else
      match Run(rules, cap, ops[..|ops| - 1])
      case None => None
      case Some(s) =>
        if Legal(rules, s, ops[|ops| - 1]) then Some(Step(rules, cap, s, ops[|ops| - 1])) else None
  }

  lemma StepIsSound(rules: Rules, cap: nat, s: State, op: Op)
    requires Sound(rules, s) && Legal(rules, s, op)
    ensures Sound(rules, Step(rules, cap, s, op))
  {
    hide Sound, Shaped;
    match op
    case OpAccept(header, now) => AcceptIsSound(rules, cap, s, header, now);
    case OpCheck(node, location) => CheckIsSound(rules, s, node, location);
    case OpConnect(node, undo) => ConnectIsSound(rules, s, node, undo);
    case OpDisconnect(node) => DisconnectIsSound(rules, s, node);
    case OpInvalidate(node, invalidity) => InvalidateIsSound(rules, s, node, invalidity);
    case OpClearDirty => ClearDirtyIsSound(rules, s);
  }

  /** The verdicts of one list of statuses all stand in a longer one. */
  ghost predicate Stand(before: seq<Status>, after: seq<Status>) {
    |before| <= |after| && forall i :: 0 <= i < |before| && before[i].IsTerminal() ==> after[i] == before[i]
  }

  /** No call takes a verdict back or changes it. */
  lemma VerdictsStand(rules: Rules, cap: nat, s: State, op: Op)
    requires Legal(rules, s, op)
    ensures Stand(s.status, Step(rules, cap, s, op).status)
  {
    hide Linked, Judge, Child, BestUpTo;
  }

  /** Every tree any run of legal calls reaches is sound. */
  lemma {:induction false} ReachableIsSound(rules: Rules, cap: nat, ops: seq<Op>)
    ensures var r := Run(rules, cap, ops); r.Some? ==> Sound(rules, r.value)
    decreases |ops|
  {
    if |ops| == 0 {
      StartIsSound(rules);
    } else {
      ReachableIsSound(rules, cap, ops[..|ops| - 1]);
      var before := Run(rules, cap, ops[..|ops| - 1]);
      if before.Some? && Legal(rules, before.value, ops[|ops| - 1]) {
        StepIsSound(rules, cap, before.value, ops[|ops| - 1]);
      }
    }
  }

  // ----- what soundness says ----------------------------------------------------------------

  /** The nearest entry at or above `i` that earned a verdict of its own. */
  ghost function NearestInvalid(s: State, i: nat): (r: Option<nat>)
    requires Linked(s.nodes) && |s.status| == |s.nodes| && i < |s.nodes|
    ensures r.Some? ==> r.value <= i && s.status[r.value].Invalid?
    decreases i
  {
    if s.status[i].Invalid? then Some(i)
    else if i == 0 then None
    else NearestInvalid(s, Up(s.nodes, i))
  }

  /** Every inherited verdict names the nearest ancestor that earned one. */
  lemma {:induction false} CulpritIsNearest(rules: Rules, s: State, i: nat)
    requires Sound(rules, s) && i < |s.nodes|
    ensures s.status[i].IsTerminal() ==>
              var c := NearestInvalid(s, i);
              c.Some? && CulpritOf(s.nodes[i].hash, s.status[i]) == Some(s.nodes[c.value].hash)
    decreases i
  {
    if i > 0 {
      assert VerdictOk(rules, s.nodes, s.status, i);
      CulpritIsNearest(rules, s, Up(s.nodes, i));
    }
  }

  /** Terminal status is closed under descendants. */
  lemma {:induction false} TerminalIsClosed(rules: Rules, s: State, a: nat, i: nat)
    requires Sound(rules, s) && i < |s.nodes| && OnPath(s.nodes, a, i) && s.status[a].IsTerminal()
    ensures s.status[i].IsTerminal()
    decreases i
  {
    if i != a {
      OnPathUp(s.nodes, a, i);
      assert VerdictOk(rules, s.nodes, s.status, i);
      TerminalIsClosed(rules, s, a, Up(s.nodes, i));
    }
  }

  /** There is one best header. */
  lemma BestIsUnique(nodes: seq<Node>, status: seq<Status>, n: nat, a: nat, b: nat)
    requires n <= |nodes| == |status| && IsBest(nodes, status, n, a) && IsBest(nodes, status, n, b)
    ensures a == b
  {
  }
}
