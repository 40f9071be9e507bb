/**
  Planning a reorganisation. The steps a driver would take one at a time are defined first; the
  planner's two loops list them without touching the tree. It is proved that every prefix of a plan
  can be carried out, that doing so shortens the way to the best header, and where repeating it ends.
 */
module Reorg {
  import opened Bytes
  import opened Arena
  import opened TreeState
  import opened HeaderTrees

  datatype Job = Job(connect: bool, hash: Hash, context: seq<Header>, location: Location)

  datatype Plan = Plan(fork: nat, depth: nat, jobs: seq<Job>, missing: Option<Hash>)

  ghost function Fork(s: State): (f: nat)
    requires Shaped(s)
    ensures f < |s.nodes| && OnPath(s.nodes, f, s.tip) && OnPath(s.nodes, f, s.best)
  {
    ForkOf(s.nodes, s.tip, s.best)
  }

  /** How many steps lie between the tip and the best header: off the one chain, onto the other. */
  ghost function Distance(s: State): nat
    requires Shaped(s)
  {
    var f := Fork(s);
    (s.nodes[s.tip].height - s.nodes[f].height) + (s.nodes[s.best].height - s.nodes[f].height)
  }

  lemma ForkHeights(s: State)
    requires Shaped(s)
    ensures Fork(s) < |s.nodes|
    ensures s.nodes[Fork(s)].height <= s.nodes[s.tip].height
    ensures s.nodes[Fork(s)].height <= s.nodes[s.best].height
  {
  }

  // ----- one step at a time -------------------------------------------------------------------

  datatype Step = Off(node: nat) | On(node: nat)

  /** What to do next, decided from the tree as it is now. */
  ghost function NextStep(s: State): Option<Step>
    requires Shaped(s)
  {
    if s.tip != Fork(s) then Some(Off(s.tip))
    else if s.tip == s.best then None
    else
      ForkBelow(s);
      var n := AncestorAt(s.nodes, s.best, s.nodes[s.tip].height + 1);
      if s.status[n].Where().None? then None else Some(On(n))
  }

  lemma ForkBelow(s: State)
    requires Shaped(s) && s.tip == Fork(s) && s.tip != s.best
    ensures s.nodes[s.tip].height < s.nodes[s.best].height
  {
  }

  ghost predicate CanDo(s: State, step: Step) {
    match step
    case Off(node) => CanDisconnect(s, node)
    case On(node) => CanConnect(s, node)
  }

  ghost function Do(s: State, step: Step, undo: nat -> UndoLocation): State
    requires CanDo(s, step)
  {
    match step
    case Off(node) => DisconnectBlock(s, node)
    case On(node) => ConnectBlock(s, node, undo(node))
  }

  /** Steps move the tip; what is known of every block stays. */
  ghost predicate SameBlocks(s: State, t: State) {
    && t.nodes == s.nodes && t.best == s.best && t.index == s.index
    && |t.status| == |s.status|
    && forall i :: 0 <= i < |s.status| ==> t.status[i].Where() == s.status[i].Where()
  }

  lemma OffIsLegal(rules: Rules, s: State, undo: nat -> UndoLocation)
    requires Sound(rules, s) && s.tip != Fork(s)
    ensures CanDo(s, Off(s.tip))
    ensures var t := Do(s, Off(s.tip), undo);
            && Sound(rules, t) && SameBlocks(s, t)
            && t.tip == Up(s.nodes, s.tip) && Fork(t) == Fork(s)
  {
    hide Verdicts, ActiveChain, IsBest, Built, DirtyList, OnPath, Fork;
    TipIsConnected(rules, s);
    DisconnectIsSound(rules, s, s.tip);
    OffKeepsFork(s, DisconnectBlock(s, s.tip));
  }

  lemma TipIsConnected(rules: Rules, s: State)
    requires Sound(rules, s) && s.tip != Fork(s)
    ensures 0 < s.tip && s.status[s.tip].Connected? && s.nodes[s.tip].parent == Some(Up(s.nodes, s.tip))
  {
    GenesisOnly(rules, s);
    assert OnPath(s.nodes, s.tip, s.tip);
  }

  lemma OffKeepsFork(s: State, t: State)
    requires Shaped(s) && Shaped(t) && t.nodes == s.nodes && t.best == s.best
    requires s.tip != Fork(s) && s.tip > 0 && t.tip == Up(s.nodes, s.tip)
    ensures Fork(t) == Fork(s)
  {
    assert !OnPath(s.nodes, s.tip, s.best);
  }

  lemma OnIsLegal(rules: Rules, s: State, undo: nat -> UndoLocation, n: nat)
    requires Sound(rules, s) && NextStep(s) == Some(On(n))
    ensures CanDo(s, On(n))
    ensures var t := Do(s, On(n), undo);
            && Sound(rules, t) && SameBlocks(s, t)
            && t.tip == n && Fork(t) == n && s.nodes[n].height == s.nodes[s.tip].height + 1
  {
    hide Verdicts, ActiveChain, IsBest, Built, DirtyList, ForkOf;
    NextIsChecked(rules, s, n);
    ConnectIsSound(rules, s, n, undo(n));
    OnMovesFork(s, ConnectBlock(s, n, undo(n)), n);
  }

  /** The next block on the best chain hangs off the tip with its bytes here, not yet connected. */
  lemma NextIsChecked(rules: Rules, s: State, n: nat)
    requires Sound(rules, s) && NextStep(s) == Some(On(n))
    ensures 0 < n < |s.nodes| && OnPath(s.nodes, n, s.best) && Up(s.nodes, n) == s.tip
    ensures s.status[n].BlockChecked?
  {
    ForkBelow(s);
    var h := s.nodes[s.tip].height;
    OnPathOfAncestor(s.nodes, s.best, h + 1);
    NextHangsOffTip(s, n);
    NotTerminalAbove(rules, s, n);
    assert !OnPath(s.nodes, n, s.tip);
  }

  lemma OnMovesFork(s: State, t: State, n: nat)
    requires Shaped(s) && Shaped(t) && t.nodes == s.nodes && t.best == s.best && t.tip == n
    requires n < |s.nodes| && OnPath(s.nodes, n, s.best)
    ensures Fork(t) == n
  {
  }

  lemma NextHangsOffTip(s: State, n: nat)
    requires Shaped(s) && s.tip == Fork(s) && s.nodes[s.tip].height < s.nodes[s.best].height
    requires n == AncestorAt(s.nodes, s.best, s.nodes[s.tip].height + 1)
    ensures 0 < n && Up(s.nodes, n) == s.tip
  {
    AncestorCompose(s.nodes, s.best, s.nodes[s.tip].height + 1, s.nodes[s.tip].height);
  }

  lemma NotTerminalAbove(rules: Rules, s: State, n: nat)
    requires Sound(rules, s) && OnPath(s.nodes, n, s.best)
    ensures !s.status[n].IsTerminal()
  {
    if s.status[n].IsTerminal() {
      TerminalIsClosed(rules, s, n, s.best);
    }
  }

  /** The next step can always be taken, and takes one off the distance. */
  lemma NextIsLegal(rules: Rules, s: State, undo: nat -> UndoLocation)
    requires Sound(rules, s) && NextStep(s).Some?
    ensures CanDo(s, NextStep(s).value)
    ensures var t := Do(s, NextStep(s).value, undo);
            Sound(rules, t) && SameBlocks(s, t) && Distance(t) + 1 == Distance(s)
  {
    hide Verdicts, ActiveChain, IsBest, Built, DirtyList, CanDo, Do, Linked;
    var step := NextStep(s).value;
    if step.Off? {
      OffIsLegal(rules, s, undo);
      ForkHeights(s);
    } else {
      OnIsLegal(rules, s, undo, step.node);
    }
  }

  // ----- the driver ---------------------------------------------------------------------------

  ghost function JobFor(s: State, step: Step): Job
    requires Shaped(s)
  {
    var i := step.node;
    if 0 < i < |s.nodes| && s.status[i].Where().Some? then
      Job(step.On?, s.nodes[i].hash, Path(s.nodes, Up(s.nodes, i)), s.status[i].Where().value)
    else Job(step.On?, [], [], Location(0, 0, 0))
  }

  /** The jobs a driver would do if it looked again after every one, and the tree it ends with. */
  ghost function Drive(rules: Rules, s: State, n: nat, undo: nat -> UndoLocation): (r: (seq<Job>, State))
    requires Sound(rules, s)
    ensures Sound(rules, r.1)
    decreases n
  {
    if n == 0 || NextStep(s).None? then ([], s)
    else
      NextIsLegal(rules, s, undo);
      var step := NextStep(s).value;
      var r := Drive(rules, Do(s, step, undo), n - 1, undo);
      ([JobFor(s, step)] + r.0, r.1)
  }

  /** Every job shortens the way by one; stopping short of `n` means there was nothing to do. */
  lemma {:induction false} DriveShortens(rules: Rules, s: State, n: nat, undo: nat -> UndoLocation)
    requires Sound(rules, s)
    ensures var (jobs, t) := Drive(rules, s, n, undo);
            && SameBlocks(s, t) && |jobs| <= n
            && Distance(t) + |jobs| == Distance(s)
            && (|jobs| < n ==> NextStep(t) == None)
    decreases n
  {
    hide Verdicts, ActiveChain, IsBest, Built, DirtyList, CanDo, Do, Distance, NextStep;
    if n > 0 && NextStep(s).Some? {
      NextIsLegal(rules, s, undo);
      DriveShortens(rules, Do(s, NextStep(s).value, undo), n - 1, undo);
    }
  }

  /** A shorter drive does the first jobs of a longer one: every prefix of the list is legal. */
  lemma {:induction false} DrivePrefix(rules: Rules, s: State, k: nat, n: nat, undo: nat -> UndoLocation)
    requires Sound(rules, s) && k <= n
    ensures var (jobs, more) := (Drive(rules, s, k, undo).0, Drive(rules, s, n, undo).0);
            jobs == more[..if k < |more| then k else |more|]
    decreases n
  {
    hide Verdicts, ActiveChain, IsBest, Built, DirtyList, Linked, CanDo, Do, NextStep, JobFor, Drive;
    DriveUnfold(rules, s, k, undo);
    DriveUnfold(rules, s, n, undo);
    if k > 0 && NextStep(s).Some? {
      DrivePrefix(rules, Do(s, NextStep(s).value, undo), k - 1, n - 1, undo);
    }
  }

  /** Nothing to do means the tip is the best header, or the block above the tip is not here. */
  lemma StuckMeans(rules: Rules, s: State)
    requires Sound(rules, s) && NextStep(s) == None
    ensures s.tip == Fork(s)
    ensures s.tip != s.best ==>
              && s.nodes[s.tip].height < s.nodes[s.best].height
              && var n := AncestorAt(s.nodes, s.best, s.nodes[s.tip].height + 1);
                 s.nodes[n].parent == Some(s.tip) && s.status[n] == HeaderAccepted
  {
    if s.tip != s.best {
      ForkBelow(s);
      var n := AncestorAt(s.nodes, s.best, s.nodes[s.tip].height + 1);
      OnPathOfAncestor(s.nodes, s.best, s.nodes[s.tip].height + 1);
      NextHangsOffTip(s, n);
      NotTerminalAbove(rules, s, n);
      GenesisOnly(rules, s);
    }
  }

  /** Plan and apply with one limit until a plan is empty. */
  ghost function Settle(rules: Rules, s: State, limit: nat, undo: nat -> UndoLocation): (r: State)
    requires Sound(rules, s) && limit > 0
    ensures Sound(rules, r)
    decreases Distance(s)
  {
    DriveShortens(rules, s, limit, undo);
    var (jobs, t) := Drive(rules, s, limit, undo);
    if jobs == [] then s else Settle(rules, t, limit, undo)
  }

  /**
    Repeating plans of any size ends on the best header, or just below the first block of its
    chain whose bytes have not arrived; the best header itself does not move.
   */
  lemma {:induction false} SettleArrives(rules: Rules, s: State, limit: nat, undo: nat -> UndoLocation)
    requires Sound(rules, s) && limit > 0
    ensures var r := Settle(rules, s, limit, undo);
            && SameBlocks(s, r)
            && (r.tip == r.best
                || (&& r.nodes[r.tip].height < r.nodes[r.best].height
                    && var n := AncestorAt(r.nodes, r.best, r.nodes[r.tip].height + 1);
                       r.nodes[n].parent == Some(r.tip) && r.status[n] == HeaderAccepted))
    decreases Distance(s)
  {
    hide Verdicts, ActiveChain, IsBest, Built, DirtyList, Drive, NextStep, Distance, AncestorAt, Linked;
    DriveShortens(rules, s, limit, undo);
    var (jobs, t) := Drive(rules, s, limit, undo);
    if jobs == [] {
      DriveNothing(rules, s, limit, undo);
      StuckMeans(rules, s);
    } else {
      SettleArrives(rules, t, limit, undo);
    }
  }

  lemma DriveNothing(rules: Rules, s: State, limit: nat, undo: nat -> UndoLocation)
    requires Sound(rules, s) && limit > 0 && Drive(rules, s, limit, undo).0 == []
    ensures NextStep(s) == None
  {
    hide Verdicts, ActiveChain, IsBest, Built, DirtyList, NextStep;
  }

  // ----- the planner --------------------------------------------------------------------------

  /** The blocks from `i` down to just above `f`, to be taken off. */
  ghost function DownSteps(nodes: seq<Node>, i: nat, f: nat): (d: seq<Step>)
    requires Linked(nodes) && i < |nodes| && OnPath(nodes, f, i)
    ensures |d| == nodes[i].height - nodes[f].height
    decreases i
  {
    if i == f then []
    else
      OnPathUp(nodes, f, i);
      [Off(i)] + DownSteps(nodes, Up(nodes, i), f)
  }

  /** The blocks on `target`'s chain from height `h` up, as far as their bytes are here. */
  ghost function UpSteps(s: State, target: nat, h: nat): (c: seq<Step>)
    requires Shaped(s) && target < |s.nodes|
    ensures |c| > 0 ==> h + |c| <= s.nodes[target].height + 1
    decreases s.nodes[target].height + 1 - h
  {
    if h > s.nodes[target].height then []
    else
      var n := AncestorAt(s.nodes, target, h);
      if s.status[n].Where().None? then [] else [On(n)] + UpSteps(s, target, h + 1)
  }

  ghost function AllSteps(s: State): seq<Step>
    requires Shaped(s)
  {
    DownSteps(s.nodes, s.tip, Fork(s)) + UpSteps(s, s.best, s.nodes[Fork(s)].height + 1)
  }

  ghost function JobsOf(s: State, steps: seq<Step>): (jobs: seq<Job>)
    requires Shaped(s)
    ensures |jobs| == |steps| && forall k :: 0 <= k < |steps| ==> jobs[k] == JobFor(s, steps[k])
  {
    seq(|steps|, k requires 0 <= k < |steps| => JobFor(s, steps[k]))
  }

  /** The first block at or above a height that has no location yet, when that is why the plan ends. */
  ghost function MissingUp(s: State, from: nat, room: nat): Option<Hash>
    requires Shaped(s)
  {
    var ups := |UpSteps(s, s.best, from)|;
    if ups < room && from + ups <= s.nodes[s.best].height
    then Some(s.nodes[AncestorAt(s.nodes, s.best, from + ups)].hash) else None
  }

  ghost function MissingOf(s: State, limit: nat): Option<Hash>
    requires Shaped(s)
  {
    MissingUp(s, s.nodes[Fork(s)].height + 1, limit - |Take(DownSteps(s.nodes, s.tip, Fork(s)), limit)|)
  }

  lemma {:induction false} UpStepsSame(s: State, t: State, target: nat, h: nat)
    requires Shaped(s) && Shaped(t) && SameBlocks(s, t) && target < |s.nodes|
    ensures UpSteps(t, target, h) == UpSteps(s, target, h)
    decreases s.nodes[target].height + 1 - h
  {
    if h <= s.nodes[target].height {
      UpStepsSame(s, t, target, h + 1);
    }
  }

  /** What can be done now is the next step and then what can be done after it. */
  lemma AllStepsUnfold(rules: Rules, s: State, undo: nat -> UndoLocation)
    requires Sound(rules, s)
    ensures NextStep(s) == None ==> AllSteps(s) == []
    ensures NextStep(s).Some? ==>
              && CanDo(s, NextStep(s).value)
              && Shaped(Do(s, NextStep(s).value, undo))
              && AllSteps(s) == [NextStep(s).value] + AllSteps(Do(s, NextStep(s).value, undo))
  {
    hide Verdicts, ActiveChain, IsBest, Built, DirtyList;
    if s.tip != Fork(s) {
      OffIsLegal(rules, s, undo);
      OffUnfolds(s, Do(s, Off(s.tip), undo));
    } else if s.tip != s.best {
      ForkBelow(s);
      if NextStep(s).Some? {
        OnIsLegal(rules, s, undo, NextStep(s).value.node);
        OnUnfolds(s, Do(s, NextStep(s).value, undo));
      }
    }
  }

  lemma OffUnfolds(s: State, t: State)
    requires Shaped(s) && Shaped(t) && SameBlocks(s, t) && s.tip > 0 && s.tip != Fork(s)
    requires t.tip == Up(s.nodes, s.tip) && Fork(t) == Fork(s)
    ensures AllSteps(s) == [Off(s.tip)] + AllSteps(t)
  {
    DownIsDefined(s);
    hide Fork, DownSteps, UpSteps, AncestorAt, OnPath, Linked;
    UpStepsSame(s, t, s.best, s.nodes[Fork(s)].height + 1);
    DownUnfolds(s.nodes, s.tip, Fork(s));
    Associates([Off(s.tip)], DownSteps(s.nodes, t.tip, Fork(s)), UpSteps(s, s.best, s.nodes[Fork(s)].height + 1));
  }

  lemma OnUnfolds(s: State, t: State)
    requires Shaped(s) && Shaped(t) && SameBlocks(s, t) && s.tip == Fork(s) && s.tip != s.best
    requires NextStep(s) == Some(On(t.tip)) && Fork(t) == t.tip
    requires s.nodes[t.tip].height == s.nodes[s.tip].height + 1
    ensures AllSteps(s) == [On(t.tip)] + AllSteps(t)
  {
    hide Fork;
    UpStepsSame(s, t, s.best, s.nodes[t.tip].height + 1);
  }

  lemma JobsSame(s: State, t: State, steps: seq<Step>)
    requires Shaped(s) && Shaped(t) && SameBlocks(s, t)
    ensures JobsOf(t, steps) == JobsOf(s, steps)
  {
  }

  lemma JobsCons(s: State, step: Step, rest: seq<Step>, limit: nat)
    requires Shaped(s) && limit > 0
    ensures JobsOf(s, Take([step] + rest, limit)) == [JobFor(s, step)] + JobsOf(s, Take(rest, limit - 1))
  {
    hide JobFor, Shaped;
    assert Take([step] + rest, limit) == [step] + Take(rest, limit - 1);
  }

  lemma JobsNone(s: State, steps: seq<Step>, limit: nat)
    requires Shaped(s)
    ensures limit == 0 || steps == [] ==> JobsOf(s, Take(steps, limit)) == []
  {
    hide JobFor, Shaped;
  }

  lemma DriveUnfold(rules: Rules, s: State, n: nat, undo: nat -> UndoLocation)
    requires Sound(rules, s)
    ensures n == 0 || NextStep(s) == None ==> Drive(rules, s, n, undo).0 == []
    ensures n > 0 && NextStep(s).Some? ==>
              && CanDo(s, NextStep(s).value) && Sound(rules, Do(s, NextStep(s).value, undo))
              && Drive(rules, s, n, undo).0
                 == [JobFor(s, NextStep(s).value)] + Drive(rules, Do(s, NextStep(s).value, undo), n - 1, undo).0
  {
    hide Verdicts, ActiveChain, IsBest, Built, DirtyList, CanDo, Do, NextStep, JobFor, Linked;
    if NextStep(s).Some? {
      NextIsLegal(rules, s, undo);
    }
  }

  /** The planner's list, made without touching the tree, is what the driver would do. */
  lemma {:induction false} PlanIsDrive(rules: Rules, s: State, limit: nat, undo: nat -> UndoLocation)
    requires Sound(rules, s)
    ensures JobsOf(s, Take(AllSteps(s), limit)) == Drive(rules, s, limit, undo).0
    decreases limit
  {
    hide Verdicts, ActiveChain, IsBest, Built, DirtyList, CanDo, Do, NextStep, JobFor, AllSteps, SameBlocks,
      Linked, Drive, JobsOf, Take;
    AllStepsUnfold(rules, s, undo);
    DriveUnfold(rules, s, limit, undo);
    JobsNone(s, AllSteps(s), limit);
    if limit > 0 && NextStep(s).Some? {
      NextIsLegal(rules, s, undo);
      var step := NextStep(s).value;
      var t := Do(s, step, undo);
      PlanIsDrive(rules, t, limit - 1, undo);
      JobsSame(s, t, Take(AllSteps(t), limit - 1));
      JobsCons(s, step, AllSteps(t), limit);
    }
  }

  /** An empty plan is at the best header, or names the tip's next block on its chain as missing. */
  lemma EmptyPlanSays(rules: Rules, s: State, limit: nat)
    requires Sound(rules, s) && limit > 0 && Take(AllSteps(s), limit) == []
    ensures s.tip == Fork(s)
    ensures s.tip == s.best ==> MissingOf(s, limit) == None
    ensures s.tip != s.best ==>
              && s.nodes[s.tip].height < s.nodes[s.best].height
              && var n := AncestorAt(s.nodes, s.best, s.nodes[s.tip].height + 1);
                 s.nodes[n].parent == Some(s.tip) && MissingOf(s, limit) == Some(s.nodes[n].hash)
  {
    hide Verdicts, ActiveChain, IsBest, Built, DirtyList;
    assert AllSteps(s) == [];
    assert s.tip == Fork(s);
    if s.tip != s.best {
      ForkBelow(s);
      NextHangsOffTip(s, AncestorAt(s.nodes, s.best, s.nodes[s.tip].height + 1));
    }
  }

  // ----- the planner's own loops ----------------------------------------------------------------

  /** The loop from the best header down to the first connected block ends on the fork. */
  method ForkPoint(tree: HeaderTree) returns (fork: nat)
    requires tree.Valid()
    ensures fork == Fork(tree.View())
  {
    hide Built, NodeBuilt, Verdicts, IsBest, DirtyList;
    ghost var s := tree.View();
    ghost var f := Fork(s);
    ForkOfIsFork(s.nodes, s.tip, s.best);
    var tipHeight := tree.nodes[tree.tip].height;
    var start := tree.Ancestor(tree.best, tipHeight);
    var walk: nat := if start.Some? then start.value else tree.best;
    OnPathOfAncestor(s.nodes, s.best, s.nodes[walk].height);
    OnPathLinear(s.nodes, f, walk, s.best);
    var steps := 0;
    while !tree.status[walk].IsConnected()
      invariant walk < |tree.nodes| && OnPath(s.nodes, walk, s.best) && OnPath(s.nodes, f, walk)
      invariant steps + walk <= |tree.nodes|
      decreases walk
    {
      assert !OnPath(s.nodes, walk, s.tip);
      NotYetFork(s.nodes, walk, f, s.best);
      steps := steps + 1;
      assert steps <= |tree.nodes|;
      walk := tree.nodes[walk].parent.value;
    }
    assert OnPath(s.nodes, walk, s.tip);
    fork := walk;
  }

  lemma NotYetFork(nodes: seq<Node>, walk: nat, f: nat, best: nat)
    requires Linked(nodes) && best < |nodes| && OnPath(nodes, walk, best) && OnPath(nodes, f, walk) && f != walk
    ensures 0 < walk && OnPath(nodes, Up(nodes, walk), best) && OnPath(nodes, f, Up(nodes, walk))
  {
    if walk > 0 {
      OnPathUp(nodes, f, walk);
      OnPathUp(nodes, Up(nodes, walk), walk);
      OnPathTrans(nodes, Up(nodes, walk), walk, best);
    }
  }

  /** The job for one block, its context gathered from its ancestors. */
  method MakeJob(tree: HeaderTree, ghost step: Step, connect: bool, node: nat) returns (job: Job)
    requires tree.Valid() && 0 < node < |tree.nodes| && tree.status[node].Where().Some?
    requires step.node == node && step.On? == connect
    ensures job == JobFor(tree.View(), step)
  {
    hide Verdicts, ActiveChain, IsBest, DirtyList, Built, Path, NodeBuilt;
    ghost var p := Up(tree.nodes, node);
    var context := tree.HeadersTo(tree.nodes[node].parent.value);
    job := Job(connect, tree.nodes[node].hash, context, tree.status[node].Where().value);
  }

  lemma JobsPush(s: State, steps: seq<Step>, step: Step)
    requires Shaped(s)
    ensures JobsOf(s, steps + [step]) == JobsOf(s, steps) + [JobFor(s, step)]
  {
    hide Shaped, JobFor;
  }

  /** The pass ahead of the first job: every block to be taken off is connected, so it has its undo record. */
  method CheckDisconnectSide(tree: HeaderTree, fork: nat) returns (connected: bool)
    requires tree.Valid() && fork == Fork(tree.View())
    ensures connected
    ensures forall i ::
              (0 <= i < |tree.nodes| && OnPath(tree.nodes, i, tree.tip) && tree.nodes[i].height > tree.nodes[fork].height)
              ==> tree.status[i].Connected?
  {
    hide Verdicts, IsBest, DirtyList, Built, NodeBuilt, Fork, ActiveChain;
    ghost var s := tree.View();
    var walk: nat := tree.tip;
    assert OnPath(s.nodes, s.tip, s.tip);
    while walk != fork
      invariant walk < |tree.nodes| && OnPath(s.nodes, fork, walk) && OnPath(s.nodes, walk, s.tip)
      decreases walk
    {
      NotYetFork(s.nodes, walk, fork, s.tip);
      ActiveHasBytes(tree, walk);
      if !tree.status[walk].Connected? {
        return false;
      }
      walk := tree.nodes[walk].parent.value;
    }
    forall i | 0 <= i < |tree.nodes| && OnPath(tree.nodes, i, tree.tip)
               && tree.nodes[i].height > tree.nodes[fork].height
      ensures tree.status[i].Connected?
    {
      HigherIsAboveRoot(s.nodes, i, fork);
      ActiveHasBytes(tree, i);
    }
    return true;
  }

  lemma StartOfWalk(s: State)
    requires Shaped(s)
    ensures OnPath(s.nodes, s.tip, s.tip) && OnPath(s.nodes, Fork(s), s.tip)
  {
    ForkHeights(s);
  }

  lemma HigherIsAboveRoot(nodes: seq<Node>, i: nat, fork: nat)
    requires Linked(nodes) && i < |nodes| && fork < |nodes| && nodes[i].height > nodes[fork].height
    ensures i > 0
  {
  }

  lemma DownUnfolds(nodes: seq<Node>, i: nat, f: nat)
    requires Linked(nodes) && i < |nodes| && OnPath(nodes, f, i)
    ensures i == f ==> DownSteps(nodes, i, f) == []
    ensures i != f ==> i > 0 && OnPath(nodes, f, Up(nodes, i))
                       && DownSteps(nodes, i, f) == [Off(i)] + DownSteps(nodes, Up(nodes, i), f)
  {
    hide AncestorAt;
    if i != f {
      OnPathUp(nodes, f, i);
    }
  }

  /** The steps listed so far, and those from `walk` down, are all of them. */
  ghost predicate Downward(s: State, fork: nat, walk: nat, done: seq<Step>)
    requires Shaped(s)
  {
    && walk < |s.nodes| && OnPath(s.nodes, fork, walk) && OnPath(s.nodes, walk, s.tip) && OnPath(s.nodes, fork, s.tip)
    && DownSteps(s.nodes, s.tip, fork) == done + DownSteps(s.nodes, walk, fork)
  }

  lemma DownwardStarts(s: State)
    requires Shaped(s)
    ensures Downward(s, Fork(s), s.tip, [])
  {
    StartOfWalk(s);
    hide Fork, AncestorAt, DownSteps;
    NothingAhead(DownSteps(s.nodes, s.tip, Fork(s)));
  }

  lemma DownwardGoesOn(s: State, fork: nat, walk: nat, done: seq<Step>)
    requires Shaped(s) && Downward(s, fork, walk, done) && walk != fork
    ensures walk > 0 && Downward(s, fork, Up(s.nodes, walk), done + [Off(walk)])
  {
    hide AncestorAt, DownSteps, OnPath, Linked;
    DownUnfolds(s.nodes, walk, fork);
    OnParentPath(s.nodes, walk, s.tip);
    Associates(done, [Off(walk)], DownSteps(s.nodes, Up(s.nodes, walk), fork));
  }

  lemma OnParentPath(nodes: seq<Node>, walk: nat, tip: nat)
    requires Linked(nodes) && 0 < walk < |nodes| && tip < |nodes| && OnPath(nodes, walk, tip)
    ensures OnPath(nodes, Up(nodes, walk), tip)
  {
    OnPathUp(nodes, Up(nodes, walk), walk);
    OnPathTrans(nodes, Up(nodes, walk), walk, tip);
  }

  lemma DownwardEnds(s: State, fork: nat, walk: nat, done: seq<Step>, limit: nat)
    requires Shaped(s) && Downward(s, fork, walk, done) && |done| <= limit && (walk == fork || |done| == limit)
    ensures done == Take(DownSteps(s.nodes, s.tip, fork), limit)
  {
    hide AncestorAt, DownSteps, OnPath, Linked;
    DownUnfolds(s.nodes, walk, fork);
    if walk == fork {
      NothingBehind(done);
    } else {
      CutOfSum(done, DownSteps(s.nodes, walk, fork), |done|);
    }
  }

  /** The downward loop lists what lies between tip and fork, no more than `limit` of it. */
  method PlanDisconnects(tree: HeaderTree, fork: nat, limit: nat) returns (jobs: seq<Job>)
    requires tree.Valid() && fork == Fork(tree.View()) && limit > 0
    ensures jobs == JobsOf(tree.View(), Take(DownSteps(tree.nodes, tree.tip, fork), limit))
    ensures |jobs| <= limit
  {
    hide Sound, Built, JobFor, Fork, Downward, DownSteps, OnPath, JobsOf;
    ghost var s := tree.View();
    var connected := CheckDisconnectSide(tree, fork);
    assert connected;
    ghost var done: seq<Step> := [];
    jobs := [];
    var walk: nat := tree.tip;
    DownwardStarts(s);
    NoJobs(s);
    while walk != fork && |jobs| < limit
      invariant walk < |tree.nodes| && Downward(s, fork, walk, done)
      invariant jobs == JobsOf(s, done) && |jobs| == |done| <= limit
      decreases walk
    {
      DownwardGoesOn(s, fork, walk, done);
      DownwardIsActive(tree, fork, walk, done);
      var job := MakeJob(tree, Off(walk), false, walk);
      JobsPush(s, done, Off(walk));
      done := done + [Off(walk)];
      jobs := jobs + [job];
      walk := tree.nodes[walk].parent.value;
    }
    DownwardEnds(s, fork, walk, done, limit);
    DownIsDefined(s);
  }

  lemma NoJobs(s: State)
    requires Shaped(s)
    ensures JobsOf(s, []) == []
  {
  }

  lemma DownwardIsActive(tree: HeaderTree, fork: nat, walk: nat, done: seq<Step>)
    requires tree.Valid() && Downward(tree.View(), fork, walk, done) && walk > 0
    ensures tree.status[walk].Connected?
  {
    hide AncestorAt, DownSteps;
    ActiveHasBytes(tree, walk);
  }

  lemma DownIsDefined(s: State)
    requires Shaped(s)
    ensures OnPath(s.nodes, Fork(s), s.tip)
  {
    StartOfWalk(s);
  }

  lemma ActiveHasBytes(tree: HeaderTree, node: nat)
    requires tree.Valid() && 0 < node < |tree.nodes| && OnPath(tree.nodes, node, tree.tip)
    ensures tree.status[node].Connected?
  {
    GenesisOnly(tree.rules, tree.View());
  }

  lemma UpUnfold(s: State, target: nat, h: nat)
    requires Shaped(s) && target < |s.nodes|
    ensures h > s.nodes[target].height ==> UpSteps(s, target, h) == []
    ensures h <= s.nodes[target].height ==>
              var n := AncestorAt(s.nodes, target, h);
              && (n == 0 ==> h == 0)
              && UpSteps(s, target, h)
                 == if s.status[n].Where().None? then [] else [On(n)] + UpSteps(s, target, h + 1)
  {
  }

  /** `jobs` are the blocks from height `from` up to just below `height`. */
  ghost predicate Upward(s: State, from: nat, height: nat, jobs: seq<Job>)
    requires Shaped(s)
  {
    && from <= height <= s.nodes[s.best].height + 1
    && |UpSteps(s, s.best, from)| >= height - from
    && UpSteps(s, s.best, from)[height - from..] == UpSteps(s, s.best, height)
    && jobs == JobsOf(s, UpSteps(s, s.best, from)[..height - from])
  }

  lemma UpwardStarts(s: State, from: nat)
    requires Shaped(s) && from <= s.nodes[s.best].height + 1
    ensures Upward(s, from, from, [])
  {
    hide UpSteps, JobFor;
  }

  lemma UpwardGoesOn(s: State, from: nat, height: nat, jobs: seq<Job>)
    requires Shaped(s) && Upward(s, from, height, jobs) && height <= s.nodes[s.best].height
    requires s.status[AncestorAt(s.nodes, s.best, height)].Where().Some?
    ensures Upward(s, from, height + 1, jobs + [JobFor(s, On(AncestorAt(s.nodes, s.best, height)))])
  {
    hide UpSteps, AncestorAt, JobFor, JobsOf, Linked;
    UpUnfold(s, s.best, height);
    var all, k, next := UpSteps(s, s.best, from), height - from, On(AncestorAt(s.nodes, s.best, height));
    SplitsAt(all, k, next, UpSteps(s, s.best, height + 1));
    JobsPush(s, all[..k], next);
  }

  lemma UpwardEnds(s: State, from: nat, height: nat, jobs: seq<Job>, room: nat)
    requires Shaped(s) && Upward(s, from, height, jobs) && |jobs| <= room
    ensures |jobs| == room ==> jobs == JobsOf(s, Take(UpSteps(s, s.best, from), room))
                               && MissingUp(s, from, room) == None
    ensures |jobs| < room && height > s.nodes[s.best].height ==>
              jobs == JobsOf(s, Take(UpSteps(s, s.best, from), room)) && MissingUp(s, from, room) == None
    ensures |jobs| < room && height <= s.nodes[s.best].height
            && s.status[AncestorAt(s.nodes, s.best, height)].Where().None? ==>
              && jobs == JobsOf(s, Take(UpSteps(s, s.best, from), room))
              && MissingUp(s, from, room) == Some(s.nodes[AncestorAt(s.nodes, s.best, height)].hash)
  {
    hide UpSteps, AncestorAt, JobFor, Linked;
    UpUnfold(s, s.best, height);
    var all, k := UpSteps(s, s.best, from), height - from;
    assert all == all[..k] + all[k..];
  }

  /** The jobs of the upward steps that have block data, as many as there is room for, and the first that has none. */
  method PlanConnects(tree: HeaderTree, fork: nat, room: nat) returns (jobs: seq<Job>, missing: Option<Hash>)
    requires tree.Valid() && fork == Fork(tree.View())
    ensures jobs == JobsOf(tree.View(), Take(UpSteps(tree.View(), tree.best, tree.nodes[fork].height + 1), room))
    ensures missing == MissingUp(tree.View(), tree.nodes[fork].height + 1, room)
  {
    hide Sound, JobFor, Fork, UpSteps, AncestorAt, Linked, Take, MissingUp, Upward, JobsOf;
    ghost var s := tree.View();
    ForkHeights(s);
    jobs := [];
    var last := tree.nodes[tree.best].height;
    var height := tree.nodes[fork].height + 1;
    ghost var from := height;
    UpwardStarts(s, from);
    while |jobs| < room && height <= last
      invariant from <= height && Upward(s, from, height, jobs) && |jobs| <= room
      decreases last + 1 - height
    {
      UpwardEnds(s, from, height, jobs, room);
      var found := tree.Ancestor(tree.best, height);
      var node := found.value;
      NextOnChain(tree, node, height);
      assert !tree.status[node].IsTerminal();
      if tree.status[node].Where().None? {
        return jobs, Some(tree.nodes[node].hash);
      }
      var job := MakeJob(tree, On(node), true, node);
      UpwardGoesOn(s, from, height, jobs);
      jobs := jobs + [job];
      height := height + 1;
    }
    UpwardEnds(s, from, height, jobs, room);
    missing := None;
  }

  lemma NextOnChain(tree: HeaderTree, node: nat, height: nat)
    requires tree.Valid() && 0 < height <= tree.nodes[tree.best].height
    requires node == AncestorAt(tree.nodes, tree.best, height)
    ensures 0 < node < |tree.nodes| && !tree.status[node].IsTerminal()
  {
    OnPathOfAncestor(tree.nodes, tree.best, height);
    NotTerminalAbove(tree.rules, tree.View(), node);
  }

  /** Both loops together make the first `limit` steps of the whole way. */
  method PlanReorg(tree: HeaderTree, limit: nat) returns (plan: Plan)
    requires tree.Valid() && limit > 0
    ensures plan.fork == Fork(tree.View())
    ensures plan.depth == tree.nodes[tree.tip].height - tree.nodes[plan.fork].height
    ensures plan.jobs == JobsOf(tree.View(), Take(AllSteps(tree.View()), limit)) && |plan.jobs| <= limit
    ensures plan.missing == MissingOf(tree.View(), limit)
  {
    hide Sound, JobFor, Fork, JobsOf, AncestorAt, UpSteps, DownSteps, Take, MissingUp, OnPath, Linked;
    var fork := ForkPoint(tree);
    ghost var s := tree.View();
    var offs := PlanDisconnects(tree, fork, limit);
    var ons, missing := PlanConnects(tree, fork, limit - |offs|);
    TakeBoth(s, DownSteps(s.nodes, s.tip, fork), UpSteps(s, s.best, s.nodes[fork].height + 1), limit);
    plan := Plan(fork, tree.nodes[tree.tip].height - tree.nodes[fork].height, offs + ons, missing);
  }

  lemma TakeBoth(s: State, downs: seq<Step>, ups: seq<Step>, limit: nat)
    requires Shaped(s)
    ensures |Take(downs, limit)| <= limit
    ensures JobsOf(s, Take(downs, limit)) + JobsOf(s, Take(ups, limit - |Take(downs, limit)|))
            == JobsOf(s, Take(downs + ups, limit))
    ensures |Take(downs, limit)| + |ups| < limit <==> |downs + ups| < limit
  {
    hide Shaped, JobFor, JobsOf;
    var room := limit - |Take(downs, limit)|;
    JobsTogether(s, Take(downs, limit), Take(ups, room));
    TakeOfSum(downs, ups, limit);
  }

  lemma JobsTogether(s: State, a: seq<Step>, b: seq<Step>)
    requires Shaped(s)
    ensures JobsOf(s, a + b) == JobsOf(s, a) + JobsOf(s, b)
  {
    hide Shaped, JobFor;
  }

  lemma TakeOfSum(a: seq<Step>, b: seq<Step>, limit: nat)
    ensures |Take(a, limit)| <= limit && Take(a, limit) + Take(b, limit - |Take(a, limit)|) == Take(a + b, limit)
  {
    if limit <= |a + b| {
      CutOfSum(a, b, limit);
    }
  }
}
