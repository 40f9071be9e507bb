/**
  What a reader of a plan does with it. A job names a block by its hash and says which of the two
  calls to make; it is proved that every prefix of a plan can be carried out on these words alone,
  where it leads, that each job tells where the block is and what stands before it, and which block
  a plan that ends early is waiting for.
 */
module Jobs {
  import opened Bytes
  import opened Arena
  import opened TreeState
  import opened Reorg

  /** The call a job asks for meets its assertions. */
  ghost predicate CanDoJob(s: State, job: Job) {
    job.hash in s.index
    && if job.connect then CanConnect(s, s.index[job.hash]) else CanDisconnect(s, s.index[job.hash])
  }

  ghost function DoJob(s: State, job: Job, undo: nat -> UndoLocation): State
    requires CanDoJob(s, job)
  {
    var node := s.index[job.hash];
    if job.connect then ConnectBlock(s, node, undo(node)) else DisconnectBlock(s, node)
  }

  /** The jobs one after another, or nothing once an assertion stops one. */
  ghost function RunJobs(s: State, jobs: seq<Job>, undo: nat -> UndoLocation): Option<State>
    decreases |jobs|
  {
    if jobs == [] then Some(s)
    else if CanDoJob(s, jobs[0]) then RunJobs(DoJob(s, jobs[0], undo), jobs[1..], undo)
    else None
  }

  /** The next step's block is above genesis, and its bytes are here. */
  lemma NextHasBytes(rules: Rules, s: State)
    requires Sound(rules, s) && NextStep(s).Some?
    ensures var i := NextStep(s).value.node; 0 < i < |s.nodes| == |s.status| && s.status[i].Where().Some?
  {
    hide Verdicts, ActiveChain, IsBest, Built, DirtyList, Fork;
    var step := NextStep(s).value;
    if step.Off? {
      TipIsConnected(rules, s);
    } else {
      NextIsChecked(rules, s, step.node);
    }
  }

  /** Doing a job is taking the step it was made for. */
  lemma JobDoesStep(rules: Rules, s: State, undo: nat -> UndoLocation)
    requires Sound(rules, s) && NextStep(s).Some?
    ensures var (step, job) := (NextStep(s).value, JobFor(s, NextStep(s).value));
            CanDo(s, step) && CanDoJob(s, job) && DoJob(s, job, undo) == Do(s, step, undo)
  {
    hide Verdicts, ActiveChain, IsBest, Built, DirtyList, NextStep, Path, Linked;
    NextHasBytes(rules, s);
    NextIsLegal(rules, s, undo);
  }

  /** The driver's jobs, carried out by their words, end in the driver's tree. */
  lemma {:induction false} DriveIsRun(rules: Rules, s: State, n: nat, undo: nat -> UndoLocation)
    requires Sound(rules, s)
    ensures RunJobs(s, Drive(rules, s, n, undo).0, undo) == Some(Drive(rules, s, n, undo).1)
    decreases n
  {
    hide Sound, CanDo, Do, NextStep, JobFor, CanDoJob, DoJob;
    if n > 0 && NextStepOf(rules, s).Some? {
      NextIsLegal(rules, s, undo);
      JobDoesStep(rules, s, undo);
      var step := NextStepOf(rules, s).value;
      var rest := Drive(rules, Do(s, step, undo), n - 1, undo).0;
      DriveIsRun(rules, Do(s, step, undo), n - 1, undo);
      assert ([JobFor(s, step)] + rest)[1..] == rest;
    }
  }

  ghost function NextStepOf(rules: Rules, s: State): (step: Option<Step>)
    requires Sound(rules, s)
    ensures Shaped(s) && step == NextStep(s)
  {
    SoundIsShaped(rules, s);
    NextStep(s)
  }

  /** The list `PlanReorg` returns. */
  ghost function Planned(s: State, limit: nat): seq<Job>
    requires Shaped(s)
  {
    JobsOf(s, Take(AllSteps(s), limit))
  }

  /**
    Every prefix of a plan can be carried out, each job meeting the assertions of its call in the tree
    the ones before it leave; the tree is sound at every point, and one step nearer to the best header
    for every job.
   */
  lemma PlanCarriesOut(rules: Rules, s: State, limit: nat, k: nat, undo: nat -> UndoLocation)
    requires Sound(rules, s) && k <= |Planned(s, limit)|
    ensures var r := RunJobs(s, Planned(s, limit)[..k], undo);
            && r.Some? && Sound(rules, r.value) && SameBlocks(s, r.value)
            && r.value == Drive(rules, s, k, undo).1 && Distance(r.value) + k == Distance(s)
  {
    hide Sound, Shaped, Drive, JobsOf, AllSteps, Take, Distance, SameBlocks, NextStep, RunJobs;
    SoundIsShaped(rules, s);
    PlanIsDrive(rules, s, limit, undo);
    DriveShortens(rules, s, limit, undo);
    DrivePrefix(rules, s, k, limit, undo);
    DriveIsRun(rules, s, k, undo);
    DriveShortens(rules, s, k, undo);
  }

  // ----- what a job says --------------------------------------------------------------------------

  /** A job's words about its block: where its bytes are, and the header of every ancestor of it, genesis first. */
  ghost predicate Tells(s: State, job: Job)
    requires Shaped(s)
  {
    && job.hash in s.index
    && var i := s.index[job.hash];
       && 0 < i && s.nodes[i].hash == job.hash && s.status[i].Where() == Some(job.location)
       && |job.context| == s.nodes[i].height
       && forall h :: 0 <= h < |job.context| ==> job.context[h] == s.nodes[AncestorAt(s.nodes, i, h)].header
  }

  lemma {:induction false} PathIsAncestors(nodes: seq<Node>, i: nat)
    requires Linked(nodes) && i < |nodes|
    ensures |Path(nodes, i)| == nodes[i].height + 1
    ensures forall h :: 0 <= h <= nodes[i].height ==> Path(nodes, i)[h] == nodes[AncestorAt(nodes, i, h)].header
    decreases i
  {
    if i > 0 {
      PathIsAncestors(nodes, Up(nodes, i));
    }
  }

  lemma StepTells(s: State, step: Step)
    requires Shaped(s) && 0 < step.node < |s.nodes| && s.status[step.node].Where().Some?
    ensures Tells(s, JobFor(s, step)) && JobFor(s, step).connect == step.On?
  {
    var (i, job) := (step.node, JobFor(s, step));
    var p := Up(s.nodes, i);
    PathIsAncestors(s.nodes, p);
    hide Path;
    forall h | 0 <= h < |job.context| ensures job.context[h] == s.nodes[AncestorAt(s.nodes, i, h)].header {
      assert AncestorAt(s.nodes, i, h) == AncestorAt(s.nodes, p, h);
    }
  }

  /** Every job of a plan tells the truth about its block. */
  lemma {:induction false} DriveTells(rules: Rules, s: State, n: nat, undo: nat -> UndoLocation, k: nat)
    requires Sound(rules, s) && k < |Drive(rules, s, n, undo).0|
    ensures Shaped(s) && Tells(s, Drive(rules, s, n, undo).0[k])
    decreases n
  {
    hide Verdicts, ActiveChain, IsBest, Built, DirtyList, CanDo, Do, NextStep, JobFor, Tells, Linked;
    NextIsLegal(rules, s, undo);
    var step := NextStep(s).value;
    var t := Do(s, step, undo);
    if k == 0 {
      NextHasBytes(rules, s);
      StepTells(s, step);
    } else {
      DriveTells(rules, t, n - 1, undo, k - 1);
      TellsTheSame(s, t, Drive(rules, t, n - 1, undo).0[k - 1]);
    }
  }

  lemma TellsTheSame(s: State, t: State, job: Job)
    requires Shaped(s) && Shaped(t) && SameBlocks(s, t) && Tells(t, job)
    ensures Tells(s, job)
  {
  }

  lemma PlanTells(rules: Rules, s: State, limit: nat, k: nat)
    requires Sound(rules, s) && k < |Planned(s, limit)|
    ensures Tells(s, Planned(s, limit)[k])
  {
    hide Sound, Drive, JobsOf, AllSteps, Take, Tells;
    SoundIsShaped(rules, s);
    var undo := (_: nat) => UndoLocation(0, 0, 0);
    PlanIsDrive(rules, s, limit, undo);
    DriveTells(rules, s, limit, undo, k);
  }

  // ----- what a plan waits for --------------------------------------------------------------------

  /** A step does not change what is missing. */
  lemma MissingStays(rules: Rules, s: State, limit: nat, undo: nat -> UndoLocation)
    requires Sound(rules, s) && limit > 0 && NextStep(s).Some?
    ensures CanDo(s, NextStep(s).value) && Sound(rules, Do(s, NextStep(s).value, undo))
    ensures MissingOf(s, limit) == MissingOf(Do(s, NextStep(s).value, undo), limit - 1)
  {
    hide Verdicts, ActiveChain, IsBest, Built, DirtyList;
    NextIsLegal(rules, s, undo);
    var step := NextStep(s).value;
    if step.Off? {
      OffIsLegal(rules, s, undo);
      OffMisses(s, Do(s, step, undo), limit);
    } else {
      OnIsLegal(rules, s, undo, step.node);
      ForkBelow(s);
      OnMisses(s, Do(s, step, undo), limit);
    }
  }

  lemma OffMisses(s: State, t: State, limit: nat)
    requires Shaped(s) && Shaped(t) && SameBlocks(s, t) && limit > 0 && s.tip > 0 && s.tip != Fork(s)
    requires t.tip == Up(s.nodes, s.tip) && Fork(t) == Fork(s)
    ensures MissingOf(s, limit) == MissingOf(t, limit - 1)
  {
    DownIsDefined(s);
    hide Fork, DownSteps, UpSteps, AncestorAt, OnPath, Linked;
    UpStepsSame(s, t, s.best, s.nodes[Fork(s)].height + 1);
    DownUnfolds(s.nodes, s.tip, Fork(s));
  }

  lemma OnMisses(s: State, t: State, limit: nat)
    requires Shaped(s) && Shaped(t) && SameBlocks(s, t) && limit > 0 && s.tip == Fork(s) && s.tip != s.best
    requires NextStep(s) == Some(On(t.tip)) && Fork(t) == t.tip && s.nodes[s.tip].height < s.nodes[s.best].height
    requires s.nodes[t.tip].height == s.nodes[s.tip].height + 1
    ensures MissingOf(s, limit) == MissingOf(t, limit - 1)
  {
    hide Fork, UpSteps, AncestorAt, OnPath, Linked;
    UpStepsSame(s, t, s.best, s.nodes[t.tip].height + 1);
    UpUnfold(s, s.best, s.nodes[t.tip].height);
    NoneToTakeOff(s);
    NoneToTakeOff(t);
  }

  lemma NoneToTakeOff(s: State)
    requires Shaped(s) && s.tip == Fork(s)
    ensures OnPath(s.nodes, Fork(s), s.tip) && DownSteps(s.nodes, s.tip, Fork(s)) == []
  {
    hide Fork;
    DownIsDefined(s);
  }

  /**
    A plan that came to `t` with `n` jobs names a missing block exactly if it ended short of the limit
    and of the best header: the block on the best chain just above, whose bytes are not here.
   */
  ghost predicate NamesNext(missing: Option<Hash>, n: nat, limit: nat, t: State)
    requires Shaped(t)
  {
    && (missing.Some? <==> n < limit && t.tip != t.best)
    && (missing.Some? ==>
          && t.nodes[t.tip].height < t.nodes[t.best].height
          && var next := AncestorAt(t.nodes, t.best, t.nodes[t.tip].height + 1);
             t.nodes[next].parent == Some(t.tip) && t.status[next] == HeaderAccepted
             && missing == Some(t.nodes[next].hash))
  }

  lemma StuckNames(rules: Rules, s: State, limit: nat, undo: nat -> UndoLocation)
    requires Sound(rules, s) && limit > 0 && NextStep(s) == None
    ensures Shaped(s) && NamesNext(MissingOf(s, limit), 0, limit, s)
  {
    hide Verdicts, ActiveChain, IsBest, Built, DirtyList, NextStep, MissingOf, AncestorAt, Linked, AllSteps;
    AllStepsUnfold(rules, s, undo);
    EmptyPlanSays(rules, s, limit);
    StuckMeans(rules, s);
  }

  lemma NamesOn(missing: Option<Hash>, n: nat, limit: nat, t: State)
    requires Shaped(t) && NamesNext(missing, n, limit, t)
    ensures NamesNext(missing, n + 1, limit + 1, t)
  {
    hide Shaped, AncestorAt;
  }

  /** That is what a plan names once it is carried out. */
  lemma {:induction false} MissingIsNext(rules: Rules, s: State, limit: nat, undo: nat -> UndoLocation)
    requires Sound(rules, s)
    ensures var (jobs, t) := Drive(rules, s, limit, undo);
            Shaped(s) && Shaped(t) && NamesNext(MissingOf(s, limit), |jobs|, limit, t)
    decreases limit
  {
    hide Sound, Shaped, CanDo, Do, NextStep, MissingOf, Drive, NamesNext;
    SoundIsShaped(rules, s);
    SoundIsShaped(rules, Drive(rules, s, limit, undo).1);
    DriveTree(rules, s, limit, undo);
    if limit == 0 {
      NothingNames(s);
    } else if NextStep(s).None? {
      StuckNames(rules, s, limit, undo);
    } else {
      MissingStays(rules, s, limit, undo);
      var r := Drive(rules, Do(s, NextStep(s).value, undo), limit - 1, undo);
      MissingIsNext(rules, Do(s, NextStep(s).value, undo), limit - 1, undo);
      NamesOn(MissingOf(s, limit), |r.0|, limit - 1, r.1);
    }
  }

  lemma DriveTree(rules: Rules, s: State, n: nat, undo: nat -> UndoLocation)
    requires Sound(rules, s)
    ensures n == 0 || NextStep(s) == None ==> Drive(rules, s, n, undo) == ([], s)
    ensures n > 0 && NextStep(s).Some? ==>
              && CanDo(s, NextStep(s).value) && Sound(rules, Do(s, NextStep(s).value, undo))
              && var r := Drive(rules, Do(s, NextStep(s).value, undo), n - 1, undo);
                 |Drive(rules, s, n, undo).0| == |r.0| + 1 && Drive(rules, s, n, undo).1 == r.1
  {
    hide Verdicts, ActiveChain, IsBest, Built, DirtyList, CanDo, Do, NextStep, JobFor, Linked;
    if NextStep(s).Some? {
      NextIsLegal(rules, s, undo);
    }
  }

  lemma NothingNames(s: State)
    requires Shaped(s)
    ensures NamesNext(MissingOf(s, 0), 0, 0, s)
  {
    DownIsDefined(s);
    hide Fork, DownSteps, UpSteps, OnPath, Linked, AncestorAt;
  }
}
