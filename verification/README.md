# bitmigo: a verified model of the node's core

bitmigo is a Bitcoin node. This project models, in Dafny, the parts of it that have to be right across
many calls, and proves what they promise.

- **The header tree** (`SkipList`, `Arena`, `TreeState`, `HeaderTree`): an append-only arena of headers
  with a skip list, a status per entry, a tip and a best header. `TreeState` says what each call does
  and what every reachable tree satisfies; `HeaderTree` is the object itself, its loops included.
- **Three readers of the tree**: the reorganisation planner (`Reorg`, `Jobs`), the block locator and the
  `getheaders` answer (`Locator`), and the block download window (`Window`). Each fast walk is proved
  against a plain definition over parent links or a slice of a chain.
- **The block index journal** (`Journal`, `Recovery`, `Restart`, `Reading`, `Sessions`, `LateHeader`,
  `ShortReload`, `HeaderVerdict`, `Loader`): what is written after each commit, why loading it restores
  the tree although most of the tree is never written, exactly when a load does not, and what is left
  over any number of sessions, those that started from such a load included.
- **The files** (`Varint`, `Coin`, `Undo`, `JournalBytes`, `Series`, `Store`, `CrashRestores`): the
  codecs, the append-only series, the ordering rule of a commit, and what a crash at any point leaves
  readable and what a load makes of it.
- **The download schedule** (`Schedule`, `Downloads`): in-flight and delivered blocks on one thread,
  request tables on others, as a transition system with the methods that take its steps.
- **Three algorithms on their own**: the Merkle root with its mutation flag (`Merkle`), the v1 framer
  (`Framer`), and the money sums and BIP 68 locks of a transaction (`TxRules`).

What the node computes outside the modelled code enters as parameters: the block hash, the work of a
target, the context-free header check and the contextual one (a function of the headers from genesis to
the parent) are fields of `Arena.Rules`; the journal checksum, the undo digest, the Merkle pair hash and
the library's message decoder are function parameters. Clocks are arguments. Nothing is assumed of any
of them beyond what a lemma's `requires` says.

Where code and documentation disagree, or a promise holds on a condition only, the model follows the
code and states the condition:

- the documentation of the locator bound speaks of thirty-three entries; the loop gives at most 32;
- a torn tail of the journal is described as discarded, but the file is reopened for appending behind
  it: `JournalBytes.SecondRunReads` says what is read of a second run's records;
- replay holds headers against the clock that were stored without looking at it, those under a block
  refused at a later stage: `LateHeader.LateHeaderLosesTip` is a run that loses its tip this way, and
  `Recovery.LoadRestoresIff` the exact condition;
- a load that stops at such a header starts all the same, and its session commits behind the rejected
  record, where the next load does not look: `ShortReload.ShortReloadLosesHeader` is the run,
  `Sessions.StuckRestoresIff` the exact condition while the record is rejected, and
  `Sessions.ClearedRestoresIff` what comes back once it is not;
- the assertion that a received block answers the peer it was asked of can fail:
  `Schedule.LateBlockTrips` is the run; so can the assertion that a peer's table takes what it is asked
  for: `Schedule.StaleTableTrips`. `Schedule.ReceiveFailsIff` and `Schedule.RequestFailsIff` are the exact
  conditions in every state of every run, `Schedule.RunKeepsIff` the one under which neither arises, and
  `Schedule.LateBlockFailsIff` and `Schedule.ReplacedPeerKeepsTable` lead from it to each of the two;
- a header-stage verdict given through `invalidate` is not kept: `HeaderVerdict.HeaderVerdictIsLost`;
- reopening a series recognises five-digit file numbers only: `Series.ReopenRecoversIff`, with
  `Series.RollsPastFiveDigits` and `Series.ReopensBehind` for what happens past them.

## Model

| member | source | states |
|---|---|---|
| SkipList.InvertLowestOneClears | crates/bitmigo/src/chain/tree.rs:1099-1101 | `v & (v - 1)` turns off exactly the lowest set bit, against a definition by halving that has no bit operations in it |
| SkipList.SkipHeightIsLanding | crates/bitmigo/src/chain/tree.rs:1085-1096 | the skip height of every positive height is the landing given by that bit arithmetic, and lies strictly below it |
| SkipList.OvershootShrinks | crates/bitmigo/src/chain/tree.rs:692-706 | a parent step taken because the skip would overshoot enters a strictly shorter block of low bits around the target |
| SkipList.PreferredParentSpends | crates/bitmigo/src/chain/tree.rs:692-706 | a parent step preferred to a good skip still spends potential |
| SkipList.OddStepSpends | crates/bitmigo/src/chain/tree.rs:692-706 | every step from an odd height spends potential |
| SkipList.EvenStepSpends | crates/bitmigo/src/chain/tree.rs:692-706 | every step from an even height spends potential |
| SkipList.StepsWithinPotential | crates/bitmigo/src/chain/tree.rs:667-706 | the number of steps of a walk between any two heights is at most the potential of the pair |
| SkipList.WalkIsBounded | crates/bitmigo/src/chain/tree.rs:107-120 | every walk between heights below 2^21 takes at most 297 steps, so the 512-step tripwire cannot fire |
| Arena.ChildKeepsBuilt | crates/bitmigo/src/chain/tree.rs:789-831 | appending a child to a well-built arena leaves it well built: heights, works, parents and skip pointers of every node, the new one included |
| Arena.SkipStaysOnPath | crates/bitmigo/src/chain/tree.rs:667-706 | following a skip pointer towards a height never changes which ancestor the parent links lead to |
| Arena.ChainworkIsPathWork | crates/bitmigo/src/chain/tree.rs:789-831 | the work of every node is the sum of the block works along its path to genesis |
| Arena.ForkOfIsFork | crates/bitmigo/src/chain/reorg.rs:118-135 | the fork of two nodes is on both paths and above every other shared ancestor |
| Arena.ForkIsUnique | crates/bitmigo/src/chain/reorg.rs:118-135 | there is one such node |
| Arena.FieldsComeBack | crates/bitmigo/src/chain/tree.rs:721-787 | parent hash, time and bits are read off a header put together from its six fields |
| TreeState.JudgedByFields | crates/bitmigo/src/chain/tree.rs:721-787 | the verdict on a header given by its fields, every outcome: contextual failure before the clock, accepted up to 7200 seconds ahead and too far in the future one second later |
| TreeState.InsertIsSound | crates/bitmigo/src/chain/tree.rs:789-831 | inserting a header under a parent whose verdict allows it keeps the whole tree invariant, the earliest-inserted best header included |
| TreeState.AcceptIsSound | crates/bitmigo/src/chain/tree.rs:721-763 | accepting any header at any clock keeps the invariant, whatever the outcome |
| TreeState.CheckIsSound | crates/bitmigo/src/chain/tree.rs:928-936 | recording a block keeps the invariant |
| TreeState.ConnectIsSound | crates/bitmigo/src/chain/tree.rs:942-956 | connecting keeps it: the connected entries are still exactly the tip and its ancestors |
| TreeState.DisconnectIsSound | crates/bitmigo/src/chain/tree.rs:960-973 | disconnecting keeps it |
| TreeState.InheritedIsTerminal | crates/bitmigo/src/chain/tree.rs:997-1030 | one ascending pass makes terminal exactly what already was and every descendant of the refused node |
| TreeState.ActiveIsUntouched | crates/bitmigo/src/chain/tree.rs:1016-1030 | the pass reaches no entry of the active chain, so the assertion in `inherit` holds |
| TreeState.InvalidateIsSoundIff | crates/bitmigo/src/chain/tree.rs:977-1013 | invalidating an entry the assertions admit keeps the invariant, the best header by full rescan included, if and only if the verdict is not this run's own header-stage refusal |
| HeaderVerdict.HeaderVerdictIsLost | crates/bitmigo/src/store/index.rs:119-136 | that refusal, given, committed and loaded, is gone: the terminal entries are those that were terminal before it |
| TreeState.BestUpToIsBest | crates/bitmigo/src/chain/tree.rs:997-1013 | the rescan finds the earliest-inserted non-terminal entry of maximal work |
| TreeState.BestIsUnique | crates/bitmigo/src/chain/tree.rs:825-829 | there is one such entry, so the incremental choice and the rescan agree |
| TreeState.VerdictsStand | crates/bitmigo/src/chain/tree.rs:721-1063 | no call takes a verdict back or changes it |
| TreeState.StepIsSound | crates/bitmigo/src/chain/tree.rs:721-1063 | every legal call of any kind keeps the invariant |
| TreeState.ReachableIsSound | crates/bitmigo/src/chain/tree.rs:575-1063 | every tree reached from genesis by any run of legal calls satisfies the invariant |
| TreeState.CulpritIsNearest | crates/bitmigo/src/chain/tree.rs:776-786 | in every sound tree an inherited verdict names the nearest ancestor with a verdict of its own |
| TreeState.TerminalIsClosed | crates/bitmigo/src/chain/tree.rs:737-741 | in every sound tree a descendant of a terminal entry is terminal |
| HeaderTrees.AddWork | crates/bitmigo/src/chain/tree.rs:1110-1125 | the byte ripple-carry adder computes the exact 256-bit sum |
| HeaderTrees.HeaderTree.Ancestor | crates/bitmigo/src/chain/tree.rs:659-664 | the ancestor at a height, or nothing above the node, is the one the parent links lead to |
| HeaderTrees.HeaderTree.WalkBack | crates/bitmigo/src/chain/tree.rs:667-688 | the skip walk returns the parent-link ancestor, its step counter never passing the tripwire |
| HeaderTrees.HeaderTree.HeadersTo | crates/bitmigo/src/chain/tree.rs:834-850 | the headers gathered for a context are the path from genesis to the parent |
| HeaderTrees.HeaderTree.NewNode | crates/bitmigo/src/chain/tree.rs:789-817 | height, work and skip pointer computed by adder and walk are those of the arena definition |
| HeaderTrees.HeaderTree.Insert | crates/bitmigo/src/chain/tree.rs:789-831 | the fields after an insert, or none of them changed when the tree is full |
| HeaderTrees.HeaderTree.Judge | crates/bitmigo/src/chain/tree.rs:721-763 | the verdict on a header in the order of the source: duplicate, check, parent, inherited verdict, context, clock |
| HeaderTrees.HeaderTree.Accept | crates/bitmigo/src/chain/tree.rs:721-763 | the new tree and the outcome are those of the functional step, and the object stays valid |
| HeaderTrees.HeaderTree.MarkDirty | crates/bitmigo/src/chain/tree.rs:1037-1047 | an entry is listed dirty once |
| HeaderTrees.HeaderTree.BlockChecked | crates/bitmigo/src/chain/tree.rs:928-936 | the new fields, valid again |
| HeaderTrees.HeaderTree.Connected | crates/bitmigo/src/chain/tree.rs:942-956 | the new fields, valid again |
| HeaderTrees.HeaderTree.Disconnected | crates/bitmigo/src/chain/tree.rs:960-973 | the new fields, valid again |
| HeaderTrees.HeaderTree.Invalidate | crates/bitmigo/src/chain/tree.rs:977-989 | the new fields for every verdict on every entry the assertions admit, and the tree is valid again exactly when it is not this run's own header-stage refusal |
| HeaderTrees.HeaderTree.PropagateAndReselect | crates/bitmigo/src/chain/tree.rs:997-1013 | the single loop leaves the propagated statuses and the earliest best header |
| HeaderTrees.HeaderTree.Inherit | crates/bitmigo/src/chain/tree.rs:1016-1030 | one entry gets its parent's verdict, and neither internal assertion fails |
| HeaderTrees.HeaderTree.ClearDirty | crates/bitmigo/src/chain/tree.rs:1056-1063 | every mark and the list are gone and nothing else changed |
| Journal.TreeStepKeepsJournal | crates/bitmigo/src/store/index.rs:116-136 | a tree call leaves every record it does not supersede standing for its entry, up to what replay derives |
| Journal.AppendSpeaksForAll | crates/bitmigo/src/store/index.rs:271-292 | after a batch of the dirty entries the journal speaks for every entry, new ones introduced in arena order |
| Journal.RewriteSpeaksForAll | crates/bitmigo/src/store/index.rs:309-336 | a snapshot speaks for every entry, whatever the journal held |
| Journal.CommitKeepsJournal | crates/bitmigo/src/store/mod.rs:307-315 | a commit, rewriting or not, leaves the journal speaking for the tree and nothing dirty |
| Journal.SysStepKeepsJournal | crates/bitmigo/src/store/index.rs:271-336 | tree calls, commits and rewrites each keep tree and journal in step |
| Journal.RunKeepsJournal | crates/bitmigo/src/store/index.rs:271-336 | so does every run of them |
| Recovery.FreshVerdicts | crates/bitmigo/src/store/index.rs:424-441 | in a tree that has seen headers only, the terminal entries are exactly those with a refused header on their path |
| Recovery.NextIsRebuiltIff | crates/bitmigo/src/store/index.rs:424-441 | the record that introduces an entry is kept, and the entry rebuilt, if and only if it is not late: its path accepted and its time past the limit |
| Recovery.ReplayRebuilds | crates/bitmigo/src/store/index.rs:368-406 | while no introduced entry is late, replaying any prefix of an in-step journal rebuilds the arena it introduced, with the last status of each entry |
| Recovery.ReplayStopsAtLate | crates/bitmigo/src/store/index.rs:386-394 | once the first late entry is introduced the replay has stopped, with the arena up to it |
| Recovery.ReplayRejectsNothingIff | crates/bitmigo/src/store/index.rs:368-406 | a replay turns no record away if and only if no entry it introduces is late |
| Recovery.ApplyUpToApplies | crates/bitmigo/src/store/index.rs:448-471 | applying the recorded statuses in arena order keeps the tree sound and gives each entry what was recorded unless it inherits a verdict |
| Recovery.VerdictsComeBack | crates/bitmigo/src/store/index.rs:119-136 | every entry ends terminal exactly when it was, although most verdicts are never written |
| Recovery.PlacesComeBack | crates/bitmigo/src/store/index.rs:448-471 | every non-terminal entry gets its block location back |
| Recovery.MarkerIsReached | crates/bitmigo/src/store/index.rs:481-514 | connecting to a marker on the active chain succeeds and connects exactly its path |
| Recovery.SameVerdictsSameBest | crates/bitmigo/src/chain/tree.rs:997-1013 | one arena with one terminal set has one best header and one index |
| Recovery.LoadRestores | crates/bitmigo/src/store/index.rs:344-359 | with no entry late, loading the journal of a committed tree restores arena, index, best header, terminal set and locations, connected exactly to the marker, nothing dirty |
| Recovery.LateLosesMarker | crates/bitmigo/src/store/index.rs:344-359 | otherwise the arena comes back up to the first late entry only, and a marker is unknown if and only if it stands there or behind |
| Recovery.LoadRestoresIff | crates/bitmigo/src/store/index.rs:344-359 | a load brings the whole arena back if and only if no entry is late |
| Recovery.EveryCommittedRunLoads | crates/bitmigo/src/store/index.rs:344-359 | the restoring load for every run of tree calls, commits and rewrites that ends in a commit |
| LateHeader.LateHeaderLosesTip | crates/bitmigo/src/store/index.rs:351-352 | for any headers so related, a run that stores a late header under a refused block and connects another is loaded at the same clock as an unknown marker |
| LateHeader.SceneExists | crates/bitmigo/src/chain/tree.rs:737-741 | such rules and headers exist |
| Reading.KeptIsAFront | crates/bitmigo/src/store/index.rs:386-406 | for any file, the records a replay keeps are those ahead of the rejected one, which is read and counted, and the replay is the same as that of the part ahead of it |
| Reading.NothingBehindIsRead | crates/bitmigo/src/store/index.rs:389-392 | behind a rejected record anything may follow without a change to the replay |
| Reading.WholeIsRead | crates/bitmigo/src/store/index.rs:368-406 | any file kept whole: which entry each record was kept at, every entry introduced by a record with its header, in order, and the last status noted of each |
| Reading.LaterReadsTheSame | crates/bitmigo/src/store/index.rs:424-441 | a file that one clock keeps whole reads the same at every later one |
| Reading.BackedIsVouched | crates/bitmigo/src/store/index.rs:368-406 | what is read of a file whose connected records have an accepted chain behind them, in whatever order sessions wrote them, is vouched for; headers are told apart by their hashes |
| Sessions.ReloadKeeps | crates/bitmigo/src/store/index.rs:344-406 | a reload of the file as it stands, at any clock and with any marker it can reach, leaves the file as it is and tree and kept records in step, with a gap of unread records exactly if the report counts a rejected one |
| Sessions.WorkKeeps | crates/bitmigo/src/store/index.rs:271-336 | tree calls, commits and rewrites keep tree and file in step, make no gap, and leave the one there is alone until a snapshot closes it |
| Sessions.FiledKeeps | crates/bitmigo/src/store/index.rs:271-306 | after a commit nothing is dirty and the file holds at most twice the live entries, those a rejecting load left unread apart |
| Sessions.SnapshotKeeps | crates/bitmigo/src/store/index.rs:309-336 | a rewrite puts any tree in step with its file, whatever the file was |
| Sessions.FiledIsCommitted | crates/bitmigo/src/store/index.rs:271-306 | while no record was rejected, counting from the records read is counting the file |
| Sessions.SessionsKeep | crates/bitmigo/src/store/index.rs:271-406 | every state of every run of tree calls, commits, rewrites and reloads, rejecting ones included, is in step with its file |
| Sessions.WholeRestoresIff | crates/bitmigo/src/store/index.rs:344-359 | with no gap, the next load brings the whole tree back if and only if no entry is late, and then connected exactly to its marker |
| Sessions.StuckRestoresIff | crates/bitmigo/src/store/index.rs:344-359 | while the rejected record is still rejected, a load with any marker is the load of what the last one kept: nothing written since is seen, and the arena comes back if and only if no entry was added and none is late |
| Sessions.ClearedRestoresIff | crates/bitmigo/src/store/index.rs:344-359 | once no record is rejected every header of the tree comes back, and no others if and only if the tree has learnt those of the gap again |
| Sessions.EverySessionRestores | crates/bitmigo/src/store/index.rs:344-359 | the three of them for every run of sessions, wherever nothing is dirty |
| Sessions.StuckBefore | crates/bitmigo/src/store/index.rs:424-441 | a record rejected at one clock is rejected at every earlier one |
| Sessions.EverySessionLoads | crates/bitmigo/src/store/index.rs:344-359 | in every state of every such run, at every clock and for every marker, a load fails no assertion |
| ShortReload.ShortReloadLosesHeader | crates/bitmigo/src/runtime/mod.rs:207-213 | for any headers so related, the run that reloads short at a late header, learns a timely one and commits it, ends with no entry late and a load that does not bring that header back |
| ShortReload.OneSession | crates/bitmigo/src/store/index.rs:271-336 | a run of one session is a run of sessions without a gap, its journal the file |
| Restart.ConnectOutcome | crates/bitmigo/src/store/index.rs:481-514 | connecting reaches a marker exactly when every block on the way is recorded as connected; otherwise it names one that is not; no assertion fails |
| Restart.LoadOutcome | crates/bitmigo/src/store/index.rs:344-359 | the same for the whole load, with the marker as tip when it succeeds |
| Restart.NeverPanics | crates/bitmigo/src/store/index.rs:344-359 | a load of records whose connected entries pass the header rules never fails an assertion, for any marker and clock |
| Restart.CertifiedIsVouched | crates/bitmigo/src/store/index.rs:368-406 | whatever part of a run's journal is replayed leaves such records |
| Restart.CommitIsCertified | crates/bitmigo/src/store/index.rs:271-336 | a commit, rewriting or not, keeps the journal such |
| Restart.ReplayIsSomePrefix | crates/bitmigo/src/store/index.rs:368-406 | a replay at any clock stands where the replay of some whole prefix stands |
| Loader.JournalFile.Batch | crates/bitmigo/src/store/index.rs:271-282 | the loop over a list of entries writes their records in order, genesis passed over |
| Loader.JournalFile.Rewrite | crates/bitmigo/src/store/index.rs:309-336 | the rewrite leaves the snapshot, its count, and no gap |
| Loader.Commit | crates/bitmigo/src/store/mod.rs:307-315 | commit as append at the end of the file, rewrite when the count passes twice the live entries, clear; it may be called only once every block an entry names is durable in the block writer as it stands |
| Loader.Replay | crates/bitmigo/src/store/index.rs:368-406 | the loop over the records does to tree and statuses what the fold says, stopping at the first header not kept, and counts what it read |
| Loader.ReadFile | crates/bitmigo/src/store/index.rs:368-406 | the file read into a new tree: the count restarts from the records read, the rejected one among them, and the file is untouched |
| Loader.Apply | crates/bitmigo/src/store/index.rs:448-471 | the loop over the statuses does what the fold says |
| Loader.PathTo | crates/bitmigo/src/store/index.rs:481-500 | the walk from the marker turned around is the path from genesis |
| Loader.FailureSticks | crates/bitmigo/src/store/index.rs:500-512 | once an entry of the path has no undo record every longer connect fails the same way |
| Loader.ConnectNext | crates/bitmigo/src/store/index.rs:500-512 | one block of the path connected, or what stops there: no undo record, or the assertion of the connect |
| Loader.ConnectAlong | crates/bitmigo/src/store/index.rs:481-514 | the connect loop does what the recursive definition says |
| Loader.Load | crates/bitmigo/src/store/index.rs:344-359 | the whole load over the mutable tree equals the functional load, for any file; its report says how many records were read, how many rejected, the entries and the height connected to |
| Reorg.NextIsLegal | crates/bitmigo/src/chain/tree.rs:942-973 | the next step towards the best header meets the assertions of the call it makes, keeps the tree sound and takes one off the distance |
| Reorg.DriveShortens | crates/bitmigo/src/chain/reorg.rs:96-111 | any number of steps is legal, each takes one off the distance, and stopping early means there was nothing to do |
| Reorg.DrivePrefix | crates/bitmigo/src/chain/reorg.rs:96-111 | every prefix of the steps is itself the result of a shorter drive, so every prefix of a plan is legal |
| Reorg.PlanIsDrive | crates/bitmigo/src/chain/reorg.rs:96-222 | the list planned without touching the tree is what a driver re-deciding after every step would do |
| Reorg.StuckMeans | crates/bitmigo/src/chain/reorg.rs:189-222 | nothing to do means the tip is the best header, or the child of the tip on its chain has no bytes yet |
| Reorg.SettleArrives | crates/bitmigo/src/chain/reorg.rs:96-111 | repeating plans of any positive size ends on the best header or just below a block that is missing |
| Reorg.EmptyPlanSays | crates/bitmigo/src/chain/reorg.rs:65-87 | an empty plan is at the best header or names the tip's next block as missing |
| Jobs.PlanCarriesOut | crates/bitmigo/src/chain/reorg.rs:96-222 | every prefix of a plan, carried out from the words of its jobs alone (look the hash up, connect or disconnect as it says), meets each call's assertions, keeps the tree sound, and comes one step nearer for every job |
| Jobs.PlanTells | crates/bitmigo/src/chain/reorg.rs:166-219 | each job names a block of the tree, where its bytes are, and the header of every ancestor of it from genesis to its parent |
| Jobs.MissingIsNext | crates/bitmigo/src/chain/reorg.rs:189-222 | a plan names a missing block exactly if carrying it out ends short of both limit and best header: the next block on the best chain, its bytes not here |
| Reorg.ForkPoint | crates/bitmigo/src/chain/reorg.rs:118-135 | the loop finds the fork of the tip and the best header |
| Reorg.CheckDisconnectSide | crates/bitmigo/src/chain/reorg.rs:158-165 | the first pass finds every block between tip and fork connected, so its assertion holds |
| Reorg.PlanDisconnects | crates/bitmigo/src/chain/reorg.rs:151-183 | after that pass the downward loop lists the blocks from the tip to just above the fork, cut at the limit |
| Reorg.PlanConnects | crates/bitmigo/src/chain/reorg.rs:189-222 | the upward loop lists the blocks whose bytes are here, cut at the room left, and names the first that is not |
| Reorg.PlanReorg | crates/bitmigo/src/chain/reorg.rs:96-111 | the plan is the first `limit` steps of the whole way, with the missing block if one stops it |
| Window.CandidatesAre | crates/bitmigo/src/download/window.rs:70-148 | a block of the window is a candidate exactly when it is not held, not in flight, not too deep, and nothing up to it is refused |
| Window.CandidatesClimb | crates/bitmigo/src/download/window.rs:70-148 | the candidates are strictly ascending in height inside the window |
| Window.HeldRunIsMaximal | crates/bitmigo/src/download/window.rs:121-128 | the left edge ends at the longest contiguous held run |
| Window.Batch | crates/bitmigo/src/download/window.rs:187-207 | the backward walk turned around is the list of ancestors between two heights |
| Window.LastCommonAncestor | crates/bitmigo/src/download/window.rs:168-181 | walking both nodes back in step finds their fork |
| Window.CommonBlock | crates/bitmigo/src/download/window.rs:157-165 | the left edge is the fork of the peer's best with the row's remembered block, or with the tip when there is none |
| Window.EdgeIsShared | crates/bitmigo/src/download/window.rs:157-165 | that edge lies on both chains, and every block on both lies at or below it |
| Window.SameFork | crates/bitmigo/src/download/window.rs:157-165 | starting from the active block at the peer's height finds the same fork as starting from the tip |
| Window.FirstOwingIsLowest | crates/bitmigo/src/download/window.rs:129-132 | the peer waited for owes the lowest block of the window that is in flight and not here |
| Window.StallerMeans | crates/bitmigo/src/download/window.rs:145-149 | a staller is named exactly if nothing can be asked for, nothing in the window is refused, and that lowest block is owed by another peer |
| Window.ScanBatch | crates/bitmigo/src/download/window.rs:113-141 | one batch advances the scan of the window without changing what it comes to |
| Window.ScanWindow | crates/bitmigo/src/download/window.rs:99-149 | the batched scan comes to what one plain forward scan would |
| Window.NextBlocks | crates/bitmigo/src/download/window.rs:70-150 | blocks, staller and new left edge are those of the plain scan: the lowest `want` candidates, independent of batch size |
| Locator.HeightsDescend | crates/bitmigo/src/chain/locator.rs:41-61 | the heights of a locator strictly descend from the start to genesis |
| Locator.HeightsReach | crates/bitmigo/src/chain/locator.rs:41-61 | entry `k` lies `k` below the start up to the eleventh, and `9 + 2^(k-10)` below it from then on |
| Locator.LocatorIsShort | crates/bitmigo/src/chain/locator.rs:31-61 | at most 32 entries for every height within the tree cap |
| Locator.StrideIsCovered | crates/bitmigo/src/chain/locator.rs:41-61 | the first height at or below a bound misses it by less than the start lies above it |
| Locator.SearchIsByHeight | crates/bitmigo/src/chain/locator.rs:68-78 | searching the hashes of a locator for an active block is searching its heights for the fork's |
| Locator.LocatorFindsFork | crates/bitmigo/src/chain/locator.rs:41-78 | the fork found is an active ancestor, never above the true fork, and nearer to it than an inactive start is |
| Locator.FirstActiveIs | crates/bitmigo/src/chain/locator.rs:68-78 | for any locator, the block of its first hash that is connected here, or genesis when none is |
| Locator.BuildLocator | crates/bitmigo/src/chain/locator.rs:41-61 | the loop builds that locator and its length assertion holds |
| Locator.ForkInActiveChain | crates/bitmigo/src/chain/locator.rs:68-78 | the first hash on the active chain among those looked at, or genesis |
| Locator.ForwardIsSpan | crates/bitmigo/src/chain/locator.rs:86-123 | the naive forward scan that stops after `max`, after the stop block or at the tip is the span up to the clamped end |
| Locator.ForwardServes | crates/bitmigo/src/chain/locator.rs:80-123 | what is served is consecutive, and ends exactly at the count, at the tip or with the stop block |
| Locator.HeadersAfter | crates/bitmigo/src/chain/locator.rs:86-123 | one backward walk and a reversal give the naive forward scan |
| Locator.WalkSpan | crates/bitmigo/src/chain/locator.rs:105-123 | walking parent links down a span and reversing gives its headers in order |
| Merkle.RoundsSuffice | crates/consensus/src/block/merkle.rs:34-64 | `k` rounds reduce `n` leaves to one exactly when `n <= 2^k` |
| Merkle.RootIsTopDown | crates/consensus/src/block/merkle.rs:34-64 | the rounds come to the tree defined from the top, its left half standing in for an empty right one |
| Merkle.FlaggedIff | crates/consensus/src/block/merkle.rs:38-45 | the flag is set if and only if two equal hashes make a pair at some level |
| Merkle.DistinctIsUnflagged | crates/consensus/src/block/merkle.rs:38-45 | with an injective pair hash, leaves that all differ are never flagged |
| Merkle.UnflaggedRootIsBinding | crates/consensus/src/block/merkle.rs:30-74 | with an injective pair hash and no first leaf that is a pair hash, two non-empty unflagged lists with one root are equal |
| Merkle.RepeatedTail | crates/consensus/src/block/merkle.rs:38-50 | doubling the tail of an odd level keeps the level above and makes twins |
| Merkle.RepeatedBlock | crates/consensus/src/block/merkle.rs:38-64 | doubling the last aligned block of `2^k` leaves of an odd number of blocks keeps the root and sets the flag |
| Merkle.Round | crates/consensus/src/block/merkle.rs:38-63 | one loop body gives the parents and reports twins before an odd tail is doubled |
| Merkle.ComputeRoot | crates/consensus/src/block/merkle.rs:30-74 | root and flag for up to 2^33 leaves, so the loop bound of 33 rounds is enough for 2^32 |
| Varint.DecodeEncode | crates/bitmigo/src/store/reader.rs:146-217 | every 64-bit number decodes from its code whatever follows, in at most ten bytes |
| Varint.DecodeIsCanonical | crates/bitmigo/src/store/reader.rs:146-165 | the decoder accepts nothing but codes of 64-bit numbers |
| Varint.EncodeSpells | crates/bitmigo/src/store/reader.rs:192-217 | a code is the number of shorter codes plus its base-128 digits, every byte but the last flagged |
| Varint.EncodeIsShort | crates/bitmigo/src/store/reader.rs:192-217 | a number below `128^k` takes at most `k` bytes |
| Varint.Reader.Take | crates/bitmigo/src/store/reader.rs:105-115 | the bytes asked for, or how many were wanted and left |
| Varint.Reader.Varint | crates/bitmigo/src/store/reader.rs:146-165 | the loop over at most ten groups is the decoder, errors included |
| Varint.Reader.Count | crates/bitmigo/src/store/reader.rs:171-177 | a count past its limit is refused |
| Varint.Groups | crates/bitmigo/src/store/reader.rs:192-210 | the groups found least significant first are the code reversed |
| Varint.PutVarint | crates/bitmigo/src/store/reader.rs:192-217 | the loop appends exactly the code |
| Coin.AmountOfCompress | crates/bitmigo/src/store/coin.rs:106-163 | every amount comes back from its code |
| Coin.CompressAmountOf | crates/bitmigo/src/store/coin.rs:106-163 | every code is the code of the amount it stands for |
| Coin.AmountsAreABijection | crates/bitmigo/src/store/coin.rs:106-163 | on money and the codes the decoder accepts the two are inverse, inside 64 bits |
| Coin.CompressAmount | crates/bitmigo/src/store/coin.rs:106-132 | for every 64-bit amount the saturating steps give the exact code, or the largest number where that is past 64 bits; for money always the exact code |
| Coin.Decompress | crates/bitmigo/src/store/coin.rs:138-163 | the checked loop gives the amount or the error for every 64-bit code |
| Coin.RoundAmounts | crates/bitmigo/src/store/coin.rs:106-131 | the codes of one, a million, a coin, fifty coins and the whole supply |
| Coin.ScriptsAreCompressed | crates/bitmigo/src/store/coin.rs:168-190 | the three templates written out: the number and the 20 or 32 bytes, the opcodes left out |
| Coin.TemplatesAreFaithful | crates/bitmigo/src/store/coin.rs:168-273 | a script is put together again from its template and payload, and the template asks for exactly that payload |
| Coin.ScriptRoundTrip | crates/bitmigo/src/store/coin.rs:168-239 | every script within the size limit reads back and leaves what follows |
| Coin.CoinRoundTripIff | crates/bitmigo/src/store/coin.rs:73-102 | a coin the writer takes reads back, what follows it untouched, if and only if its value is an amount of money |
| Coin.CoinIsSmall | crates/bitmigo/src/store/undo.rs:71-80 | a coin takes at most 5 + 9 + 3 + 10,000 bytes |
| Coin.ReadCoinsAreInRange | crates/bitmigo/src/store/coin.rs:85-102 | whatever bytes are read, a coin that comes out is in range |
| Coin.PutScript | crates/bitmigo/src/store/coin.rs:168-189 | the branches append the encoding |
| Coin.ReadScript | crates/bitmigo/src/store/coin.rs:192-239 | the branches are the decoder, the refused templates and lengths included |
| Coin.Put | crates/bitmigo/src/store/coin.rs:73-82 | appends the encoding; the height assertion holds |
| Coin.Read | crates/bitmigo/src/store/coin.rs:85-102 | is the decoder, every error included |
| Undo.SpendsAre | crates/bitmigo/src/store/undo.rs:249-258 | the first transaction contributes nothing, and input `j` of a later one stands behind every input before it |
| Undo.Of | crates/bitmigo/src/store/undo.rs:129-159 | succeeds exactly when the spent coins follow the block's inputs in order, and then each coin's index names its own outpoint and the indices ascend |
| Undo.NextIsGreedy | crates/bitmigo/src/store/undo.rs:135-153 | the forward search never takes an input later than any other pairing does |
| Undo.DeltaFollowsInputs | crates/consensus/src/block/coins.rs:366-378 | the delta made from a block's inputs with in-block spends left out follows them |
| Undo.Resolve | crates/bitmigo/src/store/undo.rs:217-231 | every coin at the outpoint its index names, or the first index that names none |
| Undo.PairingUndoesOf | crates/bitmigo/src/store/undo.rs:217-231 | pairing a record with its block gives back the list it was made from |
| Undo.RecordRoundTrip | crates/bitmigo/src/store/undo.rs:162-209 | a well-formed record comes back from its bytes |
| Undo.DecodesItsOwnBytesIff | crates/bitmigo/src/store/undo.rs:162-209 | a record comes back from its bytes exactly when it keeps the bounds and its indices ascend |
| Undo.DecodedIsWellFormed | crates/bitmigo/src/store/undo.rs:184-209 | whatever bytes are read, only a well-formed record comes out |
| Undo.RecordIsSmall | crates/bitmigo/src/store/undo.rs:82-101 | no well-formed record exceeds the maximum, which leaves 64 bytes of room in 32 bits |
| Undo.EncodeRecord | crates/bitmigo/src/store/undo.rs:162-178 | the two loops append exactly the encoding |
| Undo.ReadSpent | crates/bitmigo/src/store/undo.rs:186-200 | the first loop is the decoder of the spent list |
| Undo.ReadPlaced | crates/bitmigo/src/store/undo.rs:202-208 | the second loop is the decoder of the overwritten list |
| Undo.DecodeRecord | crates/bitmigo/src/store/undo.rs:184-211 | the decoder, trailing bytes refused |
| Undo.UndoComesBack | crates/bitmigo/src/store/undo.rs:129-231 | for every block within bounds: the record made, encoded, decoded and paired again is every coin at its own outpoint, within the maximum size |
| Undo.DisconnectRestoresIff | crates/consensus/src/block/coins.rs:88-113 | swapping a delta's lists restores the coin set exactly when every coin created over was among those taken out |
| Undo.DisconnectFromDisk | crates/bitmigo/src/store/undo.rs:129-231 | the same through the undo bytes |
| JournalBytes.PersistedRoundTrip | crates/bitmigo/src/store/index.rs:139-195 | every status with 32-bit fields comes back from its bytes |
| JournalBytes.RecordRoundTrip | crates/bitmigo/src/store/index.rs:561-648 | so does every record |
| JournalBytes.RecordLayout | crates/bitmigo/src/store/index.rs:561-606 | a record byte by byte: length, header, tag, little-endian fields, checksum over the payload |
| JournalBytes.WholeRecordsRead | crates/bitmigo/src/store/index.rs:608-635 | whole records decode to themselves and the rest of the file to whatever it does alone |
| JournalBytes.CutReadsLongestPrefix | crates/bitmigo/src/store/index.rs:608-635 | a journal cut after any byte decodes to its longest whole-record prefix, without any assumption on the checksum |
| JournalBytes.LongestIsMonotone | crates/bitmigo/src/store/index.rs:608-635 | a cut that keeps the synced bytes keeps every record synced whole |
| JournalBytes.ShortFragmentHides | crates/bitmigo/src/store/index.rs:382-385 | records appended behind a fragment of one to three bytes are never read |
| JournalBytes.FragmentReads | crates/bitmigo/src/store/index.rs:608-635 | what a cut record of four bytes or more with other bytes behind it is read as: a torn tail, an error, or a record, by the checksum over its bytes filled up with theirs |
| JournalBytes.SecondRunReads | crates/bitmigo/src/store/index.rs:245-264 | what a second run appends is read back with no fragment left, never behind one to three bytes, and behind more only as far as that accident goes |
| JournalBytes.PutRecord | crates/bitmigo/src/store/index.rs:561-578 | appends the encoding; the length assertion holds |
| JournalBytes.PutRecords | crates/bitmigo/src/store/index.rs:271-282 | the batch loop appends the records in order |
| JournalBytes.ReadPersisted | crates/bitmigo/src/store/index.rs:159-179 | is the status decoder, unknown tags included |
| JournalBytes.ParseRecord | crates/bitmigo/src/store/index.rs:638-648 | is the record decoder, trailing bytes refused |
| JournalBytes.ReadRecord | crates/bitmigo/src/store/index.rs:608-635 | one record, the end, a torn tail or a broken payload |
| JournalBytes.ReadRecords | crates/bitmigo/src/store/index.rs:376-405 | the loop over the file reads every record up to where it stops |
| Series.FrameLayout | crates/bitmigo/src/store/series.rs:192-252 | a framed record byte by byte: magic, length, body, trailer |
| Series.RecordGoes | crates/bitmigo/src/store/series.rs:192-252 | a record stays in the file exactly while it fits under the bound, and opens the next one otherwise |
| Series.AppendedIsValid | crates/bitmigo/src/store/series.rs:192-252 | an append keeps the series valid, with the cursor inside 32 bits and no sum saturating |
| Series.ReadsWhatIsHeld | crates/bitmigo/src/store/series.rs:289-339 | a read gives a body and a trailer exactly when those are framed at that place |
| Series.EveryRunPlacesWell | crates/bitmigo/src/store/series.rs:192-264 | after any appends and syncs every record placed still holds its bytes, no two overlap, and none passes the bound unless alone in its file |
| Series.DurableSurvives | crates/bitmigo/src/store/series.rs:249-264 | a synced record reads back after any crash that keeps synced bytes and any prefix of the others |
| Series.SyncMakesDurable | crates/bitmigo/src/store/series.rs:255-264 | a sync makes every record placed so far durable, in earlier files too |
| Series.ReopenRecoversIff | crates/bitmigo/src/store/series.rs:104-170 | reopening finds the writer's cursor if and only if its file has a five-digit number |
| Series.RollsPastFiveDigits | crates/bitmigo/src/store/series.rs:233-252 | a writer does get past five digits: a record that does not fit in file 99,999 goes to file 100,000 |
| Series.ReopensBehind | crates/bitmigo/src/store/series.rs:104-170 | a series past five digits reopens at the end of file 99,999; a record that fits is put there, any other fails because the next number is taken |
| Series.RunStaysDense | crates/bitmigo/src/store/series.rs:233-252 | no appends or syncs leave a gap in the file numbers |
| Series.DigitsOf | crates/bitmigo/src/store/series.rs:151-170 | a name has five digits exactly below 100,000 |
| Series.Highest | crates/bitmigo/src/store/series.rs:151-170 | the highest number with five digits among the names, or zero |
| Series.Open | crates/bitmigo/src/store/series.rs:104-144 | opens at the end of the highest file, refusing one longer than 32 bits |
| Series.SeriesWriter.Sync | crates/bitmigo/src/store/series.rs:255-264 | everything in the current file is durable |
| Series.SeriesWriter.Place | crates/bitmigo/src/store/series.rs:233-252 | rolls exactly when a non-empty file would pass the bound, after syncing it, and reports a full or occupied number |
| Series.SeriesWriter.Append | crates/bitmigo/src/store/series.rs:192-229 | the new files and cursor and the placement of the body; every 32-bit sum is exact |
| Series.Split | crates/bitmigo/src/store/series.rs:315-339 | magic and declared length are checked before the body is handed back |
| Series.Read | crates/bitmigo/src/store/series.rs:289-312 | every refusal of a read, in order, and the checked bytes otherwise |
| Store.TreeCallNames | crates/bitmigo/src/chain/tree.rs:928-989 | a tree call gives an entry no location but the one it was handed |
| Store.BatchIsWritable | crates/bitmigo/src/store/index.rs:271-282 | a batch never holds a location past 32 bits or one that is not yet durable |
| Store.NextKeeps | crates/bitmigo/src/store/mod.rs:284-315 | tree calls, block writes and each of the three steps of a commit keep the invariant that every record in the index file names durable bytes |
| Store.CommitGoesThrough | crates/bitmigo/src/store/mod.rs:307-315 | a commit is those three steps, none of which can be stopped, and leaves nothing dirty |
| Store.CrashReadsBack | crates/bitmigo/src/store/mod.rs:284-315 | after any run and a crash anywhere in it the index decodes to a prefix of the records written holding all committed ones, and every block location in it reads back exactly the bytes written |
| Store.CrashThenLoad | crates/bitmigo/src/store/index.rs:344-359 | unless the crash falls inside a batch write, loading what it left restores the tree of the last commit, when no entry of it is late |
| Store.CrashThenReplay | crates/bitmigo/src/store/index.rs:368-406 | wherever the crash falls, the surviving records introduce a prefix of the arena with everything committed in it; replay turns none away, and rebuilds it, if and only if none of it is late |
| CrashRestores.LastIsOneOfTwo | crates/bitmigo/src/store/index.rs:271-292 | after a batch cut anywhere, the last record about each entry stands for it in the last committed tree or was made of it in the running one |
| CrashRestores.VerdictsBetween | crates/bitmigo/src/store/index.rs:448-471 | every verdict of the last commit is derived again, and none that the running tree does not have |
| CrashRestores.CrashLoadsBetween | crates/bitmigo/src/store/index.rs:344-359 | wherever the crash falls, a batch cut anywhere included, a load that goes through gives a tree between the two commits: the entries, the verdicts, and for each entry without one its block where one of the two has it; connected exactly to its tip |
| Store.CrashNeverPanics | crates/bitmigo/src/store/index.rs:344-359 | for every run, crash, clock and marker, no assertion of the tree stops the load |
| Store.CrashReachesMarker | crates/bitmigo/src/store/index.rs:344-359 | a marker connected both in the committed and in the running tree is reached after every crash, inside a batch write too, when no committed entry is late |
| Store.WriteBlockBytes | crates/bitmigo/src/store/mod.rs:284-291 | the location is where the series placed the bytes |
| Store.CommitIndex | crates/bitmigo/src/store/mod.rs:307-315 | nothing when nothing is dirty; otherwise the blocks are synced before the index is written, which the write demands, and afterwards every block an entry names is on the disk |
| Store.UndoReadsBackIff | crates/bitmigo/src/store/mod.rs:242-251 | an undo record reads back under a block hash if and only if the digests agree, so under its own always |
| Store.WriteUndo | crates/bitmigo/src/store/mod.rs:266-276 | the record is placed with the trailer over the previous hash |
| Store.ReadUndo | crates/bitmigo/src/store/mod.rs:242-251 | a read whose trailer does not match is refused |
| Schedule.InFlightIsBounded | crates/bitmigo/src/download/mod.rs:88-95 | sixteen a slot bounds the in-flight map at 512 |
| Schedule.AskKeeps | crates/bitmigo/src/download/mod.rs:650-696 | from a map and tables that agree, a legal request fails no assertion and keeps them agreeing, whatever is queued |
| Schedule.RequestFailsIff | crates/bitmigo/src/download/mod.rs:650-696 | in every state of every run, a legal request fails an assertion if and only if it and the slot's table together exceed sixteen |
| Schedule.FullRequestFailsIff | crates/bitmigo/src/download/mod.rs:585-598 | a request for all the room the map shows fails if and only if the table lists more than is owed |
| Schedule.ReceiveFailsIff | crates/bitmigo/src/download/mod.rs:707-718 | in every state of every run, taking a block off the queue fails an assertion if and only if it is in flight from another slot |
| Schedule.EveryRunIsSane | crates/bitmigo/src/download/mod.rs:209-735 | in every run, clear or not, a block in a slot's table is owed by the slot or has arrived, tables hold at most sixteen, and the bounds hold |
| Schedule.AskKeepsQueueIff | crates/bitmigo/src/download/mod.rs:650-696 | it keeps the queue in order as well exactly when it names no block that waits there |
| Schedule.ReceiveKeeps | crates/bitmigo/src/download/mod.rs:707-735 | from a state in order, taking a block off the queue, a stale one included, fails no assertion and keeps the order |
| Schedule.MatchedKeeps | crates/bitmigo/src/download/mod.rs:261-289 | forgetting a slot keeps the order, whatever of it is queued |
| Schedule.AnswerKeeps | crates/bitmigo/src/peer/requests.rs:92-96 | a reader taking a request and queueing the block keeps the books |
| Schedule.StepKeepsIff | crates/bitmigo/src/download/mod.rs:209-735 | every legal step from a state in order fails no assertion, and leaves one in order if and only if it asks for no block that waits in the queue |
| Schedule.RunKeepsIff | crates/bitmigo/src/download/mod.rs:209-735 | the states of a run are all in order if and only if it never asks for a block that waits in the queue |
| Schedule.LateBlockFailsIff | crates/bitmigo/src/download/mod.rs:707-718 | after a legal request from a state in order, taking the first blocks off the queue fails an assertion if and only if one of them was asked again of another slot |
| Schedule.ReplacedPeerKeepsTable | crates/bitmigo/src/download/mod.rs:707-735 | asked again of the same slot's next occupant, the block ends delivered, not in flight, and still in that peer's table, where it takes up room: the condition on which later requests to the slot fail |
| Schedule.EveryRunIsBounded | crates/bitmigo/src/download/mod.rs:88-95 | in every run, clear or not: sixteen a slot, in-flight and delivered disjoint, fewer than 1024 + 512 together |
| Schedule.BooksSay | crates/bitmigo/src/download/mod.rs:88-95 | map and tables in order mean: no block owed twice, at most sixteen a slot and its table within them, in-flight and delivered disjoint, fewer than 1024 + 512 together |
| Schedule.ReceiveDelivers | crates/bitmigo/src/download/mod.rs:707-735 | a block taken off the queue moves from in flight to delivered, or is dropped when nobody owes it; no other leaves but with a forgotten slot |
| Schedule.ForgottenIs | crates/bitmigo/src/download/mod.rs:275-289 | forgetting a slot gives back every block it owed and no other |
| Schedule.NeverAskedAgain | crates/bitmigo/src/download/mod.rs:113-122 | in every run a block that has arrived is never in flight again; in a clear run it is in no table either |
| Schedule.LateBlockTrips | crates/bitmigo/src/download/mod.rs:707-718 | a run of the schedule reaches the failing assertion: a peer leaves with its block queued and the block is asked of another |
| Schedule.StaleTableTrips | crates/bitmigo/src/download/mod.rs:676-679 | a run of the schedule reaches a failing request: the block is asked of the next peer in the slot among sixteen, arrives late, and one more is asked |
| Downloads.Requests.Record | crates/bitmigo/src/peer/requests.rs:78-88 | refused exactly at the bound or for a block already listed |
| Downloads.Requests.Take | crates/bitmigo/src/peer/requests.rs:92-96 | the one request removed, nothing for a block not asked for |
| Downloads.Requests.Clear | crates/bitmigo/src/peer/requests.rs:105-110 | empty, with the count given up |
| Downloads.Scheduler.InFlightFor | crates/bitmigo/src/download/mod.rs:313-318 | the number of blocks a slot owes |
| Downloads.Scheduler.Forget | crates/bitmigo/src/download/mod.rs:283-289 | the row reset and exactly the slot's entries gone |
| Downloads.Scheduler.MatchRow | crates/bitmigo/src/download/mod.rs:261-267 | the books after a row is matched to its slot |
| Downloads.Scheduler.Reconcile | crates/bitmigo/src/download/mod.rs:209-217 | every row afterwards describes its slot and the order is kept, stale messages queued or not |
| Downloads.ExpectedIsAskable | crates/bitmigo/src/download/window.rs:70-148 | what the window walk offers is new, distinct, within the number wanted and neither held nor refused |
| Downloads.AskGoesThroughIff | crates/bitmigo/src/download/mod.rs:650-696 | with new blocks and a matched row a request is legal, and goes through exactly when the table has room |
| Downloads.Scheduler.Request | crates/bitmigo/src/download/mod.rs:650-696 | the in-flight map and the table after a request, or false exactly where the table refuses a block |
| Downloads.Scheduler.BlockReceived | crates/bitmigo/src/download/mod.rs:707-735 | the books after a block is taken off the queue, or false exactly where an assertion fails |
| Downloads.Scheduler.WalkFor | crates/bitmigo/src/download/mod.rs:600-611 | for a peer whose chain is worth it exactly the lowest `want` candidates above its edge, with the edge moved and the staller named, and for any other nothing; all of them accepted headers never asked for |
| Downloads.Scheduler.AskOne | crates/bitmigo/src/download/mod.rs:583-627 | one slot's turn asks for exactly that list with the room left below sixteen, marks the staller if the peer owes nothing, and is one legal ask of the transition system, or false exactly where an assertion of it fails |
| Downloads.TurnServes | crates/bitmigo/src/download/mod.rs:583-627 | a turn that goes through leaves its peer owing sixteen or missing nothing in its window |
| Downloads.OffersAreInWindow | crates/bitmigo/src/download/window.rs:99-141 | nothing is offered outside the 1024 blocks above the edge, off the peer's chain, or deeper than 286 below its best for a limited peer |
| Downloads.Scheduler.AskForBlocks | crates/bitmigo/src/download/mod.rs:573-627 | after a pass every peer that may be asked owes sixteen blocks, or misses none of the 1024 above its edge, and no other was asked; from map and tables that agree no assertion fails and they still agree; the queue stays in order if and only if no block that waits in it was asked for; nothing is done once a window of blocks waits to be stored |
| Framer.FrameIsDelivered | crates/bitmigo/src/peer/wire.rs:225-290 | magic, a type, a little-endian length, a checksum and a payload are delivered as one message of 24 bytes more than the payload |
| Framer.FrameIsRefused | crates/bitmigo/src/peer/wire.rs:246-277 | another magic, a length past the maximum and one past the cap are each refused at the header |
| Framer.StepIsWhole | crates/bitmigo/src/peer/wire.rs:182-290 | one read does to the stream what one pass over it does, and leaves a proper part of a message |
| Framer.FedIsWhole | crates/bitmigo/src/peer/wire.rs:182-290 | however the bytes are cut and the cap moves between reads, the messages and the first error are those of one pass with each message held to the cap its header was completed under |
| Framer.CutsAgree | crates/bitmigo/src/peer/wire.rs:182-290 | two cuttings of one stream with the same header caps give the same messages and the same first error |
| Framer.CapCountsOnce | crates/bitmigo/src/peer/wire.rs:225-244 | the cap of a read counts only when it completes a header |
| Framer.OneCapForAll | crates/bitmigo/src/peer/wire.rs:182-213 | reads under one cap have it for every header |
| Framer.BytewiseFits | crates/bitmigo/src/peer/wire.rs:182-213 | every stream can be cut: one byte at a time always fits the buffer |
| Framer.StepKeepsPartial | crates/bitmigo/src/peer/wire.rs:225-244 | the cap may change between reads without breaking the framer's state |
| Framer.IsMessageTypeValid | crates/bitmigo/src/peer/wire.rs:309-323 | true exactly for printable bytes followed by zeros |
| Framer.FramerState.ParseHeader | crates/bitmigo/src/peer/wire.rs:247-275 | magic, type, protocol maximum and cap, in that order |
| Framer.FramerState.Finish | crates/bitmigo/src/peer/wire.rs:279-290 | the decoded message or the error, with the state reset as the source resets it |
| Framer.FramerState.Settle | crates/bitmigo/src/peer/wire.rs:225-244 | header, message or neither, and a buffer grown only by a length within the cap |
| Framer.FramerState.Read | crates/bitmigo/src/peer/wire.rs:182-213 | both buffer assertions hold, the new state and answer are those of the step, and the buffer stays within the larger of its initial size and 24 plus the cap |
| TxRules.SequenceIs | crates/consensus/src/tx.rs:231-264 | disabled is the top bit, a time lock bit 22, the value the number modulo 65536 |
| TxRules.VersionIs | crates/consensus/src/tx.rs:269-272 | the rule is for versions of two and up and for negative ones |
| TxRules.SequenceLocksSatisfied | crates/consensus/src/tx.rs:231-264 | the two running maxima accept exactly when every input's own lock is met as the Specification section of BIP 68 defines it |
| TxRules.LocksStayMet | crates/consensus/src/tx.rs:231-264 | acceptance is monotone in height and median time |
| TxRules.OutOfRangeStays | crates/consensus/src/tx.rs:408-428 | once a prefix of values is out of range the whole is |
| TxRules.CheckOutputValues | crates/consensus/src/tx.rs:408-428 | accepted exactly when every value and their sum are in range; otherwise the first bad output and how |
| TxRules.ValueOut | crates/consensus/src/tx.rs:205-212 | the sum, each partial sum in range |
| TxRules.CheckTxInputs | crates/consensus/src/tx.rs:158-200 | accepted exactly when every coin is mature and in range and the outputs are covered; inputs equal outputs plus fee; otherwise the first bad input and why |

## Left out

- HeaderTrees.AddWork: requires that the sum fits 256 bits, which is the adder's own final assertion.
- HeaderTrees.HeaderTree.Accept: carries the same requirement for a header it stores.
- TreeState.ReachableIsSound: runs hand no header-stage refusal of their own to an entry, as no caller does; `TreeState.InvalidateIsSoundIff` and `HeaderVerdict.HeaderVerdictIsLost` say what such a call would do.
- HeaderTrees.HeaderTree.HeadersTo: stands for assembling a context; the median time, required bits and deployment rules computed from those headers are part of the contextual check parameter.
- Store.CrashThenLoad: takes the crash not to fall between writing a batch and syncing it; `CrashRestores.CrashLoadsBetween` says what is loaded there, where no one tree is restored: an entry may come back as a bare header although one commit had its block and the other a verdict on its ancestor.
- Store.NextKeeps: runs over one session of the files; `Sessions` runs over many at the level of records, where a fragment left by a crash does not arise.
- Sessions.SessionsKeep: takes the block hash to tell headers apart among the records of a reload that reads on past one an earlier reload stopped at (`Sessions.AllReadable`); no other reload needs it.
- Sessions.EverySessionLoads: takes the same of the load it speaks of, since a record of one header could otherwise be taken for another's.
- Store.CrashReadsBack: covers the block series; an undo location in a record is durable only if the validation thread synced it first, a rule the source states for code it does not contain.
- Schedule.RunKeepsIff: takes a connection not to change between matching its row and asking its peer, which one pass of the chain thread is assumed to see as one moment.
- Downloads.Scheduler.AskOne: marks a peer as stalling without the time since when, and takes the rows to be matched to their slots.
- Varint.Reader.Varint: does not say where the reader stands after an error; no caller reads on.
- Merkle.ComputeRoot: requires at most 2^33 leaves, past which the source's loop ends with its assertion failing.
- Series.SeriesWriter.Append: takes file-system errors other than a full or occupied file number as not happening.
- The journal's file header (magic, version, genesis hash), the temporary file of a rewrite and its rename are not modelled; a rewrite replaces the file in one step.
- The rows of the header arena are split in two here: what is fixed at insertion, and the status.
- The per-record `Context` of a block request, request times, stall, timeout and stale-tip policy, and the headers sync of the schedule.
- Sockets, threads, locks, the inbound queue's bounds, slots, handshake and session tables, peer discovery and start-up: plumbing or flat case tables.
- SHA256d, header rules, retargeting, scripts and signature operations, and the library's (de)serialisation.
- The differential test harness.
