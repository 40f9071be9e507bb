/**
  The blocks one peer is asked for next. The walk takes the window in batches, each collected from
  its upper end downwards; it is proved to return what one plain forward scan of the window would,
  whatever the batch size.
 */
module Window {
  import opened Bytes
  import opened Arena
  import opened TreeState
  import opened HeaderTrees
  import Schedule

  const BLOCK_DOWNLOAD_WINDOW: nat := 1024
  const WALK_BATCH: nat := 128
  const LIMITED_PEER_DEPTH: nat := 288 - 2

  /** What the walk reads beside the tree: who owes what, and what arrived and is not stored. */
  datatype Books = Books(inFlight: map<Hash, nat>, delivered: set<Hash>, minimumWork: nat)

  datatype Walk = Walk(blocks: seq<nat>, staller: Option<nat>)

  /** One peer's row: the most-work header it has told of, and the left edge of its window. */
  class PeerDownload {
    var bestKnown: Option<nat>
    var lastCommon: Option<nat>

    constructor (bestKnown: Option<nat>, lastCommon: Option<nat>)
      ensures this.bestKnown == bestKnown && this.lastCommon == lastCommon
    {
      this.bestKnown, this.lastCommon := bestKnown, lastCommon;
    }
  }

  predicate Has(books: Books, hash: Hash, status: Status) {
    status.Where().Some? || hash in books.delivered
  }

  // ----- the plain scan -----------------------------------------------------------------------

  /** The block at a height of the peer's chain. */
  ghost function BlockAt(s: State, best: nat, h: nat): (n: nat)
    requires Shaped(s) && best < |s.nodes| && h <= s.nodes[best].height
    ensures n < |s.nodes| && s.nodes[n].height == h
  {
    AncestorAt(s.nodes, best, h)
  }

  ghost predicate Held(s: State, books: Books, n: nat)
    requires Shaped(s) && n < |s.nodes|
  {
    Has(books, s.nodes[n].hash, s.status[n])
  }

  /** A block this peer should be asked for: not held, owed by nobody, not too deep for it. */
  ghost predicate Wanted(s: State, books: Books, best: nat, limited: bool, n: nat)
    requires Shaped(s) && best < |s.nodes| && n < |s.nodes|
  {
    && !Held(s, books, n)
    && s.nodes[n].hash !in books.inFlight
    && !(limited && s.nodes[n].height + LIMITED_PEER_DEPTH < s.nodes[best].height)
  }

  /** The wanted blocks from height `h` to `last`, lowest first, before any terminal one. */
  ghost function Candidates(s: State, books: Books, best: nat, limited: bool, h: nat, last: nat): seq<nat>
    requires Shaped(s) && best < |s.nodes| && last <= s.nodes[best].height
    decreases last + 1 - h
  {
    if h > last || s.status[BlockAt(s, best, h)].IsTerminal() then []
    else
      var n := BlockAt(s, best, h);
      (if Wanted(s, books, best, limited, n) then [n] else [])
      + Candidates(s, books, best, limited, h + 1, last)
  }

  /** How many blocks from height `h` up are held without a gap or a terminal one. */
  ghost function HeldRun(s: State, books: Books, best: nat, h: nat, last: nat): (r: nat)
    requires Shaped(s) && best < |s.nodes| && last <= s.nodes[best].height
    ensures h <= last ==> h + r <= last + 1
    ensures h > last ==> r == 0
    decreases last + 1 - h
  {
    if h > last || s.status[BlockAt(s, best, h)].IsTerminal() || !Held(s, books, BlockAt(s, best, h)) then 0
    else 1 + HeldRun(s, books, best, h + 1, last)
  }

  /** Whether a refused block stands in the window. */
  ghost predicate Refused(s: State, best: nat, h: nat, last: nat)
    requires Shaped(s) && best < |s.nodes| && last <= s.nodes[best].height
    decreases last + 1 - h
  {
    h <= last && (s.status[BlockAt(s, best, h)].IsTerminal() || Refused(s, best, h + 1, last))
  }

  /** The peer that owes the lowest block somebody was asked for. */
  ghost function FirstOwing(s: State, books: Books, best: nat, h: nat, last: nat): Option<nat>
    requires Shaped(s) && best < |s.nodes| && last <= s.nodes[best].height
    decreases last + 1 - h
  {
    if h > last then None
    else
      var n := BlockAt(s, best, h);
      if !Held(s, books, n) && s.nodes[n].hash in books.inFlight then Some(books.inFlight[s.nodes[n].hash])
      else FirstOwing(s, books, best, h + 1, last)
  }

  // ----- what the scan means ------------------------------------------------------------------

  /** Heights between bounds, each higher than the one before. */
  ghost predicate Climbs(nodes: seq<Node>, c: seq<nat>, h: nat, last: nat) {
    |c| > 0 ==>
      && c[0] < |nodes| && h <= nodes[c[0]].height <= last
      && Climbs(nodes, c[1..], nodes[c[0]].height + 1, last)
  }

  lemma {:induction false} CandidatesClimb(s: State, books: Books, best: nat, limited: bool, h: nat, last: nat)
    requires Shaped(s) && best < |s.nodes| && last <= s.nodes[best].height
    ensures Climbs(s.nodes, Candidates(s, books, best, limited, h, last), h, last)
    decreases last + 1 - h
  {
    hide Wanted;
    if h <= last && !s.status[BlockAt(s, best, h)].IsTerminal() {
      CandidatesClimb(s, books, best, limited, h + 1, last);
      ClimbsOn(s.nodes, BlockAt(s, best, h), Candidates(s, books, best, limited, h + 1, last), h, last);
    }
  }

  lemma ClimbsOn(nodes: seq<Node>, n: nat, rest: seq<nat>, h: nat, last: nat)
    requires n < |nodes| && nodes[n].height == h <= last && Climbs(nodes, rest, h + 1, last)
    ensures Climbs(nodes, [n] + rest, h, last) && Climbs(nodes, [] + rest, h, last) && n !in rest
  {
    assert [] + rest == rest && ([n] + rest)[1..] == rest;
    AllAtLeast(nodes, rest, h + 1, last);
  }

  lemma {:induction false} AllAtLeast(nodes: seq<Node>, c: seq<nat>, h: nat, last: nat)
    requires Climbs(nodes, c, h, last)
    ensures forall k :: 0 <= k < |c| ==> c[k] < |nodes| && h <= nodes[c[k]].height <= last
    decreases |c|
  {
    if |c| > 0 {
      AllAtLeast(nodes, c[1..], nodes[c[0]].height + 1, last);
      forall k | 0 <= k < |c| ensures c[k] < |nodes| && h <= nodes[c[k]].height <= last {
        assert k > 0 ==> c[k] == c[1..][k - 1];
      }
    }
  }

  /** A height is a candidate's exactly when its block is wanted and nothing up to it is refused. */
  lemma {:induction false} CandidatesAre(
    s: State, books: Books, best: nat, limited: bool, h: nat, last: nat, x: nat)
    requires Shaped(s) && best < |s.nodes| && last <= s.nodes[best].height && h <= x <= last
    ensures BlockAt(s, best, x) in Candidates(s, books, best, limited, h, last)
            <==> Wanted(s, books, best, limited, BlockAt(s, best, x)) && !Refused(s, best, h, x)
    decreases last + 1 - h
  {
    hide Wanted, Climbs, Candidates, Refused, BlockAt, Linked;
    var n, y := BlockAt(s, best, h), BlockAt(s, best, x);
    CandidatesUnfold(s, books, best, limited, h, last, y);
    RefusedUnfolds(s, best, h, x);
    if !s.status[n].IsTerminal() {
      CandidatesClimb(s, books, best, limited, h + 1, last);
      ClimbsOn(s.nodes, n, Candidates(s, books, best, limited, h + 1, last), h, last);
      if h < x {
        CandidatesAre(s, books, best, limited, h + 1, last, x);
      } else {
        RefusedUnfolds(s, best, h + 1, x);
      }
    }
  }

  /** A block is a candidate as the lowest of the stretch, or among those above it. */
  lemma CandidatesUnfold(s: State, books: Books, best: nat, limited: bool, h: nat, last: nat, y: nat)
    requires Shaped(s) && best < |s.nodes| && h <= last <= s.nodes[best].height
    ensures var n := BlockAt(s, best, h);
            y in Candidates(s, books, best, limited, h, last) <==>
            !s.status[n].IsTerminal()
            && ((y == n && Wanted(s, books, best, limited, n)) || y in Candidates(s, books, best, limited, h + 1, last))
  {
    hide Wanted, BlockAt, Linked;
  }

  lemma RefusedUnfolds(s: State, best: nat, h: nat, x: nat)
    requires Shaped(s) && best < |s.nodes| && x <= s.nodes[best].height
    ensures h > x ==> !Refused(s, best, h, x)
    ensures h <= x ==>
              (Refused(s, best, h, x) <==> s.status[BlockAt(s, best, h)].IsTerminal() || Refused(s, best, h + 1, x))
  {
    hide BlockAt, Linked;
  }

  /** The run is as long as it can be. */
  lemma {:induction false} HeldRunIsMaximal(s: State, books: Books, best: nat, h: nat, last: nat)
    requires Shaped(s) && best < |s.nodes| && last <= s.nodes[best].height && h <= last
    ensures var r := HeldRun(s, books, best, h, last);
            && (forall x {:trigger BlockAt(s, best, x)} :: h <= x < h + r ==>
                  Held(s, books, BlockAt(s, best, x)) && !s.status[BlockAt(s, best, x)].IsTerminal())
            && (h + r <= last ==>
                  !Held(s, books, BlockAt(s, best, h + r)) || s.status[BlockAt(s, best, h + r)].IsTerminal())
    decreases last + 1 - h
  {
    if HeldRun(s, books, best, h, last) > 0 && h < last {
      HeldRunIsMaximal(s, books, best, h + 1, last);
    }
  }

  /** The peer named owes the lowest block of the stretch that is in flight and not here. */
  lemma {:induction false} FirstOwingIsLowest(s: State, books: Books, best: nat, h: nat, last: nat)
    requires Shaped(s) && best < |s.nodes| && last <= s.nodes[best].height
    ensures var r := FirstOwing(s, books, best, h, last);
            && (r.None? <==> forall x :: h <= x <= last ==> !Owing(s, books, AncestorAt(s.nodes, best, x)))
            && (r.Some? ==> exists x :: LowestOwing(s, books, best, h, last, x)
                             && r.value == books.inFlight[s.nodes[AncestorAt(s.nodes, best, x)].hash])
    decreases last + 1 - h
  {
    hide Linked, AncestorAt;
    if h <= last {
      assert BlockAt(s, best, h) == AncestorAt(s.nodes, best, h);
      FirstOwingIsLowest(s, books, best, h + 1, last);
      if Owing(s, books, AncestorAt(s.nodes, best, h)) {
        assert LowestOwing(s, books, best, h, last, h);
      } else if FirstOwing(s, books, best, h, last).Some? {
        var x :| LowestOwing(s, books, best, h + 1, last, x)
                 && FirstOwing(s, books, best, h + 1, last).value
                    == books.inFlight[s.nodes[AncestorAt(s.nodes, best, x)].hash];
        assert LowestOwing(s, books, best, h, last, x);
      }
    }
  }

  ghost predicate LowestOwing(s: State, books: Books, best: nat, h: nat, last: nat, x: int)
    requires Shaped(s) && best < |s.nodes| && last <= s.nodes[best].height
  {
    && h <= x <= last && Owing(s, books, AncestorAt(s.nodes, best, x))
    && forall y :: h <= y < x ==> !Owing(s, books, AncestorAt(s.nodes, best, y))
  }

  /** Somebody was asked for the block, and it is neither stored nor waiting to be. */
  ghost predicate Owing(s: State, books: Books, n: nat)
    requires n < |s.nodes| == |s.status|
  {
    && s.nodes[n].hash in books.inFlight && s.nodes[n].hash !in books.delivered
    && !s.status[n].BlockChecked? && !s.status[n].Connected?
  }

  // ----- the walk against the scan --------------------------------------------------------------

  /** What one window is scanned with. */
  datatype Scan = Scan(s: State, books: Books, best: nat, limited: bool, first: nat, last: nat)

  ghost predicate Scannable(c: Scan) {
    && Shaped(c.s) && c.best < |c.s.nodes|
    && 0 < c.first <= c.last <= c.s.nodes[c.best].height
  }

  /** Everything below `pos` has been looked at: these blocks, this edge, this peer. */
  ghost predicate Scanned(c: Scan, pos: nat, blocks: seq<nat>, common: nat, waiting: Option<nat>)
    requires Scannable(c)
  {
    && c.first <= pos <= c.last + 1
    && common < |c.s.nodes|
    && var edge := c.s.nodes[common].height;
    && c.first - 1 <= edge < pos && common == BlockAt(c.s, c.best, edge)
    && Candidates(c.s, c.books, c.best, c.limited, c.first, c.last)
       == blocks + Candidates(c.s, c.books, c.best, c.limited, pos, c.last)
    && (Refused(c.s, c.best, c.first, c.last) <==> Refused(c.s, c.best, pos, c.last))
    && HeldRun(c.s, c.books, c.best, c.first, c.last)
       == edge + 1 - c.first + (if edge + 1 == pos then HeldRun(c.s, c.books, c.best, pos, c.last) else 0)
    && (blocks != [] ==> edge + 1 < pos)
    && FirstOwing(c.s, c.books, c.best, c.first, c.last)
       == (if waiting.Some? then waiting else FirstOwing(c.s, c.books, c.best, pos, c.last))
  }

  lemma ScanStarts(c: Scan, common: nat)
    requires Scannable(c) && common < |c.s.nodes| && c.s.nodes[common].height == c.first - 1
    requires common == BlockAt(c.s, c.best, c.first - 1)
    ensures Scanned(c, c.first, [], common, None)
  {
    hide Candidates, HeldRun, FirstOwing, BlockAt;
  }

  /** One block further. */
  ghost function Pushed(c: Scan, n: nat, blocks: seq<nat>): seq<nat>
    requires Scannable(c) && n < |c.s.nodes|
  {
    if Wanted(c.s, c.books, c.best, c.limited, n) then blocks + [n] else blocks
  }

  ghost function Edge(c: Scan, n: nat, common: nat): nat
    requires Scannable(c) && n < |c.s.nodes| && common < |c.s.nodes|
  {
    if Held(c.s, c.books, n) && c.s.nodes[n].height == c.s.nodes[common].height + 1 then n else common
  }

  ghost function Waits(c: Scan, n: nat, waiting: Option<nat>): Option<nat>
    requires Scannable(c) && n < |c.s.nodes|
  {
    if waiting.None? && !Held(c.s, c.books, n) && c.s.nodes[n].hash in c.books.inFlight
    then Some(c.books.inFlight[c.s.nodes[n].hash]) else waiting
  }

  lemma ScanGoesOn(c: Scan, pos: nat, blocks: seq<nat>, common: nat, waiting: Option<nat>)
    requires Scannable(c) && Scanned(c, pos, blocks, common, waiting) && pos <= c.last
    requires !c.s.status[BlockAt(c.s, c.best, pos)].IsTerminal()
    ensures var n := BlockAt(c.s, c.best, pos);
            Scanned(c, pos + 1, Pushed(c, n, blocks), Edge(c, n, common), Waits(c, n, waiting))
  {
    hide Shaped, Held, BlockAt;
    var n := BlockAt(c.s, c.best, pos);
    var rest := Candidates(c.s, c.books, c.best, c.limited, pos + 1, c.last);
    assert blocks + ([n] + rest) == blocks + [n] + rest;
    assert blocks + ([] + rest) == blocks + rest;
  }

  /** What the walk should come to, from the left edge of the window. */
  ghost function Expected(s: State, books: Books, best: nat, peer: nat, want: nat, limited: bool, common: nat): Walk
    requires Shaped(s) && best < |s.nodes| && common < |s.nodes| && OnPath(s.nodes, common, best)
  {
    var first, last := s.nodes[common].height + 1, LastHeight(s, best, common);
    var blocks := Take(Candidates(s, books, best, limited, first, last), want);
    var owing := FirstOwing(s, books, best, first, last);
    Walk(blocks,
         if blocks == [] && !Refused(s, best, first, last) && owing.Some? && owing.value != peer
         then owing else None)
  }

  /**
    A staller is named exactly if there is nothing to ask for, no block of the window is refused, and
    the lowest block that is in flight is owed by another peer: that peer.
   */
  lemma StallerMeans(
    s: State, books: Books, best: nat, peer: nat, want: nat, limited: bool, common: nat, p: nat)
    requires Shaped(s) && best < |s.nodes| && common < |s.nodes| && OnPath(s.nodes, common, best) && want > 0
    ensures var (first, last) := (s.nodes[common].height + 1, LastHeight(s, best, common));
            Expected(s, books, best, peer, want, limited, common).staller == Some(p)
            <==> && Candidates(s, books, best, limited, first, last) == [] && p != peer
                 && (forall y :: first <= y <= last ==> !s.status[AncestorAt(s.nodes, best, y)].IsTerminal())
                 && exists x :: LowestOwing(s, books, best, first, last, x)
                                && p == books.inFlight[s.nodes[AncestorAt(s.nodes, best, x)].hash]
  {
    hide Linked, Candidates, FirstOwing, Refused, AncestorAt, OnPath;
    var (first, last) := (s.nodes[common].height + 1, LastHeight(s, best, common));
    RefusedMeans(s, best, first, last);
    FirstOwingIsLowest(s, books, best, first, last);
    forall x, y | LowestOwing(s, books, best, first, last, x) && LowestOwing(s, books, best, first, last, y)
      ensures x == y
    {
      LowestIsOne(s, books, best, first, last, x, y);
    }
  }

  lemma LowestIsOne(s: State, books: Books, best: nat, h: nat, last: nat, x: int, y: int)
    requires Shaped(s) && best < |s.nodes| && last <= s.nodes[best].height
    requires LowestOwing(s, books, best, h, last, x) && LowestOwing(s, books, best, h, last, y)
    ensures x == y
  {
    hide Shaped, Owing, AncestorAt;
  }

  lemma {:induction false} RefusedMeans(s: State, best: nat, h: nat, x: nat)
    requires Shaped(s) && best < |s.nodes| && x <= s.nodes[best].height
    ensures Refused(s, best, h, x)
            <==> exists y :: h <= y <= x && s.status[AncestorAt(s.nodes, best, y)].IsTerminal()
    decreases x + 1 - h
  {
    hide Linked;
    if h <= x {
      assert BlockAt(s, best, h) == AncestorAt(s.nodes, best, h);
      RefusedMeans(s, best, h + 1, x);
    }
  }

  /** The top of the window. */
  ghost function LastHeight(s: State, best: nat, common: nat): (h: nat)
    requires Shaped(s) && best < |s.nodes| && common < |s.nodes|
    ensures h <= s.nodes[best].height
  {
    var end := s.nodes[common].height + BLOCK_DOWNLOAD_WINDOW;
    if s.nodes[best].height < end then s.nodes[best].height else end
  }

  /** Where the left edge moves to: the end of the run of held blocks above it. */
  ghost function NewEdge(s: State, books: Books, best: nat, common: nat): nat
    requires Shaped(s) && best < |s.nodes| && common < |s.nodes| && OnPath(s.nodes, common, best)
  {
    var first, last := s.nodes[common].height + 1, LastHeight(s, best, common);
    BlockAt(s, best, s.nodes[common].height + HeldRun(s, books, best, first, last))
  }

  /** The scan is over: refused, full, or at the end of the window. */
  lemma ScanEnds(c: Scan, pos: nat, blocks: seq<nat>, common: nat, waiting: Option<nat>, want: nat)
    requires Scannable(c) && Scanned(c, pos, blocks, common, waiting) && 0 < want && |blocks| <= want
    requires |blocks| == want || pos > c.last || c.s.status[BlockAt(c.s, c.best, pos)].IsTerminal()
    ensures Take(Candidates(c.s, c.books, c.best, c.limited, c.first, c.last), want) == blocks
    ensures c.s.nodes[common].height == c.first - 1 + HeldRun(c.s, c.books, c.best, c.first, c.last)
    ensures |blocks| < want && pos <= c.last ==> Refused(c.s, c.best, c.first, c.last)
    ensures blocks == [] && pos > c.last ==>
              && !Refused(c.s, c.best, c.first, c.last)
              && FirstOwing(c.s, c.books, c.best, c.first, c.last) == waiting
  {
    hide Shaped, Held, BlockAt, Wanted;
  }

  // ----- the loops ------------------------------------------------------------------------------

  /** The walk down parent links, prepended step by step, is the list of ancestors between two heights. */
  method Batch(tree: HeaderTree, best: nat, first: nat, last: nat) returns (nodes: seq<nat>)
    requires tree.Valid() && best < |tree.nodes| && first <= last <= tree.nodes[best].height
    ensures |nodes| == last - first + 1
    ensures forall k :: 0 <= k < |nodes| ==> nodes[k] == BlockAt(tree.View(), best, first + k)
  {
    hide Verdicts, ActiveChain, IsBest, DirtyList, Built, AncestorAt;
    var found := tree.Ancestor(best, last);
    var node: nat := found.value;
    nodes := [node];
    while tree.nodes[node].height > first
      invariant node < |tree.nodes| && first <= tree.nodes[node].height <= last
      invariant |nodes| == last - tree.nodes[node].height + 1
      invariant node == AncestorAt(tree.nodes, best, tree.nodes[node].height)
      invariant forall k :: 0 <= k < |nodes| ==>
                  nodes[k] == BlockAt(tree.View(), best, tree.nodes[node].height + k)
      decreases node
    {
      ghost var before := nodes;
      ghost var h := tree.nodes[node].height;
      ParentIsNext(tree.nodes, best, h);
      node := tree.nodes[node].parent.value;
      nodes := [node] + nodes;
      forall k | 0 <= k < |nodes| ensures nodes[k] == BlockAt(tree.View(), best, h - 1 + k) {
        assert k > 0 ==> nodes[k] == before[k - 1];
      }
    }
  }

  /** The paired walk back stops on the fork of its two nodes. */
  method LastCommonAncestor(tree: HeaderTree, left: nat, right: nat) returns (common: nat)
    requires tree.Valid() && left < |tree.nodes| && right < |tree.nodes|
    ensures common == ForkOf(tree.nodes, left, right)
  {
    hide Verdicts, ActiveChain, IsBest, DirtyList, Built, NodeBuilt;
    ghost var f := ForkOf(tree.nodes, left, right);
    ForkOfIsFork(tree.nodes, left, right);
    var height := if tree.nodes[left].height < tree.nodes[right].height
                  then tree.nodes[left].height else tree.nodes[right].height;
    var l := tree.Ancestor(left, height);
    var r := tree.Ancestor(right, height);
    var a: nat, b: nat := l.value, r.value;
    OnPathLinear(tree.nodes, f, a, left);
    OnPathLinear(tree.nodes, f, b, right);
    var steps := 0;
    while a != b
      invariant steps + a <= |tree.nodes|
      invariant a < |tree.nodes| && b < |tree.nodes| && tree.nodes[a].height == tree.nodes[b].height
      invariant OnPath(tree.nodes, a, left) && OnPath(tree.nodes, b, right)
      invariant OnPath(tree.nodes, f, a) && OnPath(tree.nodes, f, b)
      decreases a
    {
      StepBack(tree.nodes, a, left, f, b);
      StepBack(tree.nodes, b, right, f, a);
      steps := steps + 1;
      assert steps <= |tree.nodes|;
      a := tree.nodes[a].parent.value;
      b := tree.nodes[b].parent.value;
    }
    common := a;
  }

  /** A node that is not yet the shared one can step back without passing it. */
  lemma StepBack(nodes: seq<Node>, a: nat, left: nat, f: nat, b: nat)
    requires Linked(nodes) && left < |nodes| && a < |nodes| && b < |nodes|
    requires OnPath(nodes, a, left) && OnPath(nodes, f, a) && OnPath(nodes, f, b)
    requires nodes[a].height == nodes[b].height && a != b
    ensures 0 < a && OnPath(nodes, Up(nodes, a), left) && OnPath(nodes, f, Up(nodes, a))
  {
    assert f != a;
    OnPathUp(nodes, f, a);
    OnPathUp(nodes, Up(nodes, a), a);
    OnPathTrans(nodes, Up(nodes, a), a, left);
  }

  /** The left edge: the last block the peer's best chain shares with the row's edge, or with the active chain. */
  ghost function CommonOf(s: State, lastCommon: Option<nat>, best: nat): (c: nat)
    requires Shaped(s) && best < |s.nodes| && (lastCommon.Some? ==> lastCommon.value < |s.nodes|)
    ensures c < |s.nodes| && OnPath(s.nodes, c, best)
  {
    ForkOf(s.nodes, if lastCommon.Some? then lastCommon.value else s.tip, best)
  }

  /** It is on both, the active chain or the row's edge and the peer's, and every block on both is at or below it. */
  lemma EdgeIsShared(s: State, lastCommon: Option<nat>, best: nat, x: nat)
    requires Shaped(s) && best < |s.nodes| && (lastCommon.Some? ==> lastCommon.value < |s.nodes|)
    requires x < |s.nodes|
    ensures var c := CommonOf(s, lastCommon, best);
            && OnPath(s.nodes, c, best)
            && (lastCommon.None? ==> OnPath(s.nodes, c, s.tip))
            && (lastCommon.Some? ==> OnPath(s.nodes, c, lastCommon.value))
            && (OnPath(s.nodes, x, best) && lastCommon.None? && OnPath(s.nodes, x, s.tip) ==> OnPath(s.nodes, x, c))
            && (OnPath(s.nodes, x, best) && lastCommon.Some? && OnPath(s.nodes, x, lastCommon.value) ==>
                  OnPath(s.nodes, x, c))
  {
    hide ForkOf, AncestorAt;
    var start := if lastCommon.Some? then lastCommon.value else s.tip;
    ForkOfIsFork(s.nodes, start, best);
    if OnPath(s.nodes, x, best) && OnPath(s.nodes, x, start) {
      OnPathLinear(s.nodes, x, CommonOf(s, lastCommon, best), best);
    }
  }

  /** The source starts from the active chain at the peer's height, which shares the same blocks with it. */
  lemma SameFork(nodes: seq<Node>, tip: nat, best: nat, h: nat)
    requires Linked(nodes) && tip < |nodes| && best < |nodes|
    requires h <= nodes[tip].height && (h == nodes[tip].height || h == nodes[best].height)
    ensures ForkOf(nodes, AncestorAt(nodes, tip, h), best) == ForkOf(nodes, tip, best)
  {
    hide ForkOf, AncestorAt, Linked;
    var low := AncestorAt(nodes, tip, h);
    var (f, g) := (ForkOf(nodes, low, best), ForkOf(nodes, tip, best));
    OnPathOfAncestor(nodes, tip, h);
    ForkOfIsFork(nodes, low, best);
    ForkOfIsFork(nodes, tip, best);
    OnPathTrans(nodes, f, low, tip);
    OnPathBelow(nodes, g, best);
    OnPathBelow(nodes, g, tip);
    OnPathLinear(nodes, g, low, tip);
    ForkIsUnique(nodes, tip, best, f, g);
  }

  lemma OnPathBelow(nodes: seq<Node>, a: nat, b: nat)
    requires Linked(nodes) && b < |nodes| && OnPath(nodes, a, b)
    ensures a < |nodes| && nodes[a].height <= nodes[b].height
  {
  }

  method CommonBlock(tree: HeaderTree, lastCommon: Option<nat>, best: nat) returns (common: nat)
    requires tree.Valid() && best < |tree.nodes|
    requires lastCommon.Some? ==> lastCommon.value < |tree.nodes|
    ensures common == CommonOf(tree.View(), lastCommon, best)
  {
    hide Verdicts, ActiveChain, IsBest, DirtyList, ForkOf;
    var known: nat;
    if lastCommon.Some? {
      known := lastCommon.value;
    } else {
      var tipHeight, bestHeight := tree.nodes[tree.tip].height, tree.nodes[best].height;
      var found := tree.Ancestor(tree.tip, if tipHeight < bestHeight then tipHeight else bestHeight);
      known := found.value;
      SameFork(tree.nodes, tree.tip, best, if tipHeight < bestHeight then tipHeight else bestHeight);
    }
    common := LastCommonAncestor(tree, known, best);
  }

  /** One batch: scanned to its end, until enough is collected, or to a refused block. */
  method ScanBatch(tree: HeaderTree, books: Books, best: nat, limited: bool, want: nat, batch: seq<nat>,
                   height: nat, blocks0: seq<nat>, common0: nat, waiting0: Option<nat>, ghost c: Scan)
    returns (blocks: seq<nat>, common: nat, waiting: Option<nat>, refused: bool, ghost pos: nat)
    requires tree.Valid() && Scannable(c) && c == Scan(tree.View(), books, best, limited, c.first, c.last)
    requires Scanned(c, height, blocks0, common0, waiting0) && |blocks0| < want
    requires height + |batch| <= c.last + 1
    requires forall k :: 0 <= k < |batch| ==> batch[k] == BlockAt(c.s, best, height + k)
    ensures Scanned(c, pos, blocks, common, waiting) && |blocks| <= want
    ensures refused ==> |blocks| < want && pos <= c.last && c.s.status[BlockAt(c.s, best, pos)].IsTerminal()
    ensures !refused && |blocks| < want ==> pos == height + |batch|
  {
    hide Sound, Scanned, BlockAt;
    blocks, common, waiting, refused, pos := blocks0, common0, waiting0, false, height;
    var k := 0;
    while k < |batch| && |blocks| < want
      invariant k <= |batch| && pos == height + k && |blocks| <= want
      invariant Scanned(c, pos, blocks, common, waiting)
    {
      var node := batch[k];
      ScanBounds(c, pos, blocks, common, waiting);
      if tree.status[node].IsTerminal() {
        refused := true;
        return;
      }
      ScanGoesOn(c, pos, blocks, common, waiting);
      if Has(books, tree.nodes[node].hash, tree.status[node]) {
        if tree.nodes[node].height == tree.nodes[common].height + 1 {
          common := node;
        }
      } else if tree.nodes[node].hash in books.inFlight {
        waiting := if waiting.Some? then waiting else Some(books.inFlight[tree.nodes[node].hash]);
      } else if !(limited && tree.nodes[node].height + LIMITED_PEER_DEPTH < tree.nodes[best].height) {
        blocks := blocks + [node];
      }
      k := k + 1;
      pos := pos + 1;
    }
  }

  lemma ScanBounds(c: Scan, pos: nat, blocks: seq<nat>, common: nat, waiting: Option<nat>)
    requires Scannable(c) && Scanned(c, pos, blocks, common, waiting)
    ensures c.first <= pos <= c.last + 1 && common < |c.s.nodes|
    ensures pos <= c.last ==> BlockAt(c.s, c.best, pos) < |c.s.nodes|
  {
  }

  /** The window, batch by batch. */
  method ScanWindow(tree: HeaderTree, books: Books, best: nat, limited: bool, want: nat, edge: nat, ghost c: Scan)
    returns (blocks: seq<nat>, common: nat, waiting: Option<nat>, refused: bool)
    requires tree.Valid() && Scannable(c) && c == Scan(tree.View(), books, best, limited, c.first, c.last)
    requires 0 < want <= Schedule.MAX_BLOCKS_IN_FLIGHT && edge < |tree.nodes|
    requires tree.nodes[edge].height == c.first - 1 && edge == BlockAt(c.s, best, c.first - 1)
    requires c.last == LastHeight(c.s, best, edge)
    ensures common < |tree.nodes| && blocks == Take(Candidates(c.s, books, best, limited, c.first, c.last), want)
    ensures tree.nodes[common].height <= tree.nodes[best].height
    ensures common == BlockAt(c.s, best, tree.nodes[common].height)
    ensures tree.nodes[common].height == c.first - 1 + HeldRun(c.s, books, best, c.first, c.last)
    ensures blocks == [] ==>
              && refused == Refused(c.s, best, c.first, c.last)
              && (!refused ==> waiting == FirstOwing(c.s, books, best, c.first, c.last))
  {
    hide Sound, Scanned, BlockAt, Candidates, HeldRun, FirstOwing, Refused, Take;
    blocks, common, waiting, refused := [], edge, None, false;
    var height := tree.nodes[edge].height + 1;
    var windowEnd := tree.nodes[edge].height + BLOCK_DOWNLOAD_WINDOW;
    var last := if tree.nodes[best].height < windowEnd then tree.nodes[best].height else windowEnd;
    ghost var pos: nat := height;
    ScanStarts(c, edge);
    while |blocks| < want && height <= last && !refused
      invariant Scanned(c, pos, blocks, common, waiting) && |blocks| <= want && c.first <= pos
      invariant !refused && |blocks| < want ==> pos == height
      invariant refused ==> |blocks| < want && pos <= last && c.s.status[BlockAt(c.s, best, pos)].IsTerminal()
      decreases last + 1 - height, if refused then 0 else 1
    {
      var span := if WALK_BATCH > want then WALK_BATCH else want;
      var batchEnd := if last < height + span - 1 then last else height + span - 1;
      var batch := Batch(tree, best, height, batchEnd);
      blocks, common, waiting, refused, pos :=
        ScanBatch(tree, books, best, limited, want, batch, height, blocks, common, waiting, c);
      ScanBounds(c, pos, blocks, common, waiting);
      height := batchEnd + 1;
    }
    ScanBounds(c, pos, blocks, common, waiting);
    ScanEnds(c, pos, blocks, common, waiting, want);
    EdgeIsOnChain(c, pos, blocks, common, waiting);
    FirstIsRefused(c, pos, blocks, common, waiting);
  }

  lemma EdgeIsOnChain(c: Scan, pos: nat, blocks: seq<nat>, common: nat, waiting: Option<nat>)
    requires Scannable(c) && Scanned(c, pos, blocks, common, waiting)
    ensures common < |c.s.nodes| && c.s.nodes[common].height <= c.s.nodes[c.best].height
    ensures common == BlockAt(c.s, c.best, c.s.nodes[common].height)
  {
  }

  lemma FirstIsRefused(c: Scan, pos: nat, blocks: seq<nat>, common: nat, waiting: Option<nat>)
    requires Scannable(c) && Scanned(c, pos, blocks, common, waiting)
    ensures pos <= c.last && c.s.status[BlockAt(c.s, c.best, pos)].IsTerminal() ==>
              Refused(c.s, c.best, c.first, c.last)
  {
  }

  /** The next blocks to ask a peer for, with its row's left edge moved up as far as is held. */
  method NextBlocks(tree: HeaderTree, books: Books, row: PeerDownload, peer: nat, want: nat, limited: bool)
    returns (walk: Walk)
    requires tree.Valid() && 0 < want <= Schedule.MAX_BLOCKS_IN_FLIGHT
    requires row.bestKnown.Some? ==> row.bestKnown.value < |tree.nodes|
    requires row.lastCommon.Some? ==> row.lastCommon.value < |tree.nodes|
    modifies row
    ensures row.bestKnown == old(row.bestKnown)
    ensures row.bestKnown.None?
            || tree.nodes[row.bestKnown.value].chainwork < tree.nodes[tree.tip].chainwork
            || tree.nodes[row.bestKnown.value].chainwork < books.minimumWork ==>
              walk == Walk([], None) && row.lastCommon == old(row.lastCommon)
    ensures row.bestKnown.Some?
            && tree.nodes[row.bestKnown.value].chainwork >= tree.nodes[tree.tip].chainwork
            && tree.nodes[row.bestKnown.value].chainwork >= books.minimumWork ==>
              var common := CommonOf(tree.View(), old(row.lastCommon), row.bestKnown.value);
              && walk == Expected(tree.View(), books, row.bestKnown.value, peer, want, limited, common)
              && row.lastCommon == Some(NewEdge(tree.View(), books, row.bestKnown.value, common))
  {
    hide Sound, CommonOf, OnPath, HeldRun, Candidates, Refused, FirstOwing, Built, Linked, BlockAt;
    walk := Walk([], None);
    if row.bestKnown.None? {
      return;
    }
    var best := row.bestKnown.value;
    if tree.nodes[best].chainwork < tree.nodes[tree.tip].chainwork {
      return;
    }
    if tree.nodes[best].chainwork < books.minimumWork {
      return;
    }
    ghost var s := tree.View();
    var edge := CommonBlock(tree, row.lastCommon, best);
    row.lastCommon := Some(edge);
    if edge == best {
      AtTheEnd(s, books, best, limited, want, peer);
      return;
    }
    ghost var c := Scan(s, books, best, limited, s.nodes[edge].height + 1, LastHeight(s, best, edge));
    EdgeBelowBest(s, edge, best);
    var blocks, common, waiting, refused := ScanWindow(tree, books, best, limited, want, edge, c);
    row.lastCommon := Some(common);
    walk := Walk(blocks, None);
    if !refused && blocks == [] && waiting.Some? && waiting.value != peer {
      walk := walk.(staller := waiting);
    }
  }

  lemma EdgeBelowBest(s: State, edge: nat, best: nat)
    requires Shaped(s) && best < |s.nodes| && edge < |s.nodes| && OnPath(s.nodes, edge, best) && edge != best
    ensures s.nodes[edge].height < s.nodes[best].height && edge == BlockAt(s, best, s.nodes[edge].height)
  {
  }

  lemma AtTheEnd(s: State, books: Books, best: nat, limited: bool, want: nat, peer: nat)
    requires Shaped(s) && best < |s.nodes|
    ensures OnPath(s.nodes, best, best)
    ensures Expected(s, books, best, peer, want, limited, best) == Walk([], None)
    ensures NewEdge(s, books, best, best) == best
  {
  }
}
