/**
  Locators and the headers served in answer to one. The heights of a locator are a function of one
  number, so its length, and how near it comes to any fork, are settled by arithmetic; the answer is
  proved equal to a plain scan of the active chain.
 */
module Locator {
  import opened Bytes
  import opened Numbers
  import opened SkipList
  import opened Arena
  import opened TreeState
  import opened HeaderTrees

  const MAX_LOCATOR_ENTRIES: nat := 40
  const MAX_LOCATOR_ITEMS: nat := 101
  const MAX_HEADERS_ITEMS: nat := 2000

  // ----- the heights a locator names ------------------------------------------------------------

  /** The heights from `h` down, with `n` entries already written and `step` the next stride. */
  ghost function Heights(h: nat, n: nat, step: nat): (r: seq<nat>)
    requires step > 0
    ensures |r| > 0 && r[0] == h
    decreases h
  {
    if h == 0 then [0]
    else [h] + Heights(Monus(h, step), n + 1, if n + 1 > 10 then 2 * step else step)
  }

  ghost predicate Descends(r: seq<nat>) {
    && (forall k :: 0 <= k < |r| - 1 ==> r[k] > r[k + 1])
    && |r| > 0 && r[|r| - 1] == 0
  }

  lemma {:induction false} HeightsDescend(h: nat, n: nat, step: nat)
    requires step > 0
    ensures Descends(Heights(h, n, step))
    decreases h
  {
    if h > 0 {
      var next := if n + 1 > 10 then 2 * step else step;
      HeightsDescend(Monus(h, step), n + 1, next);
      var rest, all := Heights(Monus(h, step), n + 1, next), Heights(h, n, step);
      assert all == [h] + rest;
      forall k | 0 <= k < |all| - 1 ensures all[k] > all[k + 1] {
        if k > 0 {
          assert rest[k - 1] > rest[k];
        }
      }
    }
  }

  /** How far below its start a locator's entry number `k` lies: one each for the first eleven, then doubling. */
  ghost function Reach(k: nat): nat {
    if k <= 10 then k else 9 + Power2(k - 10)
  }

  /** The stride with `n` entries written, and how far they reach. */
  lemma {:induction false} StridesReach(h: nat, n: nat, step: nat, k: nat)
    requires step > 0 && step == Reach(n + 1) - Reach(n) && k < |Heights(h, n, step)|
    ensures Heights(h, n, step)[k] == Monus(h + Reach(n), Reach(n + k))
    decreases k
  {
    if k > 0 {
      var next := if n + 1 > 10 then 2 * step else step;
      ReachGrows(n);
      StridesReach(Monus(h, step), n + 1, next, k - 1);
      ReachIsMonotone(n + 1, n + k);
      assert Heights(h, n, step)[k] == Heights(Monus(h, step), n + 1, next)[k - 1];
    }
  }

  lemma ReachGrows(n: nat)
    ensures Reach(n) < Reach(n + 1)
    ensures Reach(n + 2) - Reach(n + 1) == (if n + 1 > 10 then 2 else 1) * (Reach(n + 1) - Reach(n))
  {
    if n >= 10 {
      Power2IsPositive(n - 10);
    } else if n == 9 {
      assert Power2(1) == 2;
    }
  }

  lemma {:induction false} Power2IsPositive(k: nat)
    ensures Power2(k) > 0
  {
    if k > 0 {
      Power2IsPositive(k - 1);
    }
  }

  lemma {:induction false} ReachIsMonotone(a: nat, b: nat)
    requires a <= b
    ensures Reach(a) <= Reach(b)
    decreases b
  {
    if a < b {
      ReachIsMonotone(a, b - 1);
      ReachGrows(b - 1);
    }
  }

  /** The heights of a locator in closed form. */
  lemma HeightsReach(h: nat, k: nat)
    requires k < |Heights(h, 0, 1)|
    ensures Heights(h, 0, 1)[k] == if k <= 10 then Monus(h, k) else Monus(h, 9 + Power2(k - 10))
  {
    StridesReach(h, 0, 1, k);
  }

  /** Once the stride doubles, `k` moves cover `step * (2^k - 1)` heights. */
  lemma {:induction false} DoublingIsShort(h: nat, n: nat, step: nat, k: nat)
    requires step > 0 && n >= 10 && h + step <= step * Power2(k)
    ensures |Heights(h, n, step)| <= k + 1
    decreases k
  {
    if h > 0 {
      assert k > 0;
      assert step * Power2(k) == 2 * step * Power2(k - 1);
      DoublingIsShort(Monus(h, step), n + 1, 2 * step, k - 1);
    }
  }

  lemma {:induction false} LeadInIsShort(h: nat, n: nat)
    requires n <= 10 && h < MAX_TREE_HEADERS
    ensures |Heights(h, n, 1)| <= 10 - n + 22
    decreases h
  {
    if n == 10 {
      assert Power2(21) == MAX_TREE_HEADERS by {
        assert Power2(7) == 128;
        assert Power2(14) == 16384;
      }
      DoublingIsShort(h, n, 1, 21);
    } else if h > 0 {
      LeadInIsShort(h - 1, n + 1);
    }
  }

  /** A locator of any node of a tree within its cap has at most 32 entries. */
  lemma LocatorIsShort(h: nat)
    requires h < MAX_TREE_HEADERS
    ensures |Heights(h, 0, 1)| <= 32 < MAX_LOCATOR_ENTRIES
  {
    LeadInIsShort(h, 0);
  }

  /** The first height at or below `bound`. */
  ghost function FirstAtMost(r: seq<nat>, bound: nat): nat {
    if |r| == 0 then 0 else if r[0] <= bound then r[0] else FirstAtMost(r[1..], bound)
  }

  /**
    The stride never exceeds the ground already covered, so the first height at or below a bound
    falls short of it by less than the start lies above it.
   */
  lemma {:induction false} StrideIsCovered(start: nat, h: nat, n: nat, step: nat, bound: nat)
    requires step > 0 && bound < h <= start && step <= start - h + 1
    ensures var g := FirstAtMost(Heights(h, n, step), bound);
            g <= bound && bound - g < start - bound
    decreases h
  {
    var next := if n + 1 > 10 then 2 * step else step;
    var h' := Monus(h, step);
    assert Heights(h, n, step)[1..] == Heights(h', n + 1, next);
    if bound < h' {
      StrideIsCovered(start, h', n + 1, next, bound);
    }
  }

  // ----- the locator over a tree ----------------------------------------------------------------

  /** The hashes at a list of heights of one node's chain. */
  ghost function HashesAt(s: State, from: nat, heights: seq<nat>): (r: seq<Hash>)
    requires Shaped(s) && from < |s.nodes|
    requires forall k :: 0 <= k < |heights| ==> heights[k] <= s.nodes[from].height
    ensures |r| == |heights|
    ensures forall k :: 0 <= k < |r| ==> r[k] == s.nodes[AncestorAt(s.nodes, from, heights[k])].hash
  {
    seq(|heights|, k requires 0 <= k < |heights| => s.nodes[AncestorAt(s.nodes, from, heights[k])].hash)
  }

  lemma {:induction false} HeightsAreBelow(h: nat, n: nat, step: nat)
    requires step > 0
    ensures forall k :: 0 <= k < |Heights(h, n, step)| ==> Heights(h, n, step)[k] <= h
    decreases h
  {
    if h > 0 {
      var next := if n + 1 > 10 then 2 * step else step;
      HeightsAreBelow(Monus(h, step), n + 1, next);
      var all, rest := Heights(h, n, step), Heights(Monus(h, step), n + 1, next);
      forall k | 0 <= k < |all| ensures all[k] <= h {
        assert k > 0 ==> all[k] == rest[k - 1];
      }
    }
  }

  ghost function LocatorOf(s: State, from: nat): seq<Hash>
    requires Shaped(s) && from < |s.nodes|
  {
    HeightsAreBelow(s.nodes[from].height, 0, 1);
    HashesAt(s, from, Heights(s.nodes[from].height, 0, 1))
  }

  /** The first hash that is on the active chain, or genesis. */
  ghost function FirstActive(s: State, locator: seq<Hash>): nat
    requires Shaped(s)
  {
    if |locator| == 0 then 0
    else if locator[0] in s.index && s.status[s.index[locator[0]]].IsConnected() then s.index[locator[0]]
    else FirstActive(s, locator[1..])
  }

  /** What any locator, ours or a peer's, leads to: the block of its first hash that is connected here. */
  lemma {:induction false} FirstActiveIs(s: State, locator: seq<Hash>)
    requires Shaped(s)
    ensures var g := FirstActive(s, locator);
            || (g == 0 && forall k :: 0 <= k < |locator| ==> !IsActiveHash(s, locator[k]))
            || exists k :: 0 <= k < |locator| && IsActiveHash(s, locator[k]) && g < |s.nodes|
                           && s.nodes[g].hash == locator[k] && forall j :: 0 <= j < k ==> !IsActiveHash(s, locator[j])
    decreases |locator|
  {
    hide Linked;
    if |locator| > 0 {
      if IsActiveHash(s, locator[0]) {
        assert s.nodes[FirstActive(s, locator)].hash == locator[0];
      } else {
        FirstActiveIs(s, locator[1..]);
        var g := FirstActive(s, locator);
        if k :| 0 <= k < |locator| - 1 && IsActiveHash(s, locator[1..][k]) && g < |s.nodes|
                && s.nodes[g].hash == locator[1..][k] && forall j :: 0 <= j < k ==> !IsActiveHash(s, locator[1..][j])
        {
          forall j | 0 <= j < k + 1 ensures !IsActiveHash(s, locator[j]) {
            if j > 0 {
              assert locator[j] == locator[1..][j - 1];
            }
          }
          assert IsActiveHash(s, locator[k + 1]);
        } else {
          forall k | 0 <= k < |locator| ensures !IsActiveHash(s, locator[k]) {
            if k > 0 {
              assert locator[k] == locator[1..][k - 1];
            }
          }
        }
      }
    }
  }

  ghost predicate IsActiveHash(s: State, hash: Hash)
    requires Shaped(s)
  {
    exists i :: 0 <= i < |s.nodes| && s.nodes[i].hash == hash && (s.status[i].Genesis? || s.status[i].Connected?)
  }

  /** An ancestor of `from` is active exactly when it is no higher than the fork. */
  lemma ActiveBelowFork(rules: Rules, s: State, from: nat, h: nat)
    requires Sound(rules, s) && from < |s.nodes| && h <= s.nodes[from].height
    ensures var f := ForkOf(s.nodes, from, s.tip);
            s.status[AncestorAt(s.nodes, from, h)].IsConnected() <==> h <= s.nodes[f].height
  {
    var f := ForkOf(s.nodes, from, s.tip);
    var a := AncestorAt(s.nodes, from, h);
    ForkOfIsFork(s.nodes, from, s.tip);
    OnPathOfAncestor(s.nodes, from, h);
    if h <= s.nodes[f].height {
      OnPathLinear(s.nodes, a, f, from);
      OnPathTrans(s.nodes, a, f, s.tip);
    }
  }

  /** Searching a locator's hashes is searching its heights for the fork's. */
  lemma {:induction false} SearchIsByHeight(rules: Rules, s: State, from: nat, heights: seq<nat>)
    requires Sound(rules, s) && from < |s.nodes| && |heights| > 0 && heights[|heights| - 1] == 0
    requires forall k :: 0 <= k < |heights| ==> heights[k] <= s.nodes[from].height
    ensures var f := ForkOf(s.nodes, from, s.tip);
            var g := FirstAtMost(heights, s.nodes[f].height);
            && g <= s.nodes[from].height
            && FirstActive(s, HashesAt(s, from, heights)) == AncestorAt(s.nodes, from, g)
    decreases |heights|
  {
    hide Verdicts, ActiveChain, IsBest, Built, DirtyList, ForkOf, AncestorAt, Linked;
    var a := AncestorAt(s.nodes, from, heights[0]);
    ActiveBelowFork(rules, s, from, heights[0]);
    assert s.index[s.nodes[a].hash] == a;
    if !s.status[a].IsConnected() {
      SearchIsByHeight(rules, s, from, heights[1..]);
      assert HashesAt(s, from, heights)[1..] == HashesAt(s, from, heights[1..]);
    }
  }

  /**
    The fork a locator leads to is an active ancestor of the node it was built from, never above
    the true fork; and when that node is not itself active, nearer to the true fork than it is.
   */
  lemma LocatorFindsFork(rules: Rules, s: State, from: nat)
    requires Sound(rules, s) && from < |s.nodes|
    ensures var f := ForkOf(s.nodes, from, s.tip);
            var g := FirstActive(s, LocatorOf(s, from));
            && g < |s.nodes| && OnPath(s.nodes, g, from) && s.status[g].IsConnected()
            && s.nodes[g].height <= s.nodes[f].height <= s.nodes[from].height
            && (s.status[from].IsConnected() ==> g == from)
            && (!s.status[from].IsConnected() ==>
                  s.nodes[f].height - s.nodes[g].height < s.nodes[from].height - s.nodes[f].height)
  {
    var f := ForkOf(s.nodes, from, s.tip);
    var h := s.nodes[from].height;
    var heights := Heights(h, 0, 1);
    HeightsDescend(h, 0, 1);
    HeightsAreBelow(h, 0, 1);
    SearchIsByHeight(rules, s, from, heights);
    var g := FirstAtMost(heights, s.nodes[f].height);
    ActiveBelowFork(rules, s, from, g);
    ActiveBelowFork(rules, s, from, h);
    OnPathOfAncestor(s.nodes, from, g);
    if s.nodes[f].height < h {
      StrideIsCovered(h, h, 0, 1, s.nodes[f].height);
    }
  }

  /** The push-and-stride loop builds the locator the heights define, within its length bound. */
  method BuildLocator(tree: HeaderTree, from: nat) returns (have: seq<Hash>)
    requires tree.Valid() && from < |tree.nodes|
    ensures have == LocatorOf(tree.View(), from)
    ensures 0 < |have| <= 32
  {
    hide Sound, Heights, HashesAt, Linked;
    ghost var s := tree.View();
    ghost var top := s.nodes[from].height;
    HeightBelowPosition(s.nodes, from);
    LocatorIsShort(top);
    HeightsAreBelow(top, 0, 1);
    ghost var all := Heights(top, 0, 1);
    have := [];
    var step: nat := 1;
    var walk: nat := from;
    LocatorStarts(s, from);
    while true
      invariant walk < |tree.nodes| && step > 0 && walk == AncestorAtOf(s, from, walk)
      invariant Striding(s, from, have, s.nodes[walk].height, step)
      invariant |have| < |all|
      decreases tree.nodes[walk].height
    {
      ghost var before := have;
      have := have + [tree.nodes[walk].hash];
      assert |have| <= MAX_LOCATOR_ENTRIES;
      if tree.nodes[walk].height == 0 {
        StridesEnd(s, from, before, walk, step);
        break;
      }
      var back := Monus(tree.nodes[walk].height, step);
      StridesOn(s, from, before, walk, step);
      var found := tree.Ancestor(walk, back);
      walk := found.value;
      if |have| > 10 {
        step := 2 * step;
      }
    }
  }

  /** The ancestor of `from` at another node's height. */
  ghost function AncestorAtOf(s: State, from: nat, walk: nat): nat
    requires Shaped(s) && from < |s.nodes| && walk < |s.nodes|
  {
    if s.nodes[walk].height <= s.nodes[from].height then AncestorAt(s.nodes, from, s.nodes[walk].height) else from
  }

  /** The hashes so far and the heights still to come are the whole locator. */
  ghost predicate Striding(s: State, from: nat, have: seq<Hash>, h: nat, step: nat)
    requires Shaped(s) && from < |s.nodes| && step > 0
  {
    var all := Heights(s.nodes[from].height, 0, 1);
    && |have| <= |all| && h <= s.nodes[from].height
    && have == LocatorOf(s, from)[..|have|]
    && all[|have|..] == Heights(h, |have|, step)
  }

  lemma LocatorStarts(s: State, from: nat)
    requires Shaped(s) && from < |s.nodes|
    ensures Striding(s, from, [], s.nodes[from].height, 1)
  {
    hide Heights, Linked;
  }

  lemma Strides(s: State, from: nat, have: seq<Hash>, walk: nat, step: nat)
    requires Shaped(s) && from < |s.nodes| && walk < |s.nodes| && step > 0
    requires walk == AncestorAtOf(s, from, walk) && Striding(s, from, have, s.nodes[walk].height, step)
    ensures |have| < |LocatorOf(s, from)|
    ensures have + [s.nodes[walk].hash] == LocatorOf(s, from)[..|have| + 1]
  {
    hide Heights, Linked;
    var all := Heights(s.nodes[from].height, 0, 1);
    assert all[|have|..][0] == s.nodes[walk].height;
  }

  lemma StridesOn(s: State, from: nat, have: seq<Hash>, walk: nat, step: nat)
    requires Shaped(s) && from < |s.nodes| && walk < |s.nodes| && step > 0 && s.nodes[walk].height > 0
    requires walk == AncestorAtOf(s, from, walk) && Striding(s, from, have, s.nodes[walk].height, step)
    ensures var back := Monus(s.nodes[walk].height, step);
            && AncestorAt(s.nodes, walk, back) == AncestorAt(s.nodes, from, back)
            && Striding(s, from, have + [s.nodes[walk].hash], back, if |have| + 1 > 10 then 2 * step else step)
            && |have| + 1 < |Heights(s.nodes[from].height, 0, 1)|
  {
    hide Linked, HashesAt;
    var h := s.nodes[walk].height;
    var back := Monus(h, step);
    Strides(s, from, have, walk, step);
    AncestorCompose(s.nodes, from, h, back);
    var all := Heights(s.nodes[from].height, 0, 1);
    assert all[|have| + 1..] == all[|have|..][1..];
  }

  lemma StridesEnd(s: State, from: nat, have: seq<Hash>, walk: nat, step: nat)
    requires Shaped(s) && from < |s.nodes| && walk < |s.nodes| && step > 0 && s.nodes[walk].height == 0
    requires walk == AncestorAtOf(s, from, walk) && Striding(s, from, have, s.nodes[walk].height, step)
    ensures have + [s.nodes[walk].hash] == LocatorOf(s, from)
  {
    hide Linked, HashesAt;
    Strides(s, from, have, walk, step);
    var all := Heights(s.nodes[from].height, 0, 1);
    assert |all[|have|..]| == 1;
  }

  /** The first hash of a peer's locator on the active chain, or genesis. */
  method ForkInActiveChain(tree: HeaderTree, locator: seq<Hash>) returns (fork: nat)
    requires tree.Valid() && |locator| <= MAX_LOCATOR_ITEMS
    ensures fork == FirstActive(tree.View(), locator)
  {
    hide Verdicts, ActiveChain, IsBest, DirtyList, Built, Linked;
    var k := 0;
    while k < |locator|
      invariant k <= |locator|
      invariant FirstActive(tree.View(), locator) == FirstActive(tree.View(), locator[k..])
    {
      if locator[k] in tree.index && tree.status[tree.index[locator[k]]].IsConnected() {
        return tree.index[locator[k]];
      }
      assert locator[k..][1..] == locator[k + 1..];
      k := k + 1;
    }
    fork := 0;
  }

  // ----- serving headers ------------------------------------------------------------------------

  /** The plain answer: forward along the active chain, ended by the count, the stop or the tip. */
  ghost function Forward(s: State, h: nat, stop: Hash, left: nat): seq<Header>
    requires Shaped(s)
    decreases left
  {
    if left == 0 || h > s.nodes[s.tip].height then []
    else
      var n := AncestorAt(s.nodes, s.tip, h);
      [s.nodes[n].header] + (if s.nodes[n].hash == stop then [] else Forward(s, h + 1, stop, left - 1))
  }

  /** The block of the active chain at a height, taken to be the tip above it. */
  ghost function ActiveAt(s: State, y: nat): (n: nat)
    requires Shaped(s)
    ensures n < |s.nodes|
  {
    if y <= s.nodes[s.tip].height then AncestorAt(s.nodes, s.tip, y) else s.tip
  }

  /**
    Consecutive headers of the active chain from a height on, that end where the count is reached, at
    the tip, or with the stop block, which is among them and nothing behind it.
   */
  ghost predicate Serves(s: State, h: nat, stop: Hash, left: nat, r: seq<Header>)
    requires Shaped(s)
  {
    var top := s.nodes[s.tip].height;
    && |r| <= left && (h <= top ==> h + |r| <= top + 1) && (h > top ==> r == [])
    && (forall y: nat :: h <= y < h + |r| ==> r[y - h] == s.nodes[ActiveAt(s, y)].header)
    && (forall y: nat :: h <= y < h + |r| - 1 ==> s.nodes[ActiveAt(s, y)].hash != stop)
    && (|r| < left && h + |r| <= top ==> |r| > 0 && s.nodes[ActiveAt(s, h + |r| - 1)].hash == stop)
  }

  lemma ServesMore(s: State, h: nat, stop: Hash, left: nat, rest: seq<Header>)
    requires Shaped(s) && h <= s.nodes[s.tip].height && left > 0
    requires if s.nodes[ActiveAt(s, h)].hash == stop then rest == [] else Serves(s, h + 1, stop, left - 1, rest)
    ensures Serves(s, h, stop, left, [s.nodes[ActiveAt(s, h)].header] + rest)
  {
    hide ActiveAt, Linked;
  }

  /** That is what the plain scan serves. */
  lemma {:induction false} ForwardServes(s: State, h: nat, stop: Hash, left: nat)
    requires Shaped(s)
    ensures Serves(s, h, stop, left, Forward(s, h, stop, left))
    decreases left
  {
    if left > 0 && h <= s.nodes[s.tip].height {
      hide Serves, Linked, AncestorAt;
      if s.nodes[ActiveAt(s, h)].hash == stop {
        ServesMore(s, h, stop, left, []);
      } else {
        ForwardServes(s, h + 1, stop, left - 1);
        ServesMore(s, h, stop, left, Forward(s, h + 1, stop, left - 1));
      }
    }
  }

  /** The headers of the active chain between two heights. */
  ghost function Span(s: State, first: nat, last: nat): (r: seq<Header>)
    requires Shaped(s) && last <= s.nodes[s.tip].height
    ensures first <= last ==> |r| == last - first + 1
    decreases last + 1 - first
  {
    if first > last then []
    else [s.nodes[AncestorAt(s.nodes, s.tip, first)].header] + Span(s, first + 1, last)
  }

  /** Where the answer ends: the tip, the count, or the stop block when it is on the way. */
  ghost function LastServed(s: State, first: nat, stop: Hash, max: nat): (last: nat)
    requires Shaped(s) && first <= s.nodes[s.tip].height && max > 0
    ensures first <= last <= s.nodes[s.tip].height
  {
    var tip := s.nodes[s.tip].height;
    var last := if first + max - 1 < tip then first + max - 1 else tip;
    if stop in s.index then
      var n := s.index[stop];
      if s.status[n].IsConnected() && first <= s.nodes[n].height < last then s.nodes[n].height else last
    else last
  }

  /** The clamped range is the plain scan. */
  lemma {:induction false} ForwardIsSpan(rules: Rules, s: State, first: nat, stop: Hash, max: nat)
    requires Sound(rules, s) && first <= s.nodes[s.tip].height && max > 0
    ensures Forward(s, first, stop, max) == Span(s, first, LastServed(s, first, stop, max))
    decreases max
  {
    hide Verdicts, ActiveChain, IsBest, Built, DirtyList, Linked, AncestorAt, LastServed;
    StopOnTheWay(rules, s, first, stop);
    LastServedStep(rules, s, first, stop, max);
    var n := AncestorAt(s.nodes, s.tip, first);
    var last := LastServed(s, first, stop, max);
    if s.nodes[n].hash == stop || max == 1 || first == s.nodes[s.tip].height {
      SpanEnds(s, first + 1, first);
      assert max > 1 && s.nodes[n].hash != stop ==> Forward(s, first + 1, stop, max - 1) == [];
    } else {
      ForwardIsSpan(rules, s, first + 1, stop, max - 1);
    }
  }

  lemma SpanEnds(s: State, first: nat, last: nat)
    requires Shaped(s) && last <= s.nodes[s.tip].height && last < first
    ensures Span(s, first, last) == []
  {
  }

  lemma LastServedStep(rules: Rules, s: State, first: nat, stop: Hash, max: nat)
    requires Sound(rules, s) && first <= s.nodes[s.tip].height && max > 0
    ensures var last := LastServed(s, first, stop, max);
            if s.nodes[AncestorAt(s.nodes, s.tip, first)].hash == stop || max == 1
               || first == s.nodes[s.tip].height
            then last == first
            else last == LastServed(s, first + 1, stop, max - 1)
  {
    hide Verdicts, ActiveChain, IsBest, Built, DirtyList, Linked, AncestorAt;
    StopOnTheWay(rules, s, first, stop);
  }

  /** The stop block is active at a height exactly when it is the active block there. */
  lemma StopOnTheWay(rules: Rules, s: State, h: nat, stop: Hash)
    requires Sound(rules, s) && h <= s.nodes[s.tip].height
    ensures s.nodes[AncestorAt(s.nodes, s.tip, h)].hash == stop
            <==> stop in s.index && s.status[s.index[stop]].IsConnected() && s.nodes[s.index[stop]].height == h
  {
    var a := AncestorAt(s.nodes, s.tip, h);
    OnPathOfAncestor(s.nodes, s.tip, h);
    assert s.index[s.nodes[a].hash] == a;
  }

  /** The answer to one `getheaders`: one walk back from the end of the range, turned around. */
  method HeadersAfter(tree: HeaderTree, locator: seq<Hash>, stop: Hash, max: nat) returns (headers: seq<Header>)
    requires tree.Valid() && |locator| <= MAX_LOCATOR_ITEMS && 0 < max <= MAX_HEADERS_ITEMS
    ensures var fork := FirstActive(tree.View(), locator);
            fork < |tree.nodes|
            && headers == Forward(tree.View(), tree.nodes[fork].height + 1, stop, max)
    ensures |headers| <= max
  {
    hide Verdicts, ActiveChain, IsBest, DirtyList, Built, AncestorAt, Linked, FirstActive, Span;
    ghost var s := tree.View();
    FirstActiveExists(s, locator);
    var fork := ForkInActiveChain(tree, locator);
    var first := tree.nodes[fork].height + 1;
    var tipHeight := tree.nodes[tree.tip].height;
    if first > tipHeight {
      return [];
    }
    var last := if first + max - 1 < tipHeight then first + max - 1 else tipHeight;
    if stop in tree.index {
      var node := tree.index[stop];
      if tree.status[node].IsConnected() && first <= tree.nodes[node].height < last {
        last := tree.nodes[node].height;
      }
    }
    ForwardIsSpan(tree.rules, s, first, stop, max);
    headers := WalkSpan(tree, first, last);
  }

  lemma {:induction false} FirstActiveExists(s: State, locator: seq<Hash>)
    requires Shaped(s)
    ensures FirstActive(s, locator) < |s.nodes|
    decreases |locator|
  {
    if |locator| > 0 {
      FirstActiveExists(s, locator[1..]);
    }
  }

  lemma SpanEndsWith(s: State, last: nat)
    requires Shaped(s) && last <= s.nodes[s.tip].height
    ensures Span(s, last, last) == [s.nodes[AncestorAt(s.nodes, s.tip, last)].header]
  {
    hide AncestorAt;
    assert Span(s, last + 1, last) == [];
  }

  lemma SpanGrows(s: State, first: nat, last: nat)
    requires Shaped(s) && first <= last <= s.nodes[s.tip].height
    ensures Span(s, first, last) == [s.nodes[AncestorAt(s.nodes, s.tip, first)].header] + Span(s, first + 1, last)
  {
    hide AncestorAt;
  }

  method WalkSpan(tree: HeaderTree, first: nat, last: nat) returns (headers: seq<Header>)
    requires tree.Valid() && first <= last <= tree.nodes[tree.tip].height
    ensures headers == Span(tree.View(), first, last)
  {
    hide Verdicts, ActiveChain, IsBest, DirtyList, Built, AncestorAt, Span;
    ghost var s := tree.View();
    var found := tree.Ancestor(tree.tip, last);
    var walk: nat := found.value;
    headers := [tree.nodes[walk].header];
    SpanEndsWith(s, last);
    while tree.nodes[walk].height > first
      invariant walk < |tree.nodes| && first <= tree.nodes[walk].height <= last
      invariant walk == AncestorAt(s.nodes, s.tip, tree.nodes[walk].height)
      invariant headers == Span(s, tree.nodes[walk].height, last)
      decreases walk
    {
      ghost var h := tree.nodes[walk].height;
      ParentIsNext(s.nodes, s.tip, h);
      SpanGrows(s, h - 1, last);
      walk := tree.nodes[walk].parent.value;
      headers := [tree.nodes[walk].header] + headers;
    }
  }
}
