/**
  The header tree as the chain thread owns it: one object whose methods update it in place, each
  proved to do to the fields what the corresponding function of `TreeState` says.
 */
module HeaderTrees {
  import opened Bytes
  import opened SkipList
  import opened Arena
  import TS = TreeState

  /**
    The sum of two chain works by the byte ripple-carry adder. The requirement is the adder's
    own assertion that nothing is carried out of 256 bits.
   */
  method AddWork(total: nat, block: nat) returns (sum: nat)
    requires total + block < Pow256(32)
    ensures sum == total + block
  {
    hide *;
    var left, right := ToBE(total, 32), ToBE(block, 32);
    BigEndianRoundTrip(total, 32);
    BigEndianRoundTrip(block, 32);
    var bytes: seq<byte> := [];
    var carry: nat := 0;
    var i := 32;
    AddsNothing();
    assert left[32..] == [] && right[32..] == [];
    while i > 0
      invariant 0 <= i <= 32 && |bytes| == 32 - i && carry <= 1
      invariant Adds(left[i..], right[i..], bytes, carry)
    {
      i := i - 1;
      var value := left[i] + right[i] + carry;
      assert left[i..][1..] == left[i + 1..] && right[i..][1..] == right[i + 1..];
      AddsOneMore(left[i..], right[i..], bytes, carry, value % 256, value / 256);
      bytes := [value % 256] + bytes;
      carry := value / 256;
    }
    assert left[0..] == left && right[0..] == right;
    AddsUp(left, right, bytes, carry);
    sum := FromBE(bytes);
  }

  /** `left + right` is `bytes` with `carry` above it. */
  ghost predicate Adds(left: seq<byte>, right: seq<byte>, bytes: seq<byte>, carry: nat) {
    && |left| == |right| == |bytes|
    && FromBE(left) + FromBE(right) == FromBE(bytes) + carry * Pow256(|bytes|)
  }

  lemma AddsNothing()
    ensures Adds([], [], [], 0)
  {
  }

  lemma AddsUp(left: seq<byte>, right: seq<byte>, bytes: seq<byte>, carry: nat)
    requires Adds(left, right, bytes, carry) && FromBE(left) + FromBE(right) < Pow256(|bytes|)
    ensures FromBE(bytes) == FromBE(left) + FromBE(right)
  {
    hide FromBE, Pow256;
    NoCarry(carry, Pow256(|bytes|), FromBE(bytes));
  }

  lemma NoCarry(carry: nat, weight: nat, rest: nat)
    requires rest + carry * weight < weight
    ensures carry == 0
  {
    if carry > 0 {
      AtLeastOnce(carry, weight);
    }
  }

  lemma AtLeastOnce(count: nat, weight: nat)
    requires count > 0
    ensures count * weight >= weight
  {
  }

  /** One position of the adder: what the tails said, said one byte further up. */
  lemma AddsOneMore(left: seq<byte>, right: seq<byte>, tail: seq<byte>, carry: nat, low: byte, high: nat)
    requires |left| == |right| == |tail| + 1
    requires left[0] + right[0] + carry == low + 256 * high
    requires Adds(left[1..], right[1..], tail, carry)
    ensures Adds(left, right, [low] + tail, high)
  {
    var w := Pow256(|tail|);
    FromBECons(left[0], left[1..]);
    FromBECons(right[0], right[1..]);
    FromBECons(low, tail);
    assert left == [left[0]] + left[1..] && right == [right[0]] + right[1..];
    assert Pow256(|tail| + 1) == 256 * w;
    assert |[low] + tail| == |tail| + 1;
    hide FromBE, Pow256;
    CarryStep(left[0], right[0], carry, low, high, w);
  }

  lemma CarryStep(left: nat, right: nat, carry: nat, low: nat, high: nat, weight: nat)
    requires left + right + carry == low + 256 * high
    ensures left * weight + right * weight + carry * weight == low * weight + high * (256 * weight)
  {
    calc {
      left * weight + right * weight + carry * weight;
      (left + right + carry) * weight;
      (low + 256 * high) * weight;
      low * weight + high * (256 * weight);
    }
  }

  /** Up to where the pass starts, nothing is inherited. */
  lemma NotYetInherited(nodes: seq<Node>, status: seq<TS.Status>, from: nat, i: nat)
    requires Linked(nodes) && |status| == |nodes| && i < |nodes|
    ensures i <= from ==> TS.Inherited(nodes, status, from, i) == status[i]
  {
  }

  class HeaderTree {
    const rules: Rules
    const cap: nat
    var nodes: seq<Node>
    var status: seq<TS.Status>
    var flagged: seq<bool>
    var index: map<Hash, nat>
    var tip: nat
    var best: nat
    var dirty: seq<nat>

    ghost function View(): TS.State
      reads this
    {
      TS.State(nodes, status, flagged, index, tip, best, dirty)
    }

    ghost predicate Valid()
      reads this
    {
      TS.Sound(rules, View()) && TS.Shaped(View()) && Standing()
    }

    /** What the walks need: the derived fields are right and the cap holds. */
    ghost predicate Standing()
      reads this
    {
      Built(rules, nodes) && |nodes| <= cap <= MAX_TREE_HEADERS
    }

    constructor (rules: Rules, cap: nat)
      requires 0 < cap <= MAX_TREE_HEADERS
      ensures Valid() && View() == TS.Start(rules) && this.rules == rules && this.cap == cap
    {
      var genesis := rules.genesis;
      var hash := rules.hashOf(genesis);
      this.rules, this.cap := rules, cap;
      nodes := [Node(genesis, hash, 0, rules.workOf(Bits(genesis)), None, None)];
      status, flagged, index := [TS.Genesis], [false], map[hash := 0];
      tip, best, dirty := 0, 0, [];
      new;
      TS.StartIsSound(rules);
    }

    /** The ancestor at a height by the skip list: the one the parent links lead to. */
    method Ancestor(node: nat, height: nat) returns (found: Option<nat>)
      requires Standing() && node < |nodes|
      ensures height > nodes[node].height ==> found == None
      ensures height <= nodes[node].height ==> found == Some(AncestorAt(nodes, node, height))
    {
      if height > nodes[node].height {
        return None;
      }
      var walk := WalkBack(node, height);
      found := Some(walk);
    }

    method WalkBack(node: nat, height: nat) returns (walk: nat)
      requires Standing() && node < |nodes| && height <= nodes[node].height
      ensures walk == AncestorAt(nodes, node, height)
    {
      HeightBelowPosition(nodes, node);
      WalkIsBounded(nodes[node].height, height);
      walk := node;
      var walkHeight := nodes[node].height;
      var steps: nat := 0;
      while walkHeight > height
        invariant walk < |nodes| && nodes[walk].height == walkHeight >= height
        invariant AncestorAt(nodes, walk, height) == AncestorAt(nodes, node, height)
        invariant steps + Steps(walkHeight, height) == Steps(nodes[node].height, height)
        decreases walkHeight
      {
        assert walk > 0;
        SkipStaysOnPath(rules, nodes, walk, height);
        SkipHeightIsLanding(walkHeight);
        steps := steps + 1;
        assert steps <= MAX_ANCESTOR_STEPS;
        if FollowsSkip(walkHeight, height) {
          walk := nodes[walk].skip.value;
          walkHeight := SkipHeight(walkHeight);
        } else {
          walk := nodes[walk].parent.value;
          walkHeight := walkHeight - 1;
        }
      }
    }

    /** The headers a context is assembled from, gathered by parent links. */
    method HeadersTo(node: nat) returns (path: seq<Header>)
      requires Standing() && node < |nodes|
      ensures path == Path(nodes, node)
    {
      path := [];
      var walk: Option<nat> := Some(node);
      while walk.Some?
        invariant walk.Some? ==> walk.value < |nodes| && Path(nodes, node) == Path(nodes, walk.value) + path
        invariant walk.None? ==> Path(nodes, node) == path
        decreases if walk.Some? then walk.value + 1 else 0
      {
        var current := walk.value;
        if current > 0 {
          assert Path(nodes, current) == Path(nodes, Up(nodes, current)) + [nodes[current].header];
        }
        path := [nodes[current].header] + path;
        walk := nodes[current].parent;
      }
    }

    /** The entry a header gets: every derived field from its parent, the skip by the walk. */
    method NewNode(header: Header, parent: nat) returns (node: Node)
      requires Standing() && parent < |nodes|
      requires nodes[parent].chainwork + rules.workOf(Bits(header)) < Pow256(32)
      ensures node == Child(rules, nodes, parent, header)
    {
      hide Pow256, SkipHeight, AncestorAt;
      var height := nodes[parent].height + 1;
      var chainwork := AddWork(nodes[parent].chainwork, rules.workOf(Bits(header)));
      SkipHeightIsLanding(height);
      var skip := Ancestor(parent, SkipHeight(height));
      node := Node(header, rules.hashOf(header), height, chainwork, Some(parent), skip);
    }

    method Insert(header: Header, parent: nat, state: TS.Status) returns (stored: Option<nat>)
      requires Standing() && parent < |nodes| && best < |nodes|
      requires |nodes| < cap ==> nodes[parent].chainwork + rules.workOf(Bits(header)) < Pow256(32)
      modifies this
      ensures |nodes| <= cap
      ensures old(|nodes|) >= cap ==> stored == None && View() == old(View())
      ensures old(|nodes|) < cap ==>
                stored == Some(old(|nodes|)) && View() == TS.Insert(rules, old(View()), header, parent, state)
    {
      hide Pow256, Child, Built;
      if |nodes| >= cap {
        return None;
      }
      var node := NewNode(header, parent);
      var position := |nodes|;
      if !state.IsTerminal() && node.chainwork > nodes[best].chainwork {
        best := position;
      }
      nodes := nodes + [node];
      status := status + [state];
      flagged := flagged + [true];
      dirty := dirty + [position];
      index := index[node.hash := position];
      stored := Some(position);
    }

    /** The verdict on a header, in the source's order: duplicate, check, parent, context, clock. */
    method Judge(header: Header, now: nat) returns (outcome: TS.Outcome)
      requires Valid()
      ensures outcome == TS.Judge(rules, View(), header, now)
    {
      hide TS.Verdicts, TS.ActiveChain, TS.IsBest, TS.DirtyList, Path, Time;
      var hash := rules.hashOf(header);
      if hash in index {
        return TS.Duplicate(index[hash]);
      }
      if !rules.checks(header) {
        return TS.RefusedByCheck;
      }
      if Previous(header) !in index {
        return TS.UnknownParent;
      }
      var parent := index[Previous(header)];
      var culprit := TS.CulpritOf(nodes[parent].hash, status[parent]);
      if culprit.Some? {
        return TS.StoredInvalidAncestor(|nodes|, culprit.value);
      }
      var path := HeadersTo(parent);
      if !rules.accepts(path, header) {
        return TS.StoredInvalid(|nodes|);
      }
      if Time(header) > TS.FutureLimit(now) {
        return TS.TooFarInFuture;
      }
      return TS.First(|nodes|);
    }

    /** Judge a header and store it when the verdict is one that is stored. */
    method Accept(header: Header, now: nat) returns (outcome: TS.Outcome)
      requires Valid()
      requires TS.StoredAs(TS.Judge(rules, View(), header, now)).Some? && |nodes| < cap
               && Previous(header) in index ==>
                 nodes[index[Previous(header)]].chainwork + rules.workOf(Bits(header)) < Pow256(32)
      modifies this
      ensures Valid()
      ensures (View(), outcome) == TS.Accept(rules, cap, old(View()), header, now)
    {
      TS.AcceptIsSound(rules, cap, View(), header, now);
      hide TS.Verdicts, TS.ActiveChain, TS.IsBest, TS.DirtyList, TS.Insert, Pow256, Path, Time, Bits;
      outcome := Judge(header, now);
      var stored := TS.StoredAs(outcome);
      if stored.Some? {
        var node := Insert(header, index[Previous(header)], stored.value);
        if node.None? {
          outcome := TS.TreeFull;
        }
      }
    }

    method MarkDirty(node: nat)
      requires node < |flagged|
      modifies this`flagged, this`dirty
      ensures View() == TS.MarkDirty(old(View()), node)
    {
      if flagged[node] {
        return;
      }
      flagged := flagged[node := true];
      dirty := dirty + [node];
    }

    method BlockChecked(node: nat, location: TS.Location)
      requires Valid() && TS.CanCheck(View(), node)
      modifies this
      ensures Valid() && View() == TS.Check(old(View()), node, location)
    {
      TS.CheckIsSound(rules, View(), node, location);
      status := status[node := TS.BlockChecked(location)];
      MarkDirty(node);
    }

    method Connected(node: nat, undo: TS.UndoLocation)
      requires Valid() && TS.CanConnect(View(), node)
      modifies this
      ensures Valid() && View() == TS.ConnectBlock(old(View()), node, undo)
    {
      TS.ConnectIsSound(rules, View(), node, undo);
      status := status[node := TS.Connected(status[node].location, undo)];
      MarkDirty(node);
      tip := node;
    }

    method Disconnected(node: nat)
      requires Valid() && TS.CanDisconnect(View(), node)
      modifies this
      ensures Valid() && View() == TS.DisconnectBlock(old(View()), node)
    {
      TS.DisconnectIsSound(rules, View(), node);
      var parent := nodes[node].parent.value;
      status := status[node := TS.BlockChecked(status[node].location)];
      MarkDirty(node);
      tip := parent;
    }

    /** Give an entry its own verdict, then run the pass that hands it down and rescans for the best. */
    method Invalidate(node: nat, invalidity: TS.Invalidity)
      requires Valid() && TS.CanRefuse(View(), node)
      modifies this
      ensures View() == TS.Invalidate(old(View()), node, invalidity)
      ensures Valid() <==> invalidity != TS.Refused(TS.AcceptHeader)
    {
      ghost var before := View();
      TS.InvalidateIsSoundIff(rules, before, node, invalidity);
      status := status[node := TS.Invalid(invalidity)];
      MarkDirty(node);
      PropagateAndReselect(before, node, invalidity);
    }

    /** One ascending pass that hands verdicts down and picks the most-work header. */
    method PropagateAndReselect(ghost before: TS.State, from: nat, invalidity: TS.Invalidity)
      requires TS.Sound(rules, before) && TS.CanRefuse(before, from)
      requires nodes == before.nodes && status == before.status[from := TS.Invalid(invalidity)]
      modifies this`status, this`best
      ensures status == TS.Propagated(nodes, old(status), from)
      ensures best == TS.BestUpTo(nodes, status, |nodes|)
    {
      hide TS.ActiveChain, TS.Verdicts, TS.IsBest, TS.DirtyList, Built, TS.Inherited, NodeLinked;
      ghost var marked := status;
      ghost var final := TS.Propagated(nodes, marked, from);
      var chosen, chosenWork := 0, nodes[0].chainwork;
      var position := 0;
      while position < |nodes|
        invariant position <= |nodes| == |status|
        invariant forall j :: 0 <= j < position ==> status[j] == final[j]
        invariant forall j :: position <= j < |nodes| ==> status[j] == marked[j]
        invariant chosen == TS.BestUpTo(nodes, final, position)
        invariant chosenWork == nodes[chosen].chainwork
      {
        assert final[position] == TS.Inherited(nodes, marked, from, position);
        NotYetInherited(nodes, marked, from, position);
        if position > from {
          Inherit(before, marked, from, invalidity, position);
        }
        if !status[position].IsTerminal() && nodes[position].chainwork > chosenWork {
          chosen, chosenWork := position, nodes[position].chainwork;
        }
        position := position + 1;
      }
      assert status == final;
      best := chosen;
    }

    /** One step of the pass: the verdict above is taken over, which no connected entry can meet. */
    method Inherit(ghost before: TS.State, ghost marked: seq<TS.Status>, ghost from: nat,
                   ghost invalidity: TS.Invalidity, node: nat)
      requires TS.Sound(rules, before) && TS.CanRefuse(before, from)
      requires nodes == before.nodes && marked == before.status[from := TS.Invalid(invalidity)]
      requires from < node < |nodes| == |status|
      requires forall j :: 0 <= j < node ==> status[j] == TS.Inherited(nodes, marked, from, j)
      requires status[node] == marked[node]
      modifies this`status
      ensures status == old(status)[node := TS.Inherited(nodes, marked, from, node)]
    {
      ghost var p := Up(nodes, node);
      if status[node].IsTerminal() {
        return;
      }
      var parent := nodes[node].parent.value;
      var culprit := TS.CulpritOf(nodes[parent].hash, status[parent]);
      if culprit.None? {
        return;
      }
      assert !status[node].IsConnected() by {
        if status[node].IsConnected() {
          TS.ActiveIsUntouched(rules, before, from, invalidity, node);
        }
      }
      status := status[node := TS.InvalidAncestor(culprit.value)];
    }

    method ClearDirty()
      requires Valid()
      modifies this`flagged, this`dirty
      ensures Valid() && View() == TS.ClearDirty(old(View()))
    {
      TS.ClearDirtyIsSound(rules, View());
      ghost var before := View();
      var position := 0;
      while position < |dirty|
        invariant position <= |dirty| && |flagged| == |nodes|
        invariant dirty == before.dirty
        invariant forall i :: 0 <= i < |flagged| ==>
                    (flagged[i] <==> before.flagged[i] && i !in dirty[..position])
      {
        flagged := flagged[dirty[position] := false];
        assert dirty[..position + 1] == dirty[..position] + [dirty[position]];
        position := position + 1;
      }
      assert dirty[..position] == dirty;
      assert flagged == TS.ClearDirty(before).flagged;
      dirty := [];
    }
  }
}
