/**
  The arena: a list of nodes in which a parent always comes first, with the paths, works, skip
  links and forks that follow from it. Nothing in a node changes once it is appended; the part of
  an entry that does change is the status, in `TreeState`.
 */
module Arena {
  import opened Bytes
  import opened SkipList

  /** A block header as it is hashed and stored. */
  type Header = h: seq<byte> | |h| == 80 witness seq(80, _ => 0)

  type Hash = seq<byte>

  function Previous(h: Header): Hash { h[4..36] }
  function Time(h: Header): nat { GetU32(h[68..72]) }
  function Bits(h: Header): nat { GetU32(h[72..76]) }

  /** A header put together from its six fields: 32-bit numbers least significant byte first, hashes as they are. */
  function HeaderOf(version: nat, previous: Hash, root: Hash, time: nat, bits: nat, nonce: nat): Header
    requires version < U32_LIMIT && time < U32_LIMIT && bits < U32_LIMIT && nonce < U32_LIMIT
    requires |previous| == 32 && |root| == 32
  {
    PutU32(version) + previous + root + PutU32(time) + PutU32(bits) + PutU32(nonce)
  }

  lemma FieldsComeBack(version: nat, previous: Hash, root: Hash, time: nat, bits: nat, nonce: nat)
    requires version < U32_LIMIT && time < U32_LIMIT && bits < U32_LIMIT && nonce < U32_LIMIT
    requires |previous| == 32 && |root| == 32
    ensures var h := HeaderOf(version, previous, root, time, bits, nonce);
            Previous(h) == previous && Time(h) == time && Bits(h) == bits
  {
    U32RoundTrip(time);
    U32RoundTrip(bits);
    hide PutU32, GetU32;
    var h := HeaderOf(version, previous, root, time, bits, nonce);
    assert h[4..36] == previous && h[68..72] == PutU32(time) && h[72..76] == PutU32(bits);
  }

  /**
    What the consensus crate contributes: the genesis header, the block hash, the work a target
    stands for, the context-free check, and the contextual one, which reads nothing but the
    headers from genesis to the parent.
   */
  datatype Rules = Rules(
    genesis: Header,
    hashOf: Header -> Hash,
    workOf: nat -> nat,
    checks: Header -> bool,
    accepts: (seq<Header>, Header) -> bool)

  datatype Node = Node(
    header: Header,
    hash: Hash,
    height: nat,
    chainwork: nat,
    parent: Option<nat>,
    skip: Option<nat>)

  ghost predicate NodeLinked(nodes: seq<Node>, i: nat)
    requires 0 < i < |nodes|
  {
    && nodes[i].parent.Some?
    && nodes[i].parent.value < i
    && nodes[i].height == nodes[nodes[i].parent.value].height + 1
  }

  /** A child follows its parent and is one higher. */
  ghost predicate Linked(nodes: seq<Node>) {
    && |nodes| > 0
    && nodes[0].parent == None
    && nodes[0].height == 0
    && forall i {:trigger NodeLinked(nodes, i)} :: 0 < i < |nodes| ==> NodeLinked(nodes, i)
  }

  ghost function Up(nodes: seq<Node>, i: nat): (p: nat)
    requires Linked(nodes) && 0 < i < |nodes|
    ensures p < i && nodes[i].parent == Some(p)
    ensures nodes[i].height == nodes[p].height + 1
  {
    assert NodeLinked(nodes, i);
    nodes[i].parent.value
  }

  /** The ancestor of `i` at height `h`, by parent links alone. */
  ghost function AncestorAt(nodes: seq<Node>, i: nat, h: nat): (a: nat)
    requires Linked(nodes) && i < |nodes| && h <= nodes[i].height
    ensures a <= i && nodes[a].height == h
    decreases i
  {
    if nodes[i].height == h then i else AncestorAt(nodes, Up(nodes, i), h)
  }

  /** `a` is `i` or one of its ancestors. */
  ghost predicate OnPath(nodes: seq<Node>, a: nat, i: nat)
    requires Linked(nodes) && i < |nodes|
  {
    a < |nodes| && nodes[a].height <= nodes[i].height && AncestorAt(nodes, i, nodes[a].height) == a
  }

  /** The headers from genesis to `i`: what a context is assembled from. */
  ghost function Path(nodes: seq<Node>, i: nat): seq<Header>
    requires Linked(nodes) && i < |nodes|
    decreases i
  {
    (if i == 0 then [] else Path(nodes, Up(nodes, i))) + [nodes[i].header]
  }

  ghost predicate NodeBuilt(rules: Rules, nodes: seq<Node>, i: nat)
    requires Linked(nodes) && 0 < i < |nodes|
  {
    var p := Up(nodes, i);
    var node := nodes[i];
    && SkipHeight(node.height) <= nodes[p].height
    && node.skip == Some(AncestorAt(nodes, p, SkipHeight(node.height)))
    && node.chainwork == nodes[p].chainwork + rules.workOf(Bits(node.header))
    && node.hash == rules.hashOf(node.header)
    && Previous(node.header) == nodes[p].hash
    && rules.checks(node.header)
  }

  ghost function GenesisNode(rules: Rules): Node {
    Node(rules.genesis, rules.hashOf(rules.genesis), 0, rules.workOf(Bits(rules.genesis)), None, None)
  }

  /** Every node's derived fields are the ones its header and its parent give it. */
  ghost predicate Built(rules: Rules, nodes: seq<Node>) {
    && Linked(nodes)
    && nodes[0] == GenesisNode(rules)
    && forall i {:trigger NodeBuilt(rules, nodes, i)} ::
         0 < i < |nodes| ==> NodeBuilt(rules, nodes, i)
  }

  /** The node `insert` appends under `parent`. */
  ghost function Child(rules: Rules, nodes: seq<Node>, parent: nat, header: Header): Node
    requires Linked(nodes) && parent < |nodes|
  {
    var height := nodes[parent].height + 1;
    SkipHeightIsLanding(height);
    Node(header, rules.hashOf(header), height,
         nodes[parent].chainwork + rules.workOf(Bits(header)),
         Some(parent),
         Some(AncestorAt(nodes, parent, SkipHeight(height))))
  }

  // ----- walks ---------------------------------------------------------------------------

  lemma {:induction false} HeightBelowPosition(nodes: seq<Node>, i: nat)
    requires Linked(nodes) && i < |nodes|
    ensures nodes[i].height <= i
    decreases i
  {
    if i > 0 {
      HeightBelowPosition(nodes, Up(nodes, i));
    }
  }

  /** Going down in two legs is going down in one. */
  lemma {:induction false} AncestorCompose(nodes: seq<Node>, i: nat, mid: nat, h: nat)
    requires Linked(nodes) && i < |nodes| && h <= mid <= nodes[i].height
    ensures AncestorAt(nodes, AncestorAt(nodes, i, mid), h) == AncestorAt(nodes, i, h)
    decreases i
  {
    if nodes[i].height != mid {
      AncestorCompose(nodes, Up(nodes, i), mid, h);
    }
  }

  /** One step down a path is the next ancestor on it. */
  lemma ParentIsNext(nodes: seq<Node>, best: nat, h: nat)
    requires Linked(nodes) && best < |nodes| && 0 < h <= nodes[best].height
    ensures var node := AncestorAt(nodes, best, h);
            node > 0 && Up(nodes, node) == AncestorAt(nodes, best, h - 1)
  {
    AncestorCompose(nodes, best, h, h - 1);
    var node := AncestorAt(nodes, best, h);
    assert AncestorAt(nodes, node, h - 1) == Up(nodes, node);
  }

  lemma {:induction false} AncestorExtends(nodes: seq<Node>, more: seq<Node>, i: nat, h: nat)
    requires Linked(nodes) && Linked(more) && nodes <= more
    requires i < |nodes| && h <= nodes[i].height
    ensures AncestorAt(more, i, h) == AncestorAt(nodes, i, h)
    decreases i
  {
    if nodes[i].height != h {
      AncestorExtends(nodes, more, Up(nodes, i), h);
    }
  }

  lemma {:induction false} PathExtends(nodes: seq<Node>, more: seq<Node>, i: nat)
    requires Linked(nodes) && Linked(more) && nodes <= more && i < |nodes|
    ensures Path(more, i) == Path(nodes, i)
    decreases i
  {
    if i > 0 {
      PathExtends(nodes, more, Up(nodes, i));
    }
  }

  lemma OnPathUp(nodes: seq<Node>, a: nat, i: nat)
    requires Linked(nodes) && 0 < i < |nodes|
    ensures OnPath(nodes, a, i) <==> a == i || OnPath(nodes, a, Up(nodes, i))
  {
    if a < |nodes| && nodes[a].height == nodes[i].height {
      assert AncestorAt(nodes, i, nodes[a].height) == i;
      if OnPath(nodes, a, Up(nodes, i)) {
        assert false;
      }
    }
  }

  lemma OnPathTrans(nodes: seq<Node>, a: nat, b: nat, c: nat)
    requires Linked(nodes) && b < |nodes| && c < |nodes|
    requires OnPath(nodes, a, b) && OnPath(nodes, b, c)
    ensures OnPath(nodes, a, c)
  {
    AncestorCompose(nodes, c, nodes[b].height, nodes[a].height);
  }

  /** Two ancestors of one node at one height are one node; otherwise the lower is above. */
  lemma OnPathLinear(nodes: seq<Node>, a: nat, b: nat, c: nat)
    requires Linked(nodes) && c < |nodes| && OnPath(nodes, a, c) && OnPath(nodes, b, c)
    requires nodes[a].height <= nodes[b].height
    ensures OnPath(nodes, a, b)
  {
    AncestorCompose(nodes, c, nodes[b].height, nodes[a].height);
  }

  lemma OnPathOfAncestor(nodes: seq<Node>, i: nat, h: nat)
    requires Linked(nodes) && i < |nodes| && h <= nodes[i].height
    ensures OnPath(nodes, AncestorAt(nodes, i, h), i)
  {
  }

  lemma {:induction false} GenesisOnPath(nodes: seq<Node>, i: nat)
    requires Linked(nodes) && i < |nodes|
    ensures OnPath(nodes, 0, i)
    decreases i
  {
    if i > 0 {
      GenesisOnPath(nodes, Up(nodes, i));
      OnPathUp(nodes, 0, i);
    }
  }

  /** Appending a child keeps everything the arena already said. */
  lemma ChildKeepsBuilt(rules: Rules, nodes: seq<Node>, parent: nat, header: Header)
    requires Built(rules, nodes) && parent < |nodes|
    requires Previous(header) == nodes[parent].hash && rules.checks(header)
    ensures Built(rules, nodes + [Child(rules, nodes, parent, header)])
  {
    var n := |nodes|;
    var more := nodes + [Child(rules, nodes, parent, header)];
    assert Linked(more) by {
      forall i | 0 < i < |more| ensures NodeLinked(more, i) {
        if i < n {
          assert NodeLinked(nodes, i);
        }
      }
    }
    forall i | 0 < i < |more| ensures NodeBuilt(rules, more, i) {
      var height := more[i].height;
      SkipHeightIsLanding(height);
      if i < n {
        assert NodeBuilt(rules, nodes, i);
        AncestorExtends(nodes, more, Up(nodes, i), SkipHeight(height));
      } else {
        AncestorExtends(nodes, more, parent, SkipHeight(height));
      }
    }
  }

  /** The walk by skip pointers never leaves the parent-link path. */
  lemma SkipStaysOnPath(rules: Rules, nodes: seq<Node>, i: nat, h: nat)
    requires Built(rules, nodes) && 0 < i < |nodes| && h < nodes[i].height
    ensures NodeBuilt(rules, nodes, i)
    ensures nodes[i].skip.Some? && nodes[i].skip.value < i
    ensures nodes[nodes[i].skip.value].height == SkipHeight(nodes[i].height)
    ensures h <= SkipHeight(nodes[i].height)
            ==> AncestorAt(nodes, nodes[i].skip.value, h) == AncestorAt(nodes, i, h)
    ensures AncestorAt(nodes, Up(nodes, i), h) == AncestorAt(nodes, i, h)
  {
    assert NodeBuilt(rules, nodes, i);
    if h <= SkipHeight(nodes[i].height) {
      AncestorCompose(nodes, Up(nodes, i), SkipHeight(nodes[i].height), h);
    }
  }

  /** Chain work is the sum of the block works on the path. */
  ghost function PathWork(rules: Rules, path: seq<Header>): nat {
    if |path| == 0 then 0
    else PathWork(rules, path[..|path| - 1]) + rules.workOf(Bits(path[|path| - 1]))
  }

  lemma PathWorkStep(rules: Rules, path: seq<Header>, header: Header)
    ensures PathWork(rules, path + [header]) == PathWork(rules, path) + rules.workOf(Bits(header))
  {
    assert (path + [header])[..|path|] == path;
  }

  lemma {:induction false} ChainworkIsPathWork(rules: Rules, nodes: seq<Node>, i: nat)
    requires Built(rules, nodes) && i < |nodes|
    ensures nodes[i].chainwork == PathWork(rules, Path(nodes, i))
    ensures |Path(nodes, i)| == nodes[i].height + 1
    decreases i
  {
    hide SkipHeight, AncestorAt, PathWork, Bits;
    if i == 0 {
      PathWorkStep(rules, [], nodes[0].header);
      GenesisPathWork(rules);
    } else {
      assert NodeBuilt(rules, nodes, i);
      ChainworkIsPathWork(rules, nodes, Up(nodes, i));
      PathWorkStep(rules, Path(nodes, Up(nodes, i)), nodes[i].header);
    }
  }

  lemma GenesisPathWork(rules: Rules)
    ensures PathWork(rules, []) == 0
  {
  }

  // ----- the fork ---------------------------------------------------------------------------

  /** `f` is the last block two nodes share. */
  ghost predicate IsFork(nodes: seq<Node>, a: nat, b: nat, f: nat)
    requires Linked(nodes) && a < |nodes| && b < |nodes|
  {
    && OnPath(nodes, f, a) && OnPath(nodes, f, b)
    && forall c: nat :: OnPath(nodes, c, a) && OnPath(nodes, c, b) ==> nodes[c].height <= nodes[f].height
  }

  ghost function ForkOf(nodes: seq<Node>, a: nat, b: nat): (f: nat)
    requires Linked(nodes) && a < |nodes| && b < |nodes|
    ensures OnPath(nodes, f, a) && OnPath(nodes, f, b)
    decreases a
  {
    if OnPath(nodes, a, b) then a
    else
      GenesisOnPath(nodes, b);
      var f := ForkOf(nodes, Up(nodes, a), b);
      OnPathUp(nodes, f, a);
      f
  }

  lemma {:induction false} ForkOfIsFork(nodes: seq<Node>, a: nat, b: nat)
    requires Linked(nodes) && a < |nodes| && b < |nodes|
    ensures IsFork(nodes, a, b, ForkOf(nodes, a, b))
    decreases a
  {
    var f := ForkOf(nodes, a, b);
    if !OnPath(nodes, a, b) {
      GenesisOnPath(nodes, b);
      ForkOfIsFork(nodes, Up(nodes, a), b);
      forall c: nat | OnPath(nodes, c, a) && OnPath(nodes, c, b)
        ensures nodes[c].height <= nodes[f].height
      {
        OnPathUp(nodes, c, a);
      }
    }
  }

  lemma ForkIsUnique(nodes: seq<Node>, a: nat, b: nat, f: nat, g: nat)
    requires Linked(nodes) && a < |nodes| && b < |nodes|
    requires IsFork(nodes, a, b, f) && IsFork(nodes, a, b, g)
    ensures f == g
  {
  }
}
