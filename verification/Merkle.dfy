/**
  The block merkle tree with its mutation detector.

  The pair hash is a parameter. The rounds are proved to come to the tree defined from the top down,
  and the flag to be set exactly where two equal hashes make a pair. That is why the detector is
  there: without a flag two lists of leaves with one root are one list, the repetitions that keep the
  root are flagged, and leaves that all differ are not.
 */
module Merkle {
  import opened Numbers

  const MERKLE_LEVELS_MAX: nat := 32

  datatype MerkleRoot<T> = MerkleRoot(root: T, mutated: bool)

  // ----- the tree -------------------------------------------------------------------------------

  /** The level above: pairs hashed together, an odd tail with itself. */
  function Parents<T>(pair: (T, T) -> T, level: seq<T>): (r: seq<T>)
    ensures |r| == (|level| + 1) / 2
    ensures forall i :: 0 <= i < |r| ==> r[i] == pair(level[2 * i], Right(level, i))
  {
    seq((|level| + 1) / 2, i requires 0 <= i < (|level| + 1) / 2 => pair(level[2 * i], Right(level, i)))
  }

  /** The right element of a pair, which is the left one again at an odd tail. */
  function Right<T>(level: seq<T>, i: nat): T
    requires 2 * i < |level|
  {
    if 2 * i + 1 < |level| then level[2 * i + 1] else level[2 * i]
  }

  ghost predicate Twins<T>(level: seq<T>) {
    exists i :: 0 <= i && 2 * i + 1 < |level| && TwinAt(level, i)
  }

  predicate TwinAt<T(==)>(level: seq<T>, i: nat)
    requires 2 * i + 1 < |level|
  {
    level[2 * i] == level[2 * i + 1]
  }

  ghost function Root<T>(pair: (T, T) -> T, zero: T, level: seq<T>): T
    decreases |level|
  {
    if |level| == 0 then zero
    else if |level| == 1 then level[0]
    else Root(pair, zero, Parents(pair, level))
  }

  ghost predicate Mutated<T>(pair: (T, T) -> T, level: seq<T>)
    decreases |level|
  {
    |level| > 1 && (Twins(level) || Mutated(pair, Parents(pair, level)))
  }

  /** How many rounds bring a level of `n` down to one. */
  ghost function Rounds(n: nat): nat {
    if n <= 1 then 0 else 1 + Rounds((n + 1) / 2)
  }

  /** A number of rounds suffices exactly for the levels it can halve away. */
  lemma {:induction false} RoundsSuffice(n: nat, k: nat)
    ensures Rounds(n) <= k <==> n <= Power2(k)
    decreases n
  {
    if n > 1 {
      if k == 0 {
      } else {
        RoundsSuffice((n + 1) / 2, k - 1);
      }
    } else {
      Power2Positive(k);
    }
  }

  lemma {:induction false} Power2Positive(k: nat)
    ensures Power2(k) >= 1
  {
    if k > 0 {
      Power2Positive(k - 1);
    }
  }

  // ----- one root, one list -----------------------------------------------------------------------

  ghost predicate Injective<T(!new)>(pair: (T, T) -> T) {
    forall a, b, c, d :: pair(a, b) == pair(c, d) ==> a == c && b == d
  }

  ghost predicate IsPair<T(!new)>(pair: (T, T) -> T, x: T) {
    exists a, b :: x == pair(a, b)
  }

  /** One level up equal and neither with twins: the levels are equal. */
  lemma EqualParents<T(!new)>(pair: (T, T) -> T, a: seq<T>, b: seq<T>)
    requires Injective(pair) && Parents(pair, a) == Parents(pair, b) && !Twins(a) && !Twins(b)
    ensures a == b
  {
    forall i | 0 <= i < (|a| + 1) / 2
      ensures a[2 * i] == b[2 * i] && Right(a, i) == Right(b, i)
    {
      assert Parents(pair, a)[i] == Parents(pair, b)[i];
    }
    SameLength(a, b);
    SameLength(b, a);
    forall j | 0 <= j < |a| ensures a[j] == b[j] {
      assert a[2 * (j / 2)] == b[2 * (j / 2)] && Right(a, j / 2) == Right(b, j / 2);
    }
  }

  /** A list longer by one than a list of odd length repeats its tail. */
  lemma SameLength<T>(a: seq<T>, b: seq<T>)
    requires (|a| + 1) / 2 == (|b| + 1) / 2 && !Twins(b)
    requires forall i :: 0 <= i < (|a| + 1) / 2 ==> a[2 * i] == b[2 * i] && Right(a, i) == Right(b, i)
    ensures |b| <= |a|
  {
    if |a| < |b| {
      var i := (|a| - 1) / 2;
      assert |a| == 2 * i + 1 && |b| == 2 * i + 2;
      assert Right(a, i) == Right(b, i);
      HasTwins(b, i);
    }
  }

  lemma HasTwins<T>(level: seq<T>, i: nat)
    requires 2 * i + 1 < |level| && level[2 * i] == level[2 * i + 1]
    ensures Twins(level)
  {
    assert TwinAt(level, i);
  }

  lemma {:induction false} EqualAtOneDepth<T(!new)>(pair: (T, T) -> T, zero: T, a: seq<T>, b: seq<T>)
    requires Injective(pair) && |a| > 0 && |b| > 0 && Rounds(|a|) == Rounds(|b|)
    requires Root(pair, zero, a) == Root(pair, zero, b)
    requires !Mutated(pair, a) && !Mutated(pair, b)
    ensures a == b
    decreases |a|
  {
    if |a| > 1 && |b| > 1 {
      EqualAtOneDepth(pair, zero, Parents(pair, a), Parents(pair, b));
      EqualParents(pair, a, b);
    }
  }

  /** The level `k` rounds up. */
  ghost function LevelAt<T>(pair: (T, T) -> T, level: seq<T>, k: nat): (r: seq<T>)
    ensures |level| > 0 ==> |r| > 0
    decreases k
  {
    if k == 0 then level else LevelAt(pair, Parents(pair, level), k - 1)
  }

  lemma {:induction false} LevelAtNext<T>(pair: (T, T) -> T, level: seq<T>, k: nat)
    ensures LevelAt(pair, level, k + 1) == Parents(pair, LevelAt(pair, level, k))
    decreases k
  {
    if k > 0 {
      LevelAtNext(pair, Parents(pair, level), k - 1);
    }
  }

  lemma {:induction false} RootOfLevel<T>(pair: (T, T) -> T, zero: T, level: seq<T>)
    requires |level| > 0
    ensures Root(pair, zero, level) == LevelAt(pair, level, Rounds(|level|))[0]
    decreases |level|
  {
    if |level| > 1 {
      RootOfLevel(pair, zero, Parents(pair, level));
    }
  }

  /** Two roots of one value and unequal depth: the shallower list starts with a pair hash. */
  lemma {:induction false} HeadsAgree<T(!new)>(pair: (T, T) -> T, zero: T, a: seq<T>, b: seq<T>)
    requires Injective(pair) && |a| > 0 && |b| > 0 && Rounds(|a|) < Rounds(|b|)
    requires Root(pair, zero, a) == Root(pair, zero, b)
    ensures a[0] == LevelAt(pair, b, Rounds(|b|) - Rounds(|a|))[0]
    decreases |a|
  {
    var d := Rounds(|b|) - Rounds(|a|);
    if |a| == 1 {
      RootOfLevel(pair, zero, b);
    } else {
      HeadsAgree(pair, zero, Parents(pair, a), Parents(pair, b));
      LevelAtNext(pair, b, d);
      assert LevelAt(pair, b, d + 1)[0] == pair(LevelAt(pair, b, d)[0], Right(LevelAt(pair, b, d), 0));
    }
  }

  lemma DepthsAgree<T(!new)>(pair: (T, T) -> T, zero: T, a: seq<T>, b: seq<T>)
    requires Injective(pair) && |a| > 0 && |b| > 0 && !IsPair(pair, a[0])
    requires Root(pair, zero, a) == Root(pair, zero, b)
    ensures Rounds(|a|) >= Rounds(|b|)
  {
    if Rounds(|a|) < Rounds(|b|) {
      HeadsAgree(pair, zero, a, b);
      LevelAtNext(pair, b, Rounds(|b|) - Rounds(|a|) - 1);
    }
  }

  /**
    With an injective pair hash and leaves that are not pair hashes, two lists with one root and
    no flag are one list.
   */
  lemma UnflaggedRootIsBinding<T(!new)>(pair: (T, T) -> T, zero: T, a: seq<T>, b: seq<T>)
    requires Injective(pair) && |a| > 0 && |b| > 0
    requires !IsPair(pair, a[0]) && !IsPair(pair, b[0])
    requires Root(pair, zero, a) == Root(pair, zero, b)
    requires !Mutated(pair, a) && !Mutated(pair, b)
    ensures a == b
  {
    DepthsAgree(pair, zero, a, b);
    DepthsAgree(pair, zero, b, a);
    EqualAtOneDepth(pair, zero, a, b);
  }

  // ----- the same from the top down ---------------------------------------------------------------

  /** The tree of depth `k`: its left half full, and standing in for the right one where that is empty. */
  ghost function TopDown<T>(pair: (T, T) -> T, leaves: seq<T>, k: nat): T
    requires 0 < |leaves| <= Power2(k)
  {
    if k == 0 then leaves[0]
    else
      Power2Positive(k - 1);
      var half := Power2(k - 1);
      if |leaves| <= half then pair(TopDown(pair, leaves, k - 1), TopDown(pair, leaves, k - 1))
      else pair(TopDown(pair, leaves[..half], k - 1), TopDown(pair, leaves[half..], k - 1))
  }

  lemma TopDownUnfolds<T>(pair: (T, T) -> T, leaves: seq<T>, k: nat, half: nat)
    requires k > 0 && half == Power2(k - 1) && 0 < |leaves| <= Power2(k)
    ensures half > 0 && |leaves| <= 2 * half
    ensures |leaves| <= half ==>
              TopDown(pair, leaves, k) == pair(TopDown(pair, leaves, k - 1), TopDown(pair, leaves, k - 1))
    ensures |leaves| > half ==>
              TopDown(pair, leaves, k)
              == pair(TopDown(pair, leaves[..half], k - 1), TopDown(pair, leaves[half..], k - 1))
  {
    Power2Positive(k - 1);
  }

  /** Hashing the pairs of the lowest level takes one off the depth. */
  lemma {:induction false} TopDownRound<T>(pair: (T, T) -> T, leaves: seq<T>, k: nat)
    requires k > 0 && 0 < |leaves| <= Power2(k)
    ensures (|leaves| + 1) / 2 <= Power2(k - 1)
    ensures TopDown(pair, Parents(pair, leaves), k - 1) == TopDown(pair, leaves, k)
    decreases k
  {
    assert Power2(k) == 2 * Power2(k - 1);
    if k == 1 {
      OnePair(pair, leaves);
    } else {
      assert Power2(k - 1) == 2 * Power2(k - 2);
      hide Parents, TopDown, Power2;
      var (half, quarter) := (Power2(k - 1), Power2(k - 2));
      TopDownUnfolds(pair, leaves, k, half);
      TopDownUnfolds(pair, Parents(pair, leaves), k - 1, quarter);
      if |leaves| <= half {
        TopDownRound(pair, leaves, k - 1);
      } else {
        ParentsSplit(pair, leaves, quarter);
        TopDownRound(pair, leaves[..half], k - 1);
        TopDownRound(pair, leaves[half..], k - 1);
      }
    }
  }

  lemma OnePair<T>(pair: (T, T) -> T, leaves: seq<T>)
    requires 0 < |leaves| <= 2
    ensures 2 == Power2(1) && TopDown(pair, Parents(pair, leaves), 0) == TopDown(pair, leaves, 1)
  {
    assert |leaves| == 2 ==> leaves[..1] == [leaves[0]] && leaves[1..] == [leaves[1]];
  }

  lemma ParentsSplit<T>(pair: (T, T) -> T, level: seq<T>, n: nat)
    requires 2 * n <= |level|
    ensures Parents(pair, level[..2 * n]) == Parents(pair, level)[..n]
    ensures Parents(pair, level[2 * n..]) == Parents(pair, level)[n..]
  {
    var (low, high) := (level[..2 * n], level[2 * n..]);
    forall i | 0 <= i < n ensures Parents(pair, low)[i] == Parents(pair, level)[i] {
      assert low[2 * i] == level[2 * i] && low[2 * i + 1] == level[2 * i + 1];
    }
    forall i | 0 <= i < |Parents(pair, high)| ensures Parents(pair, high)[i] == Parents(pair, level)[n + i] {
      assert high[2 * i] == level[2 * (n + i)];
    }
  }

  /** The rounds come to the tree defined from the top. */
  lemma {:induction false} RootIsTopDown<T>(pair: (T, T) -> T, zero: T, leaves: seq<T>)
    requires |leaves| > 0
    ensures |leaves| <= Power2(Rounds(|leaves|))
    ensures Root(pair, zero, leaves) == TopDown(pair, leaves, Rounds(|leaves|))
    decreases |leaves|
  {
    hide Parents;
    RoundsSuffice(|leaves|, Rounds(|leaves|));
    if |leaves| > 1 {
      RootIsTopDown(pair, zero, Parents(pair, leaves));
      TopDownRound(pair, leaves, Rounds(|leaves|));
    }
  }

  // ----- exactly when the flag is set -------------------------------------------------------------

  /** Two equal hashes stand side by side, as left and right of one pair, `k` rounds up. */
  ghost predicate EqualPairAt<T>(pair: (T, T) -> T, leaves: seq<T>, k: nat, i: nat) {
    var level := LevelAt(pair, leaves, k);
    2 * i + 1 < |level| && level[2 * i] == level[2 * i + 1]
  }

  /** The flag is set if and only if that is so at some level. */
  lemma {:induction false} FlaggedIff<T>(pair: (T, T) -> T, leaves: seq<T>)
    ensures Mutated(pair, leaves) <==> exists k: nat, i: nat :: EqualPairAt(pair, leaves, k, i)
    decreases |leaves|
  {
    if |leaves| > 1 {
      var up := Parents(pair, leaves);
      FlaggedIff(pair, up);
      if i :| 0 <= i && 2 * i + 1 < |leaves| && TwinAt(leaves, i) {
        assert EqualPairAt(pair, leaves, 0, i);
      }
      if k: nat, i: nat :| EqualPairAt(pair, up, k, i) {
        assert EqualPairAt(pair, leaves, k + 1, i);
      }
      if k: nat, i: nat :| EqualPairAt(pair, leaves, k, i) {
        if k == 0 {
          assert TwinAt(leaves, i);
        } else {
          assert EqualPairAt(pair, up, k - 1, i);
        }
      }
    } else if k: nat, i: nat :| EqualPairAt(pair, leaves, k, i) {
      NeverTwo(pair, leaves, k);
    }
  }

  lemma {:induction false} NeverTwo<T>(pair: (T, T) -> T, leaves: seq<T>, k: nat)
    requires |leaves| <= 1
    ensures |LevelAt(pair, leaves, k)| <= 1
    decreases k
  {
    if k > 0 {
      NeverTwo(pair, Parents(pair, leaves), k - 1);
    }
  }

  ghost predicate AllDistinct<T>(level: seq<T>) {
    forall i, j :: 0 <= i < j < |level| ==> level[i] != level[j]
  }

  /** Leaves that all differ are never flagged, however many there are. */
  lemma {:induction false} DistinctIsUnflagged<T(!new)>(pair: (T, T) -> T, leaves: seq<T>)
    requires Injective(pair) && AllDistinct(leaves)
    ensures !Mutated(pair, leaves)
    decreases |leaves|
  {
    if |leaves| > 1 {
      var up := Parents(pair, leaves);
      forall i, j | 0 <= i < j < |up| ensures up[i] != up[j] {
        assert leaves[2 * i] != leaves[2 * j];
      }
      DistinctIsUnflagged(pair, up);
    }
  }

  // ----- the repetitions the detector is for ------------------------------------------------------

  /** Repeating the tail of an odd level keeps the level above and makes twins. */
  lemma RepeatedTail<T>(pair: (T, T) -> T, level: seq<T>)
    requires |level| > 1 && |level| % 2 == 1
    ensures var forged := level + [level[|level| - 1]];
            Parents(pair, forged) == Parents(pair, level) && Twins(forged)
  {
    var n := |level|;
    var forged := level + [level[n - 1]];
    assert TwinAt(forged, (n - 1) / 2);
    forall i | 0 <= i < (n + 1) / 2 ensures Parents(pair, forged)[i] == Parents(pair, level)[i] {
      assert forged[2 * i] == level[2 * i];
      assert Right(forged, i) == Right(level, i);
    }
  }

  /** Doubling the last aligned block of `2^k` leaves of an odd number of them. */
  lemma {:induction false} RepeatedBlock<T>(pair: (T, T) -> T, zero: T, leaves: seq<T>, k: nat, block: nat, m: nat)
    requires m > 1 && m % 2 == 1 && block == Power2(k) && |leaves| == m * block >= block
    ensures var forged := leaves + leaves[|leaves| - block..];
            Root(pair, zero, forged) == Root(pair, zero, leaves) && Mutated(pair, forged)
    decreases k
  {
    hide Root, Mutated, Parents, Twins;
    var n := |leaves|;
    var forged := leaves + leaves[n - block..];
    if k == 0 {
      assert leaves[n - 1..] == [leaves[n - 1]];
      RepeatedTail(pair, leaves);
      OneRound(pair, zero, leaves);
    } else {
      var half := Power2(k - 1);
      Power2Positive(k - 1);
      Halves(m, half, n);
      RepeatedBlock(pair, zero, Parents(pair, leaves), k - 1, half, m);
      BlockParents(pair, leaves, m * half, half);
      OneRound(pair, zero, leaves);
    }
    OneRound(pair, zero, forged);
  }

  lemma Halves(m: nat, half: nat, n: nat)
    requires n == m * (2 * half) && m > 1 && half > 0
    ensures n == 2 * (m * half) && half <= m * half && n > 1
  {
    calc {
      m * (2 * half);
      2 * (m * half);
    }
    assert m * half >= half;
  }

  lemma OneRound<T>(pair: (T, T) -> T, zero: T, level: seq<T>)
    requires |level| > 1
    ensures Root(pair, zero, level) == Root(pair, zero, Parents(pair, level))
    ensures Mutated(pair, level) <==> Twins(level) || Mutated(pair, Parents(pair, level))
  {
  }

  lemma BlockParents<T>(pair: (T, T) -> T, leaves: seq<T>, n: nat, half: nat)
    requires |leaves| == 2 * n && half <= n
    ensures Parents(pair, leaves + leaves[2 * n - 2 * half..])
            == Parents(pair, leaves) + Parents(pair, leaves)[n - half..]
  {
    var forged := leaves + leaves[2 * n - 2 * half..];
    var up := Parents(pair, leaves);
    forall i | 0 <= i < n + half ensures Parents(pair, forged)[i] == (up + up[n - half..])[i] {
      if i < n {
        assert forged[2 * i] == leaves[2 * i] && forged[2 * i + 1] == leaves[2 * i + 1];
      } else {
        var j := i - half;
        assert forged[2 * i] == leaves[2 * j] && forged[2 * i + 1] == leaves[2 * j + 1];
      }
    }
  }

  // ----- the computation --------------------------------------------------------------------------

  /** One round: look for twins, double an odd tail, hash the pairs. */
  method Round<T(==)>(pair: (T, T) -> T, level: seq<T>) returns (parents: seq<T>, twins: bool)
    requires |level| > 1
    ensures parents == Parents(pair, level) && twins == Twins(level)
  {
    twins := false;
    var i := 0;
    while 2 * i + 1 < |level|
      invariant 0 <= i && 2 * i <= |level|
      invariant twins <==> exists k :: 0 <= k < i && 2 * k + 1 < |level| && TwinAt(level, k)
    {
      if TwinAt(level, i) {
        twins := true;
      }
      i := i + 1;
    }
    var even := if |level| % 2 == 1 then level + [level[|level| - 1]] else level;
    parents := [];
    i := 0;
    while 2 * i < |even|
      invariant 0 <= i && 2 * i <= |even| && |even| % 2 == 0 && |parents| == i
      invariant parents == Parents(pair, level)[..i]
    {
      assert even[2 * i + 1] == Right(level, i);
      parents := parents + [pair(even[2 * i], even[2 * i + 1])];
      i := i + 1;
    }
  }

  /** The root and the flag; 33 rounds are enough for every list they are needed for. */
  method ComputeRoot<T(==)>(pair: (T, T) -> T, zero: T, leaves: seq<T>) returns (found: MerkleRoot<T>)
    requires |leaves| <= 0x2_0000_0000
    ensures found.root == Root(pair, zero, leaves)
    ensures found.mutated == Mutated(pair, leaves)
  {
    var level := leaves;
    var mutated := false;
    Bound();
    RoundsSuffice(|leaves|, 33);
    var round := 0;
    while round <= MERKLE_LEVELS_MAX && |level| > 1
      invariant 0 <= round && round + Rounds(|level|) <= 33
      invariant Root(pair, zero, level) == Root(pair, zero, leaves)
      invariant Mutated(pair, leaves) == (mutated || Mutated(pair, level))
      invariant |leaves| <= 1 ==> !mutated && level == leaves
      decreases 33 - round
    {
      var parents, twins := Round(pair, level);
      mutated := mutated || twins;
      level := parents;
      round := round + 1;
    }
    assert |level| <= 1;
    found := MerkleRoot(if |level| == 1 then level[0] else zero, mutated);
  }

  lemma Bound()
    ensures Power2(33) == 0x2_0000_0000
  {
    assert Power2(11) == 2048;
    assert Power2(22) == 4194304;
  }
}
