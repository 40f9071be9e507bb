/**
  Core's skip list, as arithmetic on heights alone.

  Where a skip leads depends on nothing but the height it starts from, so the
  number of steps a backward walk takes is a function of two numbers: where it starts and where
  it stops. This module computes that number the way the walk does and bounds it.
 */
module SkipList {
  import opened Numbers

  const U32_MAX: nat := 0xFFFF_FFFF

  /** 2^21, the cap on the arena. */
  const MAX_TREE_HEADERS: nat := 2 * 1024 * 1024

  /** The tripwire on one backward walk. */
  const MAX_ANCESTOR_STEPS: nat := 512

  /** Bitwise conjunction of two naturals. */
  function And(x: nat, y: nat): nat {
    if x == 0 || y == 0 then 0
    else (if x % 2 == 1 && y % 2 == 1 then 1 else 0) + 2 * And(x / 2, y / 2)
  }

  /** `value & value.wrapping_sub(1)` on a 32-bit value. */
  function InvertLowestOne(value: nat): nat {
    And(value, if value == 0 then U32_MAX else value - 1)
  }

  /** The value with its lowest set bit turned off, defined without any wrapping. */
  function ClearLow(value: nat): (r: nat)
    ensures r <= value
    ensures value > 0 ==> r < value
  {
    if value == 0 then 0
    else if value % 2 == 1 then value - 1
    else 2 * ClearLow(value / 2)
  }

  lemma {:induction false} AndSelf(x: nat)
    ensures And(x, x) == x
  {
    if x > 0 {
      AndSelf(x / 2);
    }
  }

  lemma {:induction false} InvertLowestOneClears(value: nat)
    ensures InvertLowestOne(value) == ClearLow(value)
  {
    if value == 0 {
    } else if value % 2 == 1 {
      AndSelf(value / 2);
      assert (value - 1) / 2 == value / 2;
    } else {
      InvertLowestOneClears(value / 2);
      assert (value - 1) / 2 == value / 2 - 1;
      assert And(value, value - 1) == 2 * And(value / 2, value / 2 - 1);
    }
  }

  /** Core's `GetSkipHeight`. */
  function SkipHeight(height: nat): nat {
    if height < 2 then 0
    else if height % 2 == 0 then InvertLowestOne(height)
    else InvertLowestOne(InvertLowestOne(height - 1)) + 1
  }

  /** The same height through `ClearLow`, the form every proof below uses. */
  function Landing(height: nat): nat {
    if height < 2 then 0
    else if height % 2 == 0 then ClearLow(height)
    else ClearLow(ClearLow(height - 1)) + 1
  }

  lemma SkipHeightIsLanding(height: nat)
    ensures SkipHeight(height) == Landing(height)
    ensures height > 0 ==> SkipHeight(height) < height
  {
    if height >= 2 {
      if height % 2 == 0 {
        InvertLowestOneClears(height);
      } else {
        InvertLowestOneClears(height - 1);
        InvertLowestOneClears(ClearLow(height - 1));
      }
    }
  }

  /** Core's test for following the skip pointer of a node at `from` towards `target`. */
  predicate FollowsSkip(from: nat, target: nat) {
    var landing := SkipHeight(from);
    var previous := SkipHeight(Monus(from, 1));
    landing == target
    || (landing > target && !(previous < Monus(landing, 2) && previous >= target))
  }

  /** Where one step of the walk goes. */
  function Next(from: nat, target: nat): (to: nat)
    requires target < from
    ensures target <= to < from
  {
    SkipHeightIsLanding(from);
    if FollowsSkip(from, target) then SkipHeight(from) else from - 1
  }

  /** How many steps the walk takes. */
  function Steps(from: nat, target: nat): nat
    decreases from
  {
    if from <= target then 0 else 1 + Steps(Next(from, target), target)
  }

  // ---------------------------------------------------------------------------------------
  // The bound. `Spread` is the length of the bit block in which the two heights differ; `Ones`
  // counts the bits of the upper one below the top differing bit.
  // ---------------------------------------------------------------------------------------

  ghost function Spread(h: nat, t: nat): nat
    decreases h + t
  {
    if h == t then 0 else 1 + Spread(h / 2, t / 2)
  }

  ghost function Ones(h: nat, t: nat): nat
    decreases h + t
  {
    if h / 2 == t / 2 then 0 else h % 2 + Ones(h / 2, t / 2)
  }

  /** The walk stays on the parent link although the skip pointer would not overshoot. */
  ghost predicate PrefersParent(h: nat, t: nat) {
    h > 0 && Landing(h) > t && Landing(h - 1) + 2 < Landing(h) && Landing(h - 1) >= t
  }

  ghost function Triangle(k: nat): nat {
    if k == 0 then 0 else Triangle(k - 1) + k + 2
  }

  /** The potential every step of the walk spends. */
  ghost function Potential(h: nat, t: nat): nat {
    if h <= t then 0
    else Triangle(Spread(h, t)) + Ones(h, t) + 2 + (if PrefersParent(h, t) then 2 else 0)
  }

  lemma {:induction false} OnesBelowSpread(h: nat, t: nat)
    requires h != t
    ensures Ones(h, t) < Spread(h, t)
    decreases h + t
  {
    if h / 2 != t / 2 {
      OnesBelowSpread(h / 2, t / 2);
    }
  }

  lemma {:induction false} SpreadShrinks(h: nat, t: nat)
    requires t < h
    ensures Spread(h - 1, t) <= Spread(h, t)
    decreases h
  {
    if t < h - 1 {
      if h % 2 == 1 {
        assert (h - 1) / 2 == h / 2;
      } else {
        assert (h - 1) / 2 == h / 2 - 1;
        SpreadShrinks(h / 2, t / 2);
      }
    }
  }

  /** Clearing the lowest bit without passing the target leaves the block or loses one bit. */
  lemma {:induction false} ClearStaysAbove(h: nat, t: nat)
    requires t < h && t <= ClearLow(h)
    ensures Spread(ClearLow(h), t) <= Spread(h, t)
    ensures Spread(ClearLow(h), t) == Spread(h, t) ==> Ones(ClearLow(h), t) + 1 == Ones(h, t)
    decreases h
  {
    var c := ClearLow(h);
    if h % 2 == 1 {
      assert c / 2 == h / 2;
    } else {
      assert c / 2 == ClearLow(h / 2);
      ClearStaysAbove(h / 2, t / 2);
    }
  }

  /** A parent step taken because the skip would overshoot enters a strictly shorter block. */
  lemma {:induction false} OvershootShrinks(h: nat, t: nat)
    requires ClearLow(h) <= t < h
    ensures Spread(h - 1, t) < Spread(h, t)
    decreases h
  {
    if h % 2 == 0 {
      assert (h - 1) / 2 == h / 2 - 1;
      OvershootShrinks(h / 2, t / 2);
    }
  }

  lemma {:induction false} TriangleGrows(j: nat, k: nat)
    requires j < k
    ensures Triangle(j) + j + 3 <= Triangle(k)
    decreases k
  {
    if j < k - 1 {
      TriangleGrows(j, k - 1);
    }
  }

  /** Once the block is shorter, whatever the rest of the potential is, something was spent. */
  lemma ShorterBlockSpends(h: nat, t: nat, to: nat)
    requires t <= to < h
    requires Spread(to, t) < Spread(h, t)
    ensures Potential(to, t) < Potential(h, t)
  {
    if t < to {
      OnesBelowSpread(to, t);
      TriangleGrows(Spread(to, t), Spread(h, t));
    }
  }

  lemma {:induction false} ClearTwice(m: nat)
    ensures ClearLow(2 * m) == 2 * ClearLow(m)
    ensures ClearLow(2 * m + 1) == 2 * m
  {
    assert (2 * m) / 2 == m && (2 * m) % 2 == 0 && (2 * m + 1) % 2 == 1;
  }

  lemma {:induction false} ClearQuarter(m: nat)
    ensures ClearLow(4 * m) == 4 * ClearLow(m)
    ensures ClearLow(4 * m + 2) == 4 * m
  {
    ClearTwice(m);
    ClearTwice(2 * m);
    ClearTwice(2 * m + 1);
  }

  lemma {:induction false} ClearEighth(m: nat)
    ensures ClearLow(8 * m) == 8 * ClearLow(m)
    ensures ClearLow(8 * m + 4) == 8 * m
    ensures ClearLow(8 * m + 2) == 8 * m
    ensures ClearLow(8 * m + 6) == 8 * m + 4
  {
    hide *;
    ClearQuarter(m);
    ClearTwice(4 * m);
    ClearTwice(4 * m + 2);
    ClearQuarter(2 * m);
    ClearQuarter(2 * m + 1);
  }

  /** Landings around a multiple of eight. */
  lemma {:induction false} LandingsAtEighths(m: nat)
    ensures Landing(8 * m + 8) == 8 * ClearLow(m + 1)
    ensures Landing(8 * m + 7) == 8 * m + 1
    ensures Landing(8 * m + 5) == Landing(8 * m + 3) == 8 * ClearLow(m) + 1
    ensures Landing(8 * m + 4) == 8 * m
  {
    ClearEighth(m);
    ClearEighth(m + 1);
    assert (8 * m + 7) % 2 == 1 && (8 * m + 5) % 2 == 1 && (8 * m + 3) % 2 == 1;
  }

  /** Landings around twice an odd number. */
  lemma {:induction false} LandingsAtQuarters(m: nat)
    ensures Landing(4 * m + 3) == 4 * ClearLow(m) + 1
    ensures Landing(4 * m + 2) == 4 * m
    ensures m > 0 ==> Landing(4 * m + 1) == 4 * ClearLow(ClearLow(m)) + 1
  {
    ClearQuarter(m);
    ClearQuarter(ClearLow(m));
    assert (4 * m + 3) % 2 == 1 && (4 * m + 1) % 2 == 1;
  }

  lemma {:induction false} MultipleOfEightNeverPrefers(m: nat, t: nat)
    ensures !PrefersParent(8 * m, t)
  {
    if m > 0 {
      LandingsAtEighths(m - 1);
      assert 8 * m == 8 * (m - 1) + 8;
      assert 8 * m - 1 == 8 * (m - 1) + 7;
    }
  }

  lemma {:induction false} PreferredAtEighth(m: nat, t: nat)
    requires PrefersParent(8 * m + 4, t)
    ensures t <= Landing(8 * m + 5) && t / 8 < m && !PrefersParent(8 * m + 3, t)
  {
    LandingsAtEighths(m);
    OddNeverPrefers(4 * m + 1, t);
  }

  lemma {:induction false} PreferredAtQuarter(m: nat, t: nat)
    requires PrefersParent(4 * m + 2, t)
    ensures t <= Landing(4 * m + 3) && t / 4 < m && !PrefersParent(4 * m + 1, t)
  {
    LandingsAtQuarters(m);
    OddNeverPrefers(2 * m, t);
  }

  lemma {:induction false} OddNeverPrefers(m: nat, t: nat)
    ensures !PrefersParent(2 * m + 1, t)
  {
    assert (2 * m + 1) % 2 == 1 && (2 * m) % 2 == 0;
  }

  /** An odd height whose skip overshoots hands over to an even one that will not turn back. */
  lemma {:induction false} OddOvershootNeverPrefers(h: nat, t: nat)
    requires h % 2 == 1 && Landing(h) < t
    ensures !PrefersParent(h - 1, t)
  {
    hide *;
    var q := h / 4;
    var m := q / 2;
    if PrefersParent(h - 1, t) {
      if h == 4 * q + 3 {
        PreferredAtQuarter(q, t);
      } else if q == 2 * m {
        MultipleOfEightNeverPrefers(m, t);
      } else {
        PreferredAtEighth(m, t);
      }
    }
  }

  /** An even height that takes its skip lands on one that takes its skip too. */
  lemma {:induction false} EvenSkipNeverPrefers(h: nat, t: nat)
    requires h % 2 == 0 && Landing(h) > t && !PrefersParent(h, t)
    ensures !PrefersParent(Landing(h), t)
  {
    hide *;
    var q := h / 4;
    var m := q / 2;
    if h == 4 * q + 2 {
      QuarterSkipNeverPrefers(q, t);
    } else if q == 2 * m {
      EighthSkip(m);
      MultipleOfEightNeverPrefers(ClearLow(m), t);
    } else {
      LandingsAtEighths(m);
      MultipleOfEightNeverPrefers(m, t);
    }
  }

  lemma {:induction false} EighthSkip(m: nat)
    ensures Landing(8 * m) == 8 * ClearLow(m)
  {
    ClearEighth(m);
  }

  lemma {:induction false} QuarterSkipNeverPrefers(m: nat, t: nat)
    requires Landing(4 * m + 2) > t && !PrefersParent(4 * m + 2, t)
    ensures !PrefersParent(Landing(4 * m + 2), t)
  {
    hide *;
    LandingsAtQuarters(m);
    var j := m / 2;
    if m == 2 * j {
      assert 4 * m == 8 * j;
      MultipleOfEightNeverPrefers(j, t);
    } else {
      assert 4 * m == 8 * j + 4;
      OddQuarterNeverPrefers(j, t);
    }
  }

  lemma {:induction false} OddQuarterNeverPrefers(j: nat, t: nat)
    requires Landing(8 * j + 6) > t && !PrefersParent(8 * j + 6, t) && Landing(8 * j + 6) == 8 * j + 4
    ensures !PrefersParent(8 * j + 4, t)
  {
    hide Landing, ClearLow;
    LandingsAtQuarters(2 * j + 1);
    LandingsAtEighths(j);
    ClearTwice(j);
  }

  lemma {:induction false} OnesAtQuarters(m: nat, t: nat)
    requires t / 4 < m
    ensures Ones(4 * m + 1, t) == Ones(4 * m + 2, t) == 1 + Ones(m, t / 4)
  {
    assert (4 * m + 1) / 2 == 2 * m && (4 * m + 2) / 2 == 2 * m + 1;
    assert (2 * m) / 2 == m && (2 * m + 1) / 2 == m && t / 2 / 2 == t / 4;
    assert Ones(2 * m, t / 2) == Ones(m, t / 4);
    assert Ones(2 * m + 1, t / 2) == 1 + Ones(m, t / 4);
  }

  lemma {:induction false} OnesAtEighths(m: nat, t: nat)
    requires t / 8 < m
    ensures Ones(8 * m + 3, t) == 1 + Ones(8 * m + 4, t)
  {
    assert (8 * m + 3) / 2 == 4 * m + 1 && (8 * m + 4) / 2 == 4 * m + 2;
    assert t / 2 / 4 == t / 8;
    OnesAtQuarters(m, t / 2);
    assert t / 2 < 4 * m;
  }

  lemma {:induction false} PreferredParentSpends(h: nat, t: nat)
    requires PrefersParent(h, t)
    ensures Potential(h - 1, t) < Potential(h, t)
  {
    hide *;
    PreferredIsBelow(h, t);
    var x := h / 2;
    var q := x / 2;
    var m := q / 2;
    if h == 2 * x + 1 {
      OddNeverPrefers(x, t);
    } else if x == 2 * q + 1 {
      assert h == 4 * q + 2;
      QuarterSpends(q, t);
    } else if q == 2 * m {
      assert h == 8 * m;
      MultipleOfEightNeverPrefers(m, t);
    } else {
      assert h == 8 * m + 4;
      EighthSpends(m, t);
    }
  }

  lemma {:induction false} QuarterSpends(q: nat, t: nat)
    requires PrefersParent(4 * q + 2, t)
    ensures Potential(4 * q + 1, t) < Potential(4 * q + 2, t)
  {
    hide *;
    PreferredIsBelow(4 * q + 2, t);
    SpreadShrinks(4 * q + 2, t);
    PreferredAtQuarter(q, t);
    OnesAtQuarters(q, t);
    SameOrShorterSpends(4 * q + 2, t);
  }

  lemma {:induction false} EighthSpends(m: nat, t: nat)
    requires PrefersParent(8 * m + 4, t)
    ensures Potential(8 * m + 3, t) < Potential(8 * m + 4, t)
  {
    hide *;
    PreferredIsBelow(8 * m + 4, t);
    SpreadShrinks(8 * m + 4, t);
    PreferredAtEighth(m, t);
    OnesAtEighths(m, t);
    SameOrShorterSpends(8 * m + 4, t);
  }

  lemma {:induction false} PreferredIsBelow(h: nat, t: nat)
    requires PrefersParent(h, t)
    ensures t < h - 1
  {
    SkipHeightIsLanding(h);
  }

  lemma {:induction false} SameOrShorterSpends(h: nat, t: nat)
    requires t < h - 1 && PrefersParent(h, t) && !PrefersParent(h - 1, t)
    requires Spread(h - 1, t) <= Spread(h, t) && Ones(h - 1, t) <= Ones(h, t) + 1
    ensures Potential(h - 1, t) < Potential(h, t)
  {
    if Spread(h - 1, t) < Spread(h, t) {
      ShorterBlockSpends(h, t, h - 1);
    }
  }

  lemma {:induction false} EvenStepSpends(h: nat, t: nat)
    requires t < h && h % 2 == 0 && !PrefersParent(h, t)
    ensures Potential(Next(h, t), t) < Potential(h, t)
  {
    SkipHeightIsLanding(h);
    SkipHeightIsLanding(h - 1);
    if FollowsSkip(h, t) {
      ClearStaysAbove(h, t);
      if Spread(Landing(h), t) < Spread(h, t) {
        ShorterBlockSpends(h, t, Landing(h));
      } else if Landing(h) > t {
        EvenSkipNeverPrefers(h, t);
      }
    } else {
      assert Landing(h) < t;
      OvershootShrinks(h, t);
      ShorterBlockSpends(h, t, h - 1);
    }
  }

  lemma {:induction false} OddStepSpends(h: nat, t: nat)
    requires t < h && h % 2 == 1
    ensures Potential(Next(h, t), t) < Potential(h, t)
  {
    SkipHeightIsLanding(h);
    SkipHeightIsLanding(h - 1);
    var x := h / 2;
    assert (h - 1) / 2 == x;
    if t == h - 1 {
      assert Next(h, t) == t;
    } else if FollowsSkip(h, t) {
      OddSkipSpends(h, t);
    } else {
      assert Landing(h) < t;
      assert Ones(h, t) == 1 + Ones(h - 1, t);
      OddOvershootNeverPrefers(h, t);
    }
  }

  /** A skip from an odd height clears two bits of its half. */
  lemma {:induction false} OddSkipSpends(h: nat, t: nat)
    requires t < h - 1 && h % 2 == 1 && Landing(h) >= t
    ensures Potential(Landing(h), t) < Potential(h, t)
  {
    var x, y, z := h / 2, t / 2, ClearLow(ClearLow(h / 2));
    assert h == 2 * x + 1;
    ClearTwice(x);
    ClearTwice(ClearLow(x));
    assert Landing(h) == 2 * z + 1;
    TwoClears(x, y);
    if t < 2 * z + 1 {
      OddSpends(x, z, t);
    }
  }

  lemma {:induction false} TwoClears(x: nat, y: nat)
    requires y < x && y <= ClearLow(ClearLow(x))
    ensures Spread(ClearLow(ClearLow(x)), y) <= Spread(x, y)
    ensures Spread(ClearLow(ClearLow(x)), y) == Spread(x, y)
            ==> Ones(ClearLow(ClearLow(x)), y) < Ones(x, y)
  {
    ClearStaysAbove(x, y);
    if y < ClearLow(x) {
      ClearStaysAbove(ClearLow(x), y);
    }
  }

  lemma {:induction false} OddSpends(x: nat, z: nat, t: nat)
    requires t / 2 <= z < x && t < 2 * z + 1
    requires Spread(z, t / 2) <= Spread(x, t / 2)
    requires Spread(z, t / 2) == Spread(x, t / 2) ==> Ones(z, t / 2) < Ones(x, t / 2)
    ensures Potential(2 * z + 1, t) < Potential(2 * x + 1, t)
  {
    assert (2 * z + 1) / 2 == z && (2 * x + 1) / 2 == x;
    assert Spread(2 * x + 1, t) == 1 + Spread(x, t / 2);
    assert Spread(2 * z + 1, t) == 1 + Spread(z, t / 2);
    OddNeverPrefers(z, t);
    if Spread(z, t / 2) < Spread(x, t / 2) {
      ShorterBlockSpends(2 * x + 1, t, 2 * z + 1);
    } else {
      assert z != t / 2;
      assert Ones(2 * x + 1, t) == 1 + Ones(x, t / 2);
      assert Ones(2 * z + 1, t) == 1 + Ones(z, t / 2);
    }
  }

  /** Every step of the walk spends potential, so the walk is no longer than the potential. */
  lemma {:induction false} StepsWithinPotential(h: nat, t: nat)
    ensures Steps(h, t) <= Potential(h, t)
    decreases h
  {
    if t < h {
      SkipHeightIsLanding(h);
      SkipHeightIsLanding(h - 1);
      if PrefersParent(h, t) {
        PreferredParentSpends(h, t);
        assert Next(h, t) == h - 1;
      } else if h % 2 == 0 {
        EvenStepSpends(h, t);
      } else {
        OddStepSpends(h, t);
      }
      StepsWithinPotential(Next(h, t), t);
    }
  }

  lemma {:induction false} SpreadIsBitLength(h: nat, t: nat, bits: nat, bound: nat)
    requires h < bound && t < bound && bound == Power2(bits)
    ensures Spread(h, t) <= bits
    decreases bits
  {
    if h != t {
      SpreadIsBitLength(h / 2, t / 2, bits - 1, bound / 2);
    }
  }

  lemma {:induction false} TriangleMonotone(j: nat, k: nat)
    requires j <= k
    ensures Triangle(j) <= Triangle(k)
    decreases k
  {
    if j < k {
      TriangleMonotone(j, k - 1);
    }
  }

  /**
    No walk in a tree within its cap reaches the tripwire: at most 297 steps, for every pair
    of heights below 2^21.
   */
  lemma WalkIsBounded(h: nat, t: nat)
    requires h < MAX_TREE_HEADERS
    ensures Steps(h, t) <= 297 < MAX_ANCESTOR_STEPS
  {
    StepsWithinPotential(h, t);
    if t < h {
      assert Power2(21) == MAX_TREE_HEADERS by {
        assert Power2(7) == 128;
        assert Power2(14) == 16384;
      }
      SpreadIsBitLength(h, t, 21, MAX_TREE_HEADERS);
      OnesBelowSpread(h, t);
      TriangleMonotone(Spread(h, t), 21);
      assert Triangle(7) == 42;
      assert Triangle(14) == 133;
      assert Triangle(21) == 273;
    }
  }
}
