/** How far the integer averages are from the exact mean, and when 64-bit sums spoil them. */
module Rounding {
  import opened Arithmetic
  import opened Bytes
  import opened Network
  import opened Lockstep

  /** Exact nested mean of the tree below n. */
  ghost function Mean(sys: Sys, n: nat, r: nat, j: nat): real
    requires sys.Ok() && n < sys.N()
    decreases sys.N() - n, 1, 0
  {
    if sys.Kids(n) == 0 then TreeAvg(sys, n, r, j) as real
    else MeanSum(sys, n, r, j, sys.N()) / (sys.Kids(n) as real)
  }

  ghost function MeanSum(sys: Sys, n: nat, r: nat, j: nat, hi: nat): real
    requires sys.Ok() && n < sys.N() && hi <= sys.N()
    decreases sys.N() - n, 0, hi
  {
    if hi == 0 then 0.0
    else MeanSum(sys, n, r, j, hi - 1) + if sys.IsChild(hi - 1, n) then Mean(sys, hi - 1, r, j) else 0.0
  }

  /** Averaging levels at and below n. */
  ghost function Levels(sys: Sys, n: nat): nat
    requires sys.Ok() && n < sys.N()
    decreases sys.N() - n, 1, 0
  {
    if sys.Kids(n) == 0 then 0 else 1 + KidLevels(sys, n, sys.N())
  }

  ghost function KidLevels(sys: Sys, n: nat, hi: nat): nat
    requires sys.Ok() && n < sys.N() && hi <= sys.N()
    decreases sys.N() - n, 0, hi
  {
    if hi == 0 then 0
    else
      var rest := KidLevels(sys, n, hi - 1);
      if sys.IsChild(hi - 1, n) && Levels(sys, hi - 1) > rest then Levels(sys, hi - 1) else rest
  }

  /** No sum in the tree below n reaches 2^64. */
  ghost predicate NoOverflow(sys: Sys, n: nat, r: nat, j: nat)
    requires sys.Ok() && n < sys.N()
    decreases sys.N() - n
  {
    sys.Kids(n) > 0 ==>
      && KidSum(sys, n, r, j, sys.N()) < WORD
      && forall c :: n < c < sys.N() && sys.IsChild(c, n) ==> NoOverflow(sys, c, r, j)
  }

  /** One node divides the true sum exactly when that sum stays below 2^64. */
  lemma AverageIsTrueQuotientIff(sys: Sys, n: nat, r: nat, j: nat)
    requires sys.Ok() && n < sys.N() && sys.Kids(n) > 0
    ensures TreeAvg(sys, n, r, j) == KidSum(sys, n, r, j, sys.N()) / sys.Kids(n)
            <==> KidSum(sys, n, r, j, sys.N()) < WORD
  {
    ReducedQuotientIff(KidSum(sys, n, r, j, sys.N()), WORD, sys.Kids(n));
  }

  /** The largest number a producer draws: two results of rand, of 31 bits each, 32 bits apart. */
  const MAX_DRAW: nat := 0x7FFF_FFFF_7FFF_FFFF

  /** Three producers that all draw it get an average a third as large. */
  lemma OverflowExample()
    ensures var sys := Sys([0, 0, 0, 0], 100, 100, 1, (n, i, j) => MAX_DRAW);
            && sys.Ok() && sys.Kids(0) == 3
            && TreeAvg(sys, 1, 0, 0) == TreeAvg(sys, 2, 0, 0) == TreeAvg(sys, 3, 0, 0) == MAX_DRAW
            && TreeAvg(sys, 0, 0, 0) == 0x2AAA_AAAA_2AAA_AAA9
  {
    var sys := Sys([0, 0, 0, 0], 100, 100, 1, (n, i, j) => MAX_DRAW);
    forall n | 0 <= n < 4
      ensures sys.Kids(n) == if n == 0 then 3 else 0
    {
      assert forall c :: 0 < c < 4 ==> (sys.IsChild(c, n) <==> n == 0);
      assert sys.KidsBelow(n, 1) == 0;
      assert sys.KidsBelow(n, 2) == if n == 0 then 1 else 0;
      assert sys.KidsBelow(n, 3) == if n == 0 then 2 else 0;
    }
    assert KidSum(sys, 0, 0, 0, 1) == 0;
    assert KidSum(sys, 0, 0, 0, 2) == MAX_DRAW;
    assert KidSum(sys, 0, 0, 0, 3) == 2 * MAX_DRAW;
    assert KidSum(sys, 0, 0, 0, 4) == 3 * MAX_DRAW;
  }

  // ---- the rounding error ------------------------------------------------------------------------

  ghost function Error(sys: Sys, n: nat, r: nat, j: nat): real
    requires sys.Ok() && n < sys.N()
  {
    Mean(sys, n, r, j) - TreeAvg(sys, n, r, j) as real
  }

  lemma InnerNode(sys: Sys, n: nat, r: nat, j: nat)
    requires sys.Ok() && n < sys.N() && NoOverflow(sys, n, r, j) && sys.Kids(n) > 0
    ensures TreeAvg(sys, n, r, j) == KidSum(sys, n, r, j, sys.N()) / sys.Kids(n)
    ensures Mean(sys, n, r, j) == MeanSum(sys, n, r, j, sys.N()) / sys.Kids(n) as real
    ensures Levels(sys, n) == 1 + KidLevels(sys, n, sys.N())
  {
    hide KidSum, MeanSum, KidLevels, Sys.KidsBelow, Sys.IsChild;
    Remainder(KidSum(sys, n, r, j, sys.N()), WORD);
  }

  lemma FloorBounds(sum: nat, kids: nat, d: nat)
    requires kids > 0
    ensures var q := sum / kids; q * kids <= sum && sum + d * kids < (q + d + 1) * kids
  {
    var q := sum / kids;
    assert sum == q * kids + sum % kids;
    assert (q + d + 1) * kids == q * kids + d * kids + kids;
  }

  lemma RealMul(a: real, b: real, k: real)
    requires k > 0.0
    ensures a < b <==> a * k < b * k
  {
    assert (b - a) * k == b * k - a * k;
  }

  lemma RealQuotient(exact: real, k: real, a: real, b: real)
    requires k > 0.0 && a * k <= exact < b * k
    ensures a <= exact / k < b
  {
    assert exact / k * k == exact;
    RealMul(exact / k, a, k);
    RealMul(exact / k, b, k);
  }

  lemma ProductAsReal(a: nat, b: nat)
    ensures (a * b) as real == a as real * b as real
  {
  }

  /** Dividing loses less than one; the error of the operands is averaged. */
  lemma DivisionError(exact: real, sum: nat, kids: nat, d: nat, slack: nat)
    requires kids > 0 && slack == d * kids
    requires sum as real <= exact <= sum as real + slack as real
    ensures 0.0 <= exact / (kids as real) - (sum / kids) as real < (d + 1) as real
  {
    var q := sum / kids;
    FloorBounds(sum, kids, d);
    ProductAsReal(q, kids);
    ProductAsReal(q + d + 1, kids);
    RealQuotient(exact, kids as real, q as real, (q + d + 1) as real);
  }

  /** The average is never above the exact mean, and short of it by less than the number of levels. */
  lemma {:induction false} RoundingError(sys: Sys, n: nat, r: nat, j: nat)
    requires sys.Ok() && n < sys.N() && NoOverflow(sys, n, r, j)
    ensures 0.0 <= Error(sys, n, r, j) <= Levels(sys, n) as real
    ensures Levels(sys, n) > 0 ==> Error(sys, n, r, j) < Levels(sys, n) as real
    decreases sys.N() - n, 1, 0
  {
    if sys.Kids(n) == 0 {
    } else {
      hide TreeAvg, Mean, Levels, NoOverflow, KidSum, MeanSum, KidLevels, Sys.KidsBelow;
      InnerNode(sys, n, r, j);
      var sum, kids, d := KidSum(sys, n, r, j, sys.N()), sys.Kids(n), KidLevels(sys, n, sys.N());
      SumError(sys, n, r, j, sys.N(), d);
      DivisionError(MeanSum(sys, n, r, j, sys.N()), sum, kids, d, d * kids);
    }
  }

  lemma MulStep(d: nat, x: nat)
    ensures d * (x + 1) == d * x + d
  {
  }

  lemma {:induction false} SumError(sys: Sys, n: nat, r: nat, j: nat, hi: nat, d: nat)
    requires sys.Ok() && n < sys.N() && hi <= sys.N() && NoOverflow(sys, n, r, j) && sys.Kids(n) > 0
    requires KidLevels(sys, n, hi) <= d
    ensures 0.0 <= MeanSum(sys, n, r, j, hi) - KidSum(sys, n, r, j, hi) as real
    ensures MeanSum(sys, n, r, j, hi) - KidSum(sys, n, r, j, hi) as real <= (d * sys.KidsBelow(n, hi)) as real
    decreases sys.N() - n, 0, hi
  {
    if hi == 0 {
    } else {
      SumError(sys, n, r, j, hi - 1, d);
      if sys.IsChild(hi - 1, n) {
        RoundingError(sys, hi - 1, r, j);
        MulStep(d, sys.KidsBelow(n, hi - 1));
      }
    }
  }

  /** In whole numbers: between floor(Mean) - (levels - 1) and floor(Mean). */
  lemma RoundingInIntegers(sys: Sys, n: nat, r: nat, j: nat)
    requires sys.Ok() && n < sys.N() && NoOverflow(sys, n, r, j) && sys.Kids(n) > 0
    ensures Mean(sys, n, r, j).Floor - (Levels(sys, n) - 1) <= TreeAvg(sys, n, r, j) <= Mean(sys, n, r, j).Floor
  {
    RoundingError(sys, n, r, j);
  }

  // ---- bounds by the leaves ----------------------------------------------------------------------

  /** Every producer below n drew a value in [lo, hi]. */
  ghost predicate LeavesWithin(sys: Sys, n: nat, r: nat, j: nat, lo: nat, hi: nat)
    requires sys.Ok() && n < sys.N()
    decreases sys.N() - n
  {
    if sys.Kids(n) == 0 then lo <= TreeAvg(sys, n, r, j) <= hi
    else forall c :: n < c < sys.N() && sys.IsChild(c, n) ==> LeavesWithin(sys, c, r, j, lo, hi)
  }

  lemma QuotientBetween(x: nat, kids: nat, lo: nat, hi: nat)
    requires kids > 0
    ensures x <= hi * kids ==> x / kids <= hi
    ensures x >= lo * kids ==> x / kids >= lo
  {
    var q := x / kids;
    assert x == q * kids + x % kids;
    MulMono(hi + 1, q, kids);
    MulMono(q + 1, lo, kids);
    assert (hi + 1) * kids == hi * kids + kids;
    assert (q + 1) * kids == q * kids + kids;
  }

  /** The average never exceeds the largest value; without overflow it is never below the smallest. */
  lemma {:induction false} AverageWithinLeaves(sys: Sys, n: nat, r: nat, j: nat, lo: nat, hi: nat)
    requires sys.Ok() && n < sys.N() && LeavesWithin(sys, n, r, j, lo, hi)
    ensures TreeAvg(sys, n, r, j) <= hi
    ensures NoOverflow(sys, n, r, j) ==> lo <= TreeAvg(sys, n, r, j)
    decreases sys.N() - n, 1, 0
  {
    if sys.Kids(n) == 0 {
    } else {
      SumWithinLeaves(sys, n, r, j, lo, hi, sys.N());
      var sum, kids := KidSum(sys, n, r, j, sys.N()), sys.Kids(n);
      QuotientBetween(sum % WORD, kids, lo, hi);
    }
  }

  lemma {:induction false} SumWithinLeaves(sys: Sys, n: nat, r: nat, j: nat, lo: nat, hi: nat, h: nat)
    requires sys.Ok() && n < sys.N() && h <= sys.N() && sys.Kids(n) > 0 && LeavesWithin(sys, n, r, j, lo, hi)
    ensures KidSum(sys, n, r, j, h) <= hi * sys.KidsBelow(n, h)
    ensures NoOverflow(sys, n, r, j) ==> lo * sys.KidsBelow(n, h) <= KidSum(sys, n, r, j, h)
    decreases sys.N() - n, 0, h
  {
    if h == 0 {
    } else {
      SumWithinLeaves(sys, n, r, j, lo, hi, h - 1);
      if sys.IsChild(h - 1, n) {
        assert LeavesWithin(sys, h - 1, r, j, lo, hi);
        assert NoOverflow(sys, n, r, j) ==> NoOverflow(sys, h - 1, r, j);
        hide LeavesWithin, NoOverflow, TreeAvg;
        AverageWithinLeaves(sys, h - 1, r, j, lo, hi);
        MulStep(hi, sys.KidsBelow(n, h - 1));
        MulStep(lo, sys.KidsBelow(n, h - 1));
      }
    }
  }

  // ---- trees that cannot overflow ------------------------------------------------------------------

  /** No node at or below n has more than f children. */
  ghost predicate FanOutWithin(sys: Sys, n: nat, f: nat)
    requires sys.Ok() && n < sys.N()
    decreases sys.N() - n
  {
    && sys.Kids(n) <= f
    && forall c :: n < c < sys.N() && sys.IsChild(c, n) ==> FanOutWithin(sys, c, f)
  }

  /** As many of the largest values as there are children anywhere stay below 2^64: nothing overflows. */
  lemma {:induction false} NoSumOverflows(sys: Sys, n: nat, r: nat, j: nat, hi: nat, f: nat)
    requires sys.Ok() && n < sys.N() && LeavesWithin(sys, n, r, j, 0, hi) && FanOutWithin(sys, n, f) && f * hi < WORD
    ensures NoOverflow(sys, n, r, j)
    decreases sys.N() - n
  {
    hide TreeAvg, KidSum, Sys.KidsBelow;
    if sys.Kids(n) == 0 {
    } else {
      SumWithinLeaves(sys, n, r, j, 0, hi, sys.N());
      MulMono(sys.Kids(n), f, hi);
      forall c | n < c < sys.N() && sys.IsChild(c, n)
        ensures NoOverflow(sys, c, r, j)
      {
        NoSumOverflows(sys, c, r, j, hi, f);
      }
    }
  }

  lemma {:induction false} FanOutIsBounded(sys: Sys, n: nat)
    requires sys.Ok() && n < sys.N()
    ensures FanOutWithin(sys, n, 255)
    decreases sys.N() - n
  {
    forall c | n < c < sys.N() && sys.IsChild(c, n)
      ensures FanOutWithin(sys, c, 255)
    {
      FanOutIsBounded(sys, c);
    }
  }

  /** Values below 2^56 cannot overflow: there are at most 255 of them in a sum. */
  lemma SmallLeavesDoNotOverflow(sys: Sys, n: nat, r: nat, j: nat, hi: nat)
    requires sys.Ok() && n < sys.N() && LeavesWithin(sys, n, r, j, 0, hi) && hi < 0x100_0000_0000_0000
    ensures NoOverflow(sys, n, r, j)
  {
    FanOutIsBounded(sys, n);
    NoSumOverflows(sys, n, r, j, hi, 255);
  }

  /** What producers draw cannot overflow a tree in which no node has more than two children. */
  lemma NarrowTreesDoNotOverflow(sys: Sys, n: nat, r: nat, j: nat)
    requires sys.Ok() && n < sys.N() && LeavesWithin(sys, n, r, j, 0, MAX_DRAW) && FanOutWithin(sys, n, 2)
    ensures NoOverflow(sys, n, r, j)
  {
    NoSumOverflows(sys, n, r, j, MAX_DRAW, 2);
  }

  lemma NoChildren(sys: Sys, n: nat)
    requires sys.Kids(n) == 0
    ensures forall c :: 0 <= c < sys.N() ==> !sys.IsChild(c, n)
  {
    forall c | 0 <= c < sys.N()
      ensures !sys.IsChild(c, n)
    {
      if sys.IsChild(c, n) {
        ChildMeansKids(sys, n, c, sys.N());
      }
    }
  }

  lemma {:induction false} AtMaximumNarrow(sys: Sys, n: nat, r: nat, j: nat)
    requires sys.Ok() && n < sys.N() && LeavesWithin(sys, n, r, j, MAX_DRAW, MAX_DRAW) && NoOverflow(sys, n, r, j)
    ensures FanOutWithin(sys, n, 2)
    decreases sys.N() - n
  {
    if sys.Kids(n) == 0 {
      NoChildren(sys, n);
    } else {
      SumWithinLeaves(sys, n, r, j, MAX_DRAW, MAX_DRAW, sys.N());
      hide TreeAvg, KidSum, Sys.KidsBelow;
      assert sys.Kids(n) <= 2;
      forall c | n < c < sys.N() && sys.IsChild(c, n)
        ensures FanOutWithin(sys, c, 2)
      {
        AtMaximumNarrow(sys, c, r, j);
      }
    }
  }

  lemma {:induction false} MoreRoom(sys: Sys, n: nat, r: nat, j: nat, lo: nat, hi: nat)
    requires sys.Ok() && n < sys.N() && LeavesWithin(sys, n, r, j, lo, hi)
    ensures LeavesWithin(sys, n, r, j, 0, hi)
    decreases sys.N() - n
  {
    forall c | n < c < sys.N() && sys.IsChild(c, n) && sys.Kids(n) > 0
      ensures LeavesWithin(sys, c, r, j, 0, hi)
    {
      MoreRoom(sys, c, r, j, lo, hi);
    }
  }

  /** When all producers draw the largest number, no sum overflows if and only if no node has more than
      two children. */
  lemma LargestDrawsOverflowIff(sys: Sys, n: nat, r: nat, j: nat)
    requires sys.Ok() && n < sys.N() && LeavesWithin(sys, n, r, j, MAX_DRAW, MAX_DRAW)
    ensures NoOverflow(sys, n, r, j) <==> FanOutWithin(sys, n, 2)
  {
    hide LeavesWithin, NoOverflow, FanOutWithin;
    MoreRoom(sys, n, r, j, MAX_DRAW, MAX_DRAW);
    if FanOutWithin(sys, n, 2) {
      NarrowTreesDoNotOverflow(sys, n, r, j);
    } else if NoOverflow(sys, n, r, j) {
      AtMaximumNarrow(sys, n, r, j);
    }
  }

  // ---- balanced trees ----------------------------------------------------------------------------

  /** Producers below n. */
  ghost function Leaves(sys: Sys, n: nat): nat
    requires sys.Ok() && n < sys.N()
    decreases sys.N() - n, 1, 0
  {
    if sys.Kids(n) == 0 then 1 else KidLeaves(sys, n, sys.N())
  }

  ghost function KidLeaves(sys: Sys, n: nat, hi: nat): nat
    requires sys.Ok() && n < sys.N() && hi <= sys.N()
    decreases sys.N() - n, 0, hi
  {
    if hi == 0 then 0
    else KidLeaves(sys, n, hi - 1) + if sys.IsChild(hi - 1, n) then Leaves(sys, hi - 1) else 0
  }

  /** Sum of what the producers below n drew. */
  ghost function LeafTotal(sys: Sys, n: nat, r: nat, j: nat): nat
    requires sys.Ok() && n < sys.N()
    decreases sys.N() - n, 1, 0
  {
    if sys.Kids(n) == 0 then TreeAvg(sys, n, r, j) else KidTotal(sys, n, r, j, sys.N())
  }

  ghost function KidTotal(sys: Sys, n: nat, r: nat, j: nat, hi: nat): nat
    requires sys.Ok() && n < sys.N() && hi <= sys.N()
    decreases sys.N() - n, 0, hi
  {
    if hi == 0 then 0
    else KidTotal(sys, n, r, j, hi - 1) + if sys.IsChild(hi - 1, n) then LeafTotal(sys, hi - 1, r, j) else 0
  }

  /** Siblings stand for equally many producers. */
  ghost predicate Balanced(sys: Sys, n: nat)
    requires sys.Ok() && n < sys.N()
    decreases sys.N() - n
  {
    && (forall c, d :: n < c < sys.N() && n < d < sys.N() && sys.IsChild(c, n) && sys.IsChild(d, n) ==>
          Leaves(sys, c) == Leaves(sys, d))
    && forall c :: n < c < sys.N() && sys.IsChild(c, n) ==> Balanced(sys, c)
  }

  lemma {:induction false} EqualLeaves(sys: Sys, n: nat, hi: nat, each: nat)
    requires sys.Ok() && n < sys.N() && hi <= sys.N()
    requires forall c :: n < c < sys.N() && sys.IsChild(c, n) ==> Leaves(sys, c) == each
    ensures KidLeaves(sys, n, hi) == each * sys.KidsBelow(n, hi)
  {
    if hi == 0 {
    } else {
      EqualLeaves(sys, n, hi - 1, each);
      MulStep(each, sys.KidsBelow(n, hi - 1));
    }
  }

  /** m is num / den. */
  ghost predicate IsRatio(m: real, num: nat, den: nat) {
    m * den as real == num as real
  }

  lemma AddScaled(a: real, s: nat, b: real, t: nat, k: nat)
    requires IsRatio(a, s, k) && IsRatio(b, t, k)
    ensures IsRatio(a + b, s + t, k)
  {
  }

  lemma {:induction false} BalancedSums(sys: Sys, n: nat, r: nat, j: nat, hi: nat, each: nat)
    requires sys.Ok() && n < sys.N() && hi <= sys.N() && Balanced(sys, n)
    requires forall c :: n < c < sys.N() && sys.IsChild(c, n) ==> Leaves(sys, c) == each
    ensures IsRatio(MeanSum(sys, n, r, j, hi), KidTotal(sys, n, r, j, hi), each)
    decreases sys.N() - n, 0, hi
  {
    if hi == 0 {
    } else {
      BalancedSums(sys, n, r, j, hi - 1, each);
      if sys.IsChild(hi - 1, n) {
        BalancedMean(sys, hi - 1, r, j);
        AddScaled(MeanSum(sys, n, r, j, hi - 1), KidTotal(sys, n, r, j, hi - 1),
                  Mean(sys, hi - 1, r, j), LeafTotal(sys, hi - 1, r, j), each);
      }
    }
  }

  lemma Cancel(x: real, e: nat, kids: nat, leaves: nat, total: nat)
    requires kids > 0 && leaves == e * kids && IsRatio(x, total, e)
    ensures IsRatio(x / kids as real, total, leaves)
  {
    var k := kids as real;
    ProductAsReal(e, kids);
    assert x / k * k == x;
    assert x / k * (e as real * k) == (x / k * k) * e as real;
  }

  /** In a balanced tree the nested mean is the flat mean of all producers. */
  lemma {:induction false} BalancedMean(sys: Sys, n: nat, r: nat, j: nat)
    requires sys.Ok() && n < sys.N() && Balanced(sys, n)
    ensures IsRatio(Mean(sys, n, r, j), LeafTotal(sys, n, r, j), Leaves(sys, n))
    decreases sys.N() - n, 1, 0
  {
    if sys.Kids(n) == 0 {
    } else {
      var c := SomeChild(sys, n, sys.N());
      assert n < c;
      BalancedSums(sys, n, r, j, sys.N(), Leaves(sys, c));
      EqualLeaves(sys, n, sys.N(), Leaves(sys, c));
      Cancel(MeanSum(sys, n, r, j, sys.N()), Leaves(sys, c), sys.Kids(n), Leaves(sys, n), LeafTotal(sys, n, r, j));
    }
  }

  lemma Divide(m: real, l: real, t: real)
    requires l > 0.0 && m * l == t
    ensures t / l == m
  {
    assert t / l * l == t;
    RealMul(t / l, m, l);
    RealMul(m, t / l, l);
  }

  lemma {:induction false} KidLeavesInclude(sys: Sys, n: nat, c: nat, hi: nat)
    requires sys.Ok() && n < sys.N() && c < hi <= sys.N() && sys.IsChild(c, n)
    ensures KidLeaves(sys, n, hi) >= Leaves(sys, c)
  {
    if c == hi - 1 {
    } else {
      KidLeavesInclude(sys, n, c, hi - 1);
    }
  }

  lemma {:induction false} LeavesPositive(sys: Sys, n: nat)
    requires sys.Ok() && n < sys.N()
    ensures Leaves(sys, n) > 0
    decreases sys.N() - n
  {
    if sys.Kids(n) == 0 {
    } else {
      var c := SomeChild(sys, n, sys.N());
      LeavesPositive(sys, c);
      KidLeavesInclude(sys, n, c, sys.N());
    }
  }

  /** Without overflow the result of a balanced tree is the floor of the flat mean, or below it by
      fewer than its levels. */
  lemma FlatMeanError(sys: Sys, n: nat, r: nat, j: nat)
    requires sys.Ok() && n < sys.N() && Balanced(sys, n) && NoOverflow(sys, n, r, j)
    requires sys.Kids(n) > 0
    ensures Leaves(sys, n) > 0
    ensures var flat := LeafTotal(sys, n, r, j) as real / Leaves(sys, n) as real;
            flat.Floor - (Levels(sys, n) - 1) <= TreeAvg(sys, n, r, j) <= flat.Floor
  {
    hide Leaves, LeafTotal, Levels, TreeAvg, Mean, Balanced, NoOverflow, Sys.Ok, Sys.KidsBelow;
    LeavesPositive(sys, n);
    BalancedMean(sys, n, r, j);
    RoundingInIntegers(sys, n, r, j);
    var l := Leaves(sys, n) as real;
    Divide(Mean(sys, n, r, j), l, LeafTotal(sys, n, r, j) as real);
  }
}
