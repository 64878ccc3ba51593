/** Rounding to binary32 and the growth policy of EString (fixed_string.h:100).

    A non-negative value is a number of units; `Round` keeps 24 significant bits and breaks
    ties to even (section 4.3.1 of IEEE 754-2008).  Both arms of the conditional have type
    float, by the usual arithmetic conversions (section 5.16 of C++11). */
module Binary32 {

  const TWO24 := 0x100_0000
  const TWO44 := 0x1000_0000_0000

  /** Spacing of the binary32 numbers around n. */
  function Ulp(n: nat): (u: nat)
    ensures u > 0
  {
    if n < TWO24 then 1 else 2 * Ulp(n / 2)
  }

  predicate RoundsDown(n: nat) {
    var u, r := Ulp(n), n % Ulp(n);
    2 * r < u || (2 * r == u && (n / u) % 2 == 0)
  }

  function Round(n: nat): nat {
    var u := Ulp(n);
    if RoundsDown(n) then n - n % u else n - n % u + u
  }

  /** `size_t(size >= 4000000 ? (size + 1000000) : (size * 1.25f + 1))`; the products and sums of
      the second arm are multiples of a quarter, so they are counted in quarters. */
  function Grow(size: nat): nat {
    if size >= 4_000_000 then Round(size + 1_000_000)
    else Round(Round(5 * Round(size)) + 4) / 4
  }

  function Pow2(e: nat): (p: nat)
    ensures p > 0
  {
    if e == 0 then 1 else 2 * Pow2(e - 1)
  }

  lemma {:induction false} UlpIs(n: nat, e: nat)
    requires TWO24 * Pow2(e) > n && (e > 0 ==> n >= TWO24 / 2 * Pow2(e))
    ensures Ulp(n) == Pow2(e)
  {
    if e > 0 {
      UlpIs(n / 2, e - 1);
    }
  }

  lemma {:induction false} UlpAtMost(n: nat, e: nat)
    requires TWO24 * Pow2(e) > n
    ensures Ulp(n) <= Pow2(e)
  {
    if n >= TWO24 {
      UlpAtMost(n / 2, e - 1);
    }
  }

  /** Rounding moves a number by at most half a unit in the last place. */
  lemma RoundNear(n: nat)
    ensures n - Round(n) <= Ulp(n) / 2 && Round(n) - n <= Ulp(n) / 2
  {
    hide Ulp;
    assert 0 <= n % Ulp(n) < Ulp(n);
  }

  // ------------------------------------------------------------ rounding to nearest

  /** m units of 2^e. */
  function Times(m: nat, e: nat): nat {
    if e == 0 then m else 2 * Times(m, e - 1)
  }

  lemma {:induction false} TimesIs(m: nat, e: nat)
    ensures Times(m, e) == m * Pow2(e)
  {
    if e > 0 {
      TimesIs(m, e - 1);
      Shifted(m, Pow2(e - 1));
    }
  }

  lemma Shifted(m: nat, p: nat)
    ensures m * (2 * p) == 2 * (m * p)
  {}

  /** The numbers that 24 significant bits can hold. */
  ghost predicate Representable(r: nat) {
    exists m: nat, e: nat :: m < TWO24 && r == Times(m, e)
  }

  function Dist(a: nat, b: nat): nat {
    if a < b then b - a else a - b
  }

  /** Around n the representable numbers are 2^e apart. */
  predicate InBinade(n: nat, e: nat) {
    Times(TWO24 / 2, e) <= n < Times(TWO24, e)
  }

  /** Rounding to nearest, ties to even: no representable number is nearer, and of two that are
      equally near r is the one that is an even multiple of their distance. */
  ghost predicate Nearest(r: nat, n: nat) {
    && Representable(r)
    && (forall q :: Representable(q) ==> Dist(r, n) <= Dist(q, n))
    && (forall q, e: nat :: Representable(q) && q != r && Dist(q, n) == Dist(r, n) && InBinade(n, e) ==>
          exists j: nat :: r == Times(2 * j, e))
  }

  lemma {:induction false} Binade(n: nat) returns (e: nat)
    requires n >= TWO24
    ensures e > 0 && Ulp(n) == Pow2(e) && InBinade(n, e)
  {
    if n < 2 * TWO24 {
      e := 1;
      assert Ulp(n / 2) == 1;
      assert Pow2(0) == 1 && Pow2(1) == 2;
    } else {
      var f := Binade(n / 2);
      e := f + 1;
      assert Pow2(e) == 2 * Pow2(f);
    }
  }

  lemma {:induction false} MoreUnits(a: nat, b: nat, e: nat)
    requires a <= b
    ensures Times(a, e) <= Times(b, e)
  {
    if e > 0 {
      MoreUnits(a, b, e - 1);
    }
  }

  lemma {:induction false} WiderUnit(m: nat, e: nat, d: nat)
    ensures Times(m, e + d) == Times(Times(m, d), e) >= Times(m, e)
  {
    if e > 0 {
      WiderUnit(m, e - 1, d);
    } else {
      AtLeast(m, d);
    }
  }

  lemma {:induction false} AtLeast(m: nat, d: nat)
    ensures Times(m, d) >= m
  {
    if d > 0 {
      AtLeast(m, d - 1);
    }
  }

  lemma {:induction false} DoubleUnit(m: nat, e: nat)
    ensures Times(m, e + 1) == Times(2 * m, e)
  {
    if e > 0 {
      DoubleUnit(m, e - 1);
    }
  }

  /** Numbers of a lower binade lie below this one. */
  lemma LowerBinade(m: nat, f: nat, e: nat)
    requires m <= TWO24 && f < e
    ensures Times(m, f) <= Times(TWO24 / 2, e)
  {
    MoreUnits(m, TWO24, f);
    WiderUnit(TWO24, f, e - 1 - f);
    DoubleUnit(TWO24 / 2, e - 1);
  }

  lemma OneBinade(n: nat, e: nat, f: nat)
    requires InBinade(n, e) && InBinade(n, f)
    ensures e == f
  {
    hide Times;
    if e < f {
      LowerBinade(TWO24, e, f);
    } else if f < e {
      LowerBinade(TWO24, f, e);
    }
  }

  /** In its binade a representable number is a multiple of the unit. */
  lemma NoneBetween(q: nat, e: nat, k: nat)
    requires Representable(q) && k >= TWO24 / 2
    ensures q <= Times(k, e) || q >= Times(k + 1, e)
  {
    hide Times;
    var m: nat, f: nat :| m < TWO24 && q == Times(m, f);
    if f < e {
      LowerBinade(m, f, e);
      MoreUnits(TWO24 / 2, k, e);
    } else {
      WiderUnit(m, e, f - e);
      var j := Times(m, f - e);
      if j <= k {
        MoreUnits(j, k, e);
      } else {
        MoreUnits(k + 1, j, e);
      }
    }
  }

  lemma Neighbours(k: nat, e: nat)
    requires k < TWO24
    ensures Representable(Times(k, e)) && Representable(Times(k + 1, e))
  {
    hide Times;
    if k + 1 == TWO24 {
      DoubleUnit(TWO24 / 2, e);
      assert Times(TWO24 / 2, e + 1) == Times(k + 1, e);
    }
  }

  lemma {:induction false} OneUnit(k: nat, e: nat)
    ensures Times(k + 1, e) == Times(k, e) + Pow2(e)
  {
    if e > 0 {
      OneUnit(k, e - 1);
    }
  }

  /** What `Round` does, in units of the last place. */
  lemma RoundInUnits(n: nat, e: nat) returns (k: nat)
    requires Ulp(n) == Pow2(e)
    ensures Times(k, e) <= n < Times(k + 1, e) == Times(k, e) + Pow2(e)
    ensures var r := 2 * (n - Times(k, e));
            Round(n) == Times(if r < Pow2(e) || (r == Pow2(e) && k % 2 == 0) then k else k + 1, e)
  {
    hide Ulp, Pow2, Times;
    k := n / Pow2(e);
    TimesIs(k, e);
    OneUnit(k, e);
    assert n == k * Pow2(e) + n % Pow2(e);
  }

  lemma UnitsInBinade(n: nat, e: nat, k: nat)
    requires InBinade(n, e) && Times(k, e) <= n < Times(k + 1, e)
    ensures TWO24 / 2 <= k < TWO24
  {
    hide Times;
    if k < TWO24 / 2 {
      MoreUnits(k + 1, TWO24 / 2, e);
    } else if k >= TWO24 {
      MoreUnits(TWO24, k, e);
    }
  }

  /** Of the two ends of an interval the nearer one beats everything outside. */
  lemma NearerEnd(n: nat, lo: nat, hi: nat, up: bool, q: nat)
    requires lo <= n < hi && (q <= lo || q >= hi)
    requires if up then 2 * (n - lo) >= hi - lo else 2 * (n - lo) <= hi - lo
    ensures var r := if up then hi else lo;
            Dist(r, n) <= Dist(q, n) && (q != r && Dist(q, n) == Dist(r, n) ==> 2 * (n - lo) == hi - lo)
  {}

  lemma {:induction false} SmallIsNearest(n: nat)
    requires n < TWO24
    ensures Nearest(Round(n), n)
  {
    RoundExact(n);
    hide Round, Ulp;
    assert Pow2(0) == 1 && n == Times(n, 0);
  }

  /** The end of its unit that n is nearer to, or the even end, is nearest. */
  lemma EndIsNearest(n: nat, e: nat, k: nat, up: bool)
    requires InBinade(n, e) && TWO24 / 2 <= k < TWO24 && Times(k, e) <= n < Times(k + 1, e)
    requires var twice, unit := 2 * (n - Times(k, e)), Times(k + 1, e) - Times(k, e);
             if up then twice > unit || (twice == unit && k % 2 == 1) else twice < unit || (twice == unit && k % 2 == 0)
    ensures Nearest(Times(if up then k + 1 else k, e), n)
  {
    hide Times, Representable, Dist;
    Neighbours(k, e);
    var m := if up then k + 1 else k;
    var lo, hi := Times(k, e), Times(k + 1, e);
    forall q | Representable(q) ensures Dist(Times(m, e), n) <= Dist(q, n) {
      NoneBetween(q, e, k);
      NearerEnd(n, lo, hi, up, q);
    }
    forall q, f: nat | Representable(q) && q != Times(m, e) && Dist(q, n) == Dist(Times(m, e), n) && InBinade(n, f)
      ensures exists j: nat :: Times(m, e) == Times(2 * j, f)
    {
      NoneBetween(q, e, k);
      NearerEnd(n, lo, hi, up, q);
      OneBinade(n, e, f);
      assert m == 2 * (m / 2);
    }
  }

  /** `Round` rounds to nearest, ties to even. */
  lemma RoundIsNearest(n: nat)
    ensures Nearest(Round(n), n)
  {
    if n < TWO24 {
      SmallIsNearest(n);
    } else {
      hide Times, Round, Ulp, Pow2, Nearest;
      var e := Binade(n);
      var k := RoundInUnits(n, e);
      UnitsInBinade(n, e, k);
      var twice := 2 * (n - Times(k, e));
      EndIsNearest(n, e, k, twice > Pow2(e) || (twice == Pow2(e) && k % 2 == 1));
    }
  }

  lemma {:induction false} UlpSmall(n: nat)
    requires n > 0
    ensures Ulp(n) <= n
  {
    if n >= TWO24 {
      UlpSmall(n / 2);
    }
  }

  lemma RoundExact(n: nat)
    requires n < TWO24
    ensures Round(n) == n
  {}

  lemma RoundPair(n: nat)
    requires TWO24 <= n < 2 * TWO24
    ensures Round(n) % 2 == 0 && n - 1 <= Round(n) <= n + 1 && (n % 2 == 0 ==> Round(n) == n)
  {
    assert Ulp(n) == 2 * Ulp(n / 2) == 2;
  }

  lemma Powers()
    ensures Pow2(20) == 0x10_0000 && Pow2(21) == 0x20_0000
  {
    assert Pow2(4) == 16;
    assert Pow2(8) == 256;
    assert Pow2(12) == 4096;
    assert Pow2(16) == 0x1_0000;
  }

  /** What rounding may do to the last quarter leaves the whole part within one. */
  lemma Quarters(x: nat, f: nat)
    requires f == x + 4 || (f % 2 == 0 && x + 3 <= f <= x + 5)
    ensures x / 4 + 1 <= f / 4 <= x / 4 + 2
  {
    var k := x / 4;
    assert 4 * k <= x < 4 * k + 4;
    assert f != 4 * k + 3;
    WholePart(f, if f < 4 * k + 8 then k + 1 else k + 2);
  }

  lemma WholePart(f: nat, q: nat)
    requires 4 * q <= f < 4 * q + 4
    ensures f / 4 == q
  {}

  /** Below 4000000 the capacity is floor(5*size/4) plus one or two. */
  lemma SmallGrowth(size: nat)
    requires size < 4_000_000
    ensures 5 * size / 4 + 1 <= Grow(size) <= 5 * size / 4 + 2
  {
    hide Round;
    RoundExact(size);
    var x := 5 * size;
    var f := Round(Round(x) + 4);
    if x + 4 < TWO24 {
      RoundExact(x);
      RoundExact(x + 4);
    } else if x < TWO24 {
      RoundExact(x);
      RoundPair(x + 4);
    } else {
      RoundPair(x);
      RoundPair(Round(x) + 4);
    }
    assert Grow(size) == f / 4;
    Quarters(x, f);
  }

  /** At most one number is nearest. */
  lemma NearestUnique(a: nat, b: nat, n: nat)
    requires Nearest(a, n) && Nearest(b, n)
    ensures a == b
  {
    assert Dist(a, n) == Dist(b, n);
    RoundIsNearest(n);
    assert Dist(Round(n), n) == Dist(a, n);
    if n < TWO24 {
      RoundExact(n);
    } else if a != b {
      var e := Binade(n);
      RoundNear(n);
      hide Round, Ulp, Representable, Times;
      var i: nat :| a == Times(2 * i, e);
      var j: nat :| b == Times(2 * j, e);
      FarApart(i, j, e);
    }
  }

  lemma FarApart(i: nat, j: nat, e: nat)
    requires i != j
    ensures Dist(Times(2 * i, e), Times(2 * j, e)) >= 2 * Pow2(e)
  {
    hide Times;
    var a, b := if i < j then i else j, if i < j then j else i;
    OneUnit(2 * a, e);
    OneUnit(2 * a + 1, e);
    MoreUnits(2 * a + 2, 2 * b, e);
  }

  /** The growth in the arithmetic of IEEE 754: from 4000000 on, the request plus a million
      rounded once; below, the product with 1.25 is rounded, then the sum with 1, and the whole
      part is taken.  A quarter is the unit below 4000000. */
  lemma GrowthIs(size: nat) returns (product: nat, sum: nat)
    ensures size >= 4_000_000 ==> Nearest(Grow(size), size + 1_000_000)
    ensures size < 4_000_000 ==> Nearest(product, 5 * size) && Nearest(sum, product + 4) && Grow(size) == sum / 4
  {
    hide Round, Nearest;
    if size >= 4_000_000 {
      product, sum := 0, 0;
      RoundIsNearest(size + 1_000_000);
    } else {
      RoundExact(size);
      product, sum := Round(5 * size), Round(Round(5 * size) + 4);
      RoundIsNearest(5 * size);
      RoundIsNearest(product + 4);
    }
  }

  /** The request of 4000000 or more is rounded up, or down by less than the million added. */
  predicate Served(size: nat) {
    var n := size + 1_000_000;
    size < 4_000_000 || !RoundsDown(n) || n % Ulp(n) < 1_000_000
  }

  /** The exact condition: the capacity exceeds the request, and so leaves room for the
      terminator, if and only if the request is served. */
  lemma GrowthSufficesIff(size: nat)
    ensures Grow(size) > size <==> Served(size)
  {
    if size < 4_000_000 {
      SmallGrowth(size);
    } else {
      hide Ulp;
      assert 0 <= (size + 1_000_000) % Ulp(size + 1_000_000) < Ulp(size + 1_000_000);
    }
  }

  /** Whatever the request, there is room for at least one byte. */
  lemma GrowthPositive(size: nat)
    ensures Grow(size) > 0
  {
    if size < 4_000_000 {
      SmallGrowth(size);
    } else {
      hide Round, Ulp;
      RoundNear(size + 1_000_000);
      UlpSmall(size + 1_000_000);
    }
  }

  /** Every request below 2^44 is served. */
  lemma GrowthSuffices(size: nat)
    requires size < TWO44
    ensures Served(size) && Grow(size) > size
  {
    GrowthSufficesIff(size);
    if size >= 4_000_000 {
      var n := size + 1_000_000;
      Powers();
      if n < TWO44 {
        UlpAtMost(n, 20);
        RoundNear(n);
      } else {
        UlpIs(n, 21);
        assert n % 0x20_0000 == n - TWO44;
      }
    }
  }

  /** The least request that is not served is 2^44, which gets exactly 2^44; larger ones may be
      served again, such as 2^44 + 100000. */
  lemma GrowthFailsAtTwo44()
    ensures Grow(TWO44) == TWO44 && !Served(TWO44) && Served(TWO44 + 100_000)
  {
    var n := TWO44 + 1_000_000;
    Powers();
    UlpIs(n, 21);
    assert n % 0x20_0000 == 1_000_000;
    UlpIs(n + 100_000, 21);
    assert (n + 100_000) % 0x20_0000 == 1_100_000;
    assert 2 * 1_100_000 > 0x20_0000;
  }
}
