/** What the comparison bits say about the real-valued distances, and the normalised threshold test. */
module Normalised {
  import opened Words
  import opened Rep3
  import opened Sessions
  import opened Conversions
  import opened Ops
  import opened Products
  import opened Distances

  /** The normalised distance of code dot product c and mask dot product m. */
  function NormalisedDistance(c: real, m: real): (r: real)
    requires m != 0.0
  {
    0.45 - (0.45 - (m - c) / (2.0 * m)) * (m / 16384.0 + 0.45)
  }

  // ----- real division -------------------------------------------------------------------------

  lemma Quotient(x: real, y: real)
    requires y != 0.0
    ensures (x / y) * y == x
  {
  }

  lemma MulPositive(x: real, y: real)
    requires y > 0.0
    ensures x * y > 0.0 <==> x > 0.0
  {
    if x <= 0.0 {
      assert x * y <= 0.0;
    }
  }

  /** Fractions with positive denominators compare by cross multiplication. */
  lemma CrossLess(p: real, m: real, q: real, n: real)
    requires m > 0.0 && n > 0.0
    ensures p / m < q / n <==> p * n < q * m
  {
    Quotient(p, m);
    Quotient(q, n);
    var d := q / n - p / m;
    assert (d * n) * m == q * m - p * n by {
      Scaled(d, q / n, p / m, m, n);
    }
    MulPositive(d, n);
    MulPositive(d * n, m);
  }

  lemma Scaled(d: real, u: real, v: real, m: real, n: real)
    requires d == u - v
    ensures (d * n) * m == (u * n) * m - (v * m) * n
  {
    assert d * n == u * n - v * n;
    assert (v * n) * m == (v * m) * n;
  }

  // ----- the comparisons order the real distances ------------------------------------------------

  lemma RealProduct(x: int, y: int)
    ensures (x * y) as real == x as real * y as real
  {
  }

  lemma RealDifference(a: int, b: int, c: int, d: int)
    ensures a * b - c * d < 0 <==> a as real * b as real < c as real * d as real
  {
    RealProduct(a, b);
    RealProduct(c, d);
  }

  /** A smaller fractional Hamming distance is a larger code / mask. */
  lemma FhdLessMeaning(c1: int, m1: int, c2: int, m2: int)
    requires m1 > 0 && m2 > 0
    ensures Fhd.Less(c1, m1, c2, m2) <==> c1 as real / m1 as real > c2 as real / m2 as real
  {
    FhdForm(c1, m1, c2, m2);
    RealDifference(c2, m1, c1, m2);
    CrossLess(c2 as real, m2 as real, c1 as real, m1 as real);
  }

  lemma HalfFraction(c: real, m: real)
    requires m > 0.0
    ensures (m - c) / (2.0 * m) == 0.5 - 0.5 * (c / m)
  {
    Quotient(c, m);
    var q := c / m;
    assert (0.5 - 0.5 * q) * (2.0 * m) == m - c by {
      assert (0.5 - 0.5 * q) * (2.0 * m) == m - q * m;
    }
    DivideBy(m - c, 0.5 - 0.5 * q, 2.0 * m);
  }

  lemma DivideBy(x: real, q: real, y: real)
    requires y != 0.0 && q * y == x
    ensures x / y == q
  {
  }

  function RealScore(c: real, m: real): (r: real) {
    m * (m - c * 10.0) - c * 73728.0
  }

  /** The normalised distance is an increasing affine function of score / mask. */
  lemma DistanceIsAffine(c: real, m: real)
    requires m > 0.0
    ensures NormalisedDistance(c, m) == 0.4725 + (RealScore(c, m) / m) / 327680.0
  {
    HalfFraction(c, m);
    Quotient(c, m);
    var q := c / m;
    DivideBy(RealScore(c, m), (m - c * 10.0) - q * 73728.0, m) by {
      ScoreFactor(c, m, q);
    }
    ExpandDistance(c, m, q);
  }

  lemma ScoreFactor(c: real, m: real, q: real)
    requires q * m == c
    ensures ((m - c * 10.0) - q * 73728.0) * m == RealScore(c, m)
  {
    assert (q * 73728.0) * m == c * 73728.0;
  }

  lemma ExpandDistance(c: real, m: real, q: real)
    requires q * m == c
    ensures 0.45 - (0.45 - (0.5 - 0.5 * q)) * (m / 16384.0 + 0.45) == 0.4725 + ((m - c * 10.0) - q * 73728.0) / 327680.0
  {
    assert (0.45 - (0.5 - 0.5 * q)) * (m / 16384.0 + 0.45)
        == -0.05 * (m / 16384.0) - 0.0225 + 0.5 * (q * m) / 16384.0 + 0.225 * q;
  }

  lemma NhdRealScore(c: int, m: int)
    ensures RealScore(c as real, m as real) == Nhd.Score(c, m) as real
  {
    RealProduct(m, m - c * 10);
  }

  /** The 48-bit comparison orders by the normalised distance. */
  lemma NhdLessMeaning(c1: int, m1: int, c2: int, m2: int)
    requires m1 > 0 && m2 > 0
    ensures Nhd.Less(c1, m1, c2, m2)
       <==> NormalisedDistance(c1 as real, m1 as real) < NormalisedDistance(c2 as real, m2 as real)
  {
    var s1, s2 := Nhd.Score(c1, m1), Nhd.Score(c2, m2);
    DistanceIsAffine(c1 as real, m1 as real);
    DistanceIsAffine(c2 as real, m2 as real);
    NhdRealScore(c1, m1);
    NhdRealScore(c2, m2);
    RealDifference(s1, m2, s2, m1);
    CrossLess(s1 as real, m1 as real, s2 as real, m2 as real);
  }

  // ----- threshold ------------------------------------------------------------------------------------

  /** mask * (50 * code - 5 * mask) - (774144 - t) * mask + 368640 * code, where t = 25 * 2^16 * threshold. */
  function ThresholdPolynomial(code: int, mask: int, t: int): (r: int) {
    mask * (code * 50 - mask * 5) - mask * (774144 - t) + code * 368640
  }

  /** The plaintext rule of match for Hamming distance hd. */
  predicate PlaintextIsMatch(hd: int, mask: int, t: int) {
    mask * (100 * hd - 45 * mask) + (405504 - t) * mask + 737280 * hd < 0
  }

  lemma PolynomialIsScore(code: int, mask: int, t: int)
    ensures ThresholdPolynomial(code, mask, t) == -5 * Nhd.Score(code, mask) - mask * (774144 - t)
  {
    assert mask * (code * 50 - mask * 5) == -5 * (mask * (mask - code * 10));
  }

  /** The polynomial is negative exactly for distances above the threshold t / (25 * 2^16). */
  lemma ThresholdMeaning(code: int, mask: int, t: int)
    requires mask > 0
    ensures ThresholdPolynomial(code, mask, t) < 0
       <==> NormalisedDistance(code as real, mask as real) > t as real / 1638400.0
  {
    var c, m, s := code as real, mask as real, Nhd.Score(code, mask) as real;
    PolynomialIsScore(code, mask, t);
    DistanceIsAffine(c, m);
    NhdRealScore(code, mask);
    RealProduct(mask, 774144 - t);
    var q := s / m;
    Quotient(s, m);
    var d := 5.0 * q + (774144.0 - t as real);
    assert d * m == 5.0 * s + m * (774144.0 - t as real) by {
      assert d * m == 5.0 * (q * m) + (774144.0 - t as real) * m;
    }
    MulPositive(d, m);
  }

  /** At code = mask - 2 * hd the plaintext polynomial is the shared one negated. */
  lemma PlaintextIsNegated(hd: int, mask: int, t: int)
    ensures PlaintextIsMatch(hd, mask, t) <==> ThresholdPolynomial(mask - 2 * hd, mask, t) > 0
  {
    var h := mask * (100 * hd - 45 * mask);
    assert mask * ((mask - 2 * hd) * 50 - mask * 5) == -h by {
      assert (mask - 2 * hd) * 50 - mask * 5 == -(100 * hd - 45 * mask);
    }
    assert mask * (774144 - t) == (405504 - t) * mask + 368640 * mask by {
      assert (405504 - t) * mask + 368640 * mask == (774144 - t) * mask;
    }
  }

  /** So shared and plaintext tests are complementary except where the polynomial vanishes. */
  lemma TestsComplementary(hd: int, mask: int, t: int)
    ensures var p := ThresholdPolynomial(mask - 2 * hd, mask, t);
      ((p < 0) == !PlaintextIsMatch(hd, mask, t)) <==> p != 0
  {
    PlaintextIsNegated(hd, mask, t);
  }

  /** One such point within the bounds: mask 2, Hamming distance 1. Both tests say no. */
  lemma BothTestsSayNo()
    ensures Nhd.Bounded(2 - 2 * 1, 2) && ThresholdPolynomial(2 - 2 * 1, 2, 774154) == 0
    ensures !(ThresholdPolynomial(2 - 2 * 1, 2, 774154) < 0) && !PlaintextIsMatch(1, 2, 774154)
  {
  }

  lemma PolynomialInRange(code: int, mask: int, t: int)
    requires Nhd.Bounded(code, mask) && 0 <= t <= 0x1_0000_0000
    ensures InRange(ThresholdPolynomial(code, mask, t), 48)
  {
    Pow2Values();
    PolynomialIsScore(code, mask, t);
    NhdScoreBound(code, mask);
    AbsProduct(mask, 774144 - t, 0x4000, 0x1_0000_0000);
  }

  // ----- the protocol -----------------------------------------------------------------------------------

  /** 50 * code - 5 * mask */
  function ThresholdLinears(d: seq<Distance>, k: nat): (r: Vec)
    ensures |r| == |d|
    ensures forall j :: 0 <= j < |d| ==>
      r[j] == SubShared(ScaleShared(d[j].code, 50, k), ScaleShared(d[j].mask, 5, k), k)
  {
    seq(|d|, j requires 0 <= j < |d| => SubShared(ScaleShared(d[j].code, 50, k), ScaleShared(d[j].mask, 5, k), k))
  }

  ghost function ThresholdLinearsOf(d: seq<Distance>, k: nat): (r: seq<int>)
    requires k >= 1
    ensures |r| == |d| && forall j :: 0 <= j < |d| ==> r[j] == CodeOf(d[j], k) * 50 - MaskOf(d[j], k) * 5
  {
    seq(|d|, j requires 0 <= j < |d| => CodeOf(d[j], k) * 50 - MaskOf(d[j], k) * 5)
  }

  lemma ThresholdLinearsHold(d: seq<Distance>, k: nat)
    requires k >= 1
    ensures HoldAll(ThresholdLinears(d, k), ThresholdLinearsOf(d, k), k)
  {
    forall j | 0 <= j < |d|
      ensures Holds(ThresholdLinears(d, k)[j], ThresholdLinearsOf(d, k)[j], k)
    {
      SignedHolds(d[j].code, k);
      SignedHolds(d[j].mask, k);
      HoldsScale(d[j].code, CodeOf(d[j], k), 50, k);
      HoldsScale(d[j].mask, MaskOf(d[j], k), 5, k);
      HoldsSub(ScaleShared(d[j].code, 50, k), ScaleShared(d[j].mask, 5, k), CodeOf(d[j], k) * 50, MaskOf(d[j], k) * 5,
               k);
    }
  }

  /** product - A * mask + 368640 * code, with A reduced into the ring */
  function ThresholdShare(product: Shared<nat>, d: Distance, a: nat, k: nat): (r: Shared<nat>)
    ensures InRing(r, k)
  {
    AddShared(SubShared(product, ScaleShared(d.mask, a, k), k), ScaleShared(d.code, 368640, k), k)
  }

  lemma ThresholdShareHolds(product: Shared<nat>, d: Distance, t: int, k: nat)
    requires k >= 1 && Holds(product, MaskOf(d, k) * (CodeOf(d, k) * 50 - MaskOf(d, k) * 5), k)
    ensures Holds(ThresholdShare(product, d, (774144 - t) % Pow2(k), k),
                  ThresholdPolynomial(CodeOf(d, k), MaskOf(d, k), t), k)
  {
    var c, m := CodeOf(d, k), MaskOf(d, k);
    var a := (774144 - t) % Pow2(k);
    SignedHolds(d.code, k);
    SignedHolds(d.mask, k);
    HoldsScaleResidue(d.mask, m, 774144 - t, k);
    HoldsScale(d.code, c, 368640, k);
    HoldsSub(product, ScaleShared(d.mask, a, k), m * (c * 50 - m * 5), m * (774144 - t), k);
    HoldsAdd(SubShared(product, ScaleShared(d.mask, a, k), k), ScaleShared(d.code, 368640, k),
             m * (c * 50 - m * 5) - m * (774144 - t), c * 368640, k);
  }

  function ThresholdShares(products: Vec, d: seq<Distance>, a: nat, k: nat): (r: Vec)
    requires |products| == |d|
    ensures |r| == |d| && AllInRing(r, k)
    ensures forall j :: 0 <= j < |d| ==> r[j] == ThresholdShare(products[j], d[j], a, k)
  {
    seq(|d|, j requires 0 <= j < |d| => ThresholdShare(products[j], d[j], a, k))
  }

  ghost predicate AreAboveThreshold(bits: Plane, d: seq<Distance>, t: int) {
    && |bits| == |d|
    && forall j :: 0 <= j < |d| && BoundedDistance(d[j], Nhd) && 0 <= t <= 0x1_0000_0000 ==>
      (OpenBit(bits[j]) <==> ThresholdPolynomial(CodeOf(d[j], 48), MaskOf(d[j], 48), t) < 0)
  }

  lemma SignsAreAbove(bits: Plane, results: Vec, products: Vec, d: seq<Distance>, t: int, k: nat)
    requires k == 48 && |products| == |d| == |bits|
    requires results == ThresholdShares(products, d, (774144 - t) % Pow2(k), k)
    requires HoldAll(products, ProductValues(MasksOf(d, k), ThresholdLinearsOf(d, k)), k) && AreMsbs(bits, results, k)
    ensures AreAboveThreshold(bits, d, t)
  {
    forall j | 0 <= j < |d| && BoundedDistance(d[j], Nhd) && 0 <= t <= 0x1_0000_0000
      ensures OpenBit(bits[j]) <==> ThresholdPolynomial(CodeOf(d[j], k), MaskOf(d[j], k), t) < 0
    {
      ProductAt(products, MasksOf(d, k), ThresholdLinearsOf(d, k), k, j);
      SignIsAbove(results[j], products[j], d[j], t, k);
    }
  }

  lemma SignIsAbove(result: Shared<nat>, product: Shared<nat>, d: Distance, t: int, k: nat)
    requires k == 48 && BoundedDistance(d, Nhd) && 0 <= t <= 0x1_0000_0000
    requires result == ThresholdShare(product, d, (774144 - t) % Pow2(k), k)
    requires Holds(product, MaskOf(d, k) * (CodeOf(d, k) * 50 - MaskOf(d, k) * 5), k)
    ensures Bit(Open(result, k), k - 1) <==> ThresholdPolynomial(CodeOf(d, k), MaskOf(d, k), t) < 0
  {
    ThresholdShareHolds(product, d, t, k);
    PolynomialInRange(CodeOf(d, k), MaskOf(d, k), t);
    HoldsSign(result, ThresholdPolynomial(CodeOf(d, k), MaskOf(d, k), t), k);
  }

  /** One shared bit per distance: above the threshold t / (25 * 2^16)? */
  method NhdGreaterThanThreshold(net: Network, d: seq<Distance>, t: nat) returns (bits: Plane)
    requires net.Quiet()
    modifies net
    ensures net.Quiet() && AreAboveThreshold(bits, d, t)
  {
    var k := 48;
    ReadingsHold(d, k);
    ThresholdLinearsHold(d, k);
    var products := PairwiseProducts(net, MaskShares(d), ThresholdLinears(d, k), k, MasksOf(d, k),
                                     ThresholdLinearsOf(d, k));
    var results := ThresholdShares(products, d, (774144 - t) % Pow2(k), k);
    bits := ExtractMsbBatch(net, results, k);
    SignsAreAbove(bits, results, products, d, t, k);
  }
}
