/** Comparing distances given as fractions: the plain fractional Hamming distance over 32 bits and
    the mask-normalised one over 48 bits. */
module Distances {
  import opened Words
  import opened Rep3
  import opened Sessions
  import opened Results
  import opened Gates
  import opened Injection
  import opened Conversions
  import opened Ops
  import opened Products

  datatype Metric = Fhd | Nhd {
    /** Width of the ring the distances are lifted to. */
    function Width(): (k: nat)
      ensures Sliceable(k)
    {
      if Fhd? then 32 else 48
    }

    /** Numerator of the distance over the mask, up to an increasing affine map. */
    function Score(code: int, mask: int): (r: int) {
      if Fhd? then -code else mask * (mask - code * 10) - code * 73728
    }

    /** Magnitudes for which the comparison cannot wrap. */
    predicate Bounded(code: int, mask: int) {
      0 < mask && (if Fhd? then mask < 0x8000 else mask <= 0x4000) && -mask <= code <= mask
    }

    /** Sign of score1 / mask1 - score2 / mask2. */
    function Difference(code1: int, mask1: int, code2: int, mask2: int): (r: int) {
      Score(code1, mask1) * mask2 - Score(code2, mask2) * mask1
    }

    predicate Less(code1: int, mask1: int, code2: int, mask2: int) {
      Difference(code1, mask1, code2, mask2) < 0
    }
  }

  // ----- no wrap in the ring ---------------------------------------------------------------

  lemma AbsProduct(x: int, y: int, a: int, b: int)
    requires -a <= x <= a && -b <= y <= b
    ensures -(a * b) <= x * y <= a * b
  {
    MulNonneg(a - x, b + y);
    MulNonneg(a + x, b - y);
    MulNonneg(a - x, b - y);
    MulNonneg(a + x, b + y);
    assert (a - x) * (b + y) + (a + x) * (b - y) == 2 * (a * b) - 2 * (x * y);
    assert (a - x) * (b - y) + (a + x) * (b + y) == 2 * (a * b) + 2 * (x * y);
  }

  lemma NhdScoreBound(code: int, mask: int)
    requires Nhd.Bounded(code, mask)
    ensures -253952 * mask <= Nhd.Score(code, mask) <= 253952 * mask
  {
    var l := mask - code * 10;
    MulNonneg(mask, 11 * 0x4000 - l);
    MulNonneg(mask, 11 * 0x4000 + l);
    assert mask * (11 * 0x4000 - l) == mask * (11 * 0x4000) - mask * l;
    assert mask * (11 * 0x4000 + l) == mask * (11 * 0x4000) + mask * l;
  }

  lemma ScoreBound(metric: Metric, code: int, mask: int, lim: int)
    requires metric.Bounded(code, mask) && lim == (if metric.Fhd? then 0x7fff else 253952 * 0x4000)
    ensures -lim <= metric.Score(code, mask) <= lim
  {
    if metric.Nhd? {
      NhdScoreBound(code, mask);
    }
  }

  /** 2 * mask^2 < 2^31 for the plain distance, mask^2 * (22 * mask + 147456) < 2^47 for the other. */
  lemma DifferenceInRange(metric: Metric, code1: int, mask1: int, code2: int, mask2: int)
    requires metric.Bounded(code1, mask1) && metric.Bounded(code2, mask2)
    ensures InRange(metric.Difference(code1, mask1, code2, mask2), metric.Width())
  {
    Pow2Values();
    var s, m := if metric.Fhd? then 0x7fff else 253952 * 0x4000, if metric.Fhd? then 0x7fff else 0x4000;
    ScoreBound(metric, code1, mask1, s);
    ScoreBound(metric, code2, mask2, s);
    AbsProduct(metric.Score(code1, mask1), mask2, s, m);
    AbsProduct(metric.Score(code2, mask2), mask1, s, m);
  }

  // ----- readings ---------------------------------------------------------------------------

  ghost function CodeOf(d: Distance, k: nat): (r: int)
    requires k >= 1
  {
    Signed(Open(d.code, k), k)
  }

  ghost function MaskOf(d: Distance, k: nat): (r: nat) {
    Open(d.mask, k)
  }

  lemma SignedHolds(s: Shared<nat>, k: nat)
    requires k >= 1
    ensures Holds(s, Signed(Open(s, k), k), k) && Holds(s, Open(s, k), k)
  {
    var x, m := Open(s, k), Pow2(k);
    DivModUnique(x, m, 0, x);
    if x >= Pow2(k - 1) {
      DivModUnique(x - m, m, -1, x);
    }
  }

  ghost function CodesOf(d: seq<Distance>, k: nat): (r: seq<int>)
    requires k >= 1
    ensures |r| == |d| && forall j :: 0 <= j < |d| ==> r[j] == CodeOf(d[j], k)
  {
    seq(|d|, j requires 0 <= j < |d| => CodeOf(d[j], k))
  }

  ghost function MasksOf(d: seq<Distance>, k: nat): (r: seq<int>)
    ensures |r| == |d| && forall j :: 0 <= j < |d| ==> r[j] == MaskOf(d[j], k)
  {
    seq(|d|, j requires 0 <= j < |d| => MaskOf(d[j], k))
  }

  function CodeShares(d: seq<Distance>): (r: Vec)
    ensures |r| == |d| && forall j :: 0 <= j < |d| ==> r[j] == d[j].code
  {
    seq(|d|, j requires 0 <= j < |d| => d[j].code)
  }

  function MaskShares(d: seq<Distance>): (r: Vec)
    ensures |r| == |d| && forall j :: 0 <= j < |d| ==> r[j] == d[j].mask
  {
    seq(|d|, j requires 0 <= j < |d| => d[j].mask)
  }

  lemma ReadingsHold(d: seq<Distance>, k: nat)
    requires k >= 1
    ensures HoldAll(CodeShares(d), CodesOf(d, k), k) && HoldAll(MaskShares(d), MasksOf(d, k), k)
  {
    forall j | 0 <= j < |d|
      ensures Holds(d[j].code, CodeOf(d[j], k), k) && Holds(d[j].mask, MaskOf(d[j], k), k)
    {
      SignedHolds(d[j].code, k);
      SignedHolds(d[j].mask, k);
    }
  }

  // ----- cross products ----------------------------------------------------------------------

  ghost predicate AreDifferences(out: Vec, first: seq<Distance>, second: seq<Distance>, metric: Metric) {
    var k := metric.Width();
    && |out| == |first| == |second| && AllInRing(out, k)
    && forall j :: 0 <= j < |out| ==> Holds(out[j], DifferenceOf(first[j], second[j], metric, k), k)
  }

  ghost function DifferenceOf(d1: Distance, d2: Distance, metric: Metric, k: nat): (r: int)
    requires k >= 1
  {
    metric.Difference(CodeOf(d1, k), MaskOf(d1, k), CodeOf(d2, k), MaskOf(d2, k))
  }

  /** code2 * mask1 - code1 * mask2 in one round. */
  method CrossMul(net: Network, first: seq<Distance>, second: seq<Distance>) returns (out: Vec)
    requires net.Quiet() && |first| == |second|
    modifies net
    ensures net.Quiet() && |net.calls| == |old(net.calls)| + 1
    ensures AreDifferences(out, first, second, Fhd)
  {
    var k := 32;
    ReadingsHold(first, k);
    ReadingsHold(second, k);
    out := CrossProducts(net, CodeShares(second), MaskShares(first), CodeShares(first), MaskShares(second), k,
                         CodesOf(second, k), MasksOf(first, k), CodesOf(first, k), MasksOf(second, k));
    FhdDifferences(out, first, second, k);
  }

  /** Values that are the differences, entry by entry. */
  ghost predicate AreDifferenceValues(w: seq<int>, first: seq<Distance>, second: seq<Distance>, metric: Metric, k: nat)
    requires k >= 1
  {
    && |w| == |first| == |second|
    && forall j :: 0 <= j < |w| ==> w[j] == DifferenceOf(first[j], second[j], metric, k)
  }

  lemma DifferencesHold(out: Vec, w: seq<int>, first: seq<Distance>, second: seq<Distance>, metric: Metric, k: nat)
    requires k == metric.Width() && AllInRing(out, k) && HoldAll(out, w, k)
    requires AreDifferenceValues(w, first, second, metric, k)
    ensures AreDifferences(out, first, second, metric)
  {
  }

  lemma FhdDifferences(out: Vec, first: seq<Distance>, second: seq<Distance>, k: nat)
    requires k == 32 && |first| == |second| && AllInRing(out, k)
    requires HoldAll(out, CrossValues(CodesOf(second, k), MasksOf(first, k), CodesOf(first, k), MasksOf(second, k)), k)
    ensures AreDifferences(out, first, second, Fhd)
  {
    FhdValues(first, second, k);
    var w := CrossValues(CodesOf(second, k), MasksOf(first, k), CodesOf(first, k), MasksOf(second, k));
    DifferencesHold(out, w, first, second, Fhd, k);
  }

  lemma FhdValues(first: seq<Distance>, second: seq<Distance>, k: nat)
    requires k >= 1 && |first| == |second|
    ensures var w := CrossValues(CodesOf(second, k), MasksOf(first, k), CodesOf(first, k), MasksOf(second, k));
      AreDifferenceValues(w, first, second, Fhd, k)
  {
    forall j | 0 <= j < |first|
      ensures CodeOf(second[j], k) * MaskOf(first[j], k) - CodeOf(first[j], k) * MaskOf(second[j], k)
           == DifferenceOf(first[j], second[j], Fhd, k)
    {
      FhdForm(CodeOf(first[j], k), MaskOf(first[j], k), CodeOf(second[j], k), MaskOf(second[j], k));
    }
  }

  lemma FhdForm(c1: int, m1: int, c2: int, m2: int)
    ensures Fhd.Difference(c1, m1, c2, m2) == c2 * m1 - c1 * m2
  {
  }

  // ----- the normalised distance -----------------------------------------------------------------

  function Interleave<T>(a: seq<T>, b: seq<T>): (r: seq<T>)
    requires |a| == |b|
    ensures |r| == 2 * |a|
    ensures forall j :: 0 <= j < |a| ==> r[2 * j] == a[j] && r[2 * j + 1] == b[j]
  {
    seq(2 * |a|, i requires 0 <= i < 2 * |a| => if i % 2 == 0 then a[i / 2] else b[i / 2])
  }

  lemma InterleaveHolds(a: Vec, b: Vec, p: seq<int>, q: seq<int>, k: nat)
    requires HoldAll(a, p, k) && HoldAll(b, q, k) && |a| == |b|
    ensures HoldAll(Interleave(a, b), Interleave(p, q), k)
  {
    forall i | 0 <= i < 2 * |a|
      ensures Holds(Interleave(a, b)[i], Interleave(p, q)[i], k)
    {
      var j := i / 2;
      assert i == 2 * j || i == 2 * j + 1;
      assert Holds(a[j], p[j], k) && Holds(b[j], q[j], k);
    }
  }

  /** mask - 10 * code */
  function LinearShares(d: seq<Distance>, k: nat): (r: Vec)
    ensures |r| == |d| && forall j :: 0 <= j < |d| ==> r[j] == SubShared(d[j].mask, ScaleShared(d[j].code, 10, k), k)
  {
    seq(|d|, j requires 0 <= j < |d| => SubShared(d[j].mask, ScaleShared(d[j].code, 10, k), k))
  }

  ghost function LinearsOf(d: seq<Distance>, k: nat): (r: seq<int>)
    requires k >= 1
    ensures |r| == |d| && forall j :: 0 <= j < |d| ==> r[j] == MaskOf(d[j], k) - CodeOf(d[j], k) * 10
  {
    seq(|d|, j requires 0 <= j < |d| => MaskOf(d[j], k) - CodeOf(d[j], k) * 10)
  }

  lemma LinearsHold(d: seq<Distance>, k: nat)
    requires k >= 1
    ensures HoldAll(LinearShares(d, k), LinearsOf(d, k), k)
  {
    forall j | 0 <= j < |d|
      ensures Holds(LinearShares(d, k)[j], LinearsOf(d, k)[j], k)
    {
      SignedHolds(d[j].code, k);
      SignedHolds(d[j].mask, k);
      HoldsScale(d[j].code, CodeOf(d[j], k), 10, k);
      HoldsSub(d[j].mask, ScaleShared(d[j].code, 10, k), MaskOf(d[j], k), CodeOf(d[j], k) * 10, k);
    }
  }

  /** product - 73728 * code; products of the two sides alternate. */
  function ScoreShares(products: Vec, d: seq<Distance>, side: nat, k: nat): (r: Vec)
    requires side <= 1 && |products| == 2 * |d|
    ensures |r| == |d|
    ensures forall j :: 0 <= j < |d| ==> r[j] == SubShared(products[2 * j + side], ScaleShared(d[j].code, 73728, k), k)
  {
    seq(|d|, j requires 0 <= j < |d| => SubShared(products[2 * j + side], ScaleShared(d[j].code, 73728, k), k))
  }

  ghost function ScoresOf(d: seq<Distance>, k: nat): (r: seq<int>)
    requires k >= 1
    ensures |r| == |d| && forall j :: 0 <= j < |d| ==> r[j] == Nhd.Score(CodeOf(d[j], k), MaskOf(d[j], k))
  {
    seq(|d|, j requires 0 <= j < |d| => Nhd.Score(CodeOf(d[j], k), MaskOf(d[j], k)))
  }

  ghost predicate SideHolds(products: Vec, d: seq<Distance>, side: nat, k: nat)
    requires k >= 1 && side <= 1
  {
    && |products| == 2 * |d|
    && forall j :: 0 <= j < |d| ==> Holds(products[2 * j + side], MasksOf(d, k)[j] * LinearsOf(d, k)[j], k)
  }

  lemma ScoresHold(products: Vec, d: seq<Distance>, side: nat, k: nat)
    requires k >= 1 && side <= 1 && SideHolds(products, d, side, k)
    ensures HoldAll(ScoreShares(products, d, side, k), ScoresOf(d, k), k)
  {
    forall j | 0 <= j < |d|
      ensures Holds(ScoreShares(products, d, side, k)[j], ScoresOf(d, k)[j], k)
    {
      var c, m := CodeOf(d[j], k), MaskOf(d[j], k);
      SignedHolds(d[j].code, k);
      HoldsScale(d[j].code, c, 73728, k);
      assert Holds(products[2 * j + side], MasksOf(d, k)[j] * LinearsOf(d, k)[j], k);
      HoldsSub(products[2 * j + side], ScaleShared(d[j].code, 73728, k), m * (m - c * 10), c * 73728, k);
    }
  }

  /** First round: mask * (mask - 10 * code) for both sides of every pair. */
  method NhdProducts(net: Network, first: seq<Distance>, second: seq<Distance>, k: nat) returns (nmr1: Vec, nmr2: Vec)
    requires net.Quiet() && |first| == |second| && k >= 1
    modifies net
    ensures net.Quiet() && |net.calls| == |old(net.calls)| + 1
    ensures HoldAll(nmr1, ScoresOf(first, k), k) && HoldAll(nmr2, ScoresOf(second, k), k)
  {
    ReadingsHold(first, k);
    ReadingsHold(second, k);
    LinearsHold(first, k);
    LinearsHold(second, k);
    InterleaveHolds(MaskShares(first), MaskShares(second), MasksOf(first, k), MasksOf(second, k), k);
    InterleaveHolds(LinearShares(first, k), LinearShares(second, k), LinearsOf(first, k), LinearsOf(second, k), k);
    ghost var p, q := Interleave(MasksOf(first, k), MasksOf(second, k)),
                      Interleave(LinearsOf(first, k), LinearsOf(second, k));
    var products := PairwiseProducts(net, Interleave(MaskShares(first), MaskShares(second)),
                                     Interleave(LinearShares(first, k), LinearShares(second, k)), k, p, q);
    SideProducts(products, first, second, k);
    nmr1, nmr2 := ScoreShares(products, first, 0, k), ScoreShares(products, second, 1, k);
  }

  lemma SideProducts(products: Vec, first: seq<Distance>, second: seq<Distance>, k: nat)
    requires k >= 1 && |first| == |second|
    requires HoldAll(products, ProductValues(Interleave(MasksOf(first, k), MasksOf(second, k)),
                                             Interleave(LinearsOf(first, k), LinearsOf(second, k))), k)
    ensures HoldAll(ScoreShares(products, first, 0, k), ScoresOf(first, k), k)
    ensures HoldAll(ScoreShares(products, second, 1, k), ScoresOf(second, k), k)
  {
    OneSide(products, first, second, first, 0, k);
    OneSide(products, first, second, second, 1, k);
    ScoresHold(products, first, 0, k);
    ScoresHold(products, second, 1, k);
  }

  lemma OneSide(products: Vec, first: seq<Distance>, second: seq<Distance>, d: seq<Distance>, side: nat, k: nat)
    requires k >= 1 && |first| == |second| && side <= 1 && d == (if side == 0 then first else second)
    requires HoldAll(products, ProductValues(Interleave(MasksOf(first, k), MasksOf(second, k)),
                                             Interleave(LinearsOf(first, k), LinearsOf(second, k))), k)
    ensures SideHolds(products, d, side, k)
  {
    forall j | 0 <= j < |d|
      ensures Holds(products[2 * j + side], MasksOf(d, k)[j] * LinearsOf(d, k)[j], k)
    {
      var m, l := Interleave(MasksOf(first, k), MasksOf(second, k)),
                  Interleave(LinearsOf(first, k), LinearsOf(second, k));
      InterleaveAt(MasksOf(first, k), MasksOf(second, k), j, side);
      InterleaveAt(LinearsOf(first, k), LinearsOf(second, k), j, side);
      assert m[2 * j + side] == MasksOf(d, k)[j] && l[2 * j + side] == LinearsOf(d, k)[j];
      ProductAt(products, m, l, k, 2 * j + side);
    }
  }

  lemma InterleaveAt(a: seq<int>, b: seq<int>, j: nat, side: nat)
    requires |a| == |b| && j < |a| && side <= 1
    ensures Interleave(a, b)[2 * j + side] == if side == 0 then a[j] else b[j]
  {
    var r := Interleave(a, b);
    assert r[2 * j] == a[j] && r[2 * j + 1] == b[j];
    if side == 0 {
      assert 2 * j + side == 2 * j;
    } else {
      assert 2 * j + side == 2 * j + 1;
    }
  }

  lemma ProductAt(products: Vec, p: seq<int>, q: seq<int>, k: nat, i: nat)
    requires |p| == |q| && HoldAll(products, ProductValues(p, q), k) && i < |p|
    ensures Holds(products[i], p[i] * q[i], k)
  {
    assert Holds(products[i], ProductValues(p, q)[i], k);
  }

  /** nmr1 * mask2 - nmr2 * mask1 in two rounds. */
  method NhdCrossMul(net: Network, first: seq<Distance>, second: seq<Distance>) returns (out: Vec)
    requires net.Quiet() && |first| == |second|
    modifies net
    ensures net.Quiet() && |net.calls| == |old(net.calls)| + 2
    ensures AreDifferences(out, first, second, Nhd)
  {
    var k := 48;
    var nmr1, nmr2 := NhdProducts(net, first, second, k);
    ReadingsHold(first, k);
    ReadingsHold(second, k);
    out := CrossProducts(net, nmr1, MaskShares(second), nmr2, MaskShares(first), k,
                         ScoresOf(first, k), MasksOf(second, k), ScoresOf(second, k), MasksOf(first, k));
    NhdDifferences(out, first, second, k);
  }

  lemma NhdDifferences(out: Vec, first: seq<Distance>, second: seq<Distance>, k: nat)
    requires k == 48 && |first| == |second| && AllInRing(out, k)
    requires var w := CrossValues(ScoresOf(first, k), MasksOf(second, k), ScoresOf(second, k), MasksOf(first, k));
      HoldAll(out, w, k)
    ensures AreDifferences(out, first, second, Nhd)
  {
    forall j | 0 <= j < |out|
      ensures Holds(out[j], DifferenceOf(first[j], second[j], Nhd, k), k)
    {
      var w := CrossValues(ScoresOf(first, k), MasksOf(second, k), ScoresOf(second, k), MasksOf(first, k));
      assert Holds(out[j], w[j], k);
    }
  }

  // ----- comparison and selection -------------------------------------------------------------------

  ghost predicate BoundedDistance(d: Distance, metric: Metric) {
    var k := metric.Width();
    metric.Bounded(CodeOf(d, k), MaskOf(d, k))
  }

  ghost predicate Closer(d1: Distance, d2: Distance, metric: Metric) {
    var k := metric.Width();
    metric.Less(CodeOf(d1, k), MaskOf(d1, k), CodeOf(d2, k), MaskOf(d2, k))
  }

  ghost predicate AreComparisons(bits: Plane, first: seq<Distance>, second: seq<Distance>, metric: Metric) {
    && |bits| == |first| == |second|
    && forall j :: 0 <= j < |bits| && BoundedDistance(first[j], metric) && BoundedDistance(second[j], metric) ==>
      OpenBit(bits[j]) == Closer(first[j], second[j], metric)
  }

  lemma SignsCompare(bits: Plane, out: Vec, first: seq<Distance>, second: seq<Distance>, metric: Metric, k: nat)
    requires k == metric.Width() && |bits| == |out| && AreDifferences(out, first, second, metric)
    requires AreMsbs(bits, out, k)
    ensures AreComparisons(bits, first, second, metric)
  {
    forall j | 0 <= j < |bits| && BoundedDistance(first[j], metric) && BoundedDistance(second[j], metric)
      ensures OpenBit(bits[j]) == Closer(first[j], second[j], metric)
    {
      var c1, m1, c2, m2 := CodeOf(first[j], k), MaskOf(first[j], k), CodeOf(second[j], k), MaskOf(second[j], k);
      DifferenceInRange(metric, c1, m1, c2, m2);
      HoldsSign(out[j], metric.Difference(c1, m1, c2, m2), k);
    }
  }

  /** One shared bit per pair: is the first distance the smaller one? */
  method ObliviousCrossCompare(net: Network, first: seq<Distance>, second: seq<Distance>, metric: Metric)
    returns (bits: Plane)
    requires net.Quiet() && |first| == |second|
    modifies net
    ensures net.Quiet() && AreComparisons(bits, first, second, metric)
  {
    var diff;
    if metric.Fhd? {
      diff := CrossMul(net, first, second);
    } else {
      diff := NhdCrossMul(net, first, second);
    }
    bits := ExtractMsbBatch(net, diff, metric.Width());
    SignsCompare(bits, diff, first, second, metric, metric.Width());
  }

  /** The same, opened to all parties. */
  method CrossCompare(net: Network, first: seq<Distance>, second: seq<Distance>, metric: Metric)
    returns (r: Trio<seq<bool>>)
    requires net.Quiet() && |first| == |second|
    modifies net
    ensures net.Quiet() && r.p0 == r.p1 == r.p2 && |r.p0| == |first|
    ensures forall j :: 0 <= j < |first| && BoundedDistance(first[j], metric) && BoundedDistance(second[j], metric) ==>
      r.p0[j] == Closer(first[j], second[j], metric)
  {
    var bits := ObliviousCrossCompare(net, first, second, metric);
    r := OpenBin(net, bits);
  }

  ghost predicate AreMinima(out: seq<Distance>, first: seq<Distance>, second: seq<Distance>, metric: Metric) {
    var k := metric.Width();
    && |out| == |first| == |second|
    && (forall j :: 0 <= j < |out| && BoundedDistance(first[j], metric) && BoundedDistance(second[j], metric) ==>
      OpenDistance(out[j], k) == OpenDistance(if Closer(first[j], second[j], metric) then first[j] else second[j], k))
  }

  /** The closer distance of every pair, the second one on a tie. */
  method MinOfPairBatch(net: Network, first: seq<Distance>, second: seq<Distance>, metric: Metric)
    returns (out: seq<Distance>)
    requires net.Quiet() && |first| == |second|
    modifies net
    ensures net.Quiet() && AreMinima(out, first, second, metric)
  {
    var k := metric.Width();
    var bits := ObliviousCrossCompare(net, first, second, metric);
    var control := BitInject(net, bits, k);
    var r := ConditionallySelectDistance(net, first, second, control, k);
    out := r.value;
    SelectedAreMinima(out, first, second, bits, control, metric, k);
  }

  lemma SelectedAreMinima(out: seq<Distance>, first: seq<Distance>, second: seq<Distance>, bits: Plane, control: Vec,
                          metric: Metric, k: nat)
    requires k == metric.Width() && AreComparisons(bits, first, second, metric) && AreInjected(control, bits, k)
    requires AreSelected(out, first, second, control, k)
    ensures AreMinima(out, first, second, metric)
  {
    forall j | 0 <= j < |out| && BoundedDistance(first[j], metric) && BoundedDistance(second[j], metric)
      ensures OpenDistance(out[j], k)
           == OpenDistance(if Closer(first[j], second[j], metric) then first[j] else second[j], k)
    {
      assert Open(control[j], k) == B(OpenBit(bits[j]));
    }
  }
}
