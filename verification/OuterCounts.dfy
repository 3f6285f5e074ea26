/** Two-dimensional threshold statistics over pairs of shared scores. */
module OuterCounts {
  import opened Words
  import opened Rep3
  import opened Sessions
  import opened Injection
  import opened Conversions
  import opened Lifts
  import opened Ops
  import opened Products
  import opened Opening
  import Histogram

  // ----- one comparison per threshold ---------------------------------------------------------------

  /** The 16-bit score a sharing holds. */
  ghost function ScoreOf(d: Shared<nat>): (r: int) {
    Signed(Open(d, 16), 16)
  }

  /** score - threshold stays within 16 bits. */
  predicate NoWrap(score: int, threshold: int) {
    -0x8000 <= score - threshold < 0x8000
  }

  /** score - threshold in the 16-bit ring. */
  function Shifted(distances: Vec, threshold: int): (r: Vec)
    ensures |r| == |distances|
  {
    AddConstAll(distances, (-threshold) % Pow2(16), 16)
  }

  ghost predicate AreBelow(bits: Vec, distances: Vec, threshold: int) {
    && |bits| == |distances|
    && forall l :: 0 <= l < |bits| && NoWrap(ScoreOf(distances[l]), threshold) ==>
      Open(bits[l], 32) == B(ScoreOf(distances[l]) < threshold)
  }

  lemma ShiftedHolds(x: Shared<nat>, t: int, k: nat)
    requires k >= 1 && InRing(x, k)
    ensures Holds(AddConst(x, (-t) % Pow2(k), k), Signed(Open(x, k), k) - t, k)
  {
    var m, o := Pow2(k), Open(x, k);
    OpenAddConst(x, (-t) % m, k);
    ModIdem(-t, m);
    EqModAdd(o, o, (-t) % m, -t, m);
    if o >= Pow2(k - 1) {
      ModPlusMultiple(o - m - t, 1, m);
    }
  }

  lemma BelowBit(x: Shared<nat>, t: int, k: nat)
    requires k == 16 && InRing(x, k) && NoWrap(Signed(Open(x, k), k), t)
    ensures Bit(Open(AddConst(x, (-t) % Pow2(k), k), k), k - 1) <==> Signed(Open(x, k), k) < t
  {
    ShiftedHolds(x, t, k);
    Pow2Values();
    HoldsSign(AddConst(x, (-t) % Pow2(k), k), Signed(Open(x, k), k) - t, k);
  }

  method CompareOne(net: Network, distances: Vec, threshold: int) returns (bits: Vec)
    requires net.Quiet() && AllInRing(distances, 16)
    modifies net
    ensures net.Quiet() && AreBelow(bits, distances, threshold)
  {
    var k := 16;
    var shifted := Shifted(distances, threshold);
    AddConstAllOpens(distances, (-threshold) % Pow2(k), k);
    var msb := ExtractMsbBatch(net, shifted, k);
    bits := BitInject(net, msb, 32);
    InjectedBelow(bits, msb, shifted, distances, threshold, k);
  }

  lemma InjectedBelow(bits: Vec, msb: Plane, shifted: Vec, distances: Vec, threshold: int, k: nat)
    requires k == 16 && AllInRing(distances, k) && shifted == Shifted(distances, threshold) && |msb| == |shifted|
    requires AreMsbs(msb, shifted, k) && AreInjected(bits, msb, 32)
    ensures AreBelow(bits, distances, threshold)
  {
    forall l | 0 <= l < |bits| && NoWrap(ScoreOf(distances[l]), threshold)
      ensures Open(bits[l], 32) == B(ScoreOf(distances[l]) < threshold)
    {
      BelowBit(distances[l], threshold, k);
    }
  }

  ghost predicate AreComparisons(groups: seq<Vec>, distances: Vec, thresholds: seq<int>) {
    && |groups| == |thresholds|
    && forall t :: 0 <= t < |thresholds| ==> AreBelow(groups[t], distances, thresholds[t])
  }

  /** One group of bits per threshold. */
  method CompareAgainstThresholdsDi(net: Network, thresholds: seq<int>, distances: Vec) returns (groups: seq<Vec>)
    requires net.Quiet() && AllInRing(distances, 16)
    modifies net
    ensures net.Quiet() && AreComparisons(groups, distances, thresholds)
  {
    groups := [];
    for t := 0 to |thresholds|
      invariant net.Quiet() && AreComparisons(groups, distances, thresholds[..t])
    {
      var bits := CompareOne(net, distances, thresholds[t]);
      OneMoreComparison(groups, bits, distances, thresholds, t);
      groups := groups + [bits];
    }
    assert thresholds[..|thresholds|] == thresholds;
  }

  lemma OneMoreComparison(groups: seq<Vec>, bits: Vec, distances: Vec, thresholds: seq<int>, t: nat)
    requires t < |thresholds| && AreComparisons(groups, distances, thresholds[..t])
    requires AreBelow(bits, distances, thresholds[t])
    ensures AreComparisons(groups + [bits], distances, thresholds[..t + 1])
  {
    assert thresholds[..t + 1] == thresholds[..t] + [thresholds[t]];
  }

  // ----- outer product ---------------------------------------------------------------------------------

  /** Party i's part of the sum of products of two groups. */
  function LocalDot(x: Vec, y: Vec, i: nat, k: nat, m: nat): (r: nat)
    requires i < 3 && m <= |x| && m <= |y|
  {
    if m == 0 then 0 else Add(LocalDot(x, y, i, k, m - 1), LocalProduct(x[m - 1], y[m - 1], i, k), k)
  }

  ghost function DotOpen(x: Vec, y: Vec, k: nat, m: nat): (r: nat)
    requires m <= |x| && m <= |y|
  {
    if m == 0 then 0 else DotOpen(x, y, k, m - 1) + Open(x[m - 1], k) * Open(y[m - 1], k)
  }

  lemma AddSums(a0: int, a1: int, a2: int, b0: int, b1: int, b2: int, a: int, b: int, m: int)
    requires m > 0 && (a0 + a1 + a2) % m == a % m && (b0 + b1 + b2) % m == b % m
    ensures ((a0 + b0) % m + (a1 + b1) % m + (a2 + b2) % m) % m == (a + b) % m
  {
    ReduceThree(a0 + b0, a1 + b1, a2 + b2, m);
    EqModAdd(a0 + a1 + a2, a, b0 + b1 + b2, b, m);
    assert (a0 + b0) + (a1 + b1) + (a2 + b2) == (a0 + a1 + a2) + (b0 + b1 + b2);
  }

  lemma {:induction false} LocalDotsSum(x: Vec, y: Vec, k: nat, m: nat)
    requires m <= |x| && m <= |y|
    ensures (LocalDot(x, y, 0, k, m) + LocalDot(x, y, 1, k, m) + LocalDot(x, y, 2, k, m)) % Pow2(k)
         == DotOpen(x, y, k, m) % Pow2(k)
  {
    if m > 0 {
      LocalDotsSum(x, y, k, m - 1);
      NextLocalDots(x, y, k, m - 1);
    }
  }

  lemma NextLocalDots(x: Vec, y: Vec, k: nat, n: nat)
    requires n < |x| && n < |y|
    requires (LocalDot(x, y, 0, k, n) + LocalDot(x, y, 1, k, n) + LocalDot(x, y, 2, k, n)) % Pow2(k)
          == DotOpen(x, y, k, n) % Pow2(k)
    ensures (LocalDot(x, y, 0, k, n + 1) + LocalDot(x, y, 1, k, n + 1) + LocalDot(x, y, 2, k, n + 1)) % Pow2(k)
         == DotOpen(x, y, k, n + 1) % Pow2(k)
  {
    LocalProductsSum(x[n], y[n], k);
    AddSums(LocalDot(x, y, 0, k, n), LocalDot(x, y, 1, k, n), LocalDot(x, y, 2, k, n),
            LocalProduct(x[n], y[n], 0, k), LocalProduct(x[n], y[n], 1, k), LocalProduct(x[n], y[n], 2, k),
            DotOpen(x, y, k, n), Open(x[n], k) * Open(y[n], k), Pow2(k));
  }

  ghost predicate Groups(groups: seq<Vec>, n: nat, size: nat) {
    |groups| == n && forall t :: 0 <= t < n ==> |groups[t]| == size
  }

  method SumProducts(x: Vec, y: Vec, i: nat, k: nat) returns (sum: nat)
    requires i < 3 && |x| == |y|
    ensures sum == LocalDot(x, y, i, k, |x|)
  {
    sum := 0;
    for l := 0 to |x|
      invariant sum == LocalDot(x, y, i, k, l)
    {
      sum := Add(sum, LocalProduct(x[l], y[l], i, k), k);
    }
  }

  /** Cell number idx multiplies group idx / n of the left with group idx % n of the right. */
  ghost predicate IsBucketShare(s: seq<nat>, z: seq<nat>, left: seq<Vec>, right: seq<Vec>, n: nat, size: nat, i: nat,
                                k: nat,
                                idx: nat)
    requires i < 3 && Groups(left, n, size) && Groups(right, n, size)
  {
    && idx < |s| && idx < |z| && n >= 1 && idx / n < n
    && s[idx] == Add(z[idx], LocalDot(left[idx / n], right[idx % n], i, k, size), k)
  }

  ghost predicate AreBucketShares(s: seq<nat>, z: seq<nat>, left: seq<Vec>, right: seq<Vec>, n: nat, size: nat, i: nat,
                                  k: nat,
                                  upTo: nat)
    requires i < 3 && Groups(left, n, size) && Groups(right, n, size)
  {
    && |s| == |z| == n * n && upTo <= n * n
    && (forall idx {:trigger IsBucketShare(s, z, left, right, n, size, i, k, idx)} ::
          0 <= idx < upTo ==> IsBucketShare(s, z, left, right, n, size, i, k, idx))
    && (forall idx :: upTo <= idx < n * n ==> s[idx] == z[idx])
  }

  lemma NextBucket(s: seq<nat>, t: seq<nat>, z: seq<nat>, left: seq<Vec>, right: seq<Vec>, n: nat, size: nat, i: nat,
                   k: nat,
                   a: nat, b: nat, id: nat)
    requires i < 3 && Groups(left, n, size) && Groups(right, n, size) && a < n && b < n && id == a * n + b
    requires AreBucketShares(s, z, left, right, n, size, i, k, id) && id < n * n
    requires t == s[id := Add(s[id], LocalDot(left[a], right[b], i, k, size), k)]
    ensures AreBucketShares(t, z, left, right, n, size, i, k, id + 1)
  {
    DivModUnique(id, n, a, b);
    forall idx | 0 <= idx < id + 1
      ensures IsBucketShare(t, z, left, right, n, size, i, k, idx)
    {
      if idx < id {
        assert IsBucketShare(s, z, left, right, n, size, i, k, idx);
      }
    }
  }

  /** A party's shares of all cells: products of comparison bits summed onto its zero shares. */
  method BucketShares(z: seq<nat>, left: seq<Vec>, right: seq<Vec>, n: nat, size: nat, i: nat, k: nat)
    returns (s: seq<nat>)
    requires i < 3 && Groups(left, n, size) && Groups(right, n, size) && |z| == n * n
    ensures AreBucketShares(s, z, left, right, n, size, i, k, n * n)
  {
    s := z;
    var id := 0;
    for a := 0 to n
      invariant id == a * n && AreBucketShares(s, z, left, right, n, size, i, k, id)
    {
      for b := 0 to n
        invariant id == a * n + b && id <= n * n && AreBucketShares(s, z, left, right, n, size, i, k, id)
      {
        Histogram.InsideGrid(a, b, n);
        var sum := SumProducts(left[a], right[b], i, k);
        ghost var before := s;
        s := s[id := Add(s[id], sum, k)];
        NextBucket(before, s, z, left, right, n, size, i, k, a, b, id);
        id := id + 1;
      }
      RowDone(a, n);
    }
  }

  lemma RowDone(a: nat, n: nat)
    ensures (a + 1) * n == a * n + n
  {
  }

  // ----- opened counts --------------------------------------------------------------------------------------

  /** The pairs of scores two vectors of sharings hold. */
  ghost function PairsOf(left: Vec, right: Vec): (r: Histogram.Scores)
    requires |left| == |right|
    ensures |r| == |left| && forall l :: 0 <= l < |left| ==> r[l] == (ScoreOf(left[l]), ScoreOf(right[l]))
  {
    seq(|left|, l requires 0 <= l < |left| => (ScoreOf(left[l]), ScoreOf(right[l])))
  }

  ghost predicate NoWraps(distances: Vec, thresholds: seq<int>) {
    forall l, t :: 0 <= l < |distances| && 0 <= t < |thresholds| ==> NoWrap(ScoreOf(distances[l]), thresholds[t])
  }

  ghost predicate AllBelow(x: Vec, d: Vec, a: int) {
    |x| == |d| && forall l :: 0 <= l < |x| ==> Open(x[l], 32) == B(ScoreOf(d[l]) < a)
  }

  lemma {:induction false} DotCounts(x: Vec, y: Vec, left: Vec, right: Vec, a: int, b: int, m: nat)
    requires |left| == |right| && AllBelow(x, left, a) && AllBelow(y, right, b) && m <= |x|
    ensures DotOpen(x, y, 32, m) == Histogram.CountBelow(PairsOf(left, right), a, b, m)
  {
    if m > 0 {
      DotCounts(x, y, left, right, a, b, m - 1);
      BitProduct(ScoreOf(left[m - 1]) < a, ScoreOf(right[m - 1]) < b);
    }
  }

  lemma BitProduct(p: bool, q: bool)
    ensures B(p) * B(q) == B(p && q)
  {
  }

  lemma OpenedCell(s0: nat, s1: nat, s2: nat, z0: nat, z1: nat, z2: nat, x: Vec, y: Vec, size: nat, k: nat)
    requires |x| == |y| == size && (z0 + z1 + z2) % Pow2(k) == 0
    requires s0 == Add(z0, LocalDot(x, y, 0, k, size), k) && s1 == Add(z1, LocalDot(x, y, 1, k, size), k)
    requires s2 == Add(z2, LocalDot(x, y, 2, k, size), k)
    ensures (s0 + s1 + s2) % Pow2(k) == DotOpen(x, y, k, size) % Pow2(k)
  {
    LocalDotsSum(x, y, k, size);
    DivModUnique(0, Pow2(k), 0, 0);
    AddSums(z0, z1, z2, LocalDot(x, y, 0, k, size), LocalDot(x, y, 1, k, size), LocalDot(x, y, 2, k, size), 0,
            DotOpen(x, y, k, size), Pow2(k));
  }

  /** The value opened for cell (i, j), exact as long as there are fewer than 2^32 pairs. */
  ghost predicate CountAt(v: nat, left: Vec, right: Vec, a: int, b: int, k: nat)
    requires |left| == |right|
  {
    v == Histogram.CountBelow(PairsOf(left, right), a, b, |left|) % Pow2(k)
  }

  /** Entry idx of the opened matrix is the one of row i and column j. */
  ghost predicate CountHolds(c: seq<nat>, left: Vec, right: Vec, thresholds: seq<int>, k: nat, idx: nat, i: nat, j: nat)
    requires |left| == |right|
  {
    Histogram.Position(idx, i, j, |thresholds|) && i < |thresholds| ==>
      idx < |c| && CountAt(c[idx], left, right, thresholds[i], thresholds[j], k)
  }

  /** The opened matrix, row by row. */
  ghost predicate AreCounts(c: seq<nat>, left: Vec, right: Vec, thresholds: seq<int>, k: nat)
    requires |left| == |right|
  {
    forall idx: nat, i: nat, j: nat :: CountHolds(c, left, right, thresholds, k, idx, i, j)
  }

  lemma BelowAll(groups: seq<Vec>, d: Vec, thresholds: seq<int>, t: nat)
    requires AreComparisons(groups, d, thresholds) && NoWraps(d, thresholds) && t < |thresholds|
    ensures AllBelow(groups[t], d, thresholds[t])
  {
    assert AreBelow(groups[t], d, thresholds[t]);
    forall l | 0 <= l < |d|
      ensures Open(groups[t][l], 32) == B(ScoreOf(d[l]) < thresholds[t])
    {
      assert NoWrap(ScoreOf(d[l]), thresholds[t]);
    }
  }

  /** The three parties' shares of one cell, on top of shares of zero. */
  ghost predicate AreCellShares(s: Trio<nat>, z: Trio<nat>, x: Vec, y: Vec, size: nat, k: nat) {
    && |x| == |y| == size && (z.p0 + z.p1 + z.p2) % Pow2(k) == 0
    && s.p0 == Add(z.p0, LocalDot(x, y, 0, k, size), k) && s.p1 == Add(z.p1, LocalDot(x, y, 1, k, size), k)
    && s.p2 == Add(z.p2, LocalDot(x, y, 2, k, size), k)
  }

  lemma CellCount(x: Vec, y: Vec, left: Vec, right: Vec, a: int, b: int, s: Trio<nat>, z: Trio<nat>, k: nat)
    requires k == 32 && |left| == |right| && AllBelow(x, left, a) && AllBelow(y, right, b)
    requires AreCellShares(s, z, x, y, |left|, k)
    ensures CountAt((s.p0 + s.p1 + s.p2) % Pow2(k), left, right, a, b, k)
  {
    OpenedCell(s.p0, s.p1, s.p2, z.p0, z.p1, z.p2, x, y, |left|, k);
    DotCounts(x, y, left, right, a, b, |left|);
  }

  /** The cell's share held by one party. */
  lemma ShareAt(s: seq<nat>, z: seq<nat>, lg: seq<Vec>, rg: seq<Vec>, n: nat, size: nat, i: nat, k: nat, idx: nat,
                row: nat, col: nat)
    requires i < 3 && Groups(lg, n, size) && Groups(rg, n, size) && AreBucketShares(s, z, lg, rg, n, size, i, k, n * n)
    requires Histogram.Position(idx, row, col, n) && row < n
    ensures idx < n * n && s[idx] == Add(z[idx], LocalDot(lg[row], rg[col], i, k, size), k)
  {
    Histogram.PositionInside(idx, row, col, n);
    DivModUnique(idx, n, row, col);
    assert IsBucketShare(s, z, lg, rg, n, size, i, k, idx);
  }

  ghost predicate AllShares(s: Trio<seq<nat>>, z: Trio<seq<nat>>, lg: seq<Vec>, rg: seq<Vec>, n: nat, size: nat,
                            k: nat) {
    && Groups(lg, n, size) && Groups(rg, n, size) && SumToZero(z, n * n, k)
    && AreBucketShares(s.p0, z.p0, lg, rg, n, size, 0, k, n * n)
    && AreBucketShares(s.p1, z.p1, lg, rg, n, size, 1, k, n * n)
    && AreBucketShares(s.p2, z.p2, lg, rg, n, size, 2, k, n * n)
  }

  /** The shares of one cell, and what they open to. */
  lemma CellShares(c: seq<nat>, s: Trio<seq<nat>>, z: Trio<seq<nat>>, lg: seq<Vec>, rg: seq<Vec>, n: nat, size: nat,
                   k: nat,
                   idx: nat, row: nat, col: nat) returns (s3: Trio<nat>, z3: Trio<nat>)
    requires AllShares(s, z, lg, rg, n, size, k) && c == Totals(s.p0, s.p1, s.p2, k)
    requires Histogram.Position(idx, row, col, n) && row < n
    ensures idx < |c| && c[idx] == (s3.p0 + s3.p1 + s3.p2) % Pow2(k)
    ensures AreCellShares(s3, z3, lg[row], rg[col], size, k)
  {
    ShareAt(s.p0, z.p0, lg, rg, n, size, 0, k, idx, row, col);
    ShareAt(s.p1, z.p1, lg, rg, n, size, 1, k, idx, row, col);
    ShareAt(s.p2, z.p2, lg, rg, n, size, 2, k, idx, row, col);
    s3, z3 := Trio(s.p0[idx], s.p1[idx], s.p2[idx]), Trio(z.p0[idx], z.p1[idx], z.p2[idx]);
  }

  lemma OneCount(left: Vec, right: Vec, thresholds: seq<int>, lg: seq<Vec>, rg: seq<Vec>, s: Trio<nat>, z: Trio<nat>,
                 row: nat, col: nat, k: nat)
    requires |left| == |right| && k == 32 && NoWraps(left, thresholds) && NoWraps(right, thresholds)
    requires AreComparisons(lg, left, thresholds) && AreComparisons(rg, right, thresholds)
    requires row < |thresholds| && col < |thresholds| && AreCellShares(s, z, lg[row], rg[col], |left|, k)
    ensures CountAt((s.p0 + s.p1 + s.p2) % Pow2(k), left, right, thresholds[row], thresholds[col], k)
  {
    BelowAll(lg, left, thresholds, row);
    BelowAll(rg, right, thresholds, col);
    CellCount(lg[row], rg[col], left, right, thresholds[row], thresholds[col], s, z, k);
  }

  lemma ComparedGroups(groups: seq<Vec>, d: Vec, thresholds: seq<int>)
    requires AreComparisons(groups, d, thresholds)
    ensures Groups(groups, |thresholds|, |d|)
  {
    forall t | 0 <= t < |thresholds|
      ensures |groups[t]| == |d|
    {
      assert AreBelow(groups[t], d, thresholds[t]);
    }
  }

  /** All three parties learn, for every pair of thresholds, how many score pairs lie below both. */
  method CumulativeCounts(net: Network, thresholds: seq<int>, left: Vec, right: Vec) returns (c: Trio<seq<nat>>)
    requires net.Quiet() && |left| == |right| && AllInRing(left, 16) && AllInRing(right, 16)
    modifies net
    ensures net.Quiet() && c.p0 == c.p1 == c.p2
    ensures NoWraps(left, thresholds) && NoWraps(right, thresholds) ==> AreCounts(c.p0, left, right, thresholds, 32)
  {
    var n, k := |thresholds|, 32;
    var lg := CompareAgainstThresholdsDi(net, thresholds, left);
    var rg := CompareAgainstThresholdsDi(net, thresholds, right);
    ComparedGroups(lg, left, thresholds);
    ComparedGroups(rg, right, thresholds);
    var z := Opening.ZeroShares(net, n * n, k);
    var s0 := BucketShares(z.p0, lg, rg, n, |left|, 0, k);
    var s1 := BucketShares(z.p1, lg, rg, n, |left|, 1, k);
    var s2 := BucketShares(z.p2, lg, rg, n, |left|, 2, k);
    var s := Trio(s0, s1, s2);
    c := OpenBroadcast(net, s, k);
    if NoWraps(left, thresholds) && NoWraps(right, thresholds) {
      OpenedCounts(c.p0, left, right, thresholds, lg, rg, z, s, k);
    }
  }

  lemma OpenedCounts(c: seq<nat>, left: Vec, right: Vec, thresholds: seq<int>, lg: seq<Vec>, rg: seq<Vec>,
                     z: Trio<seq<nat>>, s: Trio<seq<nat>>, k: nat)
    requires |left| == |right| && k == 32 && NoWraps(left, thresholds) && NoWraps(right, thresholds)
    requires AreComparisons(lg, left, thresholds) && AreComparisons(rg, right, thresholds)
    requires AllShares(s, z, lg, rg, |thresholds|, |left|, k) && c == Totals(s.p0, s.p1, s.p2, k)
    ensures AreCounts(c, left, right, thresholds, k)
  {
    forall idx: nat, i: nat, j: nat
      ensures CountHolds(c, left, right, thresholds, k, idx, i, j)
    {
      if Histogram.Position(idx, i, j, |thresholds|) && i < |thresholds| {
        var s3, z3 := CellShares(c, s, z, lg, rg, |thresholds|, |left|, k, idx, i, j);
        OneCount(left, right, thresholds, lg, rg, s3, z3, i, j, k);
      }
    }
  }

  // ----- the histogram -----------------------------------------------------------------------------------------

  lemma CountsAreCumulative(c: seq<nat>, left: Vec, right: Vec, thresholds: seq<int>, k: nat)
    requires |left| == |right| && AreCounts(c, left, right, thresholds, k) && |left| < Pow2(k)
    ensures Histogram.Cumulative(c, PairsOf(left, right), thresholds)
  {
    var pairs := PairsOf(left, right);
    forall i: nat, j: nat
      ensures Histogram.CumulativeAt(c, pairs, thresholds, i, j)
    {
      if i < |thresholds| && j < |thresholds| {
        CountIsCumulative(c, left, right, thresholds, k, i, j);
      }
    }
  }

  lemma CountIsCumulative(c: seq<nat>, left: Vec, right: Vec, thresholds: seq<int>, k: nat, i: nat, j: nat)
    requires |left| == |right| && AreCounts(c, left, right, thresholds, k) && |left| < Pow2(k)
    requires i < |thresholds| && j < |thresholds|
    ensures Histogram.CumulativeAt(c, PairsOf(left, right), thresholds, i, j)
  {
    var idx := i * |thresholds| + j;
    assert CountHolds(c, left, right, thresholds, k, idx, i, j);
    CountedEntry(c, left, right, thresholds, k, i, j, idx);
  }

  lemma CountedEntry(c: seq<nat>, left: Vec, right: Vec, thresholds: seq<int>, k: nat, i: nat, j: nat, idx: nat)
    requires |left| == |right| && CountHolds(c, left, right, thresholds, k, idx, i, j) && |left| < Pow2(k)
    requires i < |thresholds| && j < |thresholds| && idx == i * |thresholds| + j
    ensures Histogram.CumulativeAt(c, PairsOf(left, right), thresholds, i, j)
  {
    assert Histogram.Position(idx, i, j, |thresholds|);
    ExactCount(c[idx], left, right, thresholds[i], thresholds[j], k);
  }

  lemma ExactCount(v: nat, left: Vec, right: Vec, a: int, b: int, k: nat)
    requires |left| == |right| && CountAt(v, left, right, a, b, k) && |left| < Pow2(k)
    ensures v == Histogram.CountBelow(PairsOf(left, right), a, b, |left|)
  {
    var n := Histogram.CountBelow(PairsOf(left, right), a, b, |left|);
    DivModUnique(n, Pow2(k), 0, n);
  }

  lemma ScoresInDomain(left: Vec, right: Vec)
    requires |left| == |right|
    ensures Histogram.InDomain(PairsOf(left, right))
  {
    Pow2Values();
  }

  /** Sorted thresholds no score difference wraps against, and few enough pairs. */
  ghost predicate Countable(left: Vec, right: Vec, thresholds: seq<int>) {
    && Histogram.SortedThresholds(thresholds) && NoWraps(left, thresholds) && NoWraps(right, thresholds)
    && |left| < Pow2(32)
  }

  lemma CountsAreHistogram(c: seq<nat>, left: Vec, right: Vec, thresholds: seq<int>, k: nat)
    requires |left| == |right| && AreCounts(c, left, right, thresholds, k) && |left| < Pow2(k)
    requires Histogram.SortedThresholds(thresholds)
    ensures Histogram.IsHistogram(Histogram.Rows(c, thresholds, |thresholds|), PairsOf(left, right), thresholds, LEAST)
  {
    CountsAreCumulative(c, left, right, thresholds, k);
    ScoresInDomain(left, right);
    Histogram.RowsAreHistogram(c, PairsOf(left, right), thresholds, LEAST);
  }

  /** The least score. */
  const LEAST: int := -0x8000

  /** Some 16-bit sharing holds this score and none a lower one. */
  ghost predicate IsLeastScore(least: int) {
    && (exists d: Shared<nat> :: InRing(d, 16) && ScoreOf(d) == least)
    && forall d: Shared<nat> :: InRing(d, 16) ==> least <= ScoreOf(d)
  }

  lemma LowestHeld()
    ensures var d := Shared(0x8000, 0, 0); InRing(d, 16) && ScoreOf(d) == LEAST
  {
    Pow2Values();
    var m := Pow2(16);
    DivModUnique(0x8000, m, 0, 0x8000);
  }

  /** The histogram begins at the least score, and nowhere else. */
  lemma LeastScore(least: int)
    ensures IsLeastScore(least) <==> least == LEAST
  {
    Pow2Values();
    LowestHeld();
  }

  /** From shared pairs of scores to their exact two-dimensional histogram. */
  method ProcessJob(net: Network, thresholds: seq<int>, left: Vec, right: Vec)
    returns (stats: Histogram.BucketStatistics2D)
    requires net.Quiet() && |left| == |right| && AllInRing(left, 16) && AllInRing(right, 16)
    modifies net
    ensures net.Quiet() && fresh(stats) && stats.perSide == |thresholds|
    ensures Countable(left, right, thresholds) ==>
      Histogram.IsHistogram(stats.buckets, PairsOf(left, right), thresholds, LEAST)
  {
    var counts := CumulativeCounts(net, thresholds, left, right);
    if Countable(left, right, thresholds) {
      CountsAreHistogram(counts.p0, left, right, thresholds, 32);
    }
    stats := new Histogram.BucketStatistics2D(|thresholds|);
    stats.FillBucketsDi(counts.p0, thresholds);
  }
}
