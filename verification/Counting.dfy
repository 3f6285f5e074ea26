/** Threshold statistics: how many distances lie below each of a list of thresholds. */
module Counting {
  import opened Words
  import opened Rep3
  import opened Sessions
  import opened Gates
  import opened Injection
  import opened Conversions
  import opened Ops
  import opened Products
  import opened Distances
  import opened Normalised

  // ----- sums of injected bits ---------------------------------------------------------------

  /** How many of the first n bits are set. */
  ghost function CountSet(bits: Plane, n: nat): (r: nat)
    requires n <= |bits|
    ensures r <= n
  {
    if n == 0 then 0 else CountSet(bits, n - 1) + B(OpenBit(bits[n - 1]))
  }

  method SumChunk(chunk: Vec, k: nat, ghost bits: Plane) returns (sum: Shared<nat>)
    requires chunk != [] && AreInjected(chunk, bits, k)
    ensures InRing(sum, k) && Open(sum, k) == CountSet(bits, |bits|) % Pow2(k)
  {
    sum := chunk[0];
    ghost var total := B(OpenBit(bits[0]));
    DivModUnique(Open(sum, k), Pow2(k), 0, Open(sum, k));
    assert CountSet(bits, 1) == CountSet(bits, 0) + B(OpenBit(bits[0]));
    for j := 1 to |chunk|
      invariant InRing(sum, k) && Open(sum, k) == CountSet(bits, j) % Pow2(k)
    {
      AddedBit(sum, chunk[j], CountSet(bits, j), B(OpenBit(bits[j])), k);
      sum := AddShared(sum, chunk[j], k);
    }
  }

  lemma AddedBit(sum: Shared<nat>, bit: Shared<nat>, count: nat, b: nat, k: nat)
    requires Open(sum, k) == count % Pow2(k) && Open(bit, k) == b
    ensures Open(AddShared(sum, bit, k), k) == (count + b) % Pow2(k)
  {
    DivModUnique(b, Pow2(k), 0, b);
    HoldsAdd(sum, bit, count, b, k);
  }

  ghost predicate AreCounts(buckets: Vec, planes: seq<Plane>, k: nat) {
    && |buckets| == |planes|
    && forall t :: 0 <= t < |planes| ==> Open(buckets[t], k) == CountSet(planes[t], |planes[t]|) % Pow2(k)
  }

  lemma InjectedSlice(out: Vec, bits: Plane, lo: nat, hi: nat, k: nat)
    requires AreInjected(out, bits, k) && lo <= hi <= |bits|
    ensures AreInjected(out[lo..hi], bits[lo..hi], k)
  {
  }

  lemma {:induction false} FlattenNonempty(planes: seq<Plane>, n: nat)
    requires Uniform(planes, n) && n > 0
    ensures |Flatten(planes)| > 0 <==> planes != []
  {
    if planes != [] {
      assert |planes[0]| == n;
    }
  }

  /** Bits grouped by threshold are injected and added up chunk by chunk. */
  method SumBuckets(net: Network, flat: Plane, n: nat, k: nat, ghost planes: seq<Plane>) returns (buckets: Vec)
    requires net.Quiet() && k >= 1 && n > 0 && Uniform(planes, n) && flat == Flatten(planes)
    modifies net
    ensures net.Quiet() && AreCounts(buckets, planes, k)
  {
    var injected := BitInject(net, flat, k);
    buckets := SumChunks(injected, n, k, flat, planes);
  }

  method SumChunks(injected: Vec, n: nat, k: nat, ghost flat: Plane, ghost planes: seq<Plane>) returns (buckets: Vec)
    requires n > 0 && Uniform(planes, n) && flat == Flatten(planes) && AreInjected(injected, flat, k)
    ensures AreCounts(buckets, planes, k)
  {
    buckets := [];
    var rest := injected;
    ghost var t, bits := 0, flat;
    FlattenNonempty(planes, n);
    while |rest| > 0
      invariant t == |buckets| <= |planes| && bits == Flatten(planes[t..]) && AreInjected(rest, bits, k)
      invariant |rest| > 0 <==> t < |planes|
      invariant AreCounts(buckets, planes[..t], k)
      decreases |rest|
    {
      assert planes[t..][0] == planes[t] && planes[t..][1..] == planes[t + 1..];
      assert bits == planes[t] + Flatten(planes[t + 1..]);
      InjectedSlice(rest, bits, 0, n, k);
      InjectedSlice(rest, bits, n, |rest|, k);
      assert bits[0..n] == planes[t] && rest[0..n] == rest[..n];
      assert bits[n..|bits|] == Flatten(planes[t + 1..]) && rest[n..|rest|] == rest[n..];
      FlattenNonempty(planes[t + 1..], n);
      var sum := SumChunk(rest[..n], k, planes[t]);
      buckets := buckets + [sum];
      assert planes[..t + 1] == planes[..t] + [planes[t]];
      rest, bits, t := rest[n..], bits[n..], t + 1;
    }
    assert planes[..t] == planes;
  }

  // ----- plain distance ------------------------------------------------------------------------

  /** mask * a - code * 2^16 */
  function BelowShare(d: Distance, a: nat, k: nat): (r: Shared<nat>)
    ensures InRing(r, k)
  {
    SubShared(ScaleShared(d.mask, a, k), ScaleShared(d.code, 0x1_0000, k), k)
  }

  function BelowShares(d: seq<Distance>, a: nat, k: nat): (r: Vec)
    ensures |r| == |d| && AllInRing(r, k) && forall j :: 0 <= j < |d| ==> r[j] == BelowShare(d[j], a, k)
  {
    seq(|d|, j requires 0 <= j < |d| => BelowShare(d[j], a, k))
  }

  /** Where the comparison with threshold term a cannot wrap. */
  ghost predicate ThresholdBounded(d: Distance, a: nat) {
    var c, m := CodeOf(d, 32), MaskOf(d, 32);
    m < 0x4000 && 0 <= c + m && c <= m && a <= 0x1_0000
  }

  /** The distance is below the threshold: mask * a < code * 2^16. */
  ghost predicate Below(d: Distance, a: nat) {
    MaskOf(d, 32) * a < CodeOf(d, 32) * 0x1_0000
  }

  lemma BelowSign(d: Distance, a: nat, k: nat)
    requires k == 32 && ThresholdBounded(d, a)
    ensures Bit(Open(BelowShare(d, a, k), k), k - 1) <==> Below(d, a)
  {
    var c, m := CodeOf(d, k), MaskOf(d, k);
    SignedHolds(d.code, k);
    SignedHolds(d.mask, k);
    HoldsScale(d.mask, m, a, k);
    HoldsScale(d.code, c, 0x1_0000, k);
    HoldsSub(ScaleShared(d.mask, a, k), ScaleShared(d.code, 0x1_0000, k), m * a, c * 0x1_0000, k);
    Pow2Values();
    AbsProduct(m, a, 0x3fff, 0x1_0000);
    HoldsSign(BelowShare(d, a, k), m * a - c * 0x1_0000, k);
  }

  ghost predicate AreBelow(plane: Plane, d: seq<Distance>, a: nat) {
    && |plane| == |d|
    && forall j :: 0 <= j < |d| && ThresholdBounded(d[j], a) ==> OpenBit(plane[j]) == Below(d[j], a)
  }

  function AllBelowShares(terms: seq<nat>, d: seq<Distance>, k: nat): (r: seq<Vec>)
    ensures |r| == |terms| && forall t :: 0 <= t < |terms| ==> r[t] == BelowShares(d, terms[t], k)
  {
    seq(|terms|, t requires 0 <= t < |terms| => BelowShares(d, terms[t], k))
  }

  lemma {:induction false} FlattenInRing(x: seq<Vec>, k: nat)
    requires forall t :: 0 <= t < |x| ==> AllInRing(x[t], k)
    ensures AllInRing(Flatten(x), k)
  {
    if x != [] {
      FlattenInRing(x[1..], k);
    }
  }

  ghost predicate AreSigns(bits: Plane, x: Vec, k: nat)
    requires k >= 1
  {
    |bits| == |x| && forall j :: 0 <= j < |x| ==> OpenBit(bits[j]) == Bit(Open(x[j], k), k - 1)
  }

  ghost predicate AllSigns(planes: seq<Plane>, x: seq<Vec>, k: nat)
    requires k >= 1
  {
    |planes| == |x| && forall t :: 0 <= t < |x| ==> AreSigns(planes[t], x[t], k)
  }

  lemma SignsSlice(bits: Plane, x: Vec, lo: nat, hi: nat, k: nat)
    requires k >= 1 && AreSigns(bits, x, k) && lo <= hi <= |x|
    ensures AreSigns(bits[lo..hi], x[lo..hi], k)
  {
  }

  /** Signs of a flattened list, regrouped. */
  lemma {:induction false} GroupSigns(bits: Plane, x: seq<Vec>, k: nat) returns (planes: seq<Plane>)
    requires k >= 1 && AreSigns(bits, Flatten(x), k)
    ensures Flatten(planes) == bits && AllSigns(planes, x, k)
  {
    if x == [] {
      planes := [];
    } else {
      var n, flat := |x[0]|, Flatten(x);
      SignsSlice(bits, flat, 0, n, k);
      SignsSlice(bits, flat, n, |flat|, k);
      assert flat[0..n] == x[0] && bits[0..n] == bits[..n];
      assert flat[n..|flat|] == Flatten(x[1..]) && bits[n..|flat|] == bits[n..];
      var rest := GroupSigns(bits[n..], x[1..], k);
      planes := [bits[..n]] + rest;
      assert planes[1..] == rest;
      forall t | 0 <= t < |x|
        ensures AreSigns(planes[t], x[t], k)
      {
        if t > 0 {
          assert AreSigns(rest[t - 1], x[1..][t - 1], k);
        }
      }
    }
  }

  lemma SignsAreBelow(plane: Plane, d: seq<Distance>, a: nat, k: nat)
    requires k == 32 && AreSigns(plane, BelowShares(d, a, k), k)
    ensures AreBelow(plane, d, a)
  {
    forall j | 0 <= j < |d| && ThresholdBounded(d[j], a)
      ensures OpenBit(plane[j]) == Below(d[j], a)
    {
      BelowSign(d[j], a, k);
    }
  }

  ghost predicate AreBelowCounts(buckets: Vec, terms: seq<nat>, d: seq<Distance>, planes: seq<Plane>) {
    && AreCounts(buckets, planes, 32) && |planes| == |terms|
    && forall t :: 0 <= t < |terms| ==> AreBelow(planes[t], d, terms[t])
  }

  lemma GroupedAreBelow(planes: seq<Plane>, terms: seq<nat>, d: seq<Distance>, k: nat)
    requires k == 32 && AllSigns(planes, AllBelowShares(terms, d, k), k)
    ensures Uniform(planes, |d|) && forall t :: 0 <= t < |terms| ==> AreBelow(planes[t], d, terms[t])
  {
    forall t | 0 <= t < |terms|
      ensures |planes[t]| == |d| && AreBelow(planes[t], d, terms[t])
    {
      assert AreSigns(planes[t], AllBelowShares(terms, d, k)[t], k);
      SignsAreBelow(planes[t], d, terms[t], k);
    }
  }

  ghost function CountBelow(d: seq<Distance>, a: nat, n: nat): (r: nat)
    requires n <= |d|
    ensures r <= n
  {
    if n == 0 then 0 else CountBelow(d, a, n - 1) + B(Below(d[n - 1], a))
  }

  lemma {:induction false} SetAreBelow(plane: Plane, d: seq<Distance>, a: nat, n: nat)
    requires AreBelow(plane, d, a) && n <= |d| && forall j :: 0 <= j < n ==> ThresholdBounded(d[j], a)
    ensures CountSet(plane, n) == CountBelow(d, a, n)
  {
    if n > 0 {
      SetAreBelow(plane, d, a, n - 1);
    }
  }

  /** Within bounds a bucket opens to the exact number of distances below its threshold. */
  lemma BucketOpensToCount(buckets: Vec, terms: seq<nat>, d: seq<Distance>, planes: seq<Plane>, t: nat, k: nat)
    requires k == 32 && AreBelowCounts(buckets, terms, d, planes) && t < |terms| && |d| < Pow2(k)
    requires forall j :: 0 <= j < |d| ==> ThresholdBounded(d[j], terms[t])
    ensures Open(buckets[t], k) == CountBelow(d, terms[t], |d|)
  {
    SetAreBelow(planes[t], d, terms[t], |d|);
    DivModUnique(CountSet(planes[t], |d|), Pow2(k), 0, CountSet(planes[t], |d|));
  }

  /** Bucket t counts the distances below threshold t. */
  method CompareThresholdBuckets(net: Network, terms: seq<nat>, d: seq<Distance>)
    returns (buckets: Vec, ghost planes: seq<Plane>)
    requires net.Quiet() && d != []
    modifies net
    ensures net.Quiet() && AreBelowCounts(buckets, terms, d, planes)
  {
    var k := 32;
    var diffs := AllBelowShares(terms, d, k);
    FlattenInRing(diffs, k);
    var msbs := ExtractMsbBatch(net, Flatten(diffs), k);
    planes := GroupSigns(msbs, diffs, k);
    GroupedAreBelow(planes, terms, d, k);
    buckets := SumBuckets(net, msbs, |d|, k, planes);
  }

  // ----- normalised distance ----------------------------------------------------------------------

  function NotPlane(p: Plane): (r: Plane)
    ensures |r| == |p| && forall j :: 0 <= j < |p| ==> r[j] == NotBit(p[j])
  {
    seq(|p|, j requires 0 <= j < |p| => NotBit(p[j]))
  }

  /** One plane per threshold: set where the distance is not above it. */
  ghost predicate AreNotAbove(plane: Plane, d: seq<Distance>, t: nat) {
    && |plane| == |d|
    && forall j :: 0 <= j < |d| && BoundedDistance(d[j], Nhd) && t <= 0x1_0000_0000 ==>
      (OpenBit(plane[j]) <==> ThresholdPolynomial(CodeOf(d[j], 48), MaskOf(d[j], 48), t) >= 0)
  }

  lemma NegatedNotAbove(plane: Plane, d: seq<Distance>, t: nat)
    requires AreAboveThreshold(plane, d, t)
    ensures AreNotAbove(NotPlane(plane), d, t)
  {
  }

  lemma {:induction false} FlattenAppend(planes: seq<Plane>, p: Plane)
    ensures Flatten(planes + [p]) == Flatten(planes) + p
  {
    if planes == [] {
      assert (planes + [p])[1..] == [];
    } else {
      assert (planes + [p])[1..] == planes[1..] + [p];
      FlattenAppend(planes[1..], p);
    }
  }

  ghost predicate AllNotAbove(planes: seq<Plane>, d: seq<Distance>, terms: seq<nat>) {
    |planes| == |terms| && forall t :: 0 <= t < |terms| ==> AreNotAbove(planes[t], d, terms[t])
  }

  lemma OnePlaneMore(planes: seq<Plane>, p: Plane, d: seq<Distance>, terms: seq<nat>, t: nat)
    requires t < |terms| && AllNotAbove(planes, d, terms[..t]) && Uniform(planes, |d|) && AreNotAbove(p, d, terms[t])
    ensures AllNotAbove(planes + [p], d, terms[..t + 1]) && Uniform(planes + [p], |d|)
    ensures Flatten(planes + [p]) == Flatten(planes) + p
  {
    FlattenAppend(planes, p);
    assert terms[..t + 1] == terms[..t] + [terms[t]];
  }

  /** Set where the distance is not above the threshold. */
  method NotAboveThreshold(net: Network, d: seq<Distance>, t: nat) returns (plane: Plane)
    requires net.Quiet()
    modifies net
    ensures net.Quiet() && AreNotAbove(plane, d, t)
  {
    var above := NhdGreaterThanThreshold(net, d, t);
    NegatedNotAbove(above, d, t);
    plane := NotPlane(above);
  }

  method NhdPlanes(net: Network, terms: seq<nat>, d: seq<Distance>) returns (msbs: Plane, ghost planes: seq<Plane>)
    requires net.Quiet()
    modifies net
    ensures net.Quiet() && msbs == Flatten(planes) && Uniform(planes, |d|) && AllNotAbove(planes, d, terms)
  {
    msbs, planes := [], [];
    for t := 0 to |terms|
      invariant net.Quiet() && msbs == Flatten(planes) && Uniform(planes, |d|) && AllNotAbove(planes, d, terms[..t])
    {
      var plane := NotAboveThreshold(net, d, terms[t]);
      OnePlaneMore(planes, plane, d, terms, t);
      msbs := msbs + plane;
      planes := planes + [plane];
    }
    assert terms[..|terms|] == terms;
  }

  /** Bucket t counts the distances not above threshold t. */
  method NhdCompareThresholdBuckets(net: Network, terms: seq<nat>, d: seq<Distance>)
    returns (buckets: Vec, ghost planes: seq<Plane>)
    requires net.Quiet() && d != []
    modifies net
    ensures net.Quiet() && AreCounts(buckets, planes, 32) && AllNotAbove(planes, d, terms)
  {
    var msbs;
    msbs, planes := NhdPlanes(net, terms, d);
    buckets := SumBuckets(net, msbs, |d|, 32, planes);
  }

  /** The normalised distance is at most t / (25 * 2^16). */
  ghost predicate Within(d: Distance, t: nat) {
    var c, m := CodeOf(d, 48), MaskOf(d, 48);
    m > 0 && NormalisedDistance(c as real, m as real) <= t as real / 1638400.0
  }

  ghost function CountWithin(d: seq<Distance>, t: nat, n: nat): (r: nat)
    requires n <= |d|
    ensures r <= n
  {
    if n == 0 then 0 else CountWithin(d, t, n - 1) + B(Within(d[n - 1], t))
  }

  lemma {:induction false} SetAreWithin(plane: Plane, d: seq<Distance>, t: nat, n: nat)
    requires AreNotAbove(plane, d, t) && n <= |d| && t <= 0x1_0000_0000
    requires forall j :: 0 <= j < n ==> BoundedDistance(d[j], Nhd)
    ensures CountSet(plane, n) == CountWithin(d, t, n)
  {
    if n > 0 {
      SetAreWithin(plane, d, t, n - 1);
      assert BoundedDistance(d[n - 1], Nhd);
      ThresholdMeaning(CodeOf(d[n - 1], 48), MaskOf(d[n - 1], 48), t);
    }
  }

  /** For bounded distances a bucket opens to the exact number of those whose real normalised distance is
      within its threshold. */
  lemma NhdBucketOpensToCount(buckets: Vec, terms: seq<nat>, d: seq<Distance>, planes: seq<Plane>, t: nat, k: nat)
    requires k == 32 && AreCounts(buckets, planes, k) && AllNotAbove(planes, d, terms) && t < |terms| && |d| < Pow2(k)
    requires terms[t] <= 0x1_0000_0000
    requires forall j :: 0 <= j < |d| ==> BoundedDistance(d[j], Nhd)
    ensures Open(buckets[t], k) == CountWithin(d, terms[t], |d|)
  {
    SetAreWithin(planes[t], d, terms[t], |d|);
    DivModUnique(CountSet(planes[t], |d|), Pow2(k), 0, CountSet(planes[t], |d|));
  }
}
