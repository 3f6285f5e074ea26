/** Statistics over groups of distances: a group counts by its closest entry, that is, if any of its
    entries lies within the threshold. */
module GroupCounts {
  import opened Words
  import opened Rep3
  import opened Sessions
  import opened Results
  import opened Ops
  import opened Distances
  import opened Normalised
  import opened Reduction
  import opened Counting

  /** The distance is within the threshold that the term stands for. */
  ghost predicate InBucket(d: Distance, term: nat, metric: Metric) {
    if metric.Fhd? then Below(d, term) else Within(d, term)
  }

  ghost predicate AnyInBucket(group: seq<Distance>, term: nat, metric: Metric) {
    exists i :: 0 <= i < |group| && InBucket(group[i], term, metric)
  }

  /** m * a < c * b compares the fractions a / b and c / m. */
  lemma FractionLess(m: int, a: int, c: int, b: int)
    requires m > 0 && b > 0
    ensures m * a < c * b <==> a as real / b as real < c as real / m as real
  {
    RealDifference(m, a, c, b);
    CrossLess(a as real, b as real, c as real, m as real);
  }

  lemma BelowIsFraction(d: Distance, a: nat)
    requires MaskOf(d, 32) > 0
    ensures Below(d, a) <==> a as real / 65536.0 < CodeOf(d, 32) as real / MaskOf(d, 32) as real
  {
    FractionLess(MaskOf(d, 32), a, CodeOf(d, 32), 0x1_0000);
  }

  lemma CloserStaysBelow(d: Distance, e: Distance, a: nat)
    requires MaskOf(d, 32) > 0 && MaskOf(e, 32) > 0 && !Closer(e, d, Fhd) && Below(e, a)
    ensures Below(d, a)
  {
    FhdLessMeaning(CodeOf(e, 32), MaskOf(e, 32), CodeOf(d, 32), MaskOf(d, 32));
    BelowIsFraction(d, a);
    BelowIsFraction(e, a);
  }

  lemma CloserStaysWithin(d: Distance, e: Distance, t: nat)
    requires MaskOf(d, 48) > 0 && !Closer(e, d, Nhd) && Within(e, t)
    ensures Within(d, t)
  {
    NhdLessMeaning(CodeOf(e, 48), MaskOf(e, 48), CodeOf(d, 48), MaskOf(d, 48));
  }

  lemma CloserStaysIn(d: Distance, e: Distance, term: nat, metric: Metric)
    requires BoundedDistance(d, metric) && BoundedDistance(e, metric) && !Closer(e, d, metric)
    requires InBucket(e, term, metric)
    ensures InBucket(d, term, metric)
  {
    if metric.Fhd? {
      CloserStaysBelow(d, e, term);
    } else {
      CloserStaysWithin(d, e, term);
    }
  }

  lemma SameReadingCounts(d: Distance, e: Distance, term: nat, metric: Metric)
    requires SameReading(d, e, metric)
    ensures InBucket(d, term, metric) == InBucket(e, term, metric)
    ensures BoundedDistance(d, metric) == BoundedDistance(e, metric)
  {
  }

  /** The closest entry is within the threshold exactly if some entry is. */
  lemma MinimumDecides(d: Distance, group: seq<Distance>, term: nat, metric: Metric)
    requires AllBounded(group, metric) && IsMinimum(d, group, metric)
    ensures InBucket(d, term, metric) <==> AnyInBucket(group, term, metric)
  {
    var w :| 0 <= w < |group| && SameReading(d, group[w], metric);
    SameReadingCounts(d, group[w], term, metric);
    if AnyInBucket(group, term, metric) {
      var i :| 0 <= i < |group| && InBucket(group[i], term, metric);
      CloserStaysIn(d, group[i], term, metric);
    }
  }

  ghost function CountGroups(groups: seq<seq<Distance>>, term: nat, metric: Metric, n: nat): (r: nat)
    requires n <= |groups|
    ensures r <= n
  {
    if n == 0 then 0 else CountGroups(groups, term, metric, n - 1) + B(AnyInBucket(groups[n - 1], term, metric))
  }

  ghost function CountEntries(d: seq<Distance>, term: nat, metric: Metric, n: nat): (r: nat)
    requires n <= |d|
  {
    if metric.Fhd? then CountBelow(d, term, n) else CountWithin(d, term, n)
  }

  ghost predicate AreClosest(closest: seq<Distance>, groups: seq<seq<Distance>>, metric: Metric) {
    && |closest| == |groups|
    && forall g :: 0 <= g < |groups| && AllBounded(groups[g], metric) ==> IsMinimum(closest[g], groups[g], metric)
  }

  lemma {:induction false} ClosestCount(closest: seq<Distance>, groups: seq<seq<Distance>>, term: nat, metric: Metric,
                                        n: nat)
    requires AreClosest(closest, groups, metric) && n <= |groups|
    requires forall g :: 0 <= g < n ==> AllBounded(groups[g], metric)
    ensures CountEntries(closest, term, metric, n) == CountGroups(groups, term, metric, n)
  {
    if n > 0 {
      ClosestCount(closest, groups, term, metric, n - 1);
      MinimumDecides(closest[n - 1], groups[n - 1], term, metric);
    }
  }

  /** Every entry of the group can be compared with term a without wrap. */
  ghost predicate GroupBounded(group: seq<Distance>, a: nat) {
    AllBounded(group, Fhd) && forall i :: 0 <= i < |group| ==> ThresholdBounded(group[i], a)
  }

  lemma ClosestBounded(d: Distance, group: seq<Distance>, a: nat)
    requires GroupBounded(group, a) && IsMinimum(d, group, Fhd)
    ensures ThresholdBounded(d, a)
  {
    var w :| 0 <= w < |group| && SameReading(d, group[w], Fhd);
    assert ThresholdBounded(group[w], a);
  }

  lemma ClosestNhdBounded(d: Distance, group: seq<Distance>)
    requires AllBounded(group, Nhd) && IsMinimum(d, group, Nhd)
    ensures BoundedDistance(d, Nhd)
  {
    var w :| 0 <= w < |group| && SameReading(d, group[w], Nhd);
    SameReadingCounts(d, group[w], 0, Nhd);
  }

  /** Bucket t opens to the number of groups with an entry below threshold t. */
  lemma GroupBucketOpens(buckets: Vec, terms: seq<nat>, groups: seq<seq<Distance>>, closest: seq<Distance>,
                         planes: seq<Plane>, t: nat, k: nat)
    requires k == 32 && AreClosest(closest, groups, Fhd) && AreBelowCounts(buckets, terms, closest, planes)
    requires t < |terms| && |groups| < Pow2(k) && forall g :: 0 <= g < |groups| ==> GroupBounded(groups[g], terms[t])
    ensures Open(buckets[t], k) == CountGroups(groups, terms[t], Fhd, |groups|)
  {
    forall g | 0 <= g < |groups|
      ensures ThresholdBounded(closest[g], terms[t])
    {
      ClosestBounded(closest[g], groups[g], terms[t]);
    }
    BucketOpensToCount(buckets, terms, closest, planes, t, k);
    ClosestCount(closest, groups, terms[t], Fhd, |groups|);
  }

  /** The same for normalised distances. */
  lemma NhdGroupBucketOpens(buckets: Vec, terms: seq<nat>, groups: seq<seq<Distance>>, closest: seq<Distance>,
                            planes: seq<Plane>, t: nat, k: nat)
    requires k == 32 && AreClosest(closest, groups, Nhd) && AreCounts(buckets, planes, k)
    requires AllNotAbove(planes, closest, terms) && t < |terms| && terms[t] <= 0x1_0000_0000
    requires |groups| < Pow2(k) && forall g :: 0 <= g < |groups| ==> AllBounded(groups[g], Nhd)
    ensures Open(buckets[t], k) == CountGroups(groups, terms[t], Nhd, |groups|)
  {
    forall g | 0 <= g < |groups|
      ensures BoundedDistance(closest[g], Nhd)
    {
      ClosestNhdBounded(closest[g], groups[g]);
    }
    NhdBucketOpensToCount(buckets, terms, closest, planes, t, k);
    ClosestCount(closest, groups, terms[t], Nhd, |groups|);
  }

  /** Each group counts once, by its closest entry. */
  method CompareMinThresholdBuckets(net: Network, terms: seq<nat>, groups: seq<seq<Distance>>)
    returns (r: Result<Vec>, ghost closest: seq<Distance>, ghost planes: seq<Plane>)
    requires net.Quiet() && groups != []
    modifies net
    ensures net.Quiet()
    ensures r.Success? <==> NoneEmpty(groups)
    ensures r.Success? ==> AreClosest(closest, groups, Fhd) && AreBelowCounts(r.value, terms, closest, planes)
  {
    closest, planes := [], [];
    var reduced := ReduceToMinDistanceBatch(net, groups, Fhd);
    if reduced.Failure? {
      r := Failure(reduced.error);
      return;
    }
    closest := reduced.value;
    var buckets;
    buckets, planes := CompareThresholdBuckets(net, terms, reduced.value);
    r := Success(buckets);
  }

  method NhdCompareMinThresholdBuckets(net: Network, terms: seq<nat>, groups: seq<seq<Distance>>)
    returns (r: Result<Vec>, ghost closest: seq<Distance>, ghost planes: seq<Plane>)
    requires net.Quiet() && groups != []
    modifies net
    ensures net.Quiet()
    ensures r.Success? <==> NoneEmpty(groups)
    ensures r.Success? ==> AreClosest(closest, groups, Nhd) && AreCounts(r.value, planes, 32)
    ensures r.Success? ==> AllNotAbove(planes, closest, terms)
  {
    closest, planes := [], [];
    var reduced := ReduceToMinDistanceBatch(net, groups, Nhd);
    if reduced.Failure? {
      r := Failure(reduced.error);
      return;
    }
    closest := reduced.value;
    var buckets;
    buckets, planes := NhdCompareThresholdBuckets(net, terms, reduced.value);
    r := Success(buckets);
  }
}
