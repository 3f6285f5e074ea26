/** Reduction of ragged groups of distances to the closest one of each group. */
module Reduction {
  import opened Words
  import opened Sessions
  import opened Results
  import opened Ops
  import opened Distances

  // ----- distances are totally preordered ----------------------------------------------------

  lemma CrossOrder(s1: int, m1: int, s2: int, m2: int, s3: int, m3: int)
    requires m1 > 0 && m2 > 0 && m3 > 0 && s1 * m2 <= s2 * m1 && s2 * m3 <= s3 * m2
    ensures s1 * m3 <= s3 * m1
  {
    MulNonneg(s2 * m1 - s1 * m2, m3);
    MulNonneg(s3 * m2 - s2 * m3, m1);
    assert (s2 * m1 - s1 * m2) * m3 + (s3 * m2 - s2 * m3) * m1 == (s3 * m1 - s1 * m3) * m2 by {
      assert (s2 * m1 - s1 * m2) * m3 == (s2 * m1) * m3 - (s1 * m2) * m3;
      assert (s3 * m2 - s2 * m3) * m1 == (s3 * m2) * m1 - (s2 * m3) * m1;
      assert (s3 * m1 - s1 * m3) * m2 == (s3 * m1) * m2 - (s1 * m3) * m2;
      Commute(s2, m1, m3); Commute(s1, m2, m3); Commute(s3, m2, m1);
    }
    SignOfFactor(s3 * m1 - s1 * m3, m2);
  }

  lemma SignOfFactor(x: int, m: int)
    requires m > 0
    ensures x * m >= 0 ==> x >= 0
  {
    if x < 0 {
      MulNonneg(-x - 1, m);
      assert (-x - 1) * m == -(x * m) - m;
    }
  }

  lemma Commute(x: int, y: int, z: int)
    ensures (x * y) * z == (x * z) * y
  {
  }

  /** If n is closer than r and x is not closer than r, then x is not closer than n. */
  lemma NotCloserTransitive(x: Distance, r: Distance, n: Distance, metric: Metric)
    requires BoundedDistance(x, metric) && BoundedDistance(r, metric) && BoundedDistance(n, metric)
    requires !Closer(x, r, metric) && Closer(n, r, metric)
    ensures !Closer(x, n, metric)
  {
    var k := metric.Width();
    CrossOrder(metric.Score(CodeOf(n, k), MaskOf(n, k)), MaskOf(n, k),
               metric.Score(CodeOf(r, k), MaskOf(r, k)), MaskOf(r, k),
               metric.Score(CodeOf(x, k), MaskOf(x, k)), MaskOf(x, k));
  }

  // ----- the meaning of a partially reduced group ----------------------------------------------

  /** The entries of a group a reduction has looked at when `size` entries are still to come. */
  predicate Seen(i: nat, size: nat) {
    i == 0 || i > size
  }

  ghost predicate AllBounded(group: seq<Distance>, metric: Metric) {
    forall i :: 0 <= i < |group| ==> BoundedDistance(group[i], metric)
  }

  ghost predicate SameReading(d: Distance, e: Distance, metric: Metric) {
    OpenDistance(d, metric.Width()) == OpenDistance(e, metric.Width())
  }

  /** d is one of the entries seen so far, and none of them is closer. */
  ghost predicate IsMinimumOfSeen(d: Distance, group: seq<Distance>, size: nat, metric: Metric) {
    && (exists i :: 0 <= i < |group| && Seen(i, size) && SameReading(d, group[i], metric))
    && (forall i :: 0 <= i < |group| && Seen(i, size) ==> !Closer(group[i], d, metric))
  }

  ghost predicate IsMinimum(d: Distance, group: seq<Distance>, metric: Metric) {
    && (exists i :: 0 <= i < |group| && SameReading(d, group[i], metric))
    && (forall i :: 0 <= i < |group| ==> !Closer(group[i], d, metric))
  }

  /** Entries left after t more rounds: an exhausted group stays at zero. */
  function Left(size: nat, t: nat): (r: nat) {
    if size > t then size - t else 0
  }

  lemma SameReadingCompares(d: Distance, e: Distance, x: Distance, metric: Metric)
    requires SameReading(d, e, metric)
    ensures Closer(x, d, metric) == Closer(x, e, metric)
    ensures BoundedDistance(d, metric) == BoundedDistance(e, metric)
  {
  }

  /** Taking the closer of the next entry and the minimum so far. An exhausted group compares its
      first entry again, which changes nothing. */
  lemma ReduceStep(next: Distance, d: Distance, group: seq<Distance>, size: nat, metric: Metric)
    requires AllBounded(group, metric) && size < |group| && IsMinimumOfSeen(d, group, size, metric)
    requires BoundedDistance(d, metric) ==>
      SameReading(next, if Closer(group[size], d, metric) then group[size] else d, metric)
    ensures IsMinimumOfSeen(next, group, Left(size, 1), metric)
    ensures size == 0 ==> SameReading(next, d, metric)
  {
    var w :| 0 <= w < |group| && Seen(w, size) && SameReading(d, group[w], metric);
    SameReadingCompares(d, group[w], d, metric);
    var best := if Closer(group[size], d, metric) then group[size] else d;
    var src := if Closer(group[size], d, metric) then size else w;
    assert Seen(src, Left(size, 1)) && SameReading(next, group[src], metric);
    forall i | 0 <= i < |group| && Seen(i, Left(size, 1))
      ensures !Closer(group[i], next, metric)
    {
      SameReadingCompares(next, best, group[i], metric);
      SeenNext(group, d, i, size, metric);
    }
  }

  lemma SeenNext(group: seq<Distance>, d: Distance, i: nat, size: nat, metric: Metric)
    requires AllBounded(group, metric) && BoundedDistance(d, metric) && i < |group| && size < |group|
    requires Seen(i, Left(size, 1)) && (Seen(i, size) ==> !Closer(group[i], d, metric))
    ensures !Closer(group[i], if Closer(group[size], d, metric) then group[size] else d, metric)
  {
    if Seen(i, size) {
      if Closer(group[size], d, metric) {
        NotCloserTransitive(group[i], d, group[size], metric);
      }
    } else {
      assert i == size;
    }
  }

  // ----- the loop ----------------------------------------------------------------------------------

  function Longest(groups: seq<seq<Distance>>): (r: nat)
    ensures forall g :: 0 <= g < |groups| ==> |groups[g]| <= r
  {
    if groups == [] then 0
    else
      var rest := Longest(groups[..|groups| - 1]);
      if |groups[|groups| - 1]| > rest then |groups[|groups| - 1]| else rest
  }

  ghost predicate NoneEmpty(groups: seq<seq<Distance>>) {
    forall g :: 0 <= g < |groups| ==> groups[g] != []
  }

  ghost predicate SizesAt(sizes: seq<nat>, groups: seq<seq<Distance>>, t: nat)
    requires NoneEmpty(groups)
  {
    && |sizes| == |groups|
    && forall g :: 0 <= g < |groups| ==> sizes[g] == Left(|groups[g]| - 1, t)
  }

  ghost predicate AreMinimaOfSeen(out: seq<Distance>, groups: seq<seq<Distance>>, sizes: seq<nat>, metric: Metric)
    requires |sizes| == |groups|
  {
    && |out| == |groups|
    && forall g :: 0 <= g < |groups| && AllBounded(groups[g], metric) ==>
      IsMinimumOfSeen(out[g], groups[g], sizes[g], metric)
  }

  method FirstOfEach(groups: seq<seq<Distance>>) returns (r: Result<seq<Distance>>)
    ensures r.Success? <==> NoneEmpty(groups)
    ensures r.Success? ==> |r.value| == |groups|
    ensures r.Success? ==> forall g :: 0 <= g < |groups| ==> groups[g] != [] && r.value[g] == groups[g][0]
  {
    var first: seq<Distance> := [];
    for g := 0 to |groups|
      invariant |first| == g && forall h :: 0 <= h < g ==> groups[h] != [] && first[h] == groups[h][0]
    {
      if groups[g] == [] {
        return Failure(EmptyInput);
      }
      first := first + [groups[g][0]];
    }
    return Success(first);
  }

  /** The next entry of every group, counting down the sizes. */
  method NextOfEach(groups: seq<seq<Distance>>, sizes: seq<nat>) returns (next: seq<Distance>, left: seq<nat>)
    requires |sizes| == |groups| && forall g :: 0 <= g < |groups| ==> sizes[g] < |groups[g]|
    ensures |next| == |left| == |groups|
    ensures forall g :: 0 <= g < |groups| ==> next[g] == groups[g][sizes[g]] && left[g] == Left(sizes[g], 1)
  {
    next, left := [], [];
    for g := 0 to |groups|
      invariant |next| == |left| == g
      invariant forall h :: 0 <= h < g ==> next[h] == groups[h][sizes[h]] && left[h] == Left(sizes[h], 1)
    {
      next := next + [groups[g][sizes[g]]];
      left := left + [if sizes[g] > 0 then sizes[g] - 1 else sizes[g]];
    }
  }

  lemma InitiallyFirst(first: seq<Distance>, groups: seq<seq<Distance>>, sizes: seq<nat>, metric: Metric)
    requires NoneEmpty(groups) && SizesAt(sizes, groups, 0)
    requires |first| == |groups| && forall g :: 0 <= g < |groups| ==> first[g] == groups[g][0]
    ensures AreMinimaOfSeen(first, groups, sizes, metric)
  {
    forall g | 0 <= g < |groups| && AllBounded(groups[g], metric)
      ensures IsMinimumOfSeen(first[g], groups[g], sizes[g], metric)
    {
      assert Seen(0, sizes[g]) && SameReading(first[g], groups[g][0], metric);
    }
  }

  lemma RoundReduces(out: seq<Distance>, next: seq<Distance>, d: seq<Distance>, groups: seq<seq<Distance>>,
                     sizes: seq<nat>, left: seq<nat>, metric: Metric)
    requires |sizes| == |left| == |groups| == |next| && AreMinimaOfSeen(d, groups, sizes, metric)
    requires forall g :: 0 <= g < |groups| ==> sizes[g] < |groups[g]|
    requires forall g :: 0 <= g < |groups| ==> next[g] == groups[g][sizes[g]] && left[g] == Left(sizes[g], 1)
    requires AreMinima(out, next, d, metric)
    ensures AreMinimaOfSeen(out, groups, left, metric)
  {
    forall g | 0 <= g < |groups| && AllBounded(groups[g], metric)
      ensures IsMinimumOfSeen(out[g], groups[g], left[g], metric)
    {
      ReduceStep(out[g], d[g], groups[g], sizes[g], metric);
    }
  }

  lemma AllSeen(out: seq<Distance>, groups: seq<seq<Distance>>, sizes: seq<nat>, metric: Metric)
    requires |sizes| == |groups| && AreMinimaOfSeen(out, groups, sizes, metric) && AllZero(sizes)
    ensures forall g :: 0 <= g < |groups| && AllBounded(groups[g], metric) ==> IsMinimum(out[g], groups[g], metric)
  {
  }

  predicate AllZero(sizes: seq<nat>) {
    forall g :: 0 <= g < |sizes| ==> sizes[g] == 0
  }

  function InitialSizes(groups: seq<seq<Distance>>): (r: seq<nat>)
    requires forall g :: 0 <= g < |groups| ==> groups[g] != []
    ensures |r| == |groups| && forall g :: 0 <= g < |groups| ==> r[g] == |groups[g]| - 1
  {
    seq<nat>(|groups|, g requires 0 <= g < |groups| => |groups[g]| - 1)
  }

  lemma SizesNext(sizes: seq<nat>, left: seq<nat>, groups: seq<seq<Distance>>, t: nat)
    requires NoneEmpty(groups) && SizesAt(sizes, groups, t) && |left| == |groups|
    requires forall g :: 0 <= g < |groups| ==> left[g] == Left(sizes[g], 1)
    ensures SizesAt(left, groups, t + 1)
  {
  }

  lemma RoundsLeft(sizes: seq<nat>, groups: seq<seq<Distance>>, t: nat)
    requires NoneEmpty(groups) && SizesAt(sizes, groups, t) && !AllZero(sizes)
    ensures t + 1 < Longest(groups)
  {
  }

  /** Every group whose distances are in bounds ends up with one of its closest entries. */
  method ReduceToMinDistanceBatch(net: Network, groups: seq<seq<Distance>>, metric: Metric)
    returns (r: Result<seq<Distance>>)
    requires net.Quiet()
    modifies net
    ensures net.Quiet()
    ensures r.Success? <==> NoneEmpty(groups)
    ensures r.Success? ==> |r.value| == |groups|
    ensures r.Success? ==>
      forall g :: 0 <= g < |groups| && AllBounded(groups[g], metric) ==> IsMinimum(r.value[g], groups[g], metric)
  {
    var first := FirstOfEach(groups);
    if first.Failure? {
      return first;
    }
    var reduced := first.value;
    var sizes := InitialSizes(groups);
    ghost var t := 0;
    InitiallyFirst(reduced, groups, sizes, metric);
    while !AllZero(sizes)
      invariant net.Quiet() && SizesAt(sizes, groups, t) && AreMinimaOfSeen(reduced, groups, sizes, metric)
      decreases Longest(groups) - t
    {
      RoundsLeft(sizes, groups, t);
      var next, left := NextOfEach(groups, sizes);
      var out := MinOfPairBatch(net, next, reduced, metric);
      RoundReduces(out, next, reduced, groups, sizes, left, metric);
      SizesNext(sizes, left, groups, t);
      reduced, sizes := out, left;
      t := t + 1;
    }
    AllSeen(reduced, groups, sizes, metric);
    return Success(reduced);
  }
}
