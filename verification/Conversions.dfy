/** Conversions between additive and bit-sliced sharings: sign extraction and lifts. */
module Conversions {
  import opened Words
  import opened Rep3
  import opened Sessions
  import opened Adders
  import opened MsbAdders
  import opened Splitting
  import Transpose

  /** The ring widths bit slicing is defined for: u16, u32, Ring48 and u64. */
  predicate Sliceable(k: nat) {
    k == 16 || k == 32 || k == 48 || k == 64
  }

  /** log2 of the number of rows of the swap network used for width k. */
  function RowBits(k: nat): (e: nat)
    requires Sliceable(k)
    ensures 1 <= e <= 6
  {
    if k == 16 then 4 else if k == 32 then 5 else 6
  }

  const LANES: nat := 64

  lemma {:induction false} Pow2Monotone(a: nat, b: nat)
    requires a <= b
    ensures Pow2(a) <= Pow2(b)
    decreases b
  {
    if a < b {
      Pow2Monotone(a, b - 1);
    }
  }

  lemma RowsFit(k: nat)
    requires Sliceable(k)
    ensures var n := Pow2(RowBits(k)); k <= n && LANES % n == 0 && Pow2(k) <= Pow2(n)
    ensures Transpose.Divisible(LANES, RowBits(k))
  {
    RowCounts(k);
    RowsDivide(RowBits(k));
    Pow2Monotone(k, Pow2(RowBits(k)));
  }

  lemma RowCounts(k: nat)
    requires Sliceable(k)
    ensures var n := Pow2(RowBits(k)); k <= n && LANES % n == 0
  {
    assert Pow2(4) == 16 && Pow2(5) == 32 && Pow2(6) == 64;
  }

  lemma RowsDivide(e: nat)
    requires e <= 6
    ensures Transpose.Divisible(LANES, e)
  {
    assert Pow2(6) == 64;
    Transpose.DivisiblePower(6);
    Transpose.DivisibleLess(64, 6, e);
  }

  function Component(x: Vec, c: nat): (r: seq<nat>)
    requires c < 3
    ensures |r| == |x| && forall j :: 0 <= j < |x| ==> r[j] == x[j].At(c)
  {
    seq<nat>(|x|, j requires 0 <= j < |x| => x[j].At(c))
  }

  /** planes[b] holds bit b of every component of every entry; lanes beyond the end hold zero. */
  ghost predicate IsSliced(planes: seq<Plane>, x: Vec, k: nat) {
    && SameShape(planes, k, Transpose.PaddedLen(|x|, 64))
    && forall b, l, c :: 0 <= b < k && 0 <= l < |planes[b]| && 0 <= c < 3 ==>
      planes[b][l].At(c) == (l < |x| && Bit(x[l].At(c), b))
  }

  /** Bit slicing of a shared vector: both components of every party are transposed. */
  method BitSlice(x: Vec, k: nat) returns (planes: seq<Plane>)
    requires Sliceable(k) && AllInRing(x, k)
    ensures IsSliced(planes, x, k)
  {
    RowsFit(k);
    planes := SliceThrough(x, k, Pow2(RowBits(k)), RowBits(k));
  }

  /** Slicing every component through a network of n = 2^e rows. */
  method SliceThrough(x: Vec, k: nat, n: nat, e: nat) returns (planes: seq<Plane>)
    requires e >= 1 && n == Pow2(e) && k <= n && LANES % n == 0 && Pow2(k) <= Pow2(n) && Transpose.Divisible(LANES, e)
    requires AllInRing(x, k)
    ensures IsSliced(planes, x, k)
  {
    var p0 := SliceComponent(x, 0, k, n, e);
    var p1 := SliceComponent(x, 1, k, n, e);
    var p2 := SliceComponent(x, 2, k, n, e);
    planes := ZipAll(p0, p1, p2, k);
    SlicedComponents(planes, p0, p1, p2, x, k);
  }

  method SliceComponent(x: Vec, c: nat, k: nat, n: nat, e: nat) returns (p: seq<Transpose.Word>)
    requires e >= 1 && n == Pow2(e) && k <= n && LANES % n == 0 && Pow2(k) <= Pow2(n) && Transpose.Divisible(LANES, e)
    requires AllInRing(x, k) && c < 3
    ensures Transpose.IsTransposed(p, Component(x, c), k, Transpose.PaddedLen(|x|, LANES))
  {
    assert forall j :: 0 <= j < |x| ==> InRing(x[j], k);
    p := Transpose.TransposePack(Component(x, c), k, n, LANES, e);
  }

  function ZipAll(p0: seq<Transpose.Word>, p1: seq<Transpose.Word>, p2: seq<Transpose.Word>,
                  k: nat): (planes: seq<Plane>)
    requires |p0| == |p1| == |p2| == k
    requires forall b :: 0 <= b < k ==> |p0[b]| == |p1[b]| == |p2[b]|
    ensures |planes| == k && forall b :: 0 <= b < k ==> planes[b] == Zip3(p0[b], p1[b], p2[b])
  {
    seq(k, b requires 0 <= b < k => Zip3(p0[b], p1[b], p2[b]))
  }

  lemma SlicedComponents(planes: seq<Plane>, p0: seq<Transpose.Word>, p1: seq<Transpose.Word>, p2: seq<Transpose.Word>,
                         x: Vec, k: nat)
    requires var lanes := Transpose.PaddedLen(|x|, LANES);
      && Transpose.IsTransposed(p0, Component(x, 0), k, lanes)
      && Transpose.IsTransposed(p1, Component(x, 1), k, lanes)
      && Transpose.IsTransposed(p2, Component(x, 2), k, lanes)
    requires |planes| == k && forall b :: 0 <= b < k ==> planes[b] == Zip3(p0[b], p1[b], p2[b])
    ensures IsSliced(planes, x, k)
  {
    forall b, l, c | 0 <= b < k && 0 <= l < |planes[b]| && 0 <= c < 3
      ensures planes[b][l].At(c) == (l < |x| && Bit(x[l].At(c), b))
    {
      var p := if c == 0 then p0 else if c == 1 then p1 else p2;
      assert planes[b][l].At(c) == p[b][l] == Transpose.PaddedBit(Component(x, c), l, b);
    }
  }

  /** A lane of sliced XOR shares is the bit string of the secret. */
  lemma SlicedLane(planes: seq<Plane>, x: Vec, k: nat, l: nat)
    requires IsSliced(planes, x, k) && l < |x|
    ensures Lane(planes, l) == XorBits(x[l], k)
  {
    forall b | 0 <= b < k
      ensures Lane(planes, l)[b] == XorBits(x[l], k)[b]
    {
      assert planes[b][l].At(0) == Bit(x[l].At(0), b);
      assert planes[b][l].At(1) == Bit(x[l].At(1), b);
      assert planes[b][l].At(2) == Bit(x[l].At(2), b);
    }
  }

  // ----- sign extraction ------------------------------------------------------------

  ghost predicate AreMsbs(msb: Plane, x: Vec, k: nat)
    requires k >= 1
  {
    && |msb| >= |x|
    && forall l :: 0 <= l < |x| ==> OpenBit(msb[l]) == Bit(Open(x[l], k), k - 1)
  }

  lemma MsbOfSplit(msb: Plane, s1: Vec, s2: Vec, t1: seq<Plane>, t2: seq<Plane>, x: Vec, k: nat)
    requires k >= 1 && AreSplit(s1, s2, x, k) && IsSliced(t1, s1, k) && IsSliced(t2, s2, k)
    requires IsTopSumBit(msb, t1, t2, k, Transpose.PaddedLen(|x|, LANES))
    ensures AreMsbs(msb, x, k)
  {
    forall l | 0 <= l < |x|
      ensures OpenBit(msb[l]) == Bit(Open(x[l], k), k - 1)
    {
      SlicedLane(t1, s1, k, l);
      SlicedLane(t2, s2, k, l);
      TopSumBitIsMsb(msb, t1, t2, k, Transpose.PaddedLen(|x|, LANES), l);
      assert IsSplit(s1[l], s2[l], x[l], k);
    }
  }

  lemma SplitInRing(s1: Vec, s2: Vec, x: Vec, k: nat)
    requires AreSplit(s1, s2, x, k)
    ensures AllInRing(s1, k) && AllInRing(s2, k)
  {
    forall j | 0 <= j < |x|
      ensures InRing(s1[j], k) && InRing(s2[j], k)
    {
      assert IsSplit(s1[j], s2[j], x[j], k);
    }
  }

  /** The most significant bits of the secrets, bit-sliced. */
  method ExtractMsb(net: Network, x: Vec, k: nat) returns (msb: Plane)
    requires net.Quiet() && Sliceable(k) && AllInRing(x, k)
    modifies net
    ensures net.Quiet() && AreMsbs(msb, x, k)
  {
    var s1, s2 := TwoWaySplit(net, x, k);
    SplitInRing(s1, s2, x, k);
    var t1 := BitSlice(s1, k);
    var t2 := BitSlice(s2, k);
    var r := AddMsbPrefix(net, t1, t2, Transpose.PaddedLen(|x|, LANES));
    msb := r.value;
    MsbOfSplit(msb, s1, s2, t1, t2, x, k);
  }

  /** One shared sign bit per secret, for every batch length. */
  method ExtractMsbBatch(net: Network, x: Vec, k: nat) returns (bits: Plane)
    requires net.Quiet() && Sliceable(k) && AllInRing(x, k)
    modifies net
    ensures net.Quiet() && |bits| == |x| && AreMsbs(bits, x, k)
  {
    var packed := ExtractMsb(net, x, k);
    bits := packed[..|x|];
  }

  /** The same through the ripple-carry adder. */
  method ExtractMsbBatchRipple(net: Network, x: Vec, k: nat) returns (bits: Plane)
    requires net.Quiet() && Sliceable(k) && AllInRing(x, k)
    modifies net
    ensures net.Quiet() && |bits| == |x| && AreMsbs(bits, x, k)
  {
    var s1, s2 := TwoWaySplit(net, x, k);
    SplitInRing(s1, s2, x, k);
    var t1 := BitSlice(s1, k);
    var t2 := BitSlice(s2, k);
    var r := AddMsbRipple(net, t1, t2, Transpose.PaddedLen(|x|, LANES));
    MsbOfSplit(r.value, s1, s2, t1, t2, x, k);
    bits := r.value[..|x|];
  }
}
