/** Lifting 16-bit sharings into the 32- and 48-bit rings. */
module Lifts {
  import opened Words
  import opened Rep3
  import opened Sessions
  import opened Gates
  import opened Adders
  import opened Injection
  import opened Conversions
  import Transpose

  /** How party i turns its share of a word into shares of the three components of that word:
      component c is shared with only component c nonzero. */
  function ComponentOfRole(s: Share<bool>, role: nat, c: nat): (r: Share<bool>)
    requires role < 3 && c < 3
  {
    if role == 0 then Share(c == 0 && s.a, c == 2 && s.b)
    else if role == 1 then Share(c == 1 && s.a, c == 0 && s.b)
    else Share(c == 2 && s.a, c == 1 && s.b)
  }

  function ComponentShare(s: Shared<bool>, c: nat): (r: Shared<bool>)
    requires c < 3
    ensures OpenBit(r) == s.At(c)
  {
    Join(ComponentOfRole(s.View(0), 0, c), ComponentOfRole(s.View(1), 1, c), ComponentOfRole(s.View(2), 2, c))
  }

  function ComponentPlane(p: Plane, c: nat): (r: Plane)
    requires c < 3
    ensures |r| == |p| && forall l :: 0 <= l < |p| ==> r[l] == ComponentShare(p[l], c)
  {
    seq(|p|, l requires 0 <= l < |p| => ComponentShare(p[l], c))
  }

  function ComponentPlanes(p: seq<Plane>, c: nat): (r: seq<Plane>)
    requires c < 3
    ensures |r| == |p| && forall b :: 0 <= b < |p| ==> r[b] == ComponentPlane(p[b], c)
  {
    seq(|p|, b requires 0 <= b < |p| => ComponentPlane(p[b], c))
  }

  /** A lane of the component planes spells the component itself. */
  lemma ComponentLane(planes: seq<Plane>, x: Vec, k: nat, c: nat, l: nat)
    requires c < 3 && IsSliced(planes, x, k) && l < |x| && InRing(x[l], k)
    ensures Uniform(ComponentPlanes(planes, c), Transpose.PaddedLen(|x|, LANES))
    ensures Val(Lane(ComponentPlanes(planes, c), l), k) == x[l].At(c)
  {
    var p := ComponentPlanes(planes, c);
    forall b | 0 <= b < k
      ensures Lane(p, l)[b] == Bits(x[l].At(c), k)[b]
    {
      assert planes[b][l].At(c) == Bit(x[l].At(c), b);
    }
    assert Lane(p, l) == Bits(x[l].At(c), k);
    ValBits(x[l].At(c), k, k);
    DivModUnique(x[l].At(c), Pow2(k), 0, x[l].At(c));
  }

  // ----- shifting shares into a larger ring -------------------------------------------

  function ShiftShare(s: Share<nat>, sh: nat, to: nat): (r: Share<nat>) {
    Share(Mul(s.a, Pow2(sh), to), Mul(s.b, Pow2(sh), to))
  }

  function Shift(s: Shared<nat>, sh: nat, to: nat): (r: Shared<nat>)
    ensures InRing(r, to)
  {
    Join(ShiftShare(s.View(0), sh, to), ShiftShare(s.View(1), sh, to), ShiftShare(s.View(2), sh, to))
  }

  /** Shifting the components of a small-ring sharing shifts the secret, provided the lost wraps
      land beyond the large ring. */
  lemma ShiftOpens(s: Shared<nat>, from: nat, sh: nat, to: nat)
    requires to <= from + sh
    ensures Open(Shift(s, sh, to), to) == (Open(s, from) * Pow2(sh)) % Pow2(to)
  {
    ShiftSum(s, Pow2(sh), sh, to);
    Pow2Add(from, sh);
    Pow2Add(to, from + sh - to);
    ModIdem(Sum(s), Pow2(from));
    ScaledMod(Sum(s), Open(s, from), Pow2(sh), Pow2(from), Pow2(to), Pow2(from + sh - to));
  }

  lemma ShiftSum(s: Shared<nat>, p: nat, sh: nat, to: nat)
    requires p == Pow2(sh)
    ensures Open(Shift(s, sh, to), to) == (Sum(s) * p) % Pow2(to)
  {
    ReduceThree(s.x0 * p, s.x1 * p, s.x2 * p, Pow2(to));
    Distribute(s.x0, s.x1, s.x2, p);
  }

  lemma Distribute(x: int, y: int, z: int, p: int)
    ensures x * p + y * p + z * p == (x + y + z) * p
  {
  }

  lemma Regroup(d: int, n: int, p: int, m: int, t: int)
    requires n * p == m * t
    ensures (d * n) * p == (d * t) * m
  {
    assert (d * n) * p == d * (n * p);
    assert d * (m * t) == (d * t) * m;
  }

  lemma ScaledMod(a: int, b: int, p: int, n: int, m: int, t: int)
    requires n > 0 && m > 0 && a % n == b % n && n * p == m * t
    ensures (a * p) % m == (b * p) % m
  {
    var qa := ModQuotient(a, n);
    var qb := ModQuotient(b, n);
    var d := qa - qb;
    assert a == b + d * n;
    Regroup(d, n, p, m, t);
    assert a * p == b * p + (d * t) * m;
    ModPlusMultiple(b * p, d * t, m);
  }

  // ----- the lift -------------------------------------------------------------------------

  /** Components read as large-ring elements, minus the two injected overflow bits at 2^n and 2^(n+1). */
  function Corrected(x: Shared<nat>, b1: Shared<nat>, b2: Shared<nat>, n: nat, to: nat): (r: Shared<nat>)
    ensures InRing(r, to)
  {
    SubShared(SubShared(x, Shift(b1, n, to), to), Shift(b2, n + 1, to), to)
  }

  lemma SubChain(total: int, u: int, v: int, m: int)
    requires m > 0
    ensures ((total % m - u % m) % m - v % m) % m == (total - u - v) % m
  {
    ModIdem(total, m); ModIdem(u, m); ModIdem(v, m);
    EqModAdd(total % m, total, u % m, u, m);
    ModIdem(total % m - u % m, m);
    EqModAdd((total % m - u % m) % m, total - u, v % m, v, m);
  }

  lemma OpenSubSub(x: Shared<nat>, s1: Shared<nat>, s2: Shared<nat>, u: nat, v: nat, to: nat)
    requires Open(s1, to) == u % Pow2(to) && Open(s2, to) == v % Pow2(to)
    ensures Open(SubShared(SubShared(x, s1, to), s2, to), to) == (Sum(x) - u - v) % Pow2(to)
  {
    OpenSub(x, s1, to);
    OpenSub(SubShared(x, s1, to), s2, to);
    SubChain(Sum(x), u, v, Pow2(to));
  }

  lemma ShiftedBit(b: Shared<nat>, o: bool, mid: nat, sh: nat, to: nat)
    requires to <= mid + sh && Open(b, mid) == B(o)
    ensures Open(Shift(b, sh, to), to) == W(o, Pow2(sh)) % Pow2(to)
  {
    ShiftOpens(b, mid, sh, to);
    assert B(o) * Pow2(sh) == W(o, Pow2(sh));
  }

  lemma CorrectedOpens(x: Shared<nat>, b1: Shared<nat>, b2: Shared<nat>, o1: bool, o2: bool, n: nat, mid: nat, to: nat)
    requires n <= to <= mid + n
    requires OverflowBits(x.x0, x.x1, x.x2, n, o1, o2)
    requires Open(b1, mid) == B(o1) && Open(b2, mid) == B(o2)
    ensures Open(Corrected(x, b1, b2, n, to), to) == Open(x, n)
  {
    ShiftedBit(b1, o1, mid, n, to);
    ShiftedBit(b2, o2, mid, n + 1, to);
    OpenSubSub(x, Shift(b1, n, to), Shift(b2, n + 1, to), W(o1, Pow2(n)), W(o2, Pow2(n + 1)), to);
    assert Sum(x) - W(o1, Pow2(n)) - W(o2, Pow2(n + 1)) == Open(x, n);
    Pow2Monotone(n, to);
    DivModUnique(Open(x, n), Pow2(to), 0, Open(x, n));
  }

  ghost predicate AreLifted(y: Vec, x: Vec, n: nat, to: nat) {
    && |y| == |x| && AllInRing(y, to)
    && forall j :: 0 <= j < |x| ==> Open(y[j], to) == Open(x[j], n)
  }

  ghost predicate AreOverflows(b1: Plane, b2: Plane, x: Vec, n: nat) {
    && |b1| == |b2| == |x|
    && forall j :: 0 <= j < |x| ==> OverflowBits(x[j].x0, x[j].x1, x[j].x2, n, OpenBit(b1[j]), OpenBit(b2[j]))
  }

  lemma OverflowOfSlices(planes: seq<Plane>, x: Vec, b1: Plane, b2: Plane, n: nat)
    requires IsSliced(planes, x, n) && AllInRing(x, n) && |x| == |b1|
    requires var len := Transpose.PaddedLen(|x|, LANES);
      var x1, x2, x3 := ComponentPlanes(planes, 0), ComponentPlanes(planes, 1), ComponentPlanes(planes, 2);
      SameShape(x1, n, len) && SameShape(x2, n, len) && SameShape(x3, n, len)
      && AreOverflowBits(b1, b2, x1, x2, x3, n, len)
    ensures AreOverflows(b1, b2, x, n)
  {
    forall j | 0 <= j < |x|
      ensures OverflowBits(x[j].x0, x[j].x1, x[j].x2, n, OpenBit(b1[j]), OpenBit(b2[j]))
    {
      ComponentLane(planes, x, n, 0, j);
      ComponentLane(planes, x, n, 1, j);
      ComponentLane(planes, x, n, 2, j);
    }
  }

  /** The overflow bits of the three components of every entry. */
  method Overflows(net: Network, x: Vec, n: nat) returns (b1: Plane, b2: Plane)
    requires net.Quiet() && n >= 16 && Sliceable(n) && AllInRing(x, n)
    modifies net
    ensures net.Quiet() && AreOverflows(b1, b2, x, n)
  {
    var planes := BitSlice(x, n);
    var x1, x2, x3 := ComponentPlanes(planes, 0), ComponentPlanes(planes, 1), ComponentPlanes(planes, 2);
    var r := BinaryAdd3GetTwoCarries(net, x1, x2, x3, |x|, Transpose.PaddedLen(|x|, LANES));
    b1, b2 := r.value.0, r.value.1;
    OverflowOfSlices(planes, x, b1, b2, n);
  }

  function CorrectedAll(x: Vec, b: Vec, n: nat, to: nat): (y: Vec)
    requires |b| == 2 * |x|
    ensures |y| == |x| && forall j :: 0 <= j < |x| ==> y[j] == Corrected(x[j], b[j], b[|x| + j], n, to)
  {
    seq(|x|, j requires 0 <= j < |x| => Corrected(x[j], b[j], b[|x| + j], n, to))
  }

  lemma CorrectedAllLifts(x: Vec, b1: Plane, b2: Plane, b: Vec, n: nat, mid: nat, to: nat)
    requires n <= to <= mid + n && AreOverflows(b1, b2, x, n) && AreInjected(b, b1 + b2, mid)
    ensures AreLifted(CorrectedAll(x, b, n, to), x, n, to)
  {
    forall j | 0 <= j < |x|
      ensures Open(CorrectedAll(x, b, n, to)[j], to) == Open(x[j], n)
    {
      CorrectedAt(x, b1, b2, b, n, mid, to, j);
    }
  }

  lemma CorrectedAt(x: Vec, b1: Plane, b2: Plane, b: Vec, n: nat, mid: nat, to: nat, j: nat)
    requires n <= to <= mid + n && AreOverflows(b1, b2, x, n) && AreInjected(b, b1 + b2, mid) && j < |x|
    ensures Open(Corrected(x[j], b[j], b[|x| + j], n, to), to) == Open(x[j], n)
  {
    assert (b1 + b2)[j] == b1[j] && (b1 + b2)[|x| + j] == b2[j];
    CorrectedOpens(x[j], b[j], b[|x| + j], OpenBit(b1[j]), OpenBit(b2[j]), n, mid, to);
  }

  /** The carries are injected into a ring of `mid` bits and shifted into the ring of `to` bits. */
  method LiftVia(net: Network, x: Vec, n: nat, mid: nat, to: nat) returns (y: Vec)
    requires net.Quiet() && n == 16 && AllInRing(x, n) && mid >= 1 && n <= to <= mid + n
    modifies net
    ensures net.Quiet() && AreLifted(y, x, n, to)
  {
    var b1, b2 := Overflows(net, x, n);
    var b := BitInject(net, b1 + b2, mid);
    CorrectedAllLifts(x, b1, b2, b, n, mid, to);
    y := CorrectedAll(x, b, n, to);
  }

  /** Unsigned lift to 32 bits; the carries are injected into the 16-bit ring. */
  method Lift(net: Network, x: Vec) returns (y: Vec)
    requires net.Quiet() && AllInRing(x, 16)
    modifies net
    ensures net.Quiet() && AreLifted(y, x, 16, 32)
  {
    y := LiftVia(net, x, 16, 16, 32);
  }

  /** Unsigned lift to 48 bits; the carries are injected into the 32-bit ring. */
  method LiftToRing48(net: Network, x: Vec) returns (y: Vec)
    requires net.Quiet() && AllInRing(x, 16)
    modifies net
    ensures net.Quiet() && AreLifted(y, x, 16, 48)
  {
    y := LiftVia(net, x, 16, 32, 48);
  }

  // ----- signed lifts --------------------------------------------------------------------------

  /** Offsetting by half the ring, lifting and removing the offset is sign extension. */
  lemma OffsetIsSigned(x: nat, half: nat, full: nat, big: nat)
    requires 0 < half && full == 2 * half && x < full <= big
    ensures ((x + half) % full + (big - half)) % big == (if x >= half then x - full else x) % big
  {
    var v := if x >= half then x - full else x;
    if x >= half {
      DivModUnique(x + half, full, 1, x - half);
    } else {
      DivModUnique(x + half, full, 0, x + half);
    }
    assert (x + half) % full + (big - half) == v + 1 * big;
    ModPlusMultiple(v, 1, big);
  }

  ghost predicate AreSignedLifts(y: Vec, x: Vec, n: nat, to: nat)
    requires n >= 1
  {
    && |y| == |x| && AllInRing(y, to)
    && forall j :: 0 <= j < |x| ==> Open(y[j], to) == Signed(Open(x[j], n), n) % Pow2(to)
  }

  function AddConstAll(x: Vec, c: nat, k: nat): (r: Vec)
    ensures |r| == |x| && forall j :: 0 <= j < |x| ==> r[j] == AddConst(x[j], c, k)
  {
    seq(|x|, j requires 0 <= j < |x| => AddConst(x[j], c, k))
  }

  lemma AddConstAllOpens(x: Vec, c: nat, k: nat)
    requires AllInRing(x, k)
    ensures AllInRing(AddConstAll(x, c, k), k)
    ensures forall j :: 0 <= j < |x| ==> Open(AddConstAll(x, c, k)[j], k) == (Open(x[j], k) + c) % Pow2(k)
  {
    forall j | 0 <= j < |x|
      ensures InRing(AddConstAll(x, c, k)[j], k)
      ensures Open(AddConstAll(x, c, k)[j], k) == (Open(x[j], k) + c) % Pow2(k)
    {
      OpenAddConst(x[j], c, k);
    }
  }

  lemma SignedLiftsOf(x: Vec, lifted: Vec, n: nat, half: nat, to: nat, big: nat)
    requires 1 <= n <= to && AllInRing(x, n) && half == Pow2(n - 1) && big == Pow2(to)
    requires AreLifted(lifted, AddConstAll(x, half, n), n, to)
    ensures half <= big && AreSignedLifts(AddConstAll(lifted, big - half, to), x, n, to)
  {
    Pow2Monotone(n - 1, to);
    Pow2Monotone(n, to);
    AddConstAllOpens(x, half, n);
    AddConstAllOpens(lifted, big - half, to);
    var y := AddConstAll(lifted, big - half, to);
    forall j | 0 <= j < |x|
      ensures Open(y[j], to) == Signed(Open(x[j], n), n) % Pow2(to)
    {
      SignedLiftOf(Open(x[j], n), Open(AddConstAll(x, half, n)[j], n), Open(lifted[j], to), Open(y[j], to), n, half, to,
                   big);
    }
  }

  lemma SignedLiftOf(v: nat, offset: nat, lifted: nat, out: nat, n: nat, half: nat, to: nat, big: nat)
    requires 1 <= n <= to && half == Pow2(n - 1) && big == Pow2(to) && Pow2(n) <= big && v < Pow2(n)
    requires offset == (v + half) % Pow2(n) && lifted == offset && half <= big && out == (lifted + (big - half)) % big
    ensures out == Signed(v, n) % Pow2(to)
  {
    OffsetIsSigned(v, half, Pow2(n), big);
  }

  /** Add 2^15, lift, add 2^32 - 2^15: the two's-complement extension. */
  method BatchSignedLift(net: Network, x: Vec) returns (y: Vec)
    requires net.Quiet() && AllInRing(x, 16)
    modifies net
    ensures net.Quiet() && AreSignedLifts(y, x, 16, 32)
  {
    var half, big := Pow2(15), Pow2(32);
    AddConstAllOpens(x, half, 16);
    var lifted := Lift(net, AddConstAll(x, half, 16));
    SignedLiftsOf(x, lifted, 16, half, 32, big);
    y := AddConstAll(lifted, big - half, 32);
  }

  method BatchSignedLiftRing48(net: Network, x: Vec) returns (y: Vec)
    requires net.Quiet() && AllInRing(x, 16)
    modifies net
    ensures net.Quiet() && AreSignedLifts(y, x, 16, 48)
  {
    var half, big := Pow2(15), Pow2(48);
    AddConstAllOpens(x, half, 16);
    var lifted := LiftToRing48(net, AddConstAll(x, half, 16));
    SignedLiftsOf(x, lifted, 16, half, 48, big);
    y := AddConstAll(lifted, big - half, 48);
  }
}
