/** Secret-shared iris vectors: four coefficients at a time become a ring element, and dot products
    are computed share by share. */
module Iris {
  import opened Words
  import opened Galois
  import opened Units
  import opened Shamir
  import Interpolation

  // ----- bases --------------------------------------------------------------------------------

  /** Multiplication by the matrix S, from basis A to the monomial basis. */
  function TimesS(a: Elem): (r: Elem) {
    Elem(a.c0, a.c1 + a.c0 * 58082, a.c2 + a.c0 * 60579 + a.c1 * 25194,
         a.c3 + a.c0 * 17325 + a.c1 * 51956 + a.c2 * 57011)
  }

  function TimesInverseS(a: Elem): (r: Elem) {
    Elem(a.c0, a.c1 + a.c0 * 7454, a.c2 + a.c0 * 35057 + a.c1 * 40342,
         a.c3 + a.c0 * 37176 + a.c1 * 61738 + a.c2 * 8525)
  }

  /** Multiplication by the inverse of S times its transpose. */
  function TimesH(a: Elem): (r: Elem) {
    Elem(a.c0 * 16038 + a.c1 * 45700 + a.c2 * 28361 + a.c3 * 37176,
         a.c0 * 45700 + a.c1 * 28361 + a.c2 * 37176 + a.c3 * 61738,
         a.c0 * 28361 + a.c1 * 37176 + a.c2 * 61738 + a.c3 * 8525,
         a.c0 * 37176 + a.c1 * 61738 + a.c2 * 8525 + a.c3)
  }

  function FromBasisA(a: Elem): (r: Ring) { Reduce(TimesS(a)) }

  function ToBasisA(m: Ring): (r: Ring) { Reduce(TimesInverseS(m)) }

  function ToBasisB(m: Ring): (r: Ring) { Reduce(TimesH(m)) }

  /** Changing to the monomial basis and back changes nothing. */
  lemma BasisRoundTrip(a: Ring)
    ensures ToBasisA(FromBasisA(a)) == a
  {
    var s := TimesS(a);
    var q := Quotient(s);
    Split(s);
    var k := Elem(0, a.c0, 35755 * a.c0 + a.c1, 62597 * a.c0 + 3279 * a.c1 + a.c2);
    assert TimesInverseS(s) == Plus(a, Scale(MODULUS, k));
    assert TimesInverseS(s) == Plus(TimesInverseS(Reduce(s)), Scale(MODULUS, TimesInverseS(q)));
    ReduceShift(a, k);
    ReduceShift(TimesInverseS(Reduce(s)), TimesInverseS(q));
    ReduceIsIdentity(a);
  }

  lemma ReduceIsIdentity(a: Ring)
    ensures Reduce(a) == a
  {
  }

  // ----- dot products of four coefficients -------------------------------------------------------

  function Dot(u: Elem, v: Elem): (r: int) {
    u.c0 * v.c0 + u.c1 * v.c1 + u.c2 * v.c2 + u.c3 * v.c3
  }

  /** The first coefficient in basis B, a linear functional on the ring. */
  function Phi(w: Elem): (r: int) {
    w.c0 * 16038 + w.c1 * 45700 + w.c2 * 28361 + w.c3 * 37176
  }

  predicate Same(x: int, y: int) {
    x % MODULUS == y % MODULUS
  }

  lemma SameShift(x: int, k: int)
    ensures Same(x + MODULUS * k, x)
  {
  }

  /** Witness form of congruence. */
  lemma Gap(x: int, y: int) returns (k: int)
    requires Same(x, y)
    ensures x == y + MODULUS * k
  {
    k := x / MODULUS - y / MODULUS;
  }

  lemma DotPlus(u: Elem, w: Elem, v: Elem)
    ensures Dot(Plus(u, w), v) == Dot(u, v) + Dot(w, v)
  {
    Distributes(v.c0, u.c0, w.c0); Distributes(v.c1, u.c1, w.c1);
    Distributes(v.c2, u.c2, w.c2); Distributes(v.c3, u.c3, w.c3);
  }

  lemma DotScale(s: int, u: Elem, v: Elem)
    ensures Dot(Scale(s, u), v) == s * Dot(u, v)
  {
    ScaledProduct(s, u.c0, v.c0); ScaledProduct(s, u.c1, v.c1); ScaledProduct(s, u.c2, v.c2);
    ScaledProduct(s, u.c3, v.c3);
    ScaledSum(s, u.c0 * v.c0, u.c1 * v.c1, u.c2 * v.c2, u.c3 * v.c3);
  }

  lemma ScaledProduct(s: int, x: int, y: int)
    ensures (s * x) * y == s * (x * y)
  {
  }

  lemma ScaledSum(s: int, w: int, x: int, y: int, z: int)
    ensures s * (w + x + y + z) == s * w + s * x + s * y + s * z
  {
  }

  lemma DotCommutes(u: Elem, v: Elem)
    ensures Dot(u, v) == Dot(v, u)
  {
  }

  lemma DotReduce(u: Elem, v: Elem)
    ensures Same(Dot(Reduce(u), v), Dot(u, v)) && Same(Dot(v, Reduce(u)), Dot(v, u))
  {
    var q := Quotient(u);
    Split(u);
    DotPlus(Reduce(u), Scale(MODULUS, q), v);
    DotScale(MODULUS, q, v);
    SameShift(Dot(Reduce(u), v), Dot(q, v));
    DotCommutes(v, Reduce(u));
    DotCommutes(v, u);
  }

  lemma PhiReduce(w: Elem)
    ensures Same(Phi(Reduce(w)), Phi(w))
  {
    Split(w);
    var q := Quotient(w);
    assert Phi(w) == Phi(Reduce(w)) + MODULUS * Phi(q);
    SameShift(Phi(Reduce(w)), Phi(q));
  }

  lemma PhiAdd(a: Ring, b: Ring)
    ensures Same(Phi(Add(a, b)), Phi(a) + Phi(b))
  {
    PhiReduce(Plus(a, b));
    assert Phi(Plus(a, b)) == Phi(a) + Phi(b);
  }

  lemma RowTimes(x0: int, x1: int, x2: int, x3: int, a: int, b: int, c: int, d: int, v: int)
    ensures (x0 * a + x1 * b + x2 * c + x3 * d) * v == (x0 * v) * a + (x1 * v) * b + (x2 * v) * c + (x3 * v) * d
  {
    assert (x0 * a) * v == (x0 * v) * a && (x1 * b) * v == (x1 * v) * b;
    assert (x2 * c) * v == (x2 * v) * c && (x3 * d) * v == (x3 * v) * d;
  }

  /** Dot products with basis-B coefficients are values of the functional on products: the matrix is
      constant along antidiagonals, and its entries continue by x^4 = x + 1. */
  lemma BasisBDot(u: Elem, v: Elem)
    ensures Same(Dot(TimesH(u), v), Phi(Times(u, v)))
  {
    RowTimes(u.c0, u.c1, u.c2, u.c3, 16038, 45700, 28361, 37176, v.c0);
    RowTimes(u.c0, u.c1, u.c2, u.c3, 45700, 28361, 37176, 61738, v.c1);
    RowTimes(u.c0, u.c1, u.c2, u.c3, 28361, 37176, 61738, 8525, v.c2);
    RowTimes(u.c0, u.c1, u.c2, u.c3, 37176, 61738, 8525, 1, v.c3);
    var k := u.c2 * v.c3 + u.c3 * v.c2 + u.c3 * v.c3;
    assert Phi(Times(u, v)) == Dot(TimesH(u), v) + MODULUS * k;
    SameShift(Dot(TimesH(u), v), k);
  }

  /** Multiplication by the transpose of the inverse of S. */
  function TimesTransposed(a: Elem): (r: Elem) {
    Elem(a.c0 + a.c1 * 7454 + a.c2 * 35057 + a.c3 * 37176, a.c1 + a.c2 * 40342 + a.c3 * 61738, a.c2 + a.c3 * 8525, a.c3)
  }

  lemma HTimesS(a: Elem)
    ensures Reduce(TimesH(TimesS(a))) == Reduce(TimesTransposed(a))
  {
    var k := Elem(76546 * a.c0 + 40376 * a.c1 + 32340 * a.c2, 75821 * a.c0 + 63237 * a.c1 + 53707 * a.c2,
                  92270 * a.c0 + 30493 * a.c1 + 7417 * a.c2, 62597 * a.c0 + 3279 * a.c1 + a.c2);
    assert TimesH(TimesS(a)) == Plus(TimesTransposed(a), Scale(MODULUS, k));
    ReduceShift(TimesTransposed(a), k);
  }

  lemma TransposedDot(a: Elem, b: Elem)
    ensures Same(Dot(TimesTransposed(a), TimesS(b)), Dot(a, b))
  {
    var s := TimesS(b);
    RowTimes(a.c0, a.c1, a.c2, a.c3, 1, 7454, 35057, 37176, b.c0);
    RowTimes(0, a.c1, a.c2, a.c3, 1, 1, 40342, 61738, s.c1);
    RowTimes(0, 0, a.c2, a.c3, 1, 1, 1, 8525, s.c2);
    ColumnTimes(a.c1, b); ColumnTimes(a.c2, b); ColumnTimes(a.c3, b);
    var k := a.c1 * b.c0 + (a.c2 * b.c0) * 35755 + a.c2 * b.c1
      + (a.c3 * b.c0) * 62597 + (a.c3 * b.c1) * 3279 + a.c3 * b.c2;
    assert Dot(TimesTransposed(a), s) == Dot(a, b) + MODULUS * k;
    SameShift(Dot(a, b), k);
  }

  lemma ColumnTimes(x: int, b: Elem)
    ensures x * TimesS(b).c1 == x * b.c1 + (x * b.c0) * 58082
    ensures x * TimesS(b).c2 == x * b.c2 + (x * b.c0) * 60579 + (x * b.c1) * 25194
    ensures x * TimesS(b).c3 == x * b.c3 + (x * b.c0) * 17325 + (x * b.c1) * 51956 + (x * b.c2) * 57011
  {
  }

  /** In basis A the functional of a product is the dot product of the coefficients. */
  lemma BasisADot(a: Elem, b: Elem)
    ensures Same(Phi(Mul(FromBasisA(a), FromBasisA(b))), Dot(a, b))
  {
    var x, y := TimesS(a), TimesS(b);
    ReduceTimes(x, Reduce(y));
    ReduceTimes(y, x);
    PhiReduce(Times(x, y));
    BasisBDot(x, y);
    HTimesS(a);
    DotReduce(TimesH(x), y);
    DotReduce(TimesTransposed(a), y);
    TransposedDot(a, b);
  }

  // ----- three parties, one chunk -----------------------------------------------------------------

  function Weight3(j: nat): (w: Ring)
    requires j < 3
  {
    Interpolation.Weights(GALOIS, Points(3))[j]
  }

  /** A query share after multiplication by the party's weight, in basis B. */
  function Prepared(y: Ring, j: nat): (r: Ring)
    requires j < 3
  {
    ToBasisB(Mul(y, Weight3(j)))
  }

  lemma PreparedDot(y: Ring, d: Ring, w: Ring)
    ensures Same(Dot(ToBasisB(Mul(y, w)), d), Phi(Mul(Mul(y, d), w)))
  {
    var u := Mul(y, w);
    DotReduce(TimesH(u), d);
    BasisBDot(u, d);
    PhiReduce(Times(u, d));
    MulAssociates(y, w, d);
    MulCommutes(w, d);
    MulAssociates(y, d, w);
  }

  function ProductShares(q: seq<Ring>, d: seq<Ring>): (r: seq<ShamirShare>)
    requires |q| == |d|
    ensures Interpolation.AreShares(r, ShareProducts(q, d))
  {
    seq(|q|, i requires 0 <= i < |q| => Interpolation.Share(i + 1, Mul(q[i], d[i])))
  }

  lemma CombinedThree(q: seq<Ring>, d: seq<Ring>)
    requires |q| == |d| == 3
    ensures Combined(ProductShares(q, d), 3)
         == Add(Add(Mul(Mul(q[0], d[0]), Weight3(0)), Mul(Mul(q[1], d[1]), Weight3(1))),
                Mul(Mul(q[2], d[2]), Weight3(2)))
  {
    UnfoldThree(GALOIS, ProductShares(q, d), Interpolation.Weights(GALOIS, Points(3)));
  }

  lemma UnfoldThree<T>(R: Interpolation.Ops<T>, s: seq<Interpolation.Share<T>>, w: seq<T>)
    requires |s| == |w| == 3 && s[0].id == 1 && s[1].id == 2 && s[2].id == 3 && Interpolation.ValidIds(s, 3)
    ensures Interpolation.SumShares(R, s, w, 3)
         == R.add(R.add(R.mul(s[0].y, w[0]), R.mul(s[1].y, w[1])), R.mul(s[2].y, w[2]))
  {
    assert Interpolation.SumShares(R, s, w, 1) == R.mul(s[0].y, w[0]);
    assert Interpolation.SumShares(R, s, w, 2) == R.add(Interpolation.SumShares(R, s, w, 1), R.mul(s[1].y, w[1]));
  }

  lemma PhiAddGap(x: Ring, y: Ring) returns (k: int)
    ensures Phi(Add(x, y)) == Phi(x) + Phi(y) + MODULUS * k
  {
    PhiAdd(x, y);
    k := Gap(Phi(Add(x, y)), Phi(x) + Phi(y));
  }

  lemma PhiOfThree(x: Ring, y: Ring, z: Ring) returns (k: int)
    ensures Phi(Add(Add(x, y), z)) == Phi(x) + Phi(y) + Phi(z) + MODULUS * k
  {
    var k1 := PhiAddGap(Add(x, y), z);
    var k2 := PhiAddGap(x, y);
    k := k1 + k2;
  }

  function PreparedDotOf(q: seq<Ring>, d: seq<Ring>, j: nat): (r: int)
    requires |q| == |d| == 3 && j < 3
  {
    Dot(Prepared(q[j], j), d[j])
  }

  function PhiTerm(q: seq<Ring>, d: seq<Ring>, j: nat): (r: int)
    requires |q| == |d| == 3 && j < 3
  {
    Phi(Mul(Mul(q[j], d[j]), Weight3(j)))
  }

  lemma PreparedTerm(q: seq<Ring>, d: seq<Ring>, j: nat) returns (k: int)
    requires |q| == |d| == 3 && j < 3
    ensures PreparedDotOf(q, d, j) == PhiTerm(q, d, j) + MODULUS * k
  {
    PreparedDot(q[j], d[j], Weight3(j));
    k := Gap(PreparedDotOf(q, d, j), PhiTerm(q, d, j));
  }

  function PreparedSum(q: seq<Ring>, d: seq<Ring>): (r: int)
    requires |q| == |d| == 3
  {
    PreparedDotOf(q, d, 0) + PreparedDotOf(q, d, 1) + PreparedDotOf(q, d, 2)
  }

  lemma PreparedSumIsPhi(q: seq<Ring>, d: seq<Ring>) returns (k: int)
    requires |q| == |d| == 3
    ensures PreparedSum(q, d) == PhiTerm(q, d, 0) + PhiTerm(q, d, 1) + PhiTerm(q, d, 2) + MODULUS * k
  {
    var k0 := PreparedTerm(q, d, 0);
    var k1 := PreparedTerm(q, d, 1);
    var k2 := PreparedTerm(q, d, 2);
    k := k0 + k1 + k2;
  }

  lemma PhiOfCombined(q: seq<Ring>, d: seq<Ring>) returns (k: int)
    requires |q| == |d| == 3
    ensures Phi(Combined(ProductShares(q, d), 3))
         == PhiTerm(q, d, 0) + PhiTerm(q, d, 1) + PhiTerm(q, d, 2) + MODULUS * k
  {
    CombinedThree(q, d);
    k := PhiOfThree(Mul(Mul(q[0], d[0]), Weight3(0)), Mul(Mul(q[1], d[1]), Weight3(1)),
                    Mul(Mul(q[2], d[2]), Weight3(2)));
  }

  lemma PhiOfSecret(a: Elem, r: Ring, b: Elem, r': Ring, q: seq<Ring>, d: seq<Ring>) returns (k: int)
    requires q == Lines(FromBasisA(a), r) && d == Lines(FromBasisA(b), r')
    ensures Phi(Combined(ProductShares(q, d), 3)) == Dot(a, b) + MODULUS * k
  {
    ProductOfThree(ProductShares(q, d), FromBasisA(a), r, FromBasisA(b), r');
    BasisADot(a, b);
    k := Gap(Phi(Mul(FromBasisA(a), FromBasisA(b))), Dot(a, b));
  }

  /** The three local dot products of one chunk add up to the plaintext dot product. */
  lemma ChunkDots(a: Elem, r: Ring, b: Elem, r': Ring, q: seq<Ring>, d: seq<Ring>) returns (k: int)
    requires q == Lines(FromBasisA(a), r) && d == Lines(FromBasisA(b), r')
    ensures PreparedSum(q, d) == Dot(a, b) + MODULUS * k
  {
    var k0 := PreparedSumIsPhi(q, d);
    var k1 := PhiOfCombined(q, d);
    var k2 := PhiOfSecret(a, r, b, r', q, d);
    k := k0 - k1 + k2;
  }

  // ----- vectors --------------------------------------------------------------------------------------

  /** Coefficients 4c .. 4c+3. */
  function Chunk(v: seq<int>, c: nat): (e: Elem)
    requires 4 * c + 3 < |v|
  {
    Elem(v[4 * c], v[4 * c + 1], v[4 * c + 2], v[4 * c + 3])
  }

  function VectorDot(u: seq<int>, v: seq<int>, n: nat): (r: int)
    requires n <= |u| && n <= |v|
  {
    if n == 0 then 0 else VectorDot(u, v, n - 1) + u[n - 1] * v[n - 1]
  }

  lemma NextChunk(u: seq<int>, v: seq<int>, c: nat)
    requires 4 * c + 4 <= |u| && 4 * c + 4 <= |v|
    ensures VectorDot(u, v, 4 * c + 4) == VectorDot(u, v, 4 * c) + Dot(Chunk(u, c), Chunk(v, c))
  {
    assert VectorDot(u, v, 4 * c + 1) == VectorDot(u, v, 4 * c) + u[4 * c] * v[4 * c];
    assert VectorDot(u, v, 4 * c + 2) == VectorDot(u, v, 4 * c + 1) + u[4 * c + 1] * v[4 * c + 1];
    assert VectorDot(u, v, 4 * c + 3) == VectorDot(u, v, 4 * c + 2) + u[4 * c + 2] * v[4 * c + 2];
  }

  /** share is party j's share of the plaintext vector x, with one random element per chunk. */
  ghost predicate IsVectorShare(share: seq<int>, x: seq<int>, random: seq<Ring>, j: nat)
    requires j < 3
  {
    && |share| == |x| == 4 * |random|
    && forall c :: 0 <= c < |random| ==> Chunk(share, c) == Lines(FromBasisA(Chunk(x, c)), random[c])[j]
  }

  /** prepared is that share multiplied by the party's Lagrange weight, in basis B. */
  ghost predicate IsPrepared(prepared: seq<int>, share: seq<int>, j: nat)
    requires j < 3
  {
    && |prepared| == |share| && |share| % 4 == 0
    && forall c :: 0 <= c < |share| / 4 ==>
      Reduced(Chunk(share, c)) && Chunk(prepared, c) == Prepared(Chunk(share, c), j)
  }

  datatype Three<T> = Three(p0: T, p1: T, p2: T)

  ghost predicate AreVectorShares(s: Three<seq<int>>, x: seq<int>, random: seq<Ring>) {
    IsVectorShare(s.p0, x, random, 0) && IsVectorShare(s.p1, x, random, 1) && IsVectorShare(s.p2, x, random, 2)
  }

  ghost predicate ArePrepared(p: Three<seq<int>>, s: Three<seq<int>>) {
    IsPrepared(p.p0, s.p0, 0) && IsPrepared(p.p1, s.p1, 1) && IsPrepared(p.p2, s.p2, 2)
  }

  lemma OneChunk(x: seq<int>, rx: seq<Ring>, y: seq<int>, ry: seq<Ring>, s: Three<seq<int>>, p: Three<seq<int>>,
                 d: Three<seq<int>>, c: nat)
    returns (k: int)
    requires AreVectorShares(s, x, rx) && AreVectorShares(d, y, ry) && ArePrepared(p, s) && |x| == |y| && c < |rx|
    ensures ChunkSum(p, d, c) == Dot(Chunk(x, c), Chunk(y, c)) + MODULUS * k
  {
    var q, e := Lines(FromBasisA(Chunk(x, c)), rx[c]), Lines(FromBasisA(Chunk(y, c)), ry[c]);
    PreparedChunk(x, rx, s.p0, p.p0, 0, c);
    PreparedChunk(x, rx, s.p1, p.p1, 1, c);
    PreparedChunk(x, rx, s.p2, p.p2, 2, c);
    assert Chunk(d.p0, c) == e[0] && Chunk(d.p1, c) == e[1] && Chunk(d.p2, c) == e[2];
    assert ChunkSum(p, d, c) == PreparedSum(q, e);
    k := ChunkDots(Chunk(x, c), rx[c], Chunk(y, c), ry[c], q, e);
  }

  lemma PreparedChunk(x: seq<int>, rx: seq<Ring>, share: seq<int>, prepared: seq<int>, j: nat, c: nat)
    requires j < 3 && IsVectorShare(share, x, rx, j) && IsPrepared(prepared, share, j) && c < |rx|
    ensures Chunk(prepared, c) == Prepared(Lines(FromBasisA(Chunk(x, c)), rx[c])[j], j)
  {
  }

  function ChunkSum(p: Three<seq<int>>, d: Three<seq<int>>, c: nat): (r: int)
    requires 4 * c + 3 < |p.p0| && 4 * c + 3 < |p.p1| && 4 * c + 3 < |p.p2| && 4 * c + 3 < |d.p0| && 4 * c + 3 < |d.p1|
    requires 4 * c + 3 < |d.p2|
  {
    Dot(Chunk(p.p0, c), Chunk(d.p0, c)) + Dot(Chunk(p.p1, c), Chunk(d.p1, c)) + Dot(Chunk(p.p2, c), Chunk(d.p2, c))
  }

  function SumOfDots(p: Three<seq<int>>, d: Three<seq<int>>, n: nat): (r: int)
    requires n <= |p.p0| && n <= |p.p1| && n <= |p.p2| && n <= |d.p0| && n <= |d.p1| && n <= |d.p2|
  {
    VectorDot(p.p0, d.p0, n) + VectorDot(p.p1, d.p1, n) + VectorDot(p.p2, d.p2, n)
  }

  /** One chunk more. */
  lemma NextDots(x: seq<int>, y: seq<int>, p: Three<seq<int>>, d: Three<seq<int>>, b: nat, k0: int, k1: int)
    requires LongEnough(p, d, 4 * b + 4) && 4 * b + 4 <= |x| && 4 * b + 4 <= |y|
    requires SumOfDots(p, d, 4 * b) == VectorDot(x, y, 4 * b) + MODULUS * k0
    requires ChunkSum(p, d, b) == Dot(Chunk(x, b), Chunk(y, b)) + MODULUS * k1
    ensures SumOfDots(p, d, 4 * b + 4) == VectorDot(x, y, 4 * b + 4) + MODULUS * (k0 + k1)
  {
    SumNextChunk(p, d, b);
    NextChunk(x, y, b);
  }

  ghost predicate LongEnough(p: Three<seq<int>>, d: Three<seq<int>>, n: nat) {
    n <= |p.p0| && n <= |p.p1| && n <= |p.p2| && n <= |d.p0| && n <= |d.p1| && n <= |d.p2|
  }

  /** Chunk by chunk the parties' dots add up to the plaintext dot modulo 2^16. */
  ghost predicate ChunkAgrees(x: seq<int>, y: seq<int>, p: Three<seq<int>>, d: Three<seq<int>>, c: nat) {
    && LongEnough(p, d, 4 * c + 4) && 4 * c + 4 <= |x| && 4 * c + 4 <= |y|
    && Same(ChunkSum(p, d, c), Dot(Chunk(x, c), Chunk(y, c)))
  }

  ghost predicate ChunksAgree(x: seq<int>, y: seq<int>, p: Three<seq<int>>, d: Three<seq<int>>, n: nat) {
    LongEnough(p, d, 4 * n) && 4 * n <= |x| && 4 * n <= |y| && forall c :: 0 <= c < n ==> ChunkAgrees(x, y, p, d, c)
  }

  lemma SharesAgree(x: seq<int>, rx: seq<Ring>, y: seq<int>, ry: seq<Ring>,
                    s: Three<seq<int>>, p: Three<seq<int>>, d: Three<seq<int>>)
    requires AreVectorShares(s, x, rx) && AreVectorShares(d, y, ry) && ArePrepared(p, s) && |x| == |y|
    ensures ChunksAgree(x, y, p, d, |rx|)
  {
    forall c | 0 <= c < |rx|
      ensures ChunkAgrees(x, y, p, d, c)
    {
      var k := OneChunk(x, rx, y, ry, s, p, d, c);
      SameOf(ChunkSum(p, d, c), Dot(Chunk(x, c), Chunk(y, c)), k);
    }
  }

  lemma {:induction false} DotsUpTo(x: seq<int>, y: seq<int>, p: Three<seq<int>>, d: Three<seq<int>>, n: nat, c: nat)
    returns (k: int)
    requires ChunksAgree(x, y, p, d, n) && c <= n
    ensures SumOfDots(p, d, 4 * c) == VectorDot(x, y, 4 * c) + MODULUS * k
  {
    k := 0;
    if c > 0 {
      var b := c - 1;
      assert ChunkAgrees(x, y, p, d, b);
      var k0 := DotsUpTo(x, y, p, d, n, b);
      var k1 := Gap(ChunkSum(p, d, b), Dot(Chunk(x, b), Chunk(y, b)));
      NextDots(x, y, p, d, b, k0, k1);
      k := k0 + k1;
      assert 4 * b + 4 == 4 * c;
    }
  }

  lemma SumNextChunk(p: Three<seq<int>>, d: Three<seq<int>>, c: nat)
    requires 4 * c + 3 < |p.p0| && 4 * c + 3 < |p.p1| && 4 * c + 3 < |p.p2| && 4 * c + 3 < |d.p0| && 4 * c + 3 < |d.p1|
    requires 4 * c + 3 < |d.p2|
    ensures SumOfDots(p, d, 4 * c + 4) == SumOfDots(p, d, 4 * c) + ChunkSum(p, d, c)
  {
    NextChunk(p.p0, d.p0, c);
    NextChunk(p.p1, d.p1, c);
    NextChunk(p.p2, d.p2, c);
  }

  /** Summed over the parties, the dot products of prepared query shares with database shares are the
      plaintext dot product modulo 2^16. */
  lemma SharedDotIsDot(x: seq<int>, rx: seq<Ring>, y: seq<int>, ry: seq<Ring>, s: Three<seq<int>>, p: Three<seq<int>>,
                       d: Three<seq<int>>)
    requires AreVectorShares(s, x, rx) && AreVectorShares(d, y, ry) && ArePrepared(p, s) && |x| == |y|
    ensures Same(SumOfDots(p, d, |x|), VectorDot(x, y, |x|))
  {
    SharesAgree(x, rx, y, ry, s, p, d);
    var k := DotsUpTo(x, y, p, d, |rx|, |rx|);
    SameOf(SumOfDots(p, d, 4 * |rx|), VectorDot(x, y, 4 * |rx|), k);
  }

  lemma SameOf(x: int, y: int, k: int)
    requires x == y + MODULUS * k
    ensures Same(x, y)
  {
  }

  predicate Small(v: seq<int>) {
    forall i :: 0 <= i < |v| ==> -7 <= v[i] <= 7
  }

  lemma {:induction false} SmallDot(x: seq<int>, y: seq<int>, n: nat)
    requires Small(x) && Small(y) && n <= |x| && n <= |y|
    ensures -49 * n <= VectorDot(x, y, n) <= 49 * n
  {
    if n > 0 {
      SmallDot(x, y, n - 1);
      SmallProduct(x[n - 1], y[n - 1]);
    }
  }

  lemma SmallProduct(a: int, b: int)
    requires -7 <= a <= 7 && -7 <= b <= 7
    ensures -49 <= a * b <= 49
  {
    MulNonneg(7 - a, 7 - b); MulNonneg(7 + a, 7 + b); MulNonneg(7 - a, 7 + b); MulNonneg(7 + a, 7 - b);
    assert (7 - a) * (7 - b) + (7 + a) * (7 + b) == 98 + 2 * (a * b);
    assert (7 - a) * (7 + b) + (7 + a) * (7 - b) == 98 - 2 * (a * b);
  }

  lemma SignedExact(total: int, v: int, n: nat)
    requires n == 16 && Same(total, v) && -0x8000 <= v < 0x8000
    ensures Signed(total % MODULUS, n) == v
  {
    Pow2Values();
    SignedOf(v, n);
  }

  /** With entries in [-7, 7] and at most 512 of them the 16-bit result, read as a signed number, is exact. */
  lemma SharedDotExact(x: seq<int>, rx: seq<Ring>, y: seq<int>, ry: seq<Ring>,
                       s: Three<seq<int>>, p: Three<seq<int>>, d: Three<seq<int>>, n: nat)
    requires AreVectorShares(s, x, rx) && AreVectorShares(d, y, ry) && ArePrepared(p, s) && n == |x| == |y| <= 512
    requires Small(x) && Small(y)
    ensures Signed(SumOfDots(p, d, n) % MODULUS, 16) == VectorDot(x, y, n)
    ensures -25088 <= VectorDot(x, y, n) <= 25088
  {
    SharedDotIsDot(x, rx, y, ry, s, p, d);
    SmallDot(x, y, n);
    SignedExact(SumOfDots(p, d, n), VectorDot(x, y, n), 16);
  }

  // ----- sharing and preparing vectors ----------------------------------------------------------------------

  /** The coefficients of one ring element after another. */
  ghost predicate Holds(v: seq<int>, elements: seq<Ring>) {
    |v| == 4 * |elements| && forall c :: 0 <= c < |elements| ==> Chunk(v, c) == elements[c]
  }

  function Coefficients(e: Ring): (r: seq<int>)
    ensures |r| == 4
  {
    [e.c0, e.c1, e.c2, e.c3]
  }

  lemma AppendElement(v: seq<int>, elements: seq<Ring>, e: Ring)
    requires Holds(v, elements)
    ensures Holds(v + Coefficients(e), elements + [e])
  {
    var w := v + Coefficients(e);
    forall c | 0 <= c < |elements| + 1
      ensures Chunk(w, c) == (elements + [e])[c]
    {
      if c < |elements| {
        assert Chunk(w, c) == Chunk(v, c);
      }
    }
  }

  function SecretOf(x: seq<int>, c: nat): (r: Ring)
    requires 4 * c + 3 < |x|
  {
    FromBasisA(Reduce(Chunk(x, c)))
  }

  lemma SecretIsSigned(x: seq<int>, c: nat)
    requires 4 * c + 3 < |x|
    ensures SecretOf(x, c) == FromBasisA(Chunk(x, c))
  {
    var a := Chunk(x, c);
    Split(a);
    assert TimesS(a) == Plus(TimesS(Reduce(a)), Scale(MODULUS, TimesS(Quotient(a))));
    ReduceShift(TimesS(Reduce(a)), TimesS(Quotient(a)));
  }

  /** Party j's share of every chunk. */
  ghost function ShareElements(x: seq<int>, random: seq<Ring>, j: nat, n: nat): (r: seq<Ring>)
    requires j < 3 && n <= |random| && 4 * n <= |x|
    ensures |r| == n && forall c :: 0 <= c < n ==> r[c] == Lines(SecretOf(x, c), random[c])[j]
  {
    seq(n, c requires 0 <= c < n => Lines(SecretOf(x, c), random[c])[j])
  }

  /** Three shares of a plaintext vector, chunk by chunk, through the addition-only encoder. */
  method SecretShare(x: seq<int>, random: seq<Ring>) returns (s: Three<seq<int>>)
    requires |x| == 4 * |random|
    ensures AreVectorShares(s, x, random)
  {
    s := Three([], [], []);
    for c := 0 to |random|
      invariant Holds(s.p0, ShareElements(x, random, 0, c))
      invariant Holds(s.p1, ShareElements(x, random, 1, c))
      invariant Holds(s.p2, ShareElements(x, random, 2, c))
    {
      var share := Encode3Mat(SecretOf(x, c), random[c]);
      Encode3MatIsLines(SecretOf(x, c), random[c]);
      AppendShare(s.p0, share[0], x, random, 0, c);
      AppendShare(s.p1, share[1], x, random, 1, c);
      AppendShare(s.p2, share[2], x, random, 2, c);
      s := Three(s.p0 + Coefficients(share[0]), s.p1 + Coefficients(share[1]), s.p2 + Coefficients(share[2]));
    }
    SharesComplete(s.p0, x, random, 0);
    SharesComplete(s.p1, x, random, 1);
    SharesComplete(s.p2, x, random, 2);
  }

  lemma AppendShare(v: seq<int>, e: Ring, x: seq<int>, random: seq<Ring>, j: nat, c: nat)
    requires j < 3 && c < |random| && |x| == 4 * |random| && Holds(v, ShareElements(x, random, j, c))
    requires e == Lines(SecretOf(x, c), random[c])[j]
    ensures Holds(v + Coefficients(e), ShareElements(x, random, j, c + 1))
  {
    AppendElement(v, ShareElements(x, random, j, c), e);
    assert ShareElements(x, random, j, c + 1) == ShareElements(x, random, j, c) + [e];
  }

  lemma SharesComplete(v: seq<int>, x: seq<int>, random: seq<Ring>, j: nat)
    requires j < 3 && |x| == 4 * |random| && Holds(v, ShareElements(x, random, j, |random|))
    ensures IsVectorShare(v, x, random, j)
  {
    forall c | 0 <= c < |random|
      ensures Chunk(v, c) == Lines(FromBasisA(Chunk(x, c)), random[c])[j]
    {
      SecretIsSigned(x, c);
    }
  }

  /** The vector with chunk c replaced. */
  function WithChunk(v: seq<int>, c: nat, e: Ring): (r: seq<int>)
    requires 4 * c + 4 <= |v|
    ensures |r| == |v|
  {
    v[..4 * c] + Coefficients(e) + v[4 * c + 4..]
  }

  lemma ReplacedChunk(v: seq<int>, c: nat, e: Ring, b: nat)
    requires 4 * c + 4 <= |v| && 4 * b + 4 <= |v|
    ensures Chunk(WithChunk(v, c, e), b) == if b == c then e else Chunk(v, b)
  {
    if b < c {
      assert 4 * b + 3 < 4 * c;
    } else if b > c {
      assert 4 * b >= 4 * c + 4;
    }
  }

  method WriteChunk(a: array<int>, c: nat, e: Ring)
    requires 4 * c + 4 <= a.Length
    modifies a
    ensures a[..] == WithChunk(old(a[..]), c, e)
  {
    var i := 4 * c;
    a[i] := e.c0;
    a[i + 1] := e.c1;
    a[i + 2] := e.c2;
    a[i + 3] := e.c3;
  }

  /** The first n chunks are prepared, the others as they were. */
  ghost predicate PreparedUpTo(now: seq<int>, was: seq<int>, j: nat, n: nat)
    requires j < 3
  {
    && |now| == |was| && 4 * n <= |was| && |was| % 4 == 0
    && (forall b :: 0 <= b < |was| / 4 ==> Reduced(Chunk(was, b)))
    && (forall b :: 0 <= b < n ==> Chunk(now, b) == Prepared(Chunk(was, b), j))
    && (forall b :: n <= b < |was| / 4 ==> Chunk(now, b) == Chunk(was, b))
  }

  lemma PreparedNext(now: seq<int>, was: seq<int>, j: nat, n: nat)
    requires j < 3 && PreparedUpTo(now, was, j, n) && n < |was| / 4
    ensures PreparedUpTo(WithChunk(now, n, Prepared(Chunk(was, n), j)), was, j, n + 1)
  {
    var e := Prepared(Chunk(was, n), j);
    forall b | 0 <= b < |was| / 4
      ensures Chunk(WithChunk(now, n, e), b) == if b == n then e else Chunk(now, b)
    {
      ReplacedChunk(now, n, e, b);
    }
  }

  /** Multiplies a share by its party's Lagrange coefficient in place, changing to basis B. */
  method MultiplyLagrangeCoeffs(a: array<int>, id: nat)
    requires 1 <= id <= 3 && a.Length % 4 == 0 && forall c :: 0 <= c < a.Length / 4 ==> Reduced(Chunk(a[..], c))
    modifies a
    ensures IsPrepared(a[..], old(a[..]), id - 1)
  {
    var weights := LagrangePolysAtZero(3);
    ghost var was := a[..];
    for c := 0 to a.Length / 4
      invariant PreparedUpTo(a[..], was, id - 1, c)
    {
      var element := ReadChunk(a, c);
      assert element == Chunk(was, c);
      PreparedNext(a[..], was, id - 1, c);
      WriteChunk(a, c, ToBasisB(Mul(element, weights[id - 1])));
    }
  }

  method ReadChunk(a: array<int>, c: nat) returns (e: Elem)
    requires 4 * c + 4 <= a.Length
    ensures e == Chunk(a[..], c)
  {
    var i := 4 * c;
    e := Elem(a[i], a[i + 1], a[i + 2], a[i + 3]);
  }

  // ----- five parties ------------------------------------------------------------------------------------------

  /** Chunk values of three parties of five. */
  ghost predicate AreFiveChunks(y: seq<Ring>, ids: seq<nat>, a: Elem, r: Ring, t: Ring) {
    && |y| == |ids| == 3
    && forall i :: 0 <= i < 3 ==> 1 <= ids[i] <= 5 && y[i] == Encode5Mat(FromBasisA(a), r, t)[ids[i] - 1]
  }

  predicate AllDifferent(ids: seq<nat>) {
    forall i, j :: 0 <= i < |ids| && 0 <= j < |ids| && i != j ==> ids[i] != ids[j]
  }

  function PointsOf(ids: seq<nat>): (z: seq<Ring>)
    requires forall i :: 0 <= i < |ids| ==> ids[i] < 16
    ensures |z| == |ids| && forall i :: 0 <= i < |ids| ==> z[i] == EXCEPTIONAL_SEQUENCE[ids[i]]
  {
    seq(|ids|, i requires 0 <= i < |ids| => EXCEPTIONAL_SEQUENCE[ids[i]])
  }

  /** The shares of any three different parties determine the chunk. */
  lemma FiveSharesReconstruct(y: seq<Ring>, ids: seq<nat>, a: Ring, r: Ring, t: Ring)
    requires AreFiveChunks(y, ids, a, r, t) && AllDifferent(ids)
    ensures ToBasisA(Interpolation.Combine(GALOIS, PointsOf(ids), y, 3)) == a
  {
    Encode5MatIsParabolas(FromBasisA(a), r, t);
    AnyThreeOfFive(ids, PointsOf(ids), y, FromBasisA(a), r, t);
    BasisRoundTrip(a);
  }
}
