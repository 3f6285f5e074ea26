/** Interactive products: sharings that hold integers modulo 2^k, multiplied and compared. */
module Products {
  import opened Words
  import opened Rep3
  import opened Sessions
  import opened Ops

  /** The sharing represents the integer v modulo 2^k. */
  ghost predicate Holds(s: Shared<nat>, v: int, k: nat) {
    Open(s, k) == v % Pow2(k)
  }

  lemma HoldsSub(x: Shared<nat>, y: Shared<nat>, u: int, v: int, k: nat)
    requires Holds(x, u, k) && Holds(y, v, k)
    ensures Holds(SubShared(x, y, k), u - v, k)
  {
    OpenSubOf(x, y, u, v, k);
  }

  lemma HoldsAdd(x: Shared<nat>, y: Shared<nat>, u: int, v: int, k: nat)
    requires Holds(x, u, k) && Holds(y, v, k)
    ensures Holds(AddShared(x, y, k), u + v, k)
  {
    var m := Pow2(k);
    OpenAdd(x, y, k);
    ModIdem(u, m); ModIdem(v, m);
    EqModAdd(u % m, u, v % m, v, m);
  }

  lemma HoldsScale(x: Shared<nat>, u: int, c: nat, k: nat)
    requires Holds(x, u, k)
    ensures Holds(ScaleShared(x, c, k), u * c, k)
  {
    OpenScale(x, c, k);
    ModIdem(u, Pow2(k));
    EqModScale(u % Pow2(k), u, c, Pow2(k));
  }

  /** A constant enters a product through its residue. */
  lemma HoldsScaleResidue(x: Shared<nat>, u: int, c: int, k: nat)
    requires Holds(x, u, k)
    ensures Holds(ScaleShared(x, c % Pow2(k), k), u * c, k)
  {
    HoldsScale(x, u, c % Pow2(k), k);
    ModIdem(c, Pow2(k));
    EqModScale(c % Pow2(k), c, u, Pow2(k));
    assert u * (c % Pow2(k)) == (c % Pow2(k)) * u && u * c == c * u;
  }

  // ----- local parts ---------------------------------------------------------------------

  /** Party i's part of x * y - u * v. */
  function LocalCross(x: Shared<nat>, y: Shared<nat>, u: Shared<nat>, v: Shared<nat>, i: nat, k: nat): (r: nat)
    requires i < 3
  {
    Sub(LocalProduct(x, y, i, k), LocalProduct(u, v, i, k), k)
  }

  lemma CrossMod(a: int, b: int, c: int, x: int, y: int, m: int)
    requires m > 0 && a + b + c == x - y
    ensures (a % m + b % m + c % m) % m == (x % m - y % m) % m
  {
    ReduceThree(a, b, c, m);
    ModSub(x, y, m);
  }

  lemma ProductOf(x: nat, y: nat, u: int, v: int, m: nat)
    requires m > 0 && x == u % m && y == v % m
    ensures (x * y) % m == (u * v) % m
  {
    ModIdem(u, m); ModIdem(v, m);
    EqModMul(x, u, y, v, m);
  }

  lemma LocalCrossSum(x: Shared<nat>, y: Shared<nat>, u: Shared<nat>, v: Shared<nat>, k: nat)
    ensures (LocalCross(x, y, u, v, 0, k) + LocalCross(x, y, u, v, 1, k) + LocalCross(x, y, u, v, 2, k)) % Pow2(k)
         == ((Open(x, k) * Open(y, k)) % Pow2(k) - (Open(u, k) * Open(v, k)) % Pow2(k)) % Pow2(k)
  {
    LocalProductsSum(x, y, k);
    LocalProductsSum(u, v, k);
    CrossTotal(LocalProduct(x, y, 0, k), LocalProduct(x, y, 1, k), LocalProduct(x, y, 2, k),
               LocalProduct(u, v, 0, k), LocalProduct(u, v, 1, k), LocalProduct(u, v, 2, k), k);
  }

  lemma CrossTotal(p0: nat, p1: nat, p2: nat, q0: nat, q1: nat, q2: nat, k: nat)
    ensures (Sub(p0, q0, k) + Sub(p1, q1, k) + Sub(p2, q2, k)) % Pow2(k)
         == ((p0 + p1 + p2) % Pow2(k) - (q0 + q1 + q2) % Pow2(k)) % Pow2(k)
  {
    CrossMod(p0 - q0, p1 - q1, p2 - q2, p0 + p1 + p2, q0 + q1 + q2, Pow2(k));
  }

  function CrossLocals(x: Vec, y: Vec, u: Vec, v: Vec, i: nat, k: nat): (r: seq<nat>)
    requires i < 3 && |x| == |y| == |u| == |v|
    ensures |r| == |x| && forall j :: 0 <= j < |x| ==> r[j] == LocalCross(x[j], y[j], u[j], v[j], i, k)
  {
    seq<nat>(|x|, j requires 0 <= j < |x| => LocalCross(x[j], y[j], u[j], v[j], i, k))
  }

  function ProductLocals(x: Vec, y: Vec, i: nat, k: nat): (r: seq<nat>)
    requires i < 3 && |x| == |y|
    ensures |r| == |x| && forall j :: 0 <= j < |x| ==> r[j] == LocalProduct(x[j], y[j], i, k)
  {
    seq<nat>(|x|, j requires 0 <= j < |x| => LocalProduct(x[j], y[j], i, k))
  }

  /** The vector represents these integers. */
  ghost predicate HoldAll(s: Vec, v: seq<int>, k: nat) {
    |s| == |v| && forall j :: 0 <= j < |v| ==> Holds(s[j], v[j], k)
  }

  lemma CrossHolds(out: Shared<nat>, x: Shared<nat>, y: Shared<nat>, u: Shared<nat>, v: Shared<nat>, p: int, q: int,
                   r: int, s: int, k: nat)
    requires Holds(x, p, k) && Holds(y, q, k) && Holds(u, r, k) && Holds(v, s, k)
    requires Open(out, k)
         == (LocalCross(x, y, u, v, 0, k) + LocalCross(x, y, u, v, 1, k) + LocalCross(x, y, u, v, 2, k)) % Pow2(k)
    ensures Holds(out, p * q - r * s, k)
  {
    LocalCrossSum(x, y, u, v, k);
    ProductOf(Open(x, k), Open(y, k), p, q, Pow2(k));
    ProductOf(Open(u, k), Open(v, k), r, s, Pow2(k));
    ModSub(p * q, r * s, Pow2(k));
  }

  function CrossValues(p: seq<int>, q: seq<int>, r: seq<int>, s: seq<int>): (w: seq<int>)
    requires |p| == |q| == |r| == |s|
    ensures |w| == |p| && forall j :: 0 <= j < |p| ==> w[j] == p[j] * q[j] - r[j] * s[j]
  {
    seq(|p|, j requires 0 <= j < |p| => p[j] * q[j] - r[j] * s[j])
  }

  /** One round computing x * y - u * v for every entry. */
  method CrossProducts(net: Network, x: Vec, y: Vec, u: Vec, v: Vec, k: nat,
                       ghost p: seq<int>, ghost q: seq<int>, ghost r: seq<int>, ghost s: seq<int>) returns (out: Vec)
    requires net.Quiet() && HoldAll(x, p, k) && HoldAll(y, q, k) && HoldAll(u, r, k) && HoldAll(v, s, k)
    requires |x| == |y| == |u| == |v|
    modifies net
    ensures net.Quiet() && |net.calls| == |old(net.calls)| + 1
    ensures AllInRing(out, k) && HoldAll(out, CrossValues(p, q, r, s), k)
  {
    var local := Trio(CrossLocals(x, y, u, v, 0, k), CrossLocals(x, y, u, v, 1, k), CrossLocals(x, y, u, v, 2, k));
    out := Ops.Reshare(net, local, k);
    CrossesHold(out, local, x, y, u, v, k, p, q, r, s);
  }

  lemma CrossesHold(out: Vec, local: Trio<seq<nat>>, x: Vec, y: Vec, u: Vec, v: Vec, k: nat,
                    p: seq<int>, q: seq<int>, r: seq<int>, s: seq<int>)
    requires HoldAll(x, p, k) && HoldAll(y, q, k) && HoldAll(u, r, k) && HoldAll(v, s, k) && |x| == |y| == |u| == |v|
    requires local == Trio(CrossLocals(x, y, u, v, 0, k), CrossLocals(x, y, u, v, 1, k), CrossLocals(x, y, u, v, 2, k))
    requires AreReshared(out, local, k)
    ensures HoldAll(out, CrossValues(p, q, r, s), k)
  {
    forall j | 0 <= j < |x|
      ensures Holds(out[j], p[j] * q[j] - r[j] * s[j], k)
    {
      assert Open(out[j], k) == LocalSum(local, j) % Pow2(k);
      CrossHolds(out[j], x[j], y[j], u[j], v[j], p[j], q[j], r[j], s[j], k);
    }
  }

  lemma ProductHolds(out: Shared<nat>, x: Shared<nat>, y: Shared<nat>, p: int, q: int, k: nat)
    requires Holds(x, p, k) && Holds(y, q, k)
    requires Open(out, k) == (LocalProduct(x, y, 0, k) + LocalProduct(x, y, 1, k) + LocalProduct(x, y, 2, k)) % Pow2(k)
    ensures Holds(out, p * q, k)
  {
    LocalProductsSum(x, y, k);
    ProductOf(Open(x, k), Open(y, k), p, q, Pow2(k));
  }

  function ProductValues(p: seq<int>, q: seq<int>): (w: seq<int>)
    requires |p| == |q|
    ensures |w| == |p| && forall j :: 0 <= j < |p| ==> w[j] == p[j] * q[j]
  {
    seq(|p|, j requires 0 <= j < |p| => p[j] * q[j])
  }

  method PairwiseProducts(net: Network, x: Vec, y: Vec, k: nat, ghost p: seq<int>, ghost q: seq<int>) returns (out: Vec)
    requires net.Quiet() && HoldAll(x, p, k) && HoldAll(y, q, k) && |x| == |y|
    modifies net
    ensures net.Quiet() && |net.calls| == |old(net.calls)| + 1
    ensures AllInRing(out, k) && HoldAll(out, ProductValues(p, q), k)
  {
    var local := Trio(ProductLocals(x, y, 0, k), ProductLocals(x, y, 1, k), ProductLocals(x, y, 2, k));
    out := Ops.Reshare(net, local, k);
    forall j | 0 <= j < |x|
      ensures Holds(out[j], p[j] * q[j], k)
    {
      assert Open(out[j], k) == LocalSum(local, j) % Pow2(k);
      ProductHolds(out[j], x[j], y[j], p[j], q[j], k);
    }
  }

  // ----- signs --------------------------------------------------------------------------------

  predicate InRange(v: int, k: nat)
    requires k >= 1
  {
    0 <= v + Pow2(k - 1) < Pow2(k)
  }

  /** The top bit of an in-range value is its sign. */
  lemma HoldsSign(s: Shared<nat>, v: int, k: nat)
    requires k >= 1 && Holds(s, v, k) && InRange(v, k)
    ensures Bit(Open(s, k), k - 1) <==> v < 0
  {
    SignedOf(v, k);
  }
}
