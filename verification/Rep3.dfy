/** Replicated three-party sharings: a secret has three components and party i holds
    components i and i-1 (indices modulo 3). */
module Rep3 {
  import opened Words

  /** What one party stores: its own component and the one of the previous party. */
  datatype Share<T> = Share(a: T, b: T)

  /** The joint state of the three parties for one secret. */
  datatype Shared<T> = Shared(x0: T, x1: T, x2: T) {
    function At(i: nat): (r: T)
      requires i < 3
    {
      if i == 0 then x0 else if i == 1 then x1 else x2
    }

    /** The share of party i. */
    function View(i: nat): (r: Share<T>)
      requires i < 3
    {
      Share(At(i), At((i + 2) % 3))
    }
  }

  type Vec = seq<Shared<nat>>
  type Plane = seq<Shared<bool>>

  /** Three per-party shares that agree on every component they have in common. */
  predicate Consistent<T(==)>(p0: Share<T>, p1: Share<T>, p2: Share<T>) {
    p0.a == p1.b && p1.a == p2.b && p2.a == p0.b
  }

  /** The joint sharing three consistent parties hold. */
  function Join<T(==)>(p0: Share<T>, p1: Share<T>, p2: Share<T>): (r: Shared<T>)
    requires Consistent(p0, p1, p2)
    ensures r.View(0) == p0 && r.View(1) == p1 && r.View(2) == p2
  {
    Shared(p0.a, p1.a, p2.a)
  }

  function Zip3<T>(x: seq<T>, y: seq<T>, z: seq<T>): (r: seq<Shared<T>>)
    requires |x| == |y| == |z|
    ensures |r| == |x|
    ensures forall l :: 0 <= l < |x| ==> r[l] == Shared(x[l], y[l], z[l])
  {
    seq(|x|, l requires 0 <= l < |x| => Shared(x[l], y[l], z[l]))
  }

  /** Vectors of shares held by three parties whose components agree. */
  function JoinVectors<T(==)>(a0: seq<T>, b0: seq<T>, a1: seq<T>, b1: seq<T>, a2: seq<T>,
                              b2: seq<T>): (r: seq<Shared<T>>)
    requires a0 == b1 && a1 == b2 && a2 == b0 && |a0| == |a1| == |a2|
    ensures r == Zip3(a0, a1, a2)
    ensures forall l :: 0 <= l < |a0| ==>
      r[l].View(0) == Share(a0[l], b0[l]) && r[l].View(1) == Share(a1[l], b1[l]) && r[l].View(2) == Share(a2[l], b2[l])
  {
    seq(|a0|, l requires 0 <= l < |a0| => Join(Share(a0[l], b0[l]), Share(a1[l], b1[l]), Share(a2[l], b2[l])))
  }

  /** The joint sharing of a party d, its successor and its predecessor. */
  function JoinAround<T(==)>(d: nat, own: Share<T>, succ: Share<T>, pred: Share<T>): (r: Shared<T>)
    requires d < 3 && Consistent(own, succ, pred)
    ensures r.View(d) == own && r.View((d + 1) % 3) == succ && r.View((d + 2) % 3) == pred
  {
    if d == 0 then Join(own, succ, pred) else if d == 1 then Join(pred, own, succ) else Join(succ, pred, own)
  }

  /** What party i passes on when secrets are opened: its second components. */
  function Seconds<T>(shares: seq<Shared<T>>, i: nat): (r: seq<T>)
    requires i < 3
    ensures |r| == |shares| && forall j :: 0 <= j < |shares| ==> r[j] == shares[j].View(i).b
  {
    seq(|shares|, j requires 0 <= j < |shares| => shares[j].View(i).b)
  }

  // ----- opened values -------------------------------------------------------

  predicate OpenBit(s: Shared<bool>) {
    (s.x0 != s.x1) != s.x2
  }

  function Sum(s: Shared<nat>): (r: nat) {
    s.x0 + s.x1 + s.x2
  }

  /** The secret of an additive sharing over the k-bit ring. */
  function Open(s: Shared<nat>, k: nat): (r: nat)
    ensures r < Pow2(k)
  {
    Sum(s) % Pow2(k)
  }

  predicate InRing(s: Shared<nat>, k: nat) {
    s.x0 < Pow2(k) && s.x1 < Pow2(k) && s.x2 < Pow2(k)
  }

  predicate AllInRing(v: Vec, k: nat) {
    forall j :: 0 <= j < |v| ==> InRing(v[j], k)
  }

  // ----- local operations ----------------------------------------------------

  function Add(x: nat, y: nat, k: nat): (r: nat)
    ensures r < Pow2(k)
  {
    (x + y) % Pow2(k)
  }

  function Sub(x: nat, y: nat, k: nat): (r: nat)
    ensures r < Pow2(k)
  {
    (x - y) % Pow2(k)
  }

  function Mul(x: nat, y: nat, k: nat): (r: nat)
    ensures r < Pow2(k)
  {
    (x * y) % Pow2(k)
  }

  function XorBit(x: Shared<bool>, y: Shared<bool>): (r: Shared<bool>)
    ensures OpenBit(r) == (OpenBit(x) != OpenBit(y))
  {
    Shared(x.x0 != y.x0, x.x1 != y.x1, x.x2 != y.x2)
  }

  /** Each party flips both its components; three flips make one. */
  function NotBit(x: Shared<bool>): (r: Shared<bool>)
    ensures OpenBit(r) == !OpenBit(x)
  {
    Shared(!x.x0, !x.x1, !x.x2)
  }

  function XorPlane(x: Plane, y: Plane): (r: Plane)
    requires |x| == |y|
    ensures |r| == |x|
    ensures forall l :: 0 <= l < |x| ==> r[l] == XorBit(x[l], y[l])
  {
    seq(|x|, l requires 0 <= l < |x| => XorBit(x[l], y[l]))
  }

  function XorPlanes(x: seq<Plane>, y: seq<Plane>): (r: seq<Plane>)
    requires |x| == |y| && forall b :: 0 <= b < |x| ==> |x[b]| == |y[b]|
    ensures |r| == |x| && forall b :: 0 <= b < |x| ==> r[b] == XorPlane(x[b], y[b])
  {
    seq(|x|, b requires 0 <= b < |x| => XorPlane(x[b], y[b]))
  }

  function AddShared(x: Shared<nat>, y: Shared<nat>, k: nat): (r: Shared<nat>)
    ensures InRing(r, k)
  {
    Shared(Add(x.x0, y.x0, k), Add(x.x1, y.x1, k), Add(x.x2, y.x2, k))
  }

  function SubShared(x: Shared<nat>, y: Shared<nat>, k: nat): (r: Shared<nat>)
    ensures InRing(r, k)
  {
    Shared(Sub(x.x0, y.x0, k), Sub(x.x1, y.x1, k), Sub(x.x2, y.x2, k))
  }

  function ScaleShared(x: Shared<nat>, c: nat, k: nat): (r: Shared<nat>)
    ensures InRing(r, k)
  {
    Shared(Mul(x.x0, c, k), Mul(x.x1, c, k), Mul(x.x2, c, k))
  }

  /** What party i does to its own share when a public constant is added: role 0 changes
      its first component, role 1 its second, role 2 nothing. */
  function AddConstRole(s: Share<nat>, c: nat, role: nat, k: nat): (r: Share<nat>)
    requires role < 3
  {
    if role == 0 then Share(Add(s.a, c, k), s.b)
    else if role == 1 then Share(s.a, Add(s.b, c, k))
    else s
  }

  function AddConst(x: Shared<nat>, c: nat, k: nat): (r: Shared<nat>) {
    Join(AddConstRole(x.View(0), c, 0, k), AddConstRole(x.View(1), c, 1, k), AddConstRole(x.View(2), c, 2, k))
  }

  /** A party keeps or clears each of its components according to a public component mask. */
  function ProjectRole(s: Share<bool>, keep: seq<bool>, role: nat): (r: Share<bool>)
    requires role < 3 && |keep| == 3
  {
    Share(keep[role] && s.a, keep[(role + 2) % 3] && s.b)
  }

  function Project(x: Shared<bool>, keep: seq<bool>): (r: Shared<bool>)
    requires |keep| == 3
  {
    Join(ProjectRole(x.View(0), keep, 0), ProjectRole(x.View(1), keep, 1), ProjectRole(x.View(2), keep, 2))
  }

  // ----- their effect on the secret --------------------------------------------

  lemma ReduceThree(x: int, y: int, z: int, m: int)
    requires m > 0
    ensures (x % m + y % m + z % m) % m == (x + y + z) % m
  {
    ModIdem(x, m); ModIdem(y, m); ModIdem(z, m);
    EqModAdd(x % m, x, y % m, y, m);
    EqModAdd(x % m + y % m, x + y, z % m, z, m);
  }

  lemma SumOfReduced(e0: int, e1: int, e2: int, total: int, m: nat)
    requires m > 0 && e0 + e1 + e2 == total
    ensures (e0 % m + e1 % m + e2 % m) % m == total % m
  {
    ReduceThree(e0, e1, e2, m);
  }

  lemma OpenAdd(x: Shared<nat>, y: Shared<nat>, k: nat)
    ensures Open(AddShared(x, y, k), k) == (Open(x, k) + Open(y, k)) % Pow2(k)
  {
    var m := Pow2(k);
    ReduceThree(x.x0 + y.x0, x.x1 + y.x1, x.x2 + y.x2, m);
    ModIdem(Sum(x), m); ModIdem(Sum(y), m);
    EqModAdd(Open(x, k), Sum(x), Open(y, k), Sum(y), m);
  }

  lemma OpenSub(x: Shared<nat>, y: Shared<nat>, k: nat)
    ensures Open(SubShared(x, y, k), k) == (Open(x, k) - Open(y, k)) % Pow2(k)
  {
    var m := Pow2(k);
    ReduceThree(x.x0 - y.x0, x.x1 - y.x1, x.x2 - y.x2, m);
    ModIdem(Sum(x), m); ModIdem(Sum(y), m);
    EqModAdd(Open(x, k), Sum(x), Open(y, k), Sum(y), m);
  }

  lemma OpenSubOf(x: Shared<nat>, y: Shared<nat>, u: int, v: int, k: nat)
    requires Open(x, k) == u % Pow2(k) && Open(y, k) == v % Pow2(k)
    ensures Open(SubShared(x, y, k), k) == (u - v) % Pow2(k)
  {
    OpenSub(x, y, k);
    ModSub(u, v, Pow2(k));
  }

  lemma OpenScale(x: Shared<nat>, c: nat, k: nat)
    ensures Open(ScaleShared(x, c, k), k) == (Open(x, k) * c) % Pow2(k)
  {
    var m := Pow2(k);
    ReduceThree(x.x0 * c, x.x1 * c, x.x2 * c, m);
    assert x.x0 * c + x.x1 * c + x.x2 * c == Sum(x) * c;
    ModIdem(Sum(x), m);
    EqModScale(Open(x, k), Sum(x), c, m);
  }

  lemma OpenAddConst(x: Shared<nat>, c: nat, k: nat)
    requires InRing(x, k)
    ensures InRing(AddConst(x, c, k), k)
    ensures Open(AddConst(x, c, k), k) == (Open(x, k) + c) % Pow2(k)
  {
    var m := Pow2(k);
    ModIdem(x.x0 + c, m); ModIdem(Sum(x), m);
    EqModAdd((x.x0 + c) % m, x.x0 + c, x.x1 + x.x2, x.x1 + x.x2, m);
    EqModAdd(Open(x, k), Sum(x), c, c, m);
  }
}
