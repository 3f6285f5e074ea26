/** The most significant bit of a sum of two bit-sliced numbers, by a ripple-carry adder and by a
    parallel-prefix adder of logarithmic depth. */
module MsbAdders {
  import opened Words
  import opened Rep3
  import opened Sessions
  import opened Results
  import opened Gates
  import opened Adders

  /** Lane by lane, `msb` is the top bit of the n-bit sum. */
  ghost predicate IsTopSumBit(msb: Plane, x: seq<Plane>, y: seq<Plane>, n: nat, len: nat)
    requires SameShape(x, n, len) && SameShape(y, n, len) && n >= 1
  {
    && |msb| == len
    && forall l :: 0 <= l < len ==> OpenBit(msb[l]) == SumBit(Lane(x, l), Lane(y, l), n - 1)
  }

  /** In numbers: the top bit of the sum modulo 2^n. */
  lemma TopSumBitIsMsb(msb: Plane, x: seq<Plane>, y: seq<Plane>, n: nat, len: nat, l: nat)
    requires SameShape(x, n, len) && SameShape(y, n, len) && n >= 1 && l < len
    requires IsTopSumBit(msb, x, y, n, len)
    ensures OpenBit(msb[l]) == Bit((Val(Lane(x, l), n) + Val(Lane(y, l), n)) % Pow2(n), n - 1)
  {
    BitOfWrappedSum(Lane(x, l), Lane(y, l), n, n - 1);
  }

  // ----- ripple carry ------------------------------------------------------------

  /** The carries into position i of x + y, lane by lane. */
  ghost predicate AreCarries(carry: Plane, x: seq<Plane>, y: seq<Plane>, i: nat, len: nat)
    requires Uniform(x, len) && Uniform(y, len) && i <= |x| && i <= |y|
  {
    |carry| == len && forall l :: 0 <= l < len ==> OpenBit(carry[l]) == Carry(Lane(x, l), Lane(y, l), i)
  }

  lemma FirstCarries(carry: Plane, x: seq<Plane>, y: seq<Plane>, len: nat)
    requires Uniform(x, len) && Uniform(y, len) && |x| >= 1 && |y| >= 1 && IsAnd(carry, x[0], y[0])
    ensures AreCarries(carry, x, y, 1, len)
  {
    forall l | 0 <= l < len
      ensures OpenBit(carry[l]) == Carry(Lane(x, l), Lane(y, l), 1)
    {
      assert !Carry(Lane(x, l), Lane(y, l), 0);
    }
  }

  lemma NextCarries(next: Plane, carry: Plane, x: seq<Plane>, y: seq<Plane>, i: nat, len: nat)
    requires Uniform(x, len) && Uniform(y, len) && i < |x| && i < |y|
    requires AreCarries(carry, x, y, i, len) && IsMaj(next, x[i], y[i], carry)
    ensures AreCarries(next, x, y, i + 1, len)
  {
    forall l | 0 <= l < len
      ensures OpenBit(next[l]) == Carry(Lane(x, l), Lane(y, l), i + 1)
    {
      assert Lane(x, l)[i] == OpenBit(x[i][l]) && Lane(y, l)[i] == OpenBit(y[i][l]);
    }
  }

  lemma LastCarries(top: Plane, carry: Plane, x: seq<Plane>, y: seq<Plane>, n: nat, len: nat)
    requires SameShape(x, n, len) && SameShape(y, n, len) && n >= 1 && AreCarries(carry, x, y, n - 1, len)
    requires top == XorPlane(XorPlane(x[n - 1], y[n - 1]), carry)
    ensures IsTopSumBit(top, x, y, n, len)
  {
  }

  method AddMsbRipple(net: Network, x: seq<Plane>, y: seq<Plane>, ghost len: nat) returns (r: Result<Plane>)
    requires net.Quiet() && Uniform(x, len) && Uniform(y, len)
    requires |x| == |y| ==> |x| >= 2
    modifies net
    ensures net.Quiet()
    ensures r.Success? <==> |x| == |y|
    ensures r.Success? ==> IsTopSumBit(r.value, x, y, |x|, len)
    ensures r.Success? ==> |net.calls| == |old(net.calls)| + |x| - 1
  {
    if |x| != |y| {
      return Failure(InvalidSize);
    }
    var n := |x|;
    var first := AndMany(net, x[0], y[0]);
    var carry := first.value;
    FirstCarries(carry, x, y, len);
    for i := 1 to n - 1
      invariant net.Quiet() && |net.calls| == |old(net.calls)| + i
      invariant AreCarries(carry, x, y, i, len)
    {
      var next := NextCarry(net, x[i], y[i], carry);
      NextCarries(next, carry, x, y, i, len);
      carry := next;
    }
    var top := XorPlane(XorPlane(x[n - 1], y[n - 1]), carry);
    LastCarries(top, carry, x, y, n, len);
    return Success(top);
  }

  // ----- parallel prefix ------------------------------------------------------------

  /** The carry composed from the first n generate bits g and the propagate bits p, where p[i]
      belongs to g[i + 1]. */
  predicate Composed(g: seq<bool>, p: seq<bool>, n: nat)
    requires 1 <= n <= |g| && n <= |p| + 1
  {
    if n == 1 then g[0] else g[n - 1] != (p[n - 2] && Composed(g, p, n - 1))
  }

  /** Composition of the bitwise generates and propagates is the carry. */
  lemma {:induction false} ComposedIsCarry(a: seq<bool>, b: seq<bool>, g: seq<bool>, p: seq<bool>, n: nat)
    requires 1 <= n <= |g| && n <= |p| + 1 && n <= |a| && n <= |b|
    requires forall i :: 0 <= i < n ==> g[i] == (a[i] && b[i])
    requires forall i :: 0 <= i < n - 1 ==> p[i] == (a[i + 1] != b[i + 1])
    ensures Composed(g, p, n) == Carry(a, b, n)
  {
    if n == 1 {
      assert !Carry(a, b, 0);
    } else {
      ComposedIsCarry(a, b, g, p, n - 1);
      assert p[n - 2] == (a[n - 2 + 1] != b[n - 2 + 1]);
    }
  }

  /** (h, q) is what one reduction layer makes of (g, p). */
  predicate IsReduced(h: seq<bool>, q: seq<bool>, g: seq<bool>, p: seq<bool>) {
    var m := |g| / 2;
    && |g| == |p| + 1 && |g| >= 2 && |h| == m + |g| % 2 && |q| == |h| - 1
    && (forall j :: 0 <= j < m ==> h[j] == (g[2 * j + 1] != (g[2 * j] && p[2 * j])))
    && (forall j :: 0 <= j < m - 1 ==> q[j] == (p[2 * j + 1] && p[2 * j + 2]))
    && (|g| % 2 == 1 ==> h[m] == g[2 * m] && q[m - 1] == p[2 * m - 1])
  }

  lemma {:induction false} ReducedPrefix(h: seq<bool>, q: seq<bool>, g: seq<bool>, p: seq<bool>, j: nat)
    requires IsReduced(h, q, g, p) && 1 <= j <= |g| / 2
    ensures Composed(h, q, j) == Composed(g, p, 2 * j)
  {
    if j == 1 {
      assert Composed(g, p, 1) == g[0] && h[0] == (g[2 * 0 + 1] != (g[2 * 0] && p[2 * 0]));
    } else {
      ReducedPrefix(h, q, g, p, j - 1);
      var i := j - 1;
      assert h[i] == (g[2 * i + 1] != (g[2 * i] && p[2 * i]));
      assert q[i - 1] == (p[2 * (i - 1) + 1] && p[2 * (i - 1) + 2]);
      assert Composed(g, p, 2 * j) == (g[2 * i + 1] != (p[2 * i] && Composed(g, p, 2 * i + 1)));
      assert Composed(g, p, 2 * i + 1) == (g[2 * i] != (p[2 * i - 1] && Composed(g, p, 2 * i)));
    }
  }

  /** A reduction layer halves the strings and keeps the composed carry. */
  lemma ReducedKeepsCarry(h: seq<bool>, q: seq<bool>, g: seq<bool>, p: seq<bool>)
    requires IsReduced(h, q, g, p)
    ensures Composed(h, q, |h|) == Composed(g, p, |g|)
  {
    var m := |g| / 2;
    ReducedPrefix(h, q, g, p, m);
    if |g| % 2 == 1 {
      assert Composed(h, q, m + 1) == (h[m] != (q[m - 1] && Composed(h, q, m)));
      assert Composed(g, p, 2 * m + 1) == (g[2 * m] != (p[2 * m - 1] && Composed(g, p, 2 * m)));
    }
  }

  function Odd<T>(s: seq<T>): (r: seq<T>)
    ensures |r| == |s| / 2 && forall j :: 0 <= j < |r| ==> r[j] == s[2 * j + 1]
  {
    seq(|s| / 2, j requires 0 <= j < |s| / 2 => s[2 * j + 1])
  }

  function Even<T>(s: seq<T>): (r: seq<T>)
    ensures |r| == (|s| + 1) / 2 && forall j :: 0 <= j < |r| ==> r[j] == s[2 * j]
  {
    seq((|s| + 1) / 2, j requires 0 <= j < (|s| + 1) / 2 => s[2 * j])
  }

  ghost predicate IsGenerate(h: Plane, hi: Plane, lo: Plane, p: Plane) {
    && |h| == |hi| == |lo| == |p|
    && forall l :: 0 <= l < |h| ==> OpenBit(h[l]) == (OpenBit(hi[l]) != (OpenBit(lo[l]) && OpenBit(p[l])))
  }

  /** The same relation as IsReduced, plane by plane. */
  ghost predicate PlanesReduced(h: seq<Plane>, q: seq<Plane>, g: seq<Plane>, p: seq<Plane>) {
    var m := |g| / 2;
    && |g| == |p| + 1 && |g| >= 2 && |h| == m + |g| % 2 && |q| == |h| - 1
    && (forall j :: 0 <= j < m ==> IsGenerate(h[j], g[2 * j + 1], g[2 * j], p[2 * j]))
    && (forall j :: 0 <= j < m - 1 ==> IsAnd(q[j], p[2 * j + 1], p[2 * j + 2]))
    && (|g| % 2 == 1 ==> h[m] == g[2 * m] && q[m - 1] == p[2 * m - 1])
  }

  lemma ReducedUniform(h: seq<Plane>, q: seq<Plane>, g: seq<Plane>, p: seq<Plane>, len: nat)
    requires PlanesReduced(h, q, g, p) && Uniform(g, len) && Uniform(p, len)
    ensures Uniform(h, len) && Uniform(q, len)
  {
    var m := |g| / 2;
    forall j | 0 <= j < |h|
      ensures |h[j]| == len
    {
      if j < m {
        assert IsGenerate(h[j], g[2 * j + 1], g[2 * j], p[2 * j]);
      } else {
        assert h[m] == g[2 * m];
      }
    }
    forall j | 0 <= j < |q|
      ensures |q[j]| == len
    {
      if j < m - 1 {
        assert IsAnd(q[j], p[2 * j + 1], p[2 * j + 2]);
      } else {
        assert q[m - 1] == p[2 * m - 1];
      }
    }
  }

  lemma ReducedLane(h: seq<Plane>, q: seq<Plane>, g: seq<Plane>, p: seq<Plane>, len: nat, l: nat)
    requires PlanesReduced(h, q, g, p) && l < len
    requires Uniform(g, len) && Uniform(p, len) && Uniform(h, len) && Uniform(q, len)
    ensures IsReduced(Lane(h, l), Lane(q, l), Lane(g, l), Lane(p, l))
  {
    var m := |g| / 2;
    forall j | 0 <= j < m
      ensures OpenBit(h[j][l]) == (OpenBit(g[2 * j + 1][l]) != (OpenBit(g[2 * j][l]) && OpenBit(p[2 * j][l])))
    {
      assert IsGenerate(h[j], g[2 * j + 1], g[2 * j], p[2 * j]);
    }
    forall j | 0 <= j < m - 1
      ensures OpenBit(q[j][l]) == (OpenBit(p[2 * j + 1][l]) && OpenBit(p[2 * j + 2][l]))
    {
      assert IsAnd(q[j], p[2 * j + 1], p[2 * j + 2]);
    }
  }

  /** A round over concatenated operands gives the concatenated products. */
  lemma SplitAnds(c: seq<Plane>, x1: seq<Plane>, x2: seq<Plane>, y1: seq<Plane>, y2: seq<Plane>)
    requires AreAnds(c, x1 + x2, y1 + y2) && |x1| == |y1|
    ensures AreAnds(c[..|x1|], x1, y1) && AreAnds(c[|x1|..], x2, y2)
  {
    forall b | 0 <= b < |x1|
      ensures IsAnd(c[b], x1[b], y1[b])
    {
      assert IsAnd(c[b], (x1 + x2)[b], (y1 + y2)[b]);
    }
    forall b | 0 <= b < |x2|
      ensures IsAnd(c[|x1|..][b], x2[b], y2[b])
    {
      assert IsAnd(c[|x1| + b], (x1 + x2)[|x1| + b], (y1 + y2)[|x1| + b]);
    }
  }

  lemma LayerPlanes(g: seq<Plane>, p: seq<Plane>, q: seq<Plane>, gated: seq<Plane>, len: nat)
    requires |g| == |p| + 1 && |g| >= 2 && |g| % 2 == 0 && Uniform(g, len)
    requires AreAnds(q, Odd(p), Even(p)[1..]) && AreAnds(gated, Even(g), Even(p))
    ensures SameSizes(gated, Odd(g))
    ensures PlanesReduced(XorPlanes(gated, Odd(g)), q, g, p)
  {
    var m := |g| / 2;
    forall j | 0 <= j < m
      ensures |gated[j]| == |Odd(g)[j]|
    {
      assert IsAnd(gated[j], Even(g)[j], Even(p)[j]);
    }
    var h := XorPlanes(gated, Odd(g));
    forall j | 0 <= j < m
      ensures IsGenerate(h[j], g[2 * j + 1], g[2 * j], p[2 * j])
    {
      assert IsAnd(gated[j], Even(g)[j], Even(p)[j]);
      assert h[j] == XorPlane(gated[j], Odd(g)[j]);
    }
    forall j | 0 <= j < m - 1
      ensures IsAnd(q[j], p[2 * j + 1], p[2 * j + 2])
    {
      assert IsAnd(q[j], Odd(p)[j], Even(p)[1..][j]);
      assert Even(p)[1..][j] == Even(p)[j + 1] == p[2 * (j + 1)];
    }
  }

  /** An extra pair at the top is carried through the layer unchanged. */
  lemma ExtendReduced(h: seq<Plane>, q: seq<Plane>, g: seq<Plane>, p: seq<Plane>, eg: Plane, ep: Plane)
    requires PlanesReduced(h, q, g, p) && |g| % 2 == 0
    ensures PlanesReduced(h + [eg], q + [ep], g + [eg], p + [ep])
  {
    var m := |g| / 2;
    var hh, qq, gg, pp := h + [eg], q + [ep], g + [eg], p + [ep];
    forall j | 0 <= j < m
      ensures IsGenerate(hh[j], gg[2 * j + 1], gg[2 * j], pp[2 * j])
    {
      assert IsGenerate(h[j], g[2 * j + 1], g[2 * j], p[2 * j]);
    }
    forall j | 0 <= j < m - 1
      ensures IsAnd(qq[j], pp[2 * j + 1], pp[2 * j + 2])
    {
      assert IsAnd(q[j], p[2 * j + 1], p[2 * j + 2]);
    }
  }

  /** The products of a layer over an even number of generate planes, in a single round. */
  method EvenLayer(net: Network, g: seq<Plane>, p: seq<Plane>, ghost len: nat) returns (h: seq<Plane>, q: seq<Plane>)
    requires net.Quiet() && |g| == |p| + 1 && |g| >= 2 && |g| % 2 == 0 && Uniform(g, len) && Uniform(p, len)
    modifies net
    ensures net.Quiet() && |net.calls| == |old(net.calls)| + 1
    ensures PlanesReduced(h, q, g, p)
  {
    // p is indexed from 1: its odd entries are the propagates at even positions.
    var tmp := PackedAnd(net, Odd(p) + Even(g), Even(p)[1..] + Even(p));
    SplitAnds(tmp.value, Odd(p), Even(g), Even(p)[1..], Even(p));
    q := tmp.value[..|Odd(p)|];
    var gated := tmp.value[|Odd(p)|..];
    LayerPlanes(g, p, q, gated, len);
    h := XorPlanes(gated, Odd(g));
  }

  method OddLayer(net: Network, g: seq<Plane>, p: seq<Plane>, ghost len: nat) returns (h: seq<Plane>, q: seq<Plane>)
    requires net.Quiet() && |g| == |p| + 1 && |g| >= 2 && |g| % 2 == 1 && Uniform(g, len) && Uniform(p, len)
    modifies net
    ensures net.Quiet() && |net.calls| == |old(net.calls)| + 1
    ensures PlanesReduced(h, q, g, p)
  {
    var extraG, extraP := g[|g| - 1], p[|p| - 1];
    var g', p' := g[..|g| - 1], p[..|p| - 1];
    h, q := EvenLayer(net, g', p', len);
    ExtendReduced(h, q, g', p', extraG, extraP);
    LastPlane(g);
    LastPlane(p);
    h, q := h + [extraG], q + [extraP];
  }

  lemma LastPlane(g: seq<Plane>)
    requires g != []
    ensures g[..|g| - 1] + [g[|g| - 1]] == g
  {
  }

  /** One layer of the prefix tree; an odd plane out is kept for the next layer. */
  method PrefixLayer(net: Network, g: seq<Plane>, p: seq<Plane>, ghost len: nat) returns (h: seq<Plane>, q: seq<Plane>)
    requires net.Quiet() && |g| == |p| + 1 && |g| >= 2 && Uniform(g, len) && Uniform(p, len)
    modifies net
    ensures net.Quiet() && |net.calls| == |old(net.calls)| + 1
    ensures PlanesReduced(h, q, g, p)
  {
    if |g| % 2 == 1 {
      h, q := OddLayer(net, g, p, len);
    } else {
      h, q := EvenLayer(net, g, p, len);
    }
  }

  /** Number of layers for m generate planes. */
  function Layers(m: nat): (r: nat)
    requires m >= 1
  {
    if m == 1 then 0 else 1 + Layers((m + 1) / 2)
  }

  /** The depth is the logarithm of the width. */
  lemma {:induction false} LayersIsLog(m: nat)
    requires m >= 1
    ensures m <= Pow2(Layers(m)) && (m > 1 ==> Pow2(Layers(m)) < 2 * m)
  {
    if m > 1 {
      LayersIsLog((m + 1) / 2);
    }
  }

  method AddMsbPrefix(net: Network, x: seq<Plane>, y: seq<Plane>, ghost len: nat) returns (r: Result<Plane>)
    requires net.Quiet() && Uniform(x, len) && Uniform(y, len)
    requires |x| == |y| ==> |x| >= 2
    modifies net
    ensures net.Quiet()
    ensures r.Success? <==> |x| == |y|
    ensures r.Success? ==> IsTopSumBit(r.value, x, y, |x|, len)
    ensures r.Success? ==> |net.calls| == |old(net.calls)| + 1 + Layers(|x| - 1)
  {
    if |x| != |y| {
      return Failure(InvalidSize);
    }
    var n := |x|;
    var p := XorPlanes(x, y);
    var ands := PackedAnd(net, x[..n - 1], y[..n - 1]);
    var g := ands.value;
    var top := p[n - 1];
    p := p[1..n - 1];
    InitialCarries(x, y, g, p, n, len);
    var carry := PrefixCarry(net, g, p, x, y, n, len);
    return Success(XorPlane(top, carry));
  }

  /** The loop: layer after layer until one generate plane is left. */
  method PrefixCarry(net: Network, g0: seq<Plane>, p0: seq<Plane>, ghost x: seq<Plane>, ghost y: seq<Plane>,
                     ghost n: nat, ghost len: nat)
    returns (carry: Plane)
    requires net.Quiet() && n >= 2 && SameShape(x, n, len) && SameShape(y, n, len)
    requires ComposeToCarry(g0, p0, x, y, n, len)
    modifies net
    ensures net.Quiet() && |net.calls| == |old(net.calls)| + Layers(|g0|)
    ensures |carry| == len && IsTopSumBit(XorPlane(XorPlane(x[n - 1], y[n - 1]), carry), x, y, n, len)
  {
    var g, p := g0, p0;
    while |g| != 1
      invariant net.Quiet()
      invariant |g| >= 1 && |net.calls| + Layers(|g|) == |old(net.calls)| + Layers(|g0|)
      invariant ComposeToCarry(g, p, x, y, n, len)
      decreases |g|
    {
      g, p := PrefixStep(net, g, p, x, y, n, len);
    }
    FinalCarry(g, p, x, y, n, len);
    carry := g[0];
  }

  method PrefixStep(net: Network, g: seq<Plane>, p: seq<Plane>, ghost x: seq<Plane>, ghost y: seq<Plane>, ghost n: nat,
                    ghost len: nat)
    returns (h: seq<Plane>, q: seq<Plane>)
    requires net.Quiet() && n >= 2 && SameShape(x, n, len) && SameShape(y, n, len) && ComposeToCarry(g, p, x, y, n, len)
    requires |g| > 1
    modifies net
    ensures net.Quiet() && ComposeToCarry(h, q, x, y, n, len) && 1 <= |h| < |g|
    ensures |net.calls| + Layers(|h|) == |old(net.calls)| + Layers(|g|)
  {
    h, q := PrefixLayer(net, g, p, len);
    LayerCarries(h, q, g, p, x, y, n, len);
  }

  /** What the loop keeps: composing g and p gives, in every lane, the carry into the top bit. */
  ghost predicate ComposeToCarry(g: seq<Plane>, p: seq<Plane>, x: seq<Plane>, y: seq<Plane>, n: nat, len: nat)
    requires n >= 2 && SameShape(x, n, len) && SameShape(y, n, len)
  {
    && |g| == |p| + 1 && Uniform(g, len) && Uniform(p, len)
    && forall l :: 0 <= l < len ==> Composed(Lane(g, l), Lane(p, l), |g|) == Carry(Lane(x, l), Lane(y, l), n - 1)
  }

  lemma FinalCarry(g: seq<Plane>, p: seq<Plane>, x: seq<Plane>, y: seq<Plane>, n: nat, len: nat)
    requires n >= 2 && SameShape(x, n, len) && SameShape(y, n, len)
    requires ComposeToCarry(g, p, x, y, n, len) && |g| == 1
    ensures IsTopSumBit(XorPlane(XorPlane(x[n - 1], y[n - 1]), g[0]), x, y, n, len)
  {
    forall l | 0 <= l < len
      ensures OpenBit(g[0][l]) == Carry(Lane(x, l), Lane(y, l), n - 1)
    {
      assert Lane(g, l)[0] == OpenBit(g[0][l]);
      assert Composed(Lane(g, l), Lane(p, l), 1) == Lane(g, l)[0];
    }
  }

  lemma InitialCarries(x: seq<Plane>, y: seq<Plane>, g: seq<Plane>, p: seq<Plane>, n: nat, len: nat)
    requires n >= 2 && SameShape(x, n, len) && SameShape(y, n, len)
    requires AreAnds(g, x[..n - 1], y[..n - 1]) && p == XorPlanes(x, y)[1..n - 1]
    ensures ComposeToCarry(g, p, x, y, n, len)
  {
    forall i | 0 <= i < n - 1
      ensures IsAnd(g[i], x[i], y[i])
    {
      assert IsAnd(g[i], x[..n - 1][i], y[..n - 1][i]);
    }
    InitialPropagates(x, y, p, n, len);
    forall l | 0 <= l < len
      ensures Composed(Lane(g, l), Lane(p, l), n - 1) == Carry(Lane(x, l), Lane(y, l), n - 1)
    {
      InitialCarry(x, y, g, p, n, len, l);
    }
  }

  lemma InitialPropagates(x: seq<Plane>, y: seq<Plane>, p: seq<Plane>, n: nat, len: nat)
    requires n >= 2 && SameShape(x, n, len) && SameShape(y, n, len) && p == XorPlanes(x, y)[1..n - 1]
    ensures Uniform(p, len) && forall i :: 0 <= i < n - 2 ==> p[i] == XorPlane(x[i + 1], y[i + 1])
  {
  }

  lemma InitialCarry(x: seq<Plane>, y: seq<Plane>, g: seq<Plane>, p: seq<Plane>, n: nat, len: nat, l: nat)
    requires n >= 2 && SameShape(x, n, len) && SameShape(y, n, len) && l < len
    requires SameShape(g, n - 1, len) && SameShape(p, n - 2, len)
    requires forall i :: 0 <= i < n - 1 ==> IsAnd(g[i], x[i], y[i])
    requires forall i :: 0 <= i < n - 2 ==> p[i] == XorPlane(x[i + 1], y[i + 1])
    ensures Composed(Lane(g, l), Lane(p, l), n - 1) == Carry(Lane(x, l), Lane(y, l), n - 1)
  {
    ComposedIsCarry(Lane(x, l), Lane(y, l), Lane(g, l), Lane(p, l), n - 1);
  }

  lemma LayerCarries(h: seq<Plane>, q: seq<Plane>, g: seq<Plane>, p: seq<Plane>, x: seq<Plane>, y: seq<Plane>, n: nat,
                     len: nat)
    requires n >= 2 && SameShape(x, n, len) && SameShape(y, n, len)
    requires PlanesReduced(h, q, g, p) && ComposeToCarry(g, p, x, y, n, len)
    ensures ComposeToCarry(h, q, x, y, n, len)
  {
    ReducedUniform(h, q, g, p, len);
    forall l | 0 <= l < len
      ensures Composed(Lane(h, l), Lane(q, l), |h|) == Carry(Lane(x, l), Lane(y, l), n - 1)
    {
      ReducedLane(h, q, g, p, len, l);
      ReducedKeepsCarry(Lane(h, l), Lane(q, l), Lane(g, l), Lane(p, l));
    }
  }
}
