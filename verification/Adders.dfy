/** Binary adders over bit-sliced shares: plane b holds bit b of every lane. */
module Adders {
  import opened Words
  import opened Rep3
  import opened Sessions
  import opened Results
  import opened Gates

  /** The bit string the planes hold in lane l. */
  ghost function Lane(p: seq<Plane>, l: nat): (r: seq<bool>)
    requires forall b :: 0 <= b < |p| ==> l < |p[b]|
    ensures |r| == |p|
    ensures forall b :: 0 <= b < |p| ==> r[b] == OpenBit(p[b][l])
  {
    seq(|p|, b requires 0 <= b < |p| => OpenBit(p[b][l]))
  }

  ghost predicate IsMaj(c: Plane, x: Plane, y: Plane, z: Plane) {
    && |c| == |x| == |y| == |z|
    && forall l :: 0 <= l < |c| ==> OpenBit(c[l]) == Maj(OpenBit(x[l]), OpenBit(y[l]), OpenBit(z[l]))
  }

  /** One full-adder layer: carry ^ ((a ^ carry) & (b ^ carry)) is the next carry. */
  method NextCarry(net: Network, a: Plane, b: Plane, carry: Plane) returns (c: Plane)
    requires net.Quiet() && |a| == |b| == |carry|
    modifies net
    ensures net.Quiet() && |net.calls| == |old(net.calls)| + 1
    ensures IsMaj(c, a, b, carry)
  {
    var t := AndMany(net, XorPlane(a, carry), XorPlane(b, carry));
    c := XorPlane(carry, t.value);
  }

  // ----- three inputs -----------------------------------------------------------

  ghost predicate SameShape(x: seq<Plane>, n: nat, len: nat) {
    |x| == n && Uniform(x, len)
  }

  ghost predicate IsSumPlane(s: Plane, x: Plane, y: Plane, z: Plane) {
    && |s| == |x| == |y| == |z|
    && forall l :: 0 <= l < |s| ==> OpenBit(s[l]) == ((OpenBit(x[l]) != OpenBit(y[l])) != OpenBit(z[l]))
  }

  /** Three addends become two: sum planes s and majority planes c. */
  method Compress(net: Network, x1: seq<Plane>, x2: seq<Plane>, x3: seq<Plane>, ghost n: nat, ghost len: nat)
    returns (s: seq<Plane>, c: seq<Plane>)
    requires net.Quiet() && SameShape(x1, n, len) && SameShape(x2, n, len) && SameShape(x3, n, len)
    modifies net
    ensures net.Quiet() && |net.calls| == |old(net.calls)| + 1
    ensures SameShape(s, n, len) && SameShape(c, n, len)
    ensures forall b :: 0 <= b < n ==> IsSumPlane(s[b], x1[b], x2[b], x3[b])
    ensures forall b :: 0 <= b < n ==> IsMaj(c[b], x1[b], x2[b], x3[b])
  {
    var x2x3 := XorPlanes(x2, x3);
    s := XorPlanes(x1, x2x3);
    var x1x3 := XorPlanes(x1, x3);
    var t := PackedAnd(net, x1x3, x2x3);
    c := XorPlanes(t.value, x3);
  }

  /** Nothing is carried into position 1 of s + 2c. */
  lemma CarryStart(s: seq<bool>, c: seq<bool>)
    requires |s| >= 2 && |c| >= 1
    ensures Carry(s, [false] + c, 2) == (s[1] && c[0])
  {
    assert !Carry(s, [false] + c, 1) by {
      assert !Carry(s, [false] + c, 0);
    }
  }

  /** The carries into position i of s + 2c, lane by lane. */
  ghost predicate AreShiftedCarries(carry: Plane, s: seq<Plane>, c: seq<Plane>, i: nat, len: nat)
    requires Uniform(s, len) && Uniform(c, len) && i <= |s| && i <= |c| + 1
  {
    |carry| == len && forall l :: 0 <= l < len ==> OpenBit(carry[l]) == Carry(Lane(s, l), [false] + Lane(c, l), i)
  }

  lemma FirstShiftedCarries(carry: Plane, s: seq<Plane>, c: seq<Plane>, len: nat)
    requires Uniform(s, len) && Uniform(c, len) && |s| >= 2 && |c| >= 1 && IsAnd(carry, s[1], c[0])
    ensures AreShiftedCarries(carry, s, c, 2, len)
  {
    forall l | 0 <= l < len
      ensures OpenBit(carry[l]) == Carry(Lane(s, l), [false] + Lane(c, l), 2)
    {
      CarryStart(Lane(s, l), Lane(c, l));
    }
  }

  lemma NextShiftedCarries(next: Plane, carry: Plane, s: seq<Plane>, c: seq<Plane>, i: nat, len: nat)
    requires Uniform(s, len) && Uniform(c, len) && 1 <= i < |s| && i <= |c|
    requires AreShiftedCarries(carry, s, c, i, len) && IsMaj(next, s[i], c[i - 1], carry)
    ensures AreShiftedCarries(next, s, c, i + 1, len)
  {
    forall l | 0 <= l < len
      ensures OpenBit(next[l]) == Carry(Lane(s, l), [false] + Lane(c, l), i + 1)
    {
      assert ([false] + Lane(c, l))[i] == OpenBit(c[i - 1][l]) && Lane(s, l)[i] == OpenBit(s[i][l]);
    }
  }

  /** The carry out of s + 2c, computed by the ripple loop. */
  method RippleTop(net: Network, s0: seq<Plane>, c0: seq<Plane>, ghost n: nat, ghost len: nat) returns (carry: Plane)
    requires net.Quiet() && n >= 2 && SameShape(s0, n, len) && |c0| >= n - 1 && Uniform(c0, len)
    modifies net
    ensures net.Quiet() && |net.calls| == |old(net.calls)| + n - 1
    ensures AreShiftedCarries(carry, s0, c0, n, len)
  {
    var first := AndMany(net, s0[1], c0[0]);
    carry := first.value;
    FirstShiftedCarries(carry, s0, c0, len);
    for i := 2 to |s0|
      invariant net.Quiet() && |net.calls| == |old(net.calls)| + i - 1
      invariant AreShiftedCarries(carry, s0, c0, i, len)
    {
      var next := NextCarry(net, s0[i], c0[i - 1], carry);
      NextShiftedCarries(next, carry, s0, c0, i, len);
      carry := next;
    }
  }

  /** Full-adder compression keeps the sum. */
  lemma {:induction false} CompressValue(x: seq<bool>, y: seq<bool>, z: seq<bool>, s: seq<bool>, c: seq<bool>, n: nat)
    requires n <= |x| && n <= |y| && n <= |z| && n <= |s| && n <= |c|
    requires forall i :: 0 <= i < n ==> s[i] == ((x[i] != y[i]) != z[i]) && c[i] == Maj(x[i], y[i], z[i])
    ensures Val(x, n) + Val(y, n) + Val(z, n) == Val(s, n) + 2 * Val(c, n)
  {
    if n > 0 {
      CompressValue(x, y, z, s, c, n - 1);
      FullAdder(x[n - 1], y[n - 1], z[n - 1], Pow2(n - 1));
    }
  }

  lemma {:induction false} ShiftedValue(c: seq<bool>, n: nat)
    requires n <= |c|
    ensures Val([false] + c, n + 1) == 2 * Val(c, n)
  {
    if n > 0 {
      ShiftedValue(c, n - 1);
      assert ([false] + c)[n] == c[n - 1];
    }
  }

  /** b1 and b2 are the two overflow bits of adding three n-bit numbers. */
  predicate OverflowBits(x: nat, y: nat, z: nat, n: nat, b1: bool, b2: bool) {
    x + y + z == (x + y + z) % Pow2(n) + W(b1, Pow2(n)) + W(b2, Pow2(n + 1))
  }

  lemma SplitOverflow(x: nat, y: nat, z: nat, low: nat, n: nat, h: bool, t: bool)
    requires low < Pow2(n) && x + y + z == low + W(t, Pow2(n)) + W(h, Pow2(n))
    ensures OverflowBits(x, y, z, n, h != t, h && t)
  {
    DivModUnique(x + y + z, Pow2(n), B(t) + B(h), low);
  }

  lemma DoubledTop(c: seq<bool>, n: nat)
    requires 1 <= n == |c|
    ensures 2 * Val(c, n) == Val([false] + c, n) + W(c[n - 1], Pow2(n))
  {
    ShiftedValue(c, n);
    assert ([false] + c)[n] == c[n - 1];
  }

  lemma RippleTotal(s: seq<bool>, c: seq<bool>, n: nat) returns (low: nat)
    requires 1 <= n == |s| == |c|
    ensures low < Pow2(n)
    ensures Val(s, n) + 2 * Val(c, n) == low + W(Carry(s, [false] + c, n), Pow2(n)) + W(c[n - 1], Pow2(n))
  {
    low := Val(SumBits(s, [false] + c, n), n);
    ValBound(SumBits(s, [false] + c, n), n);
    DoubledTop(c, n);
    AddBits(s, [false] + c, n);
  }

  /** The carry out of s + 2c and the top majority bit make up the two overflow bits. */
  lemma TwoCarries(x: seq<bool>, y: seq<bool>, z: seq<bool>, s: seq<bool>, c: seq<bool>, n: nat)
    requires 1 <= n && |x| == |y| == |z| == |s| == |c| == n
    requires forall i :: 0 <= i < n ==> s[i] == ((x[i] != y[i]) != z[i]) && c[i] == Maj(x[i], y[i], z[i])
    ensures var t := Carry(s, [false] + c, n);
      OverflowBits(Val(x, n), Val(y, n), Val(z, n), n, c[n - 1] != t, c[n - 1] && t)
  {
    CompressValue(x, y, z, s, c, n);
    var low := RippleTotal(s, c, n);
    SplitOverflow(Val(x, n), Val(y, n), Val(z, n), low, n, c[n - 1], Carry(s, [false] + c, n));
  }

  ghost predicate AreOverflowBits(b1: Plane, b2: Plane, x1: seq<Plane>, x2: seq<Plane>, x3: seq<Plane>, n: nat,
                                  len: nat)
    requires SameShape(x1, n, len) && SameShape(x2, n, len) && SameShape(x3, n, len)
  {
    && |b1| == |b2| <= len
    && forall l :: 0 <= l < |b1| ==>
      OverflowBits(Val(Lane(x1, l), n), Val(Lane(x2, l), n), Val(Lane(x3, l), n), n, OpenBit(b1[l]), OpenBit(b2[l]))
  }

  lemma OverflowPlanes(x1: seq<Plane>, x2: seq<Plane>, x3: seq<Plane>, s: seq<Plane>, c: seq<Plane>, carry: Plane,
                       b1: Plane, b2: Plane, n: nat, len: nat)
    requires n >= 1 && SameShape(x1, n, len) && SameShape(x2, n, len) && SameShape(x3, n, len)
    requires SameShape(s, n, len) && SameShape(c, n, len) && |carry| == len
    requires forall b :: 0 <= b < n ==> IsSumPlane(s[b], x1[b], x2[b], x3[b])
    requires forall b :: 0 <= b < n ==> IsMaj(c[b], x1[b], x2[b], x3[b])
    requires forall l :: 0 <= l < len ==> OpenBit(carry[l]) == Carry(Lane(s, l), [false] + Lane(c, l), n)
    requires b1 == XorPlane(c[n - 1], carry) && IsAnd(b2, c[n - 1], carry)
    ensures AreOverflowBits(b1, b2, x1, x2, x3, n, len)
  {
    forall l | 0 <= l < len
      ensures OverflowBits(Val(Lane(x1, l), n), Val(Lane(x2, l), n), Val(Lane(x3, l), n), n,
                           OpenBit(b1[l]), OpenBit(b2[l]))
    {
      TwoCarries(Lane(x1, l), Lane(x2, l), Lane(x3, l), Lane(s, l), Lane(c, l), n);
    }
  }

  /** Per lane, x1 + x2 + x3 = (sum mod 2^n) + b1 * 2^n + b2 * 2^(n+1). */
  method BinaryAdd3GetTwoCarries(net: Network, x1: seq<Plane>, x2: seq<Plane>, x3: seq<Plane>, truncateLen: nat,
                                 ghost len: nat)
    returns (r: Result<(Plane, Plane)>)
    requires net.Quiet() && Uniform(x1, len) && Uniform(x2, len) && Uniform(x3, len) && truncateLen <= len
    modifies net
    ensures net.Quiet()
    ensures r.Success? <==> |x1| == |x2| == |x3| && |x1| >= 16
    ensures r.Success? ==> |net.calls| == |old(net.calls)| + |x1| + 1
    ensures r.Success? ==> |r.value.0| == truncateLen
    ensures r.Success? ==> AreOverflowBits(r.value.0, r.value.1, x1, x2, x3, |x1|, len)
  {
    if |x1| != |x2| || |x1| != |x3| {
      return Failure(InvalidSize);
    }
    var n := |x1|;
    if n < 16 {
      return Failure(TooFewBits);
    }
    var s, c := Compress(net, x1, x2, x3, n, len);
    var carry := RippleTop(net, s, c, n, len);
    var top := AndMany(net, c[n - 1], carry);
    var b1, b2 := XorPlane(c[n - 1], carry), top.value;
    OverflowPlanes(x1, x2, x3, s, c, carry, b1, b2, n, len);
    return Success((b1[..truncateLen], b2[..truncateLen]));
  }
}
