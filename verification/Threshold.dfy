/** The fused circuit of the fixed anonymous threshold: sign of 4 * code - mask from 16-bit shares. */
module Threshold {
  import opened Words
  import opened Rep3
  import opened Sessions
  import opened Gates
  import opened Adders
  import opened Lifts

  const MASK_BITS: nat := 16
  const EXPRESSION_BITS: nat := 18

  /** Inputs of the two halves of the circuit: XOR sum and majority-gate operands. */
  datatype Parts = Parts(s: seq<Plane>, x1x3: seq<Plane>, x2x3: seq<Plane>, x3: seq<Plane>)

  function ProjectPlane(p: Plane, keep: seq<bool>): (r: Plane)
    requires |keep| == 3
    ensures |r| == |p| && forall l :: 0 <= l < |p| ==> r[l] == Project(p[l], keep)
  {
    seq(|p|, l requires 0 <= l < |p| => Project(p[l], keep))
  }

  function ProjectPlanes(p: seq<Plane>, keep: seq<bool>): (r: seq<Plane>)
    requires |keep| == 3
    ensures |r| == |p| && forall b :: 0 <= b < |p| ==> r[b] == ProjectPlane(p[b], keep)
  {
    seq(|p|, b requires 0 <= b < |p| => ProjectPlane(p[b], keep))
  }

  /** The operands taken from the packed words by clearing components. */
  function PackedParts(packed: seq<Plane>): (r: Parts) {
    Parts(packed, ProjectPlanes(packed, [true, false, true]), ProjectPlanes(packed, [false, true, true]),
          ProjectPlanes(packed, [false, false, true]))
  }

  /** The operands obtained by first splitting every word into sharings of its three components. */
  function SplitParts(packed: seq<Plane>): (r: Parts) {
    var x1, x2, x3 := ComponentPlanes(packed, 0), ComponentPlanes(packed, 1), ComponentPlanes(packed, 2);
    var x2x3 := XorPlanes(x2, x3);
    Parts(XorPlanes(x1, x2x3), XorPlanes(x1, x3), x2x3, x3)
  }

  /** The two preparations give the parties identical shares. */
  lemma PreparationsAgree(packed: seq<Plane>)
    ensures SplitParts(packed) == PackedParts(packed)
  {
    var p, q := SplitParts(packed), PackedParts(packed);
    forall b | 0 <= b < |packed|
      ensures p.s[b] == q.s[b] && p.x1x3[b] == q.x1x3[b] && p.x2x3[b] == q.x2x3[b] && p.x3[b] == q.x3[b]
    {
      PlanesAgree(packed[b]);
    }
  }

  lemma PlanesAgree(plane: Plane)
    ensures var x1, x2, x3 := ComponentPlane(plane, 0), ComponentPlane(plane, 1), ComponentPlane(plane, 2);
      && XorPlane(x1, XorPlane(x2, x3)) == plane
      && XorPlane(x1, x3) == ProjectPlane(plane, [true, false, true])
      && XorPlane(x2, x3) == ProjectPlane(plane, [false, true, true])
      && x3 == ProjectPlane(plane, [false, false, true])
  {
  }

  // ----- the circuit -------------------------------------------------------------------

  ghost predicate IsMajOfComponents(c: Plane, p: Plane) {
    && |c| == |p|
    && forall l :: 0 <= l < |p| ==> OpenBit(c[l]) == Maj(p[l].x0, p[l].x1, p[l].x2)
  }

  ghost predicate AreMajorities(c: seq<Plane>, packed: seq<Plane>) {
    |c| <= |packed| && forall b :: 0 <= b < |c| ==> IsMajOfComponents(c[b], packed[b])
  }

  lemma MajorityGate(t: Plane, p: Plane)
    requires IsAnd(t, ProjectPlane(p, [true, false, true]), ProjectPlane(p, [false, true, true]))
    ensures IsMajOfComponents(XorPlane(t, ProjectPlane(p, [false, false, true])), p)
  {
    var c := XorPlane(t, ProjectPlane(p, [false, false, true]));
    forall l | 0 <= l < |p|
      ensures OpenBit(c[l]) == Maj(p[l].x0, p[l].x1, p[l].x2)
    {
      ProjectionOpens(p[l]);
    }
  }

  lemma ProjectionOpens(s: Shared<bool>)
    ensures OpenBit(Project(s, [true, false, true])) == (s.x0 != s.x2)
    ensures OpenBit(Project(s, [false, true, true])) == (s.x1 != s.x2)
    ensures OpenBit(Project(s, [false, false, true])) == s.x2
  {
  }

  function Zip(x: seq<Plane>, y: seq<Plane>): (r: seq<(Plane, Plane)>)
    requires |x| == |y|
    ensures |r| == |x| && forall b :: 0 <= b < |x| ==> r[b] == (x[b], y[b])
  {
    seq(|x|, b requires 0 <= b < |x| => (x[b], y[b]))
  }

  lemma MajorityLayer(t: seq<Plane>, packed: seq<Plane>, x3: seq<Plane>, n: nat)
    requires |t| == n <= |packed| && |x3| == n
    requires forall b :: 0 <= b < n ==> IsAnd(t[b], PackedParts(packed).x1x3[b], PackedParts(packed).x2x3[b])
    requires forall b :: 0 <= b < n ==> x3[b] == PackedParts(packed).x3[b]
    ensures SameSizes(t, x3) && AreMajorities(XorPlanes(t, x3), packed)
  {
    forall b | 0 <= b < n
      ensures |t[b]| == |x3[b]| && IsMajOfComponents(XorPlane(t[b], x3[b]), packed[b])
    {
      assert IsAnd(t[b], PackedParts(packed).x1x3[b], PackedParts(packed).x2x3[b]);
      MajorityGate(t[b], packed[b]);
    }
  }

  /** All majority gates of both adders in one round; the top one of the expression is not needed. */
  method InitialLayer(net: Network, mask: Parts, expression: Parts, ghost mp: seq<Plane>, ghost ep: seq<Plane>,
                      ghost len: nat)
    returns (maskC: seq<Plane>, expressionC: seq<Plane>)
    requires net.Quiet() && mask == PackedParts(mp) && expression == PackedParts(ep)
    requires SameShape(mp, MASK_BITS, len) && SameShape(ep, EXPRESSION_BITS, len)
    modifies net
    ensures net.Quiet() && |net.calls| == |old(net.calls)| + 1
    ensures |maskC| == MASK_BITS && AreMajorities(maskC, mp)
    ensures |expressionC| == EXPRESSION_BITS - 1 && AreMajorities(expressionC, ep)
  {
    var n, e := MASK_BITS, EXPRESSION_BITS - 1;
    var left, right := mask.x1x3 + expression.x1x3[..e], mask.x2x3 + expression.x2x3[..e];
    var groups := Zip(left, right);
    var r := AndGrouped(net, groups);
    var t := r.value;
    InitialProducts(t, groups, mp, ep);
    MajorityLayer(t[..n], mp, mask.x3, n);
    MajorityLayer(t[n..], ep, expression.x3[..e], e);
    maskC, expressionC := XorPlanes(t[..n], mask.x3), XorPlanes(t[n..], expression.x3[..e]);
  }

  lemma InitialProducts(t: seq<Plane>, groups: seq<(Plane, Plane)>, mp: seq<Plane>, ep: seq<Plane>)
    requires |mp| == MASK_BITS && |ep| == EXPRESSION_BITS
    requires var m, x, e := PackedParts(mp), PackedParts(ep), EXPRESSION_BITS - 1;
      groups == Zip(m.x1x3 + x.x1x3[..e], m.x2x3 + x.x2x3[..e])
    requires AreAnds(t, Lefts(groups), Rights(groups))
    ensures forall b :: 0 <= b < MASK_BITS ==>
      IsAnd(t[..MASK_BITS][b], PackedParts(mp).x1x3[b], PackedParts(mp).x2x3[b])
    ensures forall b :: 0 <= b < EXPRESSION_BITS - 1 ==>
      IsAnd(t[MASK_BITS..][b], PackedParts(ep).x1x3[b], PackedParts(ep).x2x3[b])
  {
    var n := MASK_BITS;
    forall b | 0 <= b < MASK_BITS
      ensures IsAnd(t[..n][b], PackedParts(mp).x1x3[b], PackedParts(mp).x2x3[b])
    {
      assert IsAnd(t[b], Lefts(groups)[b], Rights(groups)[b]);
    }
    forall b | 0 <= b < EXPRESSION_BITS - 1
      ensures IsAnd(t[n..][b], PackedParts(ep).x1x3[b], PackedParts(ep).x2x3[b])
    {
      assert IsAnd(t[n + b], Lefts(groups)[n + b], Rights(groups)[n + b]);
    }
  }

  /** One ripple layer of both adders in one round. */
  method NextCarries(net: Network, a1: Plane, b1: Plane, c1: Plane, a2: Plane, b2: Plane, c2: Plane)
    returns (d1: Plane, d2: Plane)
    requires net.Quiet() && |a1| == |b1| == |c1| && |a2| == |b2| == |c2|
    modifies net
    ensures net.Quiet() && |net.calls| == |old(net.calls)| + 1
    ensures IsMaj(d1, a1, b1, c1) && IsMaj(d2, a2, b2, c2)
  {
    var groups := [(XorPlane(a1, c1), XorPlane(b1, c1)), (XorPlane(a2, c2), XorPlane(b2, c2))];
    var r := AndGrouped(net, groups);
    assert IsAnd(r.value[0], Lefts(groups)[0], Rights(groups)[0]);
    assert IsAnd(r.value[1], Lefts(groups)[1], Rights(groups)[1]);
    d1, d2 := XorPlane(c1, r.value[0]), XorPlane(c2, r.value[1]);
  }

  ghost predicate IsRipple(carry: Plane, s: seq<Plane>, c: seq<Plane>, i: nat, len: nat)
    requires Uniform(s, len) && Uniform(c, len) && i <= |s| && i <= |c| + 1
  {
    && |carry| == len
    && forall l :: 0 <= l < len ==> OpenBit(carry[l]) == Carry(Lane(s, l), [false] + Lane(c, l), i)
  }

  lemma RippleStep(next: Plane, carry: Plane, s: seq<Plane>, c: seq<Plane>, i: nat, len: nat)
    requires Uniform(s, len) && Uniform(c, len) && 1 <= i < |s| && i <= |c|
    requires IsRipple(carry, s, c, i, len) && IsMaj(next, s[i], c[i - 1], carry)
    ensures IsRipple(next, s, c, i + 1, len)
  {
  }

  lemma RippleStart(first: Plane, s: seq<Plane>, c: seq<Plane>, len: nat)
    requires Uniform(s, len) && Uniform(c, len) && |s| >= 2 && |c| >= 1 && IsAnd(first, s[1], c[0])
    ensures IsRipple(first, s, c, 2, len)
  {
    forall l | 0 <= l < len
      ensures OpenBit(first[l]) == Carry(Lane(s, l), [false] + Lane(c, l), 2)
    {
      CarryStart(Lane(s, l), Lane(c, l));
    }
  }

  /** The first gate and the fourteen shared carry layers. */
  method SharedLayers(net: Network, ms: seq<Plane>, mc: seq<Plane>, es: seq<Plane>, ec: seq<Plane>, ghost len: nat)
    returns (maskCarry: Plane, expressionCarry: Plane)
    requires net.Quiet() && Uniform(ms, len) && Uniform(mc, len) && Uniform(es, len) && Uniform(ec, len)
    requires |ms| == |mc| == MASK_BITS && |es| == EXPRESSION_BITS && |ec| == EXPRESSION_BITS - 1
    modifies net
    ensures net.Quiet() && |net.calls| == |old(net.calls)| + 15
    ensures IsRipple(maskCarry, ms, mc, MASK_BITS, len) && IsRipple(expressionCarry, es, ec, MASK_BITS, len)
  {
    var groups := [(ms[1], mc[0]), (es[1], ec[0])];
    var first := AndGrouped(net, groups);
    assert IsAnd(first.value[0], Lefts(groups)[0], Rights(groups)[0]);
    assert IsAnd(first.value[1], Lefts(groups)[1], Rights(groups)[1]);
    maskCarry, expressionCarry := first.value[0], first.value[1];
    RippleStart(maskCarry, ms, mc, len);
    RippleStart(expressionCarry, es, ec, len);
    for offset := 0 to 14
      invariant net.Quiet() && |net.calls| == |old(net.calls)| + 1 + offset
      invariant IsRipple(maskCarry, ms, mc, offset + 2, len) && IsRipple(expressionCarry, es, ec, offset + 2, len)
    {
      var m, e := NextCarries(net, ms[offset + 2], mc[offset + 1], maskCarry, es[offset + 2], ec[offset + 1],
                              expressionCarry);
      RippleStep(m, maskCarry, ms, mc, offset + 2, len);
      RippleStep(e, expressionCarry, es, ec, offset + 2, len);
      maskCarry, expressionCarry := m, e;
    }
  }

  /** What the last round and the final XORs compute in lane l. */
  ghost predicate IsResult(result: Plane, ms: seq<Plane>, mc: seq<Plane>, es: seq<Plane>, ec: seq<Plane>, len: nat)
    requires Uniform(ms, len) && Uniform(mc, len) && Uniform(es, len) && Uniform(ec, len)
    requires |ms| == |mc| == MASK_BITS && |es| == EXPRESSION_BITS && |ec| == EXPRESSION_BITS - 1
  {
    && |result| == len
    && forall l :: 0 <= l < len ==> OpenBit(result[l]) == ResultBit(Lane(ms, l), Lane(mc, l), Lane(es, l), Lane(ec, l))
  }

  predicate ResultBit(ms: seq<bool>, mc: seq<bool>, es: seq<bool>, ec: seq<bool>)
    requires |ms| == |mc| == MASK_BITS && |es| == EXPRESSION_BITS && |ec| == EXPRESSION_BITS - 1
  {
    var top, t := mc[MASK_BITS - 1], Carry(ms, [false] + mc, MASK_BITS);
    (SumBit(es, [false] + ec, 17) != (top && t)) != (SumBit(es, [false] + ec, 16) && (top != t))
  }

  method FinalRound(net: Network, mcTop: Plane, maskCarry: Plane, e16: Plane, c15: Plane, expressionCarry: Plane,
                    e17: Plane, c16: Plane)
    returns (result: Plane)
    requires net.Quiet() && |mcTop| == |maskCarry| == |e16| == |c15| == |expressionCarry| == |e17| == |c16|
    modifies net
    ensures net.Quiet() && |net.calls| == |old(net.calls)| + 1
    ensures IsFinal(result, mcTop, maskCarry, e16, c15, expressionCarry, e17, c16)
  {
    var maskCarry16 := XorPlane(mcTop, maskCarry);
    var expressionBit16 := XorPlane(XorPlane(e16, c15), expressionCarry);
    var groups := [(XorPlane(e16, expressionCarry), XorPlane(c15, expressionCarry)), (mcTop, maskCarry),
                   (expressionBit16, maskCarry16)];
    var r := AndGrouped(net, groups);
    assert IsAnd(r.value[0], Lefts(groups)[0], Rights(groups)[0]);
    assert IsAnd(r.value[1], Lefts(groups)[1], Rights(groups)[1]);
    assert IsAnd(r.value[2], Lefts(groups)[2], Rights(groups)[2]);
    var topCarry := XorPlane(expressionCarry, r.value[0]);
    result := XorPlane(XorPlane(XorPlane(XorPlane(e17, c16), topCarry), r.value[1]), r.value[2]);
  }

  predicate FinalBit(h: bool, t: bool, e16: bool, c15: bool, carry: bool, e17: bool, c16: bool) {
    (((e17 != c16) != Maj(e16, c15, carry)) != (h && t)) != (((e16 != c15) != carry) && (h != t))
  }

  ghost predicate IsFinal(result: Plane, h: Plane, t: Plane, e16: Plane, c15: Plane, carry: Plane, e17: Plane,
                          c16: Plane) {
    && |result| == |h| == |t| == |e16| == |c15| == |carry| == |e17| == |c16|
    && forall l :: 0 <= l < |result| ==>
      (OpenBit(result[l]) <==> FinalBit(OpenBit(h[l]), OpenBit(t[l]), OpenBit(e16[l]), OpenBit(c15[l]),
                                        OpenBit(carry[l]), OpenBit(e17[l]), OpenBit(c16[l])))
  }

  lemma FinalIsResult(result: Plane, maskCarry: Plane, expressionCarry: Plane, ms: seq<Plane>, mc: seq<Plane>,
                      es: seq<Plane>, ec: seq<Plane>, len: nat)
    requires Uniform(ms, len) && Uniform(mc, len) && Uniform(es, len) && Uniform(ec, len)
    requires |ms| == |mc| == MASK_BITS && |es| == EXPRESSION_BITS && |ec| == EXPRESSION_BITS - 1
    requires IsRipple(maskCarry, ms, mc, MASK_BITS, len) && IsRipple(expressionCarry, es, ec, MASK_BITS, len)
    requires IsFinal(result, mc[15], maskCarry, es[16], ec[15], expressionCarry, es[17], ec[16])
    ensures IsResult(result, ms, mc, es, ec, len)
  {
    forall l | 0 <= l < len
      ensures OpenBit(result[l]) == ResultBit(Lane(ms, l), Lane(mc, l), Lane(es, l), Lane(ec, l))
    {
      var s, c := Lane(es, l), [false] + Lane(ec, l);
      assert Carry(s, c, 17) == Maj(s[16], c[16], Carry(s, c, 16));
    }
  }

  /** Seventeen rounds from the prepared operands to the sign bit. */
  method FromParts(net: Network, mask: Parts, expression: Parts, ghost mp: seq<Plane>, ghost ep: seq<Plane>,
                   ghost len: nat)
    returns (result: Plane, ghost mc: seq<Plane>, ghost ec: seq<Plane>)
    requires net.Quiet() && mask == PackedParts(mp) && expression == PackedParts(ep)
    requires SameShape(mp, MASK_BITS, len) && SameShape(ep, EXPRESSION_BITS, len)
    modifies net
    ensures net.Quiet() && |net.calls| == |old(net.calls)| + 17
    ensures |mc| == MASK_BITS && AreMajorities(mc, mp) && |ec| == EXPRESSION_BITS - 1 && AreMajorities(ec, ep)
    ensures Uniform(mc, len) && Uniform(ec, len) && IsResult(result, mp, mc, ep, ec, len)
  {
    var maskC, expressionC := InitialLayer(net, mask, expression, mp, ep, len);
    var maskCarry, expressionCarry := SharedLayers(net, mask.s, maskC, expression.s, expressionC, len);
    result := FinalRound(net, maskC[15], maskCarry, expression.s[16], expressionC[15], expressionCarry,
                         expression.s[17], expressionC[16]);
    FinalIsResult(result, maskCarry, expressionCarry, mp, maskC, ep, expressionC, len);
    mc, ec := maskC, expressionC;
  }
}
