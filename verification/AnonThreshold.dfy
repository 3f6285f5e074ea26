/** The anonymous-statistics threshold 0.375: every path opens to the sign of 4 * code - mask. */
module AnonThreshold {
  import opened Words
  import opened Rep3
  import opened Sessions
  import opened Results
  import opened Gates
  import opened Adders
  import opened Conversions
  import opened Lifts
  import opened Threshold
  import Ops
  import Transpose

  /** The sign of 4 * code - mask in the ring of n + 2 bits; the circuit has n = 16. */
  predicate SignBit(code: int, mask: int, n: nat) {
    Bit((4 * code - mask) % Pow2(n + 2), n + 1)
  }

  ghost predicate AreSignBits(bits: Plane, codes: Vec, masks: Vec) {
    && |bits| == |codes| == |masks|
    && forall l :: 0 <= l < |bits| ==> OpenBit(bits[l]) == SignBit(Open(codes[l], 16), Open(masks[l], 16), 16)
  }

  /** A component of the expression, computed from the same component of code and mask. */
  function ExpressionOf(code: nat, mask: nat, n: nat): (r: nat)
    ensures r < Pow2(n)
  {
    (4 * code - mask) % Pow2(n)
  }

  function Expression(code: Shared<nat>, mask: Shared<nat>, n: nat): (r: Shared<nat>)
    ensures InRing(r, n)
  {
    Shared(ExpressionOf(code.x0, mask.x0, n), ExpressionOf(code.x1, mask.x1, n), ExpressionOf(code.x2, mask.x2, n))
  }

  function Expressions(codes: Vec, masks: Vec): (r: Vec)
    requires |codes| == |masks|
    ensures |r| == |codes| && AllInRing(r, 18)
    ensures forall j :: 0 <= j < |codes| ==> r[j] == Expression(codes[j], masks[j], 18)
  {
    seq(|codes|, j requires 0 <= j < |codes| => Expression(codes[j], masks[j], 18))
  }

  // ----- from the bits of the circuit to numbers ------------------------------------------

  /** The sum planes and majority planes of one lane, as bits of the three components. */
  ghost predicate LaneOf(s: seq<bool>, c: seq<bool>, x: Shared<nat>, n: nat) {
    && |s| == n && |c| <= n
    && (forall b :: 0 <= b < n ==> s[b] == ((Bit(x.x0, b) != Bit(x.x1, b)) != Bit(x.x2, b)))
    && (forall b :: 0 <= b < |c| ==> c[b] == Maj(Bit(x.x0, b), Bit(x.x1, b), Bit(x.x2, b)))
  }

  lemma SlicedLaneOf(planes: seq<Plane>, c: seq<Plane>, x: Vec, n: nat, l: nat)
    requires IsSliced(planes, x, n) && AreMajorities(c, planes) && l < |x|
    ensures Uniform(c, Transpose.PaddedLen(|x|, LANES))
    ensures LaneOf(Lane(planes, l), Lane(c, l), x[l], n)
  {
    forall b | 0 <= b < |c|
      ensures |c[b]| == Transpose.PaddedLen(|x|, LANES)
    {
      assert IsMajOfComponents(c[b], planes[b]);
    }
    forall b | 0 <= b < n
      ensures SlicedBits(planes[b][l], x[l], b)
    {
      assert planes[b][l].At(0) == Bit(x[l].At(0), b);
      assert planes[b][l].At(1) == Bit(x[l].At(1), b);
      assert planes[b][l].At(2) == Bit(x[l].At(2), b);
    }
    forall b | 0 <= b < |c|
      ensures Lane(c, l)[b] == Maj(Bit(x[l].x0, b), Bit(x[l].x1, b), Bit(x[l].x2, b))
    {
      assert IsMajOfComponents(c[b], planes[b]);
      assert SlicedBits(planes[b][l], x[l], b);
    }
    forall b | 0 <= b < n
      ensures Lane(planes, l)[b] == ((Bit(x[l].x0, b) != Bit(x[l].x1, b)) != Bit(x[l].x2, b))
    {
      assert SlicedBits(planes[b][l], x[l], b);
    }
  }

  predicate SlicedBits(s: Shared<bool>, x: Shared<nat>, b: nat) {
    s.x0 == Bit(x.x0, b) && s.x1 == Bit(x.x1, b) && s.x2 == Bit(x.x2, b)
  }

  lemma BitsValue(x: nat, n: nat)
    requires x < Pow2(n)
    ensures Val(Bits(x, n), n) == x
  {
    ValBits(x, n, n);
    DivModUnique(x, Pow2(n), 0, x);
  }

  /** The mask half of the circuit yields the quotient q of M0 + M1 + M2 = mask + q * 2^16. */
  lemma MaskQuotient(s: seq<bool>, c: seq<bool>, m: Shared<nat>, n: nat)
    requires n >= 1 && LaneOf(s, c, m, n) && |c| == n && InRing(m, n)
    ensures var t := Carry(s, [false] + c, n); OverflowBits(m.x0, m.x1, m.x2, n, c[n - 1] != t, c[n - 1] && t)
  {
    BitsValue(m.x0, n);
    BitsValue(m.x1, n);
    BitsValue(m.x2, n);
    TwoCarries(Bits(m.x0, n), Bits(m.x1, n), Bits(m.x2, n), s, c, n);
  }

  /** The expression half adds its three components modulo 2^n although the top majority is left out. */
  lemma ExpressionSum(s: seq<bool>, c: seq<bool>, e: Shared<nat>, n: nat, i: nat)
    requires LaneOf(s, c, e, n) && |c| == n - 1 && i < n && InRing(e, n)
    ensures Bit(Sum(e) % Pow2(n), i) == SumBit(s, [false] + c, i)
  {
    var top := Maj(Bit(e.x0, n - 1), Bit(e.x1, n - 1), Bit(e.x2, n - 1));
    ExpressionTotal(s, c, top, e, n);
    ModPlusMultiple(Val(s, n) + Val([false] + c, n), B(top), Pow2(n));
    assert W(top, Pow2(n)) == B(top) * Pow2(n);
    BitOfWrappedSum(s, [false] + c, n, i);
  }

  lemma ExpressionTotal(s: seq<bool>, c: seq<bool>, top: bool, e: Shared<nat>, n: nat)
    requires LaneOf(s, c, e, n) && |c| == n - 1 && InRing(e, n)
    requires top == Maj(Bit(e.x0, n - 1), Bit(e.x1, n - 1), Bit(e.x2, n - 1))
    ensures Sum(e) == Val(s, n) + Val([false] + c, n) + W(top, Pow2(n))
  {
    BitsValue(e.x0, n);
    BitsValue(e.x1, n);
    BitsValue(e.x2, n);
    var full := c + [top];
    CompressValue(Bits(e.x0, n), Bits(e.x1, n), Bits(e.x2, n), s, full, n);
    DoubledTop(full, n);
    ValExt([false] + full, [false] + c, n);
  }

  lemma TopSum(t: nat, p: nat, low: nat, t0: bool, t1: bool, b1: bool, b2: bool, top: nat)
    requires t == low + W(t0, p) + W(t1, 2 * p) && top == B(t0) + B(b1) + 2 * B(t1) + 2 * B(b2)
    ensures t + W(b1, p) + W(b2, 2 * p) == low + top * p
  {
  }

  lemma TopBlock(low: nat, p: nat, top: nat)
    requires low < p && top < 8
    ensures (low + top * p) % (4 * p) == low + (if top >= 4 then top - 4 else top) * p
  {
    if top >= 4 {
      DivModUnique(low + top * p, 4 * p, 1, low + (top - 4) * p);
    } else {
      DivModUnique(low + top * p, 4 * p, 0, low + top * p);
    }
  }

  lemma TwoTopBits(t: nat, p: nat, low: nat, t0: bool, t1: bool, b1: bool, b2: bool)
    requires p > 0 && low < p && t == low + W(t0, p) + W(t1, 2 * p)
    ensures (t + W(b1, p) + W(b2, 2 * p)) % (4 * p) >= 2 * p <==> ((t1 != b2) != (t0 && b1))
  {
    var top := B(t0) + B(b1) + 2 * B(t1) + 2 * B(b2);
    TopSum(t, p, low, t0, t1, b1, b2, top);
    TopBlock(low, p, top);
    var r := if top >= 4 then top - 4 else top;
    assert r >= 2 <==> ((t1 != b2) != (t0 && b1));
    TopHalf(low, p, r);
  }

  lemma TopHalf(low: nat, p: nat, r: nat)
    requires low < p && r < 4
    ensures low + r * p >= 2 * p <==> r >= 2
  {
  }

  /** Adding a two-bit quotient at positions n and n+1 modulo 2^(n+2): the new top bit. */
  lemma AddQuotient(t: nat, n: nat, b1: bool, b2: bool)
    requires t < Pow2(n + 2)
    ensures Bit((t + W(b1, Pow2(n)) + W(b2, Pow2(n + 1))) % Pow2(n + 2), n + 1)
         == ((Bit(t, n + 1) != b2) != (Bit(t, n) && b1))
  {
    var p := Pow2(n);
    BitSplit(t, n);
    BitSplit(t, n + 1);
    DivModUnique(t, Pow2(n + 2), 0, t);
    TwoTopBits(t, p, t % p, Bit(t, n), Bit(t, n + 1), b1, b2);
    TopBit((t + W(b1, Pow2(n)) + W(b2, Pow2(n + 1))) % Pow2(n + 2), n + 2);
  }

  lemma Completed(c: int, s: int, cr: int, sr: int, qc: int, q: int, p: int)
    requires c == cr + qc * p && s == sr + q * p
    ensures (4 * c - s) + q * p == 4 * cr - sr + qc * (4 * p)
  {
    assert qc * (4 * p) == 4 * (qc * p);
  }

  /** The reduced components of the expression add up to it modulo 2^k. */
  lemma ReducedTotal(code: Shared<nat>, mask: Shared<nat>, k: nat)
    ensures Sum(Expression(code, mask, k)) % Pow2(k) == (4 * Sum(code) - Sum(mask)) % Pow2(k)
  {
    SumOfReduced(4 * code.x0 - mask.x0, 4 * code.x1 - mask.x1, 4 * code.x2 - mask.x2, 4 * Sum(code) - Sum(mask),
                 Pow2(k));
  }

  /** The expression over unreduced sums plus the mask's quotient q is 4 * code - mask for the secrets. */
  lemma QuotientCompletes(t: int, code: int, mask: int, p: nat, m: nat, q: int)
    requires p > 0 && m == 4 * p && t == (4 * code - mask) % m && mask == mask % p + q * p
    ensures (t + q * p) % m == (4 * (code % p) - mask % p) % m
  {
    var total, cr, sr := 4 * code - mask, code % p, mask % p;
    ModIdem(total, m);
    EqModAdd(t, total, q * p, q * p, m);
    var qc := ModQuotient(code, p);
    Completed(code, mask, cr, sr, qc, q, p);
    SameResidue(total + q * p, 4 * cr - sr, qc, m);
  }

  /** One lane of the circuit. */
  lemma ResultIsSign(code: Shared<nat>, mask: Shared<nat>, ms: seq<bool>, mc: seq<bool>, es: seq<bool>, ec: seq<bool>,
                     n: nat)
    requires n == 16 && InRing(mask, n)
    requires LaneOf(ms, mc, mask, n) && |mc| == n && LaneOf(es, ec, Expression(code, mask, n + 2), n + 2)
    requires |ec| == n + 1
    ensures ResultBit(ms, mc, es, ec) == SignBit(Open(code, n), Open(mask, n), n)
  {
    var e := Expression(code, mask, n + 2);
    var t := Carry(ms, [false] + mc, n);
    MaskQuotient(ms, mc, mask, n);
    ExpressionSum(es, ec, e, n + 2, n);
    ExpressionSum(es, ec, e, n + 2, n + 1);
    SignFromQuotient(code, mask, n, mc[n - 1] != t, mc[n - 1] && t);
  }

  lemma SignFromQuotient(code: Shared<nat>, mask: Shared<nat>, n: nat, b1: bool, b2: bool)
    requires OverflowBits(mask.x0, mask.x1, mask.x2, n, b1, b2)
    ensures var t := Sum(Expression(code, mask, n + 2)) % Pow2(n + 2);
      ((Bit(t, n + 1) != b2) != (Bit(t, n) && b1)) == SignBit(Open(code, n), Open(mask, n), n)
  {
    var q, p := B(b1) + 2 * B(b2), Pow2(n);
    var m := Pow2(n + 2);
    assert m == 4 * p && Pow2(n + 1) == 2 * p;
    var t := Sum(Expression(code, mask, n + 2)) % m;
    AddQuotient(t, n, b1, b2);
    QuotientWeights(b1, b2, p);
    ReducedTotal(code, mask, n + 2);
    QuotientCompletes(t, Sum(code), Sum(mask), p, m, q);
  }

  lemma QuotientWeights(b1: bool, b2: bool, p: nat)
    ensures W(b1, p) + W(b2, 2 * p) == (B(b1) + 2 * B(b2)) * p
  {
  }

  // ----- slicing expression components ------------------------------------------------------

  /** Bit slicing through a network of 2^e rows, of which only the first k planes are kept. */
  method SliceRows(x: Vec, k: nat, e: nat) returns (planes: seq<Plane>)
    requires (e == 4 && k == 16) || (e == 5 && k == 18)
    requires AllInRing(x, k)
    ensures IsSliced(planes, x, k)
  {
    RowsOf(k, e);
    planes := SliceThrough(x, k, Pow2(e), e);
  }

  lemma RowsOf(k: nat, e: nat)
    requires (e == 4 && k == 16) || (e == 5 && k == 18)
    ensures var n := Pow2(e); k <= n && LANES % n == 0 && Pow2(k) <= Pow2(n)
    ensures Transpose.Divisible(LANES, e)
  {
    var width := if e == 4 then 16 else 32;
    RowsFit(width);
    assert RowBits(width) == e && Pow2(e) == width;
    Pow2Monotone(k, width);
  }

  // ----- the paths -----------------------------------------------------------------------------

  lemma LanesAreSigns(result: Plane, codes: Vec, masks: Vec, mp: seq<Plane>, mc: seq<Plane>, ep: seq<Plane>,
                      ec: seq<Plane>)
    requires |codes| == |masks| && AllInRing(masks, 16)
    requires IsSliced(mp, masks, 16) && IsSliced(ep, Expressions(codes, masks), 18)
    requires |mc| == 16 && AreMajorities(mc, mp) && |ec| == 17 && AreMajorities(ec, ep)
    requires var len := Transpose.PaddedLen(|masks|, LANES);
      Uniform(mc, len) && Uniform(ec, len) && IsResult(result, mp, mc, ep, ec, len)
    ensures |result| >= |codes| && AreSignBits(result[..|codes|], codes, masks)
  {
    forall l | 0 <= l < |codes|
      ensures OpenBit(result[l]) == SignBit(Open(codes[l], 16), Open(masks[l], 16), 16)
    {
      SlicedLaneOf(mp, mc, masks, 16, l);
      SlicedLaneOf(ep, ec, Expressions(codes, masks), 18, l);
      ResultIsSign(codes[l], masks[l], Lane(mp, l), Lane(mc, l), Lane(ep, l), Lane(ec, l), 16);
    }
  }

  /** The circuit on sliced inputs, from either preparation of its operands. */
  method RunCircuit(net: Network, mp: seq<Plane>, ep: seq<Plane>, mask: Parts, expression: Parts, ghost codes: Vec,
                    ghost masks: Vec)
    returns (result: Plane)
    requires net.Quiet() && |codes| == |masks| && AllInRing(masks, 16)
    requires IsSliced(mp, masks, 16) && IsSliced(ep, Expressions(codes, masks), 18)
    requires mask == PackedParts(mp) && expression == PackedParts(ep)
    modifies net
    ensures net.Quiet() && |net.calls| == |old(net.calls)| + 17
    ensures |result| >= |codes| && AreSignBits(result[..|codes|], codes, masks)
  {
    ghost var mc, ec;
    result, mc, ec := FromParts(net, mask, expression, mp, ep, Transpose.PaddedLen(|masks|, LANES));
    LanesAreSigns(result, codes, masks, mp, mc, ep, ec);
  }

  /** The fused circuit on sharings of code and mask: seventeen rounds for a nonempty batch. */
  method ExtractAnonStatsMsbBatch(net: Network, codes: Vec, masks: Vec) returns (r: Result<Plane>)
    requires net.Quiet() && AllInRing(codes, 16) && AllInRing(masks, 16)
    modifies net
    ensures net.Quiet()
    ensures r.Success? <==> |codes| == |masks|
    ensures r.Success? ==> AreSignBits(r.value, codes, masks)
    ensures |net.calls| == |old(net.calls)| + if r.Success? && codes != [] then 17 else 0
  {
    if |codes| != |masks| {
      return Failure(InvalidSize);
    }
    if codes == [] {
      return Success([]);
    }
    var mp := SliceRows(masks, 16, 4);
    var ep := SliceRows(Expressions(codes, masks), 18, 5);
    PreparationsAgree(mp);
    PreparationsAgree(ep);
    var result := RunCircuit(net, mp, ep, SplitParts(mp), SplitParts(ep), codes, masks);
    return Success(result[..|codes|]);
  }

  // ----- interleaved components ------------------------------------------------------------------

  function Codes(dots: Vec): (r: Vec)
    requires |dots| % 2 == 0
    ensures 2 * |r| == |dots| && forall j :: 0 <= j < |r| ==> r[j] == dots[2 * j]
  {
    seq(|dots| / 2, j requires 0 <= j < |dots| / 2 => dots[2 * j])
  }

  function Masks(dots: Vec): (r: Vec)
    requires |dots| % 2 == 0
    ensures 2 * |r| == |dots| && forall j :: 0 <= j < |r| ==> r[j] == dots[2 * j + 1]
  {
    seq(|dots| / 2, j requires 0 <= j < |dots| / 2 => dots[2 * j + 1])
  }

  /** Masks and expression components are sliced straight from the interleaved (code, mask) components. */
  method PackAnonStatsComponents(dots: Vec) returns (r: Result<(seq<Plane>, seq<Plane>)>)
    requires AllInRing(dots, 16)
    ensures r.Success? <==> |dots| % 2 == 0
    ensures r.Success? ==> IsSliced(r.value.0, Masks(dots), 16)
    ensures r.Success? ==> IsSliced(r.value.1, Expressions(Codes(dots), Masks(dots)), 18)
  {
    if |dots| % 2 != 0 {
      return Failure(InvalidSize);
    }
    var masks, expressions := Columns(dots);
    var mp := SliceRows(masks, 16, 4);
    var ep := SliceRows(expressions, 18, 5);
    return Success((mp, ep));
  }

  method Columns(dots: Vec) returns (masks: Vec, expressions: Vec)
    requires AllInRing(dots, 16) && |dots| % 2 == 0
    ensures masks == Masks(dots) && AllInRing(masks, 16)
    ensures expressions == Expressions(Codes(dots), Masks(dots))
  {
    masks, expressions := [], [];
    ghost var ms, es := Masks(dots), Expressions(Codes(dots), Masks(dots));
    for i := 0 to |dots| / 2
      invariant masks == ms[..i] && expressions == es[..i]
    {
      NextColumn(dots, ms, es, i);
      masks := masks + [dots[2 * i + 1]];
      expressions := expressions + [Expression(dots[2 * i], dots[2 * i + 1], 18)];
    }
  }

  lemma NextColumn(dots: Vec, ms: Vec, es: Vec, i: nat)
    requires |dots| % 2 == 0 && i < |dots| / 2 && ms == Masks(dots) && es == Expressions(Codes(dots), Masks(dots))
    ensures |ms| == |es| == |dots| / 2
    ensures ms[..i + 1] == ms[..i] + [dots[2 * i + 1]]
    ensures es[..i + 1] == es[..i] + [Expression(dots[2 * i], dots[2 * i + 1], 18)]
  {
    assert ms[i] == dots[2 * i + 1];
  }

  /** The packed path opens to the same bits. */
  method ExtractAnonStatsMsbBatchFromComponents(net: Network, dots: Vec) returns (r: Result<Plane>)
    requires net.Quiet() && AllInRing(dots, 16)
    modifies net
    ensures net.Quiet()
    ensures r.Success? <==> |dots| % 2 == 0
    ensures r.Success? ==> AreSignBits(r.value, Codes(dots), Masks(dots))
    ensures |net.calls| == |old(net.calls)| + if r.Success? && dots != [] then 17 else 0
  {
    if dots == [] {
      return Success([]);
    }
    var packed := PackAnonStatsComponents(dots);
    if packed.Failure? {
      return Failure(packed.error);
    }
    var (mp, ep) := packed.value;
    var result := RunCircuit(net, mp, ep, PackedParts(mp), PackedParts(ep), Codes(dots), Masks(dots));
    return Success(result[..|dots| / 2]);
  }

  /** Additive interleaved contributions in, sign bits of the summed dot products out. */
  method GreaterThanAnonStatsFromGalois(net: Network, items: Trio<seq<nat>>)
    returns (r: Result<(Plane, Vec)>)
    requires net.Quiet() && |items.p0| == |items.p1| == |items.p2|
    modifies net
    ensures net.Quiet()
    ensures r.Success? <==> |items.p0| % 2 == 0
    ensures r.Success? ==> 2 * |r.value.0| == |items.p0| && Ops.AreReshared(r.value.1, items, 16)
    ensures r.Success? ==> AreSignBits(r.value.0, Codes(r.value.1), Masks(r.value.1))
  {
    if |items.p0| % 2 != 0 {
      return Failure(InvalidSize);
    }
    var dots := Ops.GaloisRingToRep3(net, items);
    var bits := ExtractAnonStatsMsbBatchFromComponents(net, dots);
    return Success((bits.value, dots));
  }

  predicate InBounds(indices: seq<nat>, n: nat) {
    forall i :: 0 <= i < |indices| ==> indices[i] < n
  }

  /** Scalar shares of selected comparisons, in the order asked for, duplicates included. */
  method Select(dots: Vec, indices: seq<nat>) returns (r: Result<(Vec, Vec)>)
    requires |dots| % 2 == 0
    ensures r.Success? <==> InBounds(indices, |dots| / 2)
    ensures r.Success? ==> |r.value.0| == |r.value.1| == |indices|
    ensures r.Success? ==> InBounds(indices, |dots| / 2) && forall i :: 0 <= i < |indices| ==>
      r.value.0[i] == Codes(dots)[indices[i]] && r.value.1[i] == Masks(dots)[indices[i]]
  {
    var codes, masks: Vec := [], [];
    for i := 0 to |indices|
      invariant |codes| == |masks| == i && InBounds(indices[..i], |dots| / 2)
      invariant forall k :: 0 <= k < i ==>
        indices[k] < |dots| / 2 && codes[k] == Codes(dots)[indices[k]] && masks[k] == Masks(dots)[indices[k]]
    {
      var index := indices[i];
      if index >= |dots| / 2 {
        return Failure(OutOfBounds);
      }
      codes := codes + [dots[2 * index]];
      masks := masks + [dots[2 * index + 1]];
    }
    return Success((codes, masks));
  }

  // ----- the generic path ----------------------------------------------------------------------------

  /** code * 2^n - mask * a, with the code shifted locally into the ring of k = 2n bits. */
  function GenericDiff(code: Shared<nat>, mask: Shared<nat>, a: nat, n: nat, k: nat): (r: Shared<nat>)
    ensures InRing(r, k)
  {
    SubShared(Shift(code, n, k), ScaleShared(mask, a, k), k)
  }

  /** Sign of code * 2^n - mask * a in the ring of k bits. */
  predicate DiffSign(code: int, mask: int, a: nat, n: nat, k: nat)
    requires k >= 1
  {
    Bit((code * Pow2(n) - mask * a) % Pow2(k), k - 1)
  }

  lemma GenericDiffOpens(code: Shared<nat>, mask: Shared<nat>, a: nat, n: nat, k: nat)
    requires k == 2 * n
    ensures Open(GenericDiff(code, mask, a, n, k), k) == (Open(code, n) * Pow2(n) - Open(mask, k) * a) % Pow2(k)
  {
    ShiftOpens(code, n, n, k);
    OpenScale(mask, a, k);
    OpenSubOf(Shift(code, n, k), ScaleShared(mask, a, k), Open(code, n) * Pow2(n), Open(mask, k) * a, k);
  }

  ghost predicate AreDiffSigns(bits: Plane, codes: Vec, masks: Vec, a: nat) {
    && |bits| == |codes| == |masks|
    && forall l :: 0 <= l < |bits| ==> OpenBit(bits[l]) == DiffSign(Open(codes[l], 16), Open(masks[l], 32), a, 16, 32)
  }

  function GenericDiffs(codes: Vec, masks: Vec, a: nat): (r: Vec)
    requires |codes| == |masks|
    ensures |r| == |codes| && AllInRing(r, 32)
    ensures forall j :: 0 <= j < |codes| ==> r[j] == GenericDiff(codes[j], masks[j], a, 16, 32)
  {
    seq(|codes|, j requires 0 <= j < |codes| => GenericDiff(codes[j], masks[j], a, 16, 32))
  }

  /** Sign of code * 2^16 - mask * a in the 32-bit ring, with masks lifted beforehand. */
  method GreaterThanThresholdPreLiftedMasks(net: Network, codes: Vec, masks: Vec, a: nat) returns (r: Result<Plane>)
    requires net.Quiet() && AllInRing(codes, 16) && AllInRing(masks, 32)
    modifies net
    ensures net.Quiet()
    ensures r.Success? <==> |codes| == |masks|
    ensures r.Success? ==> AreDiffSigns(r.value, codes, masks, a)
  {
    if |codes| != |masks| {
      return Failure(InvalidSize);
    }
    var diffs := GenericDiffs(codes, masks, a);
    var bits := ExtractMsbBatch(net, diffs, 32);
    SignsOfDiffs(bits, diffs, codes, masks, a, 16, 32);
    return Success(bits);
  }

  lemma SignsOfDiffs(bits: Plane, diffs: Vec, codes: Vec, masks: Vec, a: nat, n: nat, k: nat)
    requires n == 16 && k == 32 && |codes| == |masks| == |bits| && diffs == GenericDiffs(codes, masks, a)
    requires AreMsbs(bits, diffs, k)
    ensures AreDiffSigns(bits, codes, masks, a)
  {
    forall l | 0 <= l < |bits|
      ensures OpenBit(bits[l]) == DiffSign(Open(codes[l], n), Open(masks[l], k), a, n, k)
    {
      SignOfDiff(diffs[l], codes[l], masks[l], a, n, k);
    }
  }

  lemma SignOfDiff(diff: Shared<nat>, code: Shared<nat>, mask: Shared<nat>, a: nat, n: nat, k: nat)
    requires 1 <= k == 2 * n && diff == GenericDiff(code, mask, a, n, k)
    ensures Bit(Open(diff, k), k - 1) == DiffSign(Open(code, n), Open(mask, k), a, n, k)
  {
    GenericDiffOpens(code, mask, a, n, k);
  }

  lemma {:induction false} BitScaled(x: nat, s: nat, i: nat)
    ensures Bit(x * Pow2(s), i + s) == Bit(x, i)
  {
    if s > 0 {
      assert x * Pow2(s) == 2 * (x * Pow2(s - 1));
      BitScaled(x, s - 1, i);
    }
  }

  /** At a = 2^(n-2) the generic expression is the fused one times 2^(n-2): same sign bit. */
  lemma GenericSignIsSign(code: int, mask: int, n: nat)
    requires n >= 2
    ensures DiffSign(code, mask, Pow2(n - 2), n, 2 * n) == SignBit(code, mask, n)
  {
    var s := n - 2;
    Pow2Add(n + 2, s);
    var v := 4 * code - mask;
    assert Pow2(n) == Pow2(s) * 4;
    ScaledExpression(code, mask, Pow2(s));
    ModScaleBoth(v, Pow2(n + 2), Pow2(s));
    BitScaled(v % Pow2(n + 2), s, n + 1);
  }

  lemma ScaledExpression(code: int, mask: int, p: int)
    ensures code * (p * 4) - mask * p == (4 * code - mask) * p
  {
  }

  /** The generic and the fused paths open to the same bits. */
  lemma PathsAgree(fused: Plane, generic: Plane, codes: Vec, masks: Vec, lifted: Vec)
    requires |codes| == |masks| && AreLifted(lifted, masks, 16, 32)
    requires AreSignBits(fused, codes, masks) && AreDiffSigns(generic, codes, lifted, Pow2(14))
    ensures OpenBits(fused) == OpenBits(generic)
  {
    forall l | 0 <= l < |fused|
      ensures OpenBit(fused[l]) == OpenBit(generic[l])
    {
      GenericSignIsSign(Open(codes[l], 16), Open(masks[l], 16), 16);
    }
  }

  // ----- what the bit means ---------------------------------------------------------------------------

  /** The code read as a signed number: the bit says whether 4 * code < mask, that is
      code / mask < 1 - 2 * 0.375, exactly as long as the expression stays in the 18-bit range. */
  lemma SignBitMeaning(code: nat, mask: nat, n: nat)
    requires n >= 1 && code < Pow2(n) && mask < Pow2(n)
    ensures (SignBit(code, mask, n) <==> 4 * Signed(code, n) < mask) <==> 4 * Signed(code, n) - mask + Pow2(n + 1) >= 0
  {
    var p := Pow2(n);
    var v := 4 * Signed(code, n) - mask;
    assert Pow2(n + 2) == 4 * p && Pow2(n + 1) == 2 * p && p == 2 * Pow2(n - 1);
    if code >= Pow2(n - 1) {
      assert 4 * code - mask == v + 1 * (4 * p);
      ModPlusMultiple(v, 1, 4 * p);
    }
    if v + 2 * p >= 0 {
      SignedOf(v, n + 2);
    } else {
      DivModUnique(v, 4 * p, -1, v + 4 * p);
      TopBit(v % (4 * p), n + 2);
    }
  }

  /** Below that range it is wrong: the most negative code with mask 1 is below the threshold, but its bit is
      clear. At 16 bits this is code 0x8000. */
  lemma SignBitWraps(n: nat)
    requires n >= 1
    ensures var code := Pow2(n - 1);
      code < Pow2(n) && 1 < Pow2(n) && 4 * Signed(code, n) < 1 && !SignBit(code, 1, n)
  {
    SignBitMeaning(Pow2(n - 1), 1, n);
    assert Pow2(n + 1) == 4 * Pow2(n - 1);
  }

  lemma SignBitWrapsAt16()
    ensures 4 * Signed(0x8000, 16) < 1 && !SignBit(0x8000, 1, 16)
  {
    Pow2Values();
    SignBitWraps(16);
  }

  /** The sign of a number between -3/2 and 1/2 of the modulus m: right exactly where nothing wraps around once. */
  lemma SignInRing(v: int, k: nat, h: nat)
    requires k >= 1 && h == Pow2(k - 1) && -3 * h < v < h
    ensures (Bit(v % Pow2(k), k - 1) <==> v < 0) <==> v + h >= 0 || v + 2 * h < 0
  {
    var m := Pow2(k);
    assert m == 2 * h;
    if v + h >= 0 {
      SignedOf(v, k);
    } else if v + m >= 0 {
      DivModUnique(v, m, -1, v + m);
      TopBit(v % m, k);
    } else {
      DivModUnique(v, m, -2, v + 2 * m);
      TopBit(v % m, k);
    }
  }

  lemma DiffInRange(x: int, mask: nat, a: nat, p: nat, h: nat, v: int, g: nat)
    requires mask < p && a <= p && 0 <= x + h < p && p == 2 * h && v == x * p - mask * a && g == h * p
    ensures -3 * g < v < g
  {
    MulNonneg(mask, a);
    MulNonneg(p - 1 - mask, a);
    MulNonneg(p - 1, p - a);
    assert (p - 1) * p == mask * a + (p - 1 - mask) * a + (p - 1) * (p - a);
    assert (p - 1) * p == 2 * (h * p) - p;
    MulNonneg(x + h, p);
    MulNonneg(h - 1 - x, p);
    assert (x + h) * p == x * p + h * p;
    assert (h - 1 - x) * p == h * p - p - x * p;
  }

  lemma HalfModulus(n: nat, k: nat, p: nat, h: nat)
    requires n >= 1 && k == 2 * n && p == Pow2(n) && h == Pow2(n - 1)
    ensures p == 2 * h && Pow2(k) == p * p && Pow2(k - 1) == h * p
  {
    Pow2Add(n, n);
    Pow2Add(n - 1, n);
  }

  /** The operands of the generic path: an n-bit code and mask, a threshold a / 2^n up to one, the exact difference. */
  predicate IsDiff(code: nat, mask: nat, a: nat, n: nat, k: nat, v: int) {
    && n >= 1 && k == 2 * n && code < Pow2(n) && mask < Pow2(n) && a <= Pow2(n)
    && v == Signed(code, n) * Pow2(n) - mask * a
  }

  lemma DiffRange(code: nat, mask: nat, a: nat, n: nat, k: nat, v: int)
    requires IsDiff(code, mask, a, n, k, v)
    ensures -3 * Pow2(k - 1) < v < Pow2(k - 1)
  {
    HalfModulus(n, k, Pow2(n), Pow2(n - 1));
    DiffInRange(Signed(code, n), mask, a, Pow2(n), Pow2(n - 1), v, Pow2(k - 1));
  }

  lemma DiffResidue(code: nat, mask: nat, a: nat, n: nat, k: nat, v: int)
    requires IsDiff(code, mask, a, n, k, v)
    ensures (code * Pow2(n) - mask * a) % Pow2(k) == v % Pow2(k)
  {
    HalfModulus(n, k, Pow2(n), Pow2(n - 1));
    SameDiff(code, Signed(code, n), mask * a, Pow2(n));
  }

  /** What the bit of the generic path means for any threshold a / 2^n: code * 2^n < mask * a, unless the difference
      wraps around once. */
  lemma DiffSignMeaning(code: nat, mask: nat, a: nat, n: nat, k: nat, v: int)
    requires IsDiff(code, mask, a, n, k, v)
    ensures (DiffSign(code, mask, a, n, k) <==> v < 0) <==> v + Pow2(k - 1) >= 0 || v + Pow2(k) < 0
  {
    DiffRange(code, mask, a, n, k, v);
    DiffResidue(code, mask, a, n, k, v);
    SignInRing(v, k, Pow2(k - 1));
  }

  lemma SameDiff(code: nat, x: int, y: int, p: nat)
    requires p >= 1 && (x == code || x == code - p)
    ensures (code * p - y) % (p * p) == (x * p - y) % (p * p)
  {
    if x == code - p {
      assert code * p - y == x * p - y + 1 * (p * p);
      ModPlusMultiple(x * p - y, 1, p * p);
    }
  }
}
