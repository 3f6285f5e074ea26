/** Arithmetic rounds: resharing local products, multiplexing, opening. */
module Ops {
  import opened Words
  import opened Rep3
  import opened Sessions
  import opened Results

  // ----- resharing -------------------------------------------------------------------

  /** The part of a product of two additively shared values a party can compute by itself. */
  function LocalMul(x: Share<nat>, y: Share<nat>, k: nat): (r: nat)
    ensures r < Pow2(k)
  {
    (x.a * y.a + x.b * y.a + x.a * y.b) % Pow2(k)
  }

  function Blind(local: seq<nat>, mine: seq<nat>, prev: seq<nat>, k: nat): (r: seq<nat>)
    requires |local| == |mine| == |prev|
    ensures |r| == |local|
    ensures forall j :: 0 <= j < |r| ==> r[j] == Add(Sub(mine[j], prev[j], k), local[j], k)
  {
    seq<nat>(|local|, j requires 0 <= j < |local| => Add(Sub(mine[j], prev[j], k), local[j], k))
  }

  method ReshareSend(net: Network, i: nat, local: seq<nat>, k: nat) returns (a: seq<nat>)
    requires i < 3
    requires net.Sound()
    modifies net`mine, net`prev, net`next, net`log, net`run
    ensures net.Sound()
    ensures a == Blind(local, net.Values(i, old(net.mine.At(i)), k, |local|),
                              net.Values(Before(i), old(net.prev.At(i)), k, |local|), k)
    ensures net.mine == old(net.mine).With(i, old(net.mine.At(i)) + [Fill(k, |local|)])
    ensures net.prev == old(net.prev).With(i, old(net.prev.At(i)) + [Fill(k, |local|)])
    ensures net.next == old(net.next).With(i, old(net.next.At(i)) + [Elements(a)])
    ensures net.log == old(net.log).With(i, old(net.log.At(i)) +
      [DrewMine(Fill(k, |local|)), DrewPrev(Fill(k, |local|)), SentNext(|local|)])
  {
    var n := |local|;
    var hm := net.DrawMine(i, Fill(k, n));
    var hp := net.DrawPrev(i, Fill(k, n));
    a := Blind(local, net.Values(i, hm, k, n), net.Values(Before(i), hp, k, n), k);
    net.SendNext(i, Elements(a));
    assert net.log.At(i) == old(net.log.At(i)) + [DrewMine(Fill(k, n)), DrewPrev(Fill(k, n)), SentNext(n)];
  }

  function LocalSum(local: Trio<seq<nat>>, j: nat): (r: nat)
    requires j < |local.p0| == |local.p1| == |local.p2|
  {
    local.p0[j] + local.p1[j] + local.p2[j]
  }

  ghost predicate AreReshared(out: Vec, local: Trio<seq<nat>>, k: nat)
    requires |local.p0| == |local.p1| == |local.p2|
  {
    && |out| == |local.p0| && AllInRing(out, k)
    && forall j :: 0 <= j < |out| ==> Open(out[j], k) == LocalSum(local, j) % Pow2(k)
  }

  lemma BlindMod(mine: nat, prev: nat, x: nat, k: nat)
    ensures Add(Sub(mine, prev, k), x, k) == (mine - prev + x) % Pow2(k)
  {
    ModIdem(mine - prev, Pow2(k));
    EqModAdd(Sub(mine, prev, k), mine - prev, x, x, Pow2(k));
  }

  /** The blinding terms of the three parties cancel. */
  lemma BlindsCancel(r0: nat, r1: nat, r2: nat, x0: nat, x1: nat, x2: nat, k: nat)
    ensures (Add(Sub(r0, r2, k), x0, k) + Add(Sub(r1, r0, k), x1, k) + Add(Sub(r2, r1, k), x2, k)) % Pow2(k)
         == (x0 + x1 + x2) % Pow2(k)
  {
    BlindMod(r0, r2, x0, k);
    BlindMod(r1, r0, x1, k);
    BlindMod(r2, r1, x2, k);
    ReduceThree(r0 - r2 + x0, r1 - r0 + x1, r2 - r1 + x2, Pow2(k));
  }

  lemma BlindedSums(local: Trio<seq<nat>>, r0: seq<nat>, r1: seq<nat>, r2: seq<nat>, out: Vec, k: nat)
    requires |local.p0| == |local.p1| == |local.p2| == |r0| == |r1| == |r2|
    requires out == Zip3(Blind(local.p0, r0, r2, k), Blind(local.p1, r1, r0, k), Blind(local.p2, r2, r1, k))
    ensures AreReshared(out, local, k)
  {
    forall j | 0 <= j < |out|
      ensures InRing(out[j], k) && Open(out[j], k) == LocalSum(local, j) % Pow2(k)
    {
      BlindsCancel(r0[j], r1[j], r2[j], local.p0[j], local.p1[j], local.p2[j], k);
    }
  }

  /** One round in which every party blinds its local values and passes them on: the result is a
      consistent sharing of the sums of the local values. */
  method Reshare(net: Network, local: Trio<seq<nat>>, k: nat) returns (out: Vec)
    requires net.Quiet() && |local.p0| == |local.p1| == |local.p2|
    modifies net
    ensures net.Quiet() && net.calls == old(net.calls) + [Call.Reshare(k, |local.p0|)]
    ensures AreReshared(out, local, k)
  {
    var n := |local.p0|;
    ghost var r0 := net.Values(0, net.mine.p0, k, n);
    ghost var r1 := net.Values(1, net.mine.p1, k, n);
    ghost var r2 := net.Values(2, net.mine.p2, k, n);
    out := ReshareRound(net, local, k);
    BlindedSums(local, r0, r1, r2, out, k);
  }

  method ReshareRound(net: Network, local: Trio<seq<nat>>, k: nat) returns (out: Vec)
    requires net.Quiet() && |local.p0| == |local.p1| == |local.p2|
    modifies net
    ensures net.Quiet() && net.calls == old(net.calls) + [Call.Reshare(k, |local.p0|)]
    ensures var n := |local.p0|;
      var r0, r1, r2 := net.Values(0, old(net.mine.p0), k, n), net.Values(1, old(net.mine.p1), k, n),
                        net.Values(2, old(net.mine.p2), k, n);
      out == Zip3(Blind(local.p0, r0, r2, k), Blind(local.p1, r1, r0, k), Blind(local.p2, r2, r1, k))
  {
    var a := ReshareSends(net, local, k);
    var m := net.ReceiveRound();
    net.Finish(Call.Reshare(k, |local.p0|));
    out := JoinVectors(a.p0, m.p0.values, a.p1, m.p1.values, a.p2, m.p2.values);
  }

  /** All three parties draw and send. */
  method ReshareSends(net: Network, local: Trio<seq<nat>>, k: nat) returns (a: Trio<seq<nat>>)
    requires net.Quiet() && |local.p0| == |local.p1| == |local.p2|
    modifies net`mine, net`prev, net`next, net`log, net`run
    ensures net.Sound() && net.InStep() && net.next == Trio([Elements(a.p0)], [Elements(a.p1)], [Elements(a.p2)])
    ensures var n := |local.p0|;
      var r0, r1, r2 := net.Values(0, old(net.mine.p0), k, n), net.Values(1, old(net.mine.p1), k, n),
                        net.Values(2, old(net.mine.p2), k, n);
      a == Trio(Blind(local.p0, r0, r2, k), Blind(local.p1, r1, r0, k), Blind(local.p2, r2, r1, k))
    ensures var n := |local.p0|;
      var done := [DrewMine(Fill(k, n)), DrewPrev(Fill(k, n)), SentNext(n)];
      net.log == Trio(old(net.log.p0) + done, old(net.log.p1) + done, old(net.log.p2) + done)
  {
    var a0 := ReshareSend(net, 0, local.p0, k);
    var a1 := ReshareSend(net, 1, local.p1, k);
    var a2 := ReshareSend(net, 2, local.p2, k);
    a := Trio(a0, a1, a2);
    assert net.next.p0 == [Elements(a0)] && net.next.p1 == [Elements(a1)] && net.next.p2 == [Elements(a2)];
  }

  /** Additive contributions of the three parties become a replicated sharing of their sum. */
  method GaloisRingToRep3(net: Network, items: Trio<seq<nat>>) returns (out: Vec)
    requires net.Quiet() && |items.p0| == |items.p1| == |items.p2|
    modifies net
    ensures net.Quiet() && AreReshared(out, items, 16)
  {
    out := Reshare(net, items, 16);
  }

  // ----- products ---------------------------------------------------------------------

  function LocalProduct(x: Shared<nat>, y: Shared<nat>, i: nat, k: nat): (r: nat)
    requires i < 3
  {
    LocalMul(x.View(i), y.View(i), k)
  }

  lemma NineTerms(x: Shared<nat>, y: Shared<nat>)
    ensures (x.x0 * y.x0 + x.x2 * y.x0 + x.x0 * y.x2) + (x.x1 * y.x1 + x.x0 * y.x1 + x.x1 * y.x0)
          + (x.x2 * y.x2 + x.x1 * y.x2 + x.x2 * y.x1) == Sum(x) * Sum(y)
  {
    assert Sum(x) * Sum(y) == x.x0 * Sum(y) + x.x1 * Sum(y) + x.x2 * Sum(y);
  }

  /** The three local products add up to the product of the secrets. */
  lemma LocalProductsSum(x: Shared<nat>, y: Shared<nat>, k: nat)
    ensures (LocalProduct(x, y, 0, k) + LocalProduct(x, y, 1, k) + LocalProduct(x, y, 2, k)) % Pow2(k)
         == (Open(x, k) * Open(y, k)) % Pow2(k)
  {
    var m := Pow2(k);
    ReduceThree(x.x0 * y.x0 + x.x2 * y.x0 + x.x0 * y.x2, x.x1 * y.x1 + x.x0 * y.x1 + x.x1 * y.x0,
                x.x2 * y.x2 + x.x1 * y.x2 + x.x2 * y.x1, m);
    NineTerms(x, y);
    ModIdem(Sum(x), m);
    ModIdem(Sum(y), m);
    EqModMul(Open(x, k), Sum(x), Open(y, k), Sum(y), m);
  }

  // ----- multiplexing -----------------------------------------------------------------

  /** c * (left - right) + right, as far as one party can compute it. */
  function LocalMux(c: Share<nat>, left: Share<nat>, right: Share<nat>, k: nat): (r: nat)
    ensures r < Pow2(k)
  {
    var diff := Share(Sub(left.a, right.a, k), Sub(left.b, right.b, k));
    (c.a * diff.a + c.b * diff.a + c.a * diff.b + right.a) % Pow2(k)
  }

  function MuxValue(c: nat, left: nat, right: nat, k: nat): (r: nat) {
    (c * (left - right) + right) % Pow2(k)
  }

  /** With a control bit the multiplexer selects. */
  lemma MuxSelects(c: nat, left: nat, right: nat, k: nat)
    requires c <= 1 && left < Pow2(k) && right < Pow2(k)
    ensures MuxValue(c, left, right, k) == if c == 1 then left else right
  {
    if c == 1 {
      assert c * (left - right) + right == left;
      DivModUnique(left, Pow2(k), 0, left);
    } else {
      assert c * (left - right) + right == right;
      DivModUnique(right, Pow2(k), 0, right);
    }
  }

  lemma MuxTerm(x: int, r: int, m: int)
    requires m > 0
    ensures (x + r) % m == (x % m + r) % m
  {
    ModIdem(x, m);
    EqModAdd(x % m, x, r, r, m);
  }

  lemma MuxOpens(c: Shared<nat>, left: Shared<nat>, right: Shared<nat>, k: nat)
    ensures (LocalMux(c.View(0), left.View(0), right.View(0), k) + LocalMux(c.View(1), left.View(1), right.View(1), k)
           + LocalMux(c.View(2), left.View(2), right.View(2), k)) % Pow2(k)
         == MuxValue(Open(c, k), Open(left, k), Open(right, k), k)
  {
    MuxSum(c, left, right, k);
    MuxValueIs(c, left, right, k);
  }

  lemma MuxSum(c: Shared<nat>, left: Shared<nat>, right: Shared<nat>, k: nat)
    ensures (LocalMux(c.View(0), left.View(0), right.View(0), k) + LocalMux(c.View(1), left.View(1), right.View(1), k)
           + LocalMux(c.View(2), left.View(2), right.View(2), k)) % Pow2(k)
         == (Open(c, k) * Open(SubShared(left, right, k), k) + Open(right, k)) % Pow2(k)
  {
    LocalMuxIs(c, left, right, 0, k);
    LocalMuxIs(c, left, right, 1, k);
    LocalMuxIs(c, left, right, 2, k);
    MuxTotal(c, SubShared(left, right, k), right, k);
  }

  lemma MuxValueIs(c: Shared<nat>, left: Shared<nat>, right: Shared<nat>, k: nat)
    ensures (Open(c, k) * Open(SubShared(left, right, k), k) + Open(right, k)) % Pow2(k)
         == MuxValue(Open(c, k), Open(left, k), Open(right, k), k)
  {
    OpenSub(left, right, k);
    MuxOfDifference(Open(c, k), Open(left, k), Open(right, k), Pow2(k));
  }

  lemma LocalMuxIs(c: Shared<nat>, left: Shared<nat>, right: Shared<nat>, i: nat, k: nat)
    requires i < 3
    ensures LocalMux(c.View(i), left.View(i), right.View(i), k)
         == (LocalProduct(c, SubShared(left, right, k), i, k) + right.At(i)) % Pow2(k)
  {
    var x, y := c.View(i), SubShared(left, right, k).View(i);
    MuxTerm(x.a * y.a + x.b * y.a + x.a * y.b, right.At(i), Pow2(k));
  }

  lemma MuxTotal(c: Shared<nat>, d: Shared<nat>, right: Shared<nat>, k: nat)
    ensures ((LocalProduct(c, d, 0, k) + right.At(0)) % Pow2(k) + (LocalProduct(c, d, 1, k) + right.At(1)) % Pow2(k)
           + (LocalProduct(c, d, 2, k) + right.At(2)) % Pow2(k)) % Pow2(k)
         == (Open(c, k) * Open(d, k) + Open(right, k)) % Pow2(k)
  {
    LocalProductsSum(c, d, k);
    SumsWithTerms(LocalProduct(c, d, 0, k), LocalProduct(c, d, 1, k), LocalProduct(c, d, 2, k),
                  right.x0, right.x1, right.x2, Open(c, k) * Open(d, k), Open(right, k), Pow2(k));
  }

  lemma SumsWithTerms(p0: int, p1: int, p2: int, x0: int, x1: int, x2: int, product: int, total: int, m: int)
    requires m > 0 && (p0 + p1 + p2) % m == product % m && total == (x0 + x1 + x2) % m
    ensures ((p0 + x0) % m + (p1 + x1) % m + (p2 + x2) % m) % m == (product + total) % m
  {
    var x := x0 + x1 + x2;
    SumOfReduced(p0 + x0, p1 + x1, p2 + x2, (p0 + p1 + p2) + x, m);
    ModIdem(x, m);
    EqModAdd(p0 + p1 + p2, product, x, total, m);
  }

  lemma MuxOfDifference(c: int, l: int, r: int, m: int)
    requires m > 0
    ensures (c * ((l - r) % m) + r) % m == (c * (l - r) + r) % m
  {
    ModIdem(l - r, m);
    EqModScale((l - r) % m, l - r, c, m);
    EqModAdd(((l - r) % m) * c, (l - r) * c, r, r, m);
  }

  function MuxLocals(control: Vec, left: Vec, right: Vec, i: nat, k: nat): (r: seq<nat>)
    requires i < 3 && |left| == |right| == |control|
    ensures |r| == |left|
    ensures forall j :: 0 <= j < |left| ==> r[j] == LocalMux(control[j].View(i), left[j].View(i), right[j].View(i), k)
  {
    seq<nat>(|left|, j requires 0 <= j < |left| => LocalMux(control[j].View(i), left[j].View(i), right[j].View(i), k))
  }

  ghost predicate IsMuxed(out: Vec, control: Vec, left: Vec, right: Vec, k: nat, j: nat) {
    && j < |out| && j < |control| && j < |left| && j < |right|
    && Open(out[j], k) == MuxValue(Open(control[j], k), Open(left[j], k), Open(right[j], k), k)
  }

  ghost predicate AreMuxed(out: Vec, control: Vec, left: Vec, right: Vec, k: nat) {
    && |out| == |left| == |right| == |control| && AllInRing(out, k)
    && forall j {:trigger IsMuxed(out, control, left, right, k, j)} :: 0 <= j < |left| ==>
      IsMuxed(out, control, left, right, k, j)
  }

  lemma ResharedIsMuxed(out: Vec, local: Trio<seq<nat>>, control: Vec, left: Vec, right: Vec, k: nat)
    requires |left| == |right| == |control|
    requires local == Trio(MuxLocals(control, left, right, 0, k), MuxLocals(control, left, right, 1, k),
                           MuxLocals(control, left, right, 2, k))
    requires AreReshared(out, local, k)
    ensures AreMuxed(out, control, left, right, k)
  {
    forall j | 0 <= j < |left|
      ensures IsMuxed(out, control, left, right, k, j)
    {
      MuxOpens(control[j], left[j], right[j], k);
    }
  }

  /** One round for any number of multiplexers; control[j] belongs to entry j. */
  method ReshareMux(net: Network, control: Vec, left: Vec, right: Vec, k: nat) returns (out: Vec)
    requires net.Quiet() && |left| == |right| == |control|
    modifies net
    ensures net.Quiet() && AreMuxed(out, control, left, right, k)
  {
    var local := Trio(MuxLocals(control, left, right, 0, k), MuxLocals(control, left, right, 1, k),
                      MuxLocals(control, left, right, 2, k));
    out := Reshare(net, local, k);
    ResharedIsMuxed(out, local, control, left, right, k);
  }

  // ----- selecting distances -------------------------------------------------------------

  datatype Distance = Distance(code: Shared<nat>, mask: Shared<nat>)

  ghost predicate DistanceInRing(d: Distance, k: nat) {
    InRing(d.code, k) && InRing(d.mask, k)
  }

  ghost function OpenDistance(d: Distance, k: nat): (r: (nat, nat)) {
    (Open(d.code, k), Open(d.mask, k))
  }

  function Fields(pairs: seq<Distance>): (r: Vec)
    ensures |r| == 2 * |pairs|
    ensures forall j :: 0 <= j < |pairs| ==> r[2 * j] == pairs[j].code && r[2 * j + 1] == pairs[j].mask
  {
    seq(2 * |pairs|, i requires 0 <= i < 2 * |pairs| => if i % 2 == 0 then pairs[i / 2].code else pairs[i / 2].mask)
  }

  /** Every control bit serves the two fields of its distance. */
  function Twice(control: Vec): (r: Vec)
    ensures |r| == 2 * |control|
    ensures forall j :: 0 <= j < |control| ==> r[2 * j] == control[j] == r[2 * j + 1]
  {
    seq(2 * |control|, i requires 0 <= i < 2 * |control| => control[i / 2])
  }

  /** Consecutive pairs; an element left over is dropped. */
  function Pairs(flat: Vec): (r: seq<Distance>)
    ensures |r| == |flat| / 2 && forall j :: 0 <= j < |r| ==> r[j] == Distance(flat[2 * j], flat[2 * j + 1])
  {
    seq(|flat| / 2, j requires 0 <= j < |flat| / 2 => Distance(flat[2 * j], flat[2 * j + 1]))
  }

  ghost predicate IsSelected(d: Distance, d1: Distance, d2: Distance, c: nat, k: nat) {
    DistanceInRing(d, k) && OpenDistance(d, k) == OpenDistance(if c == 1 then d1 else d2, k)
  }

  ghost predicate AreSelected(out: seq<Distance>, first: seq<Distance>, second: seq<Distance>, control: Vec, k: nat) {
    && |out| == |first| == |second| == |control|
    && forall j :: 0 <= j < |out| ==> IsSelected(out[j], first[j], second[j], Open(control[j], k), k)
  }

  lemma MuxedIsSelected(flat: Vec, first: seq<Distance>, second: seq<Distance>, control: Vec, k: nat)
    requires |first| == |second| == |control|
    requires forall j :: 0 <= j < |control| ==> Open(control[j], k) <= 1
    requires AreMuxed(flat, Twice(control), Fields(first), Fields(second), k)
    ensures |flat| == 2 * |control|
    ensures AreSelected(Pairs(flat), first, second, control, k)
  {
    assert |flat| == 2 * |control|;
    var out := Pairs(flat);
    forall j | 0 <= j < |out|
      ensures IsSelected(out[j], first[j], second[j], Open(control[j], k), k)
    {
      SelectedAt(flat, first, second, control, k, j);
    }
  }

  lemma SelectedAt(flat: Vec, first: seq<Distance>, second: seq<Distance>, control: Vec, k: nat, j: nat)
    requires j < |first| == |second| == |control| && Open(control[j], k) <= 1
    requires AreMuxed(flat, Twice(control), Fields(first), Fields(second), k)
    ensures 2 * j + 1 < |flat|
    ensures IsSelected(Distance(flat[2 * j], flat[2 * j + 1]), first[j], second[j], Open(control[j], k), k)
  {
    var c, l, r := Twice(control), Fields(first), Fields(second);
    var x, y := 2 * j, 2 * j + 1;
    assert c[x] == c[y] == control[j] && l[x] == first[j].code && l[y] == first[j].mask;
    assert r[x] == second[j].code && r[y] == second[j].mask;
    MuxedAt(flat, c, l, r, x, k);
    MuxedAt(flat, c, l, r, y, k);
    BothSelected(Distance(flat[x], flat[y]), first[j], second[j], Open(control[j], k), k);
  }

  lemma MuxedAt(out: Vec, control: Vec, left: Vec, right: Vec, i: nat, k: nat)
    requires AreMuxed(out, control, left, right, k) && i < |out|
    ensures InRing(out[i], k)
    ensures Open(out[i], k) == MuxValue(Open(control[i], k), Open(left[i], k), Open(right[i], k), k)
  {
    assert IsMuxed(out, control, left, right, k, i);
  }

  lemma BothSelected(d: Distance, d1: Distance, d2: Distance, c: nat, k: nat)
    requires c <= 1 && Open(d.code, k) == MuxValue(c, Open(d1.code, k), Open(d2.code, k), k)
    requires Open(d.mask, k) == MuxValue(c, Open(d1.mask, k), Open(d2.mask, k), k) && DistanceInRing(d, k)
    ensures IsSelected(d, d1, d2, c, k)
  {
    MuxSelects(c, Open(d1.code, k), Open(d2.code, k), k);
    MuxSelects(c, Open(d1.mask, k), Open(d2.mask, k), k);
  }

  /** A control bit of 1 selects the first distance, 0 the second. */
  method ConditionallySelectDistance(net: Network, first: seq<Distance>, second: seq<Distance>, control: Vec, k: nat)
    returns (r: Result<seq<Distance>>)
    requires net.Quiet() && |first| == |second| && forall j :: 0 <= j < |control| ==> Open(control[j], k) <= 1
    modifies net
    ensures net.Quiet()
    ensures r.Success? <==> |first| == |control|
    ensures r.Success? ==> AreSelected(r.value, first, second, control, k)
  {
    if |first| != |control| {
      return Failure(InvalidSize);
    }
    var flat := ReshareMux(net, Twice(control), Fields(first), Fields(second), k);
    MuxedIsSelected(flat, first, second, control, k);
    return Success(Pairs(flat));
  }
}
