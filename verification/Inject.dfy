/** Bit injection: XOR-shared bits become additively shared zeros and ones of the k-bit ring. */
module Injection {
  import opened Words
  import opened Rep3
  import opened Sessions

  // ----- local computations of the three roles ------------------------------------

  /** Component c of every bit sharing as a number. */
  function Column(bits: Plane, c: nat): (r: seq<nat>)
    requires c < 3
    ensures |r| == |bits|
    ensures forall j :: 0 <= j < |r| ==> r[j] == B(bits[j].At(c))
  {
    seq<nat>(|bits|, j requires 0 <= j < |bits| => B(bits[j].At(c)))
  }

  /** u * w - r in the ring, entry by entry: what roles 0 and 2 send. */
  function MaskedProduct(u: seq<nat>, w: seq<nat>, r: seq<nat>, k: nat): (y: seq<nat>)
    requires |u| == |w| == |r|
    ensures |y| == |u|
    ensures forall j :: 0 <= j < |u| ==> y[j] == Sub(Mul(u[j], w[j], k), r[j], k)
  {
    seq<nat>(|u|, j requires 0 <= j < |u| => Sub(Mul(u[j], w[j], k), r[j], k))
  }

  /** (b0 xor b1) - r01: what role 1 sends. */
  function MaskedXor(bits: Plane, i: nat, r: seq<nat>, k: nat): (x: seq<nat>)
    requires i < 3 && |r| == |bits|
    ensures |x| == |bits|
    ensures forall j :: 0 <= j < |x| ==> x[j] == Sub(B(bits[j].View(i).a != bits[j].View(i).b), r[j], k)
  {
    seq<nat>(|bits|, j requires 0 <= j < |bits| => Sub(B(bits[j].View(i).a != bits[j].View(i).b), r[j], k))
  }

  /** sum12 - sum34 - sum34 */
  function MinusTwice(sum12: nat, sum34: nat, k: nat): (r: nat)
    ensures r < Pow2(k)
  {
    Sub(Sub(sum12, sum34, k), sum34, k)
  }

  /** The output shares of the three roles for one bit. */
  function Output0(r01: nat, b2: nat, y: nat, r02: nat, z: nat, k: nat): (r: Share<nat>) {
    Share(MinusTwice(r01, y, k), MinusTwice(b2, Add(r02, z, k), k))
  }

  function Output1(x: nat, r01: nat, y: nat, r12: nat, k: nat): (r: Share<nat>) {
    Share(MinusTwice(x, r12, k), MinusTwice(r01, y, k))
  }

  function Output2(x: nat, b2: nat, r02: nat, z: nat, r12: nat, k: nat): (r: Share<nat>) {
    Share(MinusTwice(b2, Add(r02, z, k), k), MinusTwice(x, r12, k))
  }

  // ----- why it opens to the bit ---------------------------------------------------

  lemma MinusTwiceMod(s: nat, t: nat, k: nat)
    ensures MinusTwice(s, t, k) % Pow2(k) == (s - 2 * t) % Pow2(k)
  {
    var m := Pow2(k);
    ModIdem(s - t, m);
    EqModAdd((s - t) % m, s - t, t, t, m);
    ModIdem((s - t) % m - t, m);
  }

  lemma SubThenAdd(u: int, r: int, m: int)
    requires m > 0
    ensures ((u - r) % m + r) % m == u % m
  {
    ModIdem(u - r, m);
    EqModAdd((u - r) % m, u - r, r, r, m);
  }

  /** y + r02 + z + r12 is the product of the two bits. */
  lemma MaskedParts(r01: nat, r02: nat, r12: nat, beta: nat, b2: nat, k: nat)
    requires b2 <= 1
    ensures var x := Sub(beta, r01, k);
      var y, z := Sub(Mul(r01, b2, k), r02, k), Sub(Mul(x, b2, k), r12, k);
      (y + r02 + (z + r12)) % Pow2(k) == (beta * b2) % Pow2(k)
  {
    var m := Pow2(k);
    var x := Sub(beta, r01, k);
    var u, v := Mul(r01, b2, k), Mul(x, b2, k);
    SubThenAdd(u, r02, m);
    SubThenAdd(v, r12, m);
    EqModAdd((u - r02) % m + r02, u, (v - r12) % m + r12, v, m);
    ModIdem(r01 * b2, m);
    ModIdem(x * b2, m);
    EqModAdd(u, r01 * b2, v, x * b2, m);
    SubThenAdd(beta, r01, m);
    EqModScale(x + r01, beta, b2, m);
    assert r01 * b2 + x * b2 == (x + r01) * b2;
  }

  lemma XorIsSumMinusTwice(beta: bool, b2: bool)
    ensures B(beta) + B(b2) - 2 * (B(beta) * B(b2)) == B(beta != b2)
  {
  }

  lemma CombineParts(x: int, r01: int, y: int, r02: int, z: int, r12: int, beta: int, b2: int, product: int, m: int)
    requires m > 0 && (x + r01) % m == beta % m && (y + r02 + (z + r12)) % m == product % m
    ensures ((r01 - 2 * y) + (x - 2 * r12) + (b2 - 2 * (r02 + z))) % m == (beta + b2 - 2 * product) % m
  {
    var masked := y + r02 + (z + r12);
    EqModScale(masked, product, 2, m);
    EqModAdd(x + r01, beta, b2, b2, m);
    EqModAdd(x + r01 + b2, beta + b2, masked * 2, product * 2, m);
  }

  /** The sum of the three output components, before reduction. */
  lemma TotalMod(r01: nat, r02: nat, r12: nat, beta: bool, b2: bool, k: nat)
    ensures var x := Sub(B(beta), r01, k);
      var y, z := Sub(Mul(r01, B(b2), k), r02, k), Sub(Mul(x, B(b2), k), r12, k);
      ((r01 - 2 * y) + (x - 2 * r12) + (B(b2) - 2 * (r02 + z))) % Pow2(k) == B(beta != b2) % Pow2(k)
  {
    var x := Sub(B(beta), r01, k);
    var y, z := Sub(Mul(r01, B(b2), k), r02, k), Sub(Mul(x, B(b2), k), r12, k);
    MaskedParts(r01, r02, r12, B(beta), B(b2), k);
    SubThenAdd(B(beta), r01, Pow2(k));
    CombineParts(x, r01, y, r02, z, r12, B(beta), B(b2), B(beta) * B(b2), Pow2(k));
    XorIsSumMinusTwice(beta, b2);
  }

  lemma ThirdComponent(b2: nat, r02: nat, z: nat, k: nat)
    ensures MinusTwice(b2, Add(r02, z, k), k) % Pow2(k) == (b2 - 2 * (r02 + z)) % Pow2(k)
  {
    var m := Pow2(k);
    MinusTwiceMod(b2, Add(r02, z, k), k);
    ModIdem(r02 + z, m);
    EqModScale(Add(r02, z, k), r02 + z, 2, m);
    EqModAdd(b2, b2, Add(r02, z, k) * 2, (r02 + z) * 2, m);
  }

  lemma InjectOpens(r01: nat, r02: nat, r12: nat, beta: bool, b2: bool, k: nat)
    ensures var x := Sub(B(beta), r01, k);
      var y, z := Sub(Mul(r01, B(b2), k), r02, k), Sub(Mul(x, B(b2), k), r12, k);
      (MinusTwice(r01, y, k) + MinusTwice(x, r12, k) + MinusTwice(B(b2), Add(r02, z, k), k)) % Pow2(k)
        == B(beta != b2) % Pow2(k)
  {
    var m := Pow2(k);
    var x := Sub(B(beta), r01, k);
    var y, z := Sub(Mul(r01, B(b2), k), r02, k), Sub(Mul(x, B(b2), k), r12, k);
    MinusTwiceMod(r01, y, k);
    MinusTwiceMod(x, r12, k);
    ThirdComponent(B(b2), r02, z, k);
    EqModAdd(MinusTwice(r01, y, k), r01 - 2 * y, MinusTwice(x, r12, k), x - 2 * r12, m);
    EqModAdd(MinusTwice(r01, y, k) + MinusTwice(x, r12, k), (r01 - 2 * y) + (x - 2 * r12),
             MinusTwice(B(b2), Add(r02, z, k), k), B(b2) - 2 * (r02 + z), m);
    TotalMod(r01, r02, r12, beta, b2, k);
  }

  // ----- the protocol -----------------------------------------------------------------

  /** Role 0 up to its send. */
  method Role0Send(net: Network, p: nat, bits: Plane, k: nat) returns (r01: seq<nat>, r02: seq<nat>, y: seq<nat>)
    requires p < 3
    requires net.Sound()
    modifies net`mine, net`prev, net`next, net`log, net`run
    ensures net.Sound()
    ensures r01 == net.Values(p, old(net.mine.At(p)), k, |bits|)
    ensures r02 == net.Values(Before(p), old(net.prev.At(p)), k, |bits|)
    ensures y == MaskedProduct(r01, Column(bits, Before(p)), r02, k)
    ensures net.mine == old(net.mine).With(p, old(net.mine.At(p)) + [Fill(k, |bits|)])
    ensures net.prev == old(net.prev).With(p, old(net.prev.At(p)) + [Fill(k, |bits|)])
    ensures net.next == old(net.next).With(p, old(net.next.At(p)) + [Elements(y)])
    ensures net.log == old(net.log).With(p, old(net.log.At(p)) +
      [DrewMine(Fill(k, |bits|)), DrewPrev(Fill(k, |bits|)), SentNext(|bits|)])
  {
    var hm := net.DrawMine(p, Fill(k, |bits|));
    var hp := net.DrawPrev(p, Fill(k, |bits|));
    r01, r02 := net.Values(p, hm, k, |bits|), net.Values(Before(p), hp, k, |bits|);
    y := MaskedProduct(r01, Column(bits, Before(p)), r02, k);
    net.SendNext(p, Elements(y));
    assert net.log.At(p)
         == old(net.log.At(p)) + [DrewMine(Fill(k, |bits|)), DrewPrev(Fill(k, |bits|)), SentNext(|bits|)];
  }

  /** Role 1, once role 0 has sent. */
  method Role1(net: Network, p: nat, bits: Plane, k: nat)
    returns (x: seq<nat>, r01: seq<nat>, y: seq<nat>, r12: seq<nat>)
    requires p < 3 && |net.next.At(Before(p))| == 1 && net.next.At(Before(p))[0].Elements?
    requires |net.next.At(Before(p))[0].values| == |bits|
    requires net.Sound()
    modifies net`mine, net`prev, net`next, net`log, net`run
    ensures net.Sound()
    ensures r01 == net.Values(Before(p), old(net.prev.At(p)), k, |bits|)
    ensures r12 == net.Values(p, old(net.mine.At(p)), k, |bits|)
    ensures x == MaskedXor(bits, p, r01, k) && y == old(net.next.At(Before(p)))[0].values
    ensures net.mine == old(net.mine).With(p, old(net.mine.At(p)) + [Fill(k, |bits|)])
    ensures net.prev == old(net.prev).With(p, old(net.prev.At(p)) + [Fill(k, |bits|)])
    ensures net.next == old(net.next).With(p, old(net.next.At(p)) + [Elements(x)]).With(Before(p), [])
    ensures net.log == old(net.log).With(p, old(net.log.At(p)) +
      [DrewPrev(Fill(k, |bits|)), SentNext(|bits|), GotPrev(|bits|), DrewMine(Fill(k, |bits|))])
  {
    var hp := net.DrawPrev(p, Fill(k, |bits|));
    r01 := net.Values(Before(p), hp, k, |bits|);
    x := MaskedXor(bits, p, r01, k);
    net.SendNext(p, Elements(x));
    var m := net.ReceivePrev(p);
    assert net.next.At(Before(p)) == [];
    y := m.values;
    var hm := net.DrawMine(p, Fill(k, |bits|));
    r12 := net.Values(p, hm, k, |bits|);
    assert net.log.At(p) == old(net.log.At(p)) +
      [DrewPrev(Fill(k, |bits|)), SentNext(|bits|), GotPrev(|bits|), DrewMine(Fill(k, |bits|))];
  }

  /** Role 2, once role 1 has sent. */
  method Role2(net: Network, p: nat, bits: Plane, k: nat)
    returns (x: seq<nat>, r02: seq<nat>, r12: seq<nat>, z: seq<nat>)
    requires p < 3 && |net.next.At(Before(p))| == 1 && net.next.At(Before(p))[0].Elements?
    requires |net.next.At(Before(p))[0].values| == |bits|
    requires net.Sound()
    modifies net`mine, net`prev, net`next, net`log, net`run
    ensures net.Sound()
    ensures r02 == net.Values(p, old(net.mine.At(p)), k, |bits|)
    ensures r12 == net.Values(Before(p), old(net.prev.At(p)), k, |bits|)
    ensures x == old(net.next.At(Before(p)))[0].values && z == MaskedProduct(x, Column(bits, p), r12, k)
    ensures net.mine == old(net.mine).With(p, old(net.mine.At(p)) + [Fill(k, |bits|)])
    ensures net.prev == old(net.prev).With(p, old(net.prev.At(p)) + [Fill(k, |bits|)])
    ensures net.next == old(net.next).With(Before(p), []).With(p, old(net.next.At(p)) + [Elements(z)])
    ensures net.log == old(net.log).With(p, old(net.log.At(p)) +
      [GotPrev(|bits|), DrewMine(Fill(k, |bits|)), DrewPrev(Fill(k, |bits|)), SentNext(|bits|)])
  {
    var m := net.ReceivePrev(p);
    x := m.values;
    var hm := net.DrawMine(p, Fill(k, |bits|));
    r02 := net.Values(p, hm, k, |bits|);
    var hp := net.DrawPrev(p, Fill(k, |bits|));
    r12 := net.Values(Before(p), hp, k, |bits|);
    z := MaskedProduct(x, Column(bits, p), r12, k);
    net.SendNext(p, Elements(z));
    assert net.log.At(p) == old(net.log.At(p)) +
      [GotPrev(|bits|), DrewMine(Fill(k, |bits|)), DrewPrev(Fill(k, |bits|)), SentNext(|bits|)];
  }

  /** What the parties playing roles 0, 1 and 2 end up with. */
  datatype Views = Views(r01: seq<nat>, r02: seq<nat>, y: seq<nat>, z: seq<nat>,
                         x1: seq<nat>, r01': seq<nat>, y1: seq<nat>, r12: seq<nat>,
                         x2: seq<nat>, r02': seq<nat>, r12': seq<nat>, z2: seq<nat>)

  /** Messages arrive as sent and shared keys give equal masks. */
  ghost predicate Agree(v: Views, bits: Plane, p: nat, k: nat)
    requires p < 3
  {
    && |v.r01| == |v.r02| == |v.r12| == |bits|
    && v.r01' == v.r01 && v.r02' == v.r02 && v.r12' == v.r12
    && v.x1 == MaskedXor(bits, After(p), v.r01, k) && v.x2 == v.x1
    && v.y == MaskedProduct(v.r01, Column(bits, Before(p)), v.r02, k) && v.y1 == v.y
    && v.z2 == MaskedProduct(v.x1, Column(bits, Before(p)), v.r12, k) && v.z == v.z2
  }

  method InjectTraffic(net: Network, bits: Plane, k: nat, p: nat) returns (v: Views)
    requires p < 3 && Drained(net.next)
    requires net.InStep()
    requires net.Sound()
    modifies net`mine, net`prev, net`next, net`log, net`run
    ensures net.Sound()
    ensures Drained(net.next)
    ensures net.InStep()
    ensures net.log.At(p) == old(net.log.At(p)) + InjectScript(k, |bits|, 0)
    ensures net.log.At(After(p)) == old(net.log.At(After(p))) + InjectScript(k, |bits|, 1)
    ensures net.log.At(Before(p)) == old(net.log.At(Before(p))) + InjectScript(k, |bits|, 2)
    ensures Agree(v, bits, p, k)
  {
    assert p == 0 || p == 1 || p == 2;
    var r01, r02, y := Role0Send(net, p, bits, k);
    var x1, r01', y1, r12 := Role1(net, After(p), bits, k);
    var x2, r02', r12', z2 := Role2(net, Before(p), bits, k);
    var m := net.ReceivePrev(p);
    v := Views(r01, r02, y, m.values, x1, r01', y1, r12, x2, r02', r12', z2);
  }

  function OutputAt(v: Views, bits: Plane, p: nat, k: nat, j: nat): (r: Shared<nat>)
    requires p < 3 && Agree(v, bits, p, k) && j < |bits|
  {
    var b2 := B(bits[j].At(Before(p)));
    JoinAround(p, Output0(v.r01[j], b2, v.y[j], v.r02[j], v.z[j], k),
                  Output1(v.x1[j], v.r01'[j], v.y1[j], v.r12[j], k),
                  Output2(v.x2[j], b2, v.r02'[j], v.z2[j], v.r12'[j], k))
  }

  lemma OutputOpens(v: Views, bits: Plane, p: nat, k: nat, j: nat)
    requires p < 3 && k >= 1 && Agree(v, bits, p, k) && j < |bits|
    ensures InRing(OutputAt(v, bits, p, k, j), k)
    ensures Open(OutputAt(v, bits, p, k, j), k) == B(OpenBit(bits[j]))
  {
    var s := bits[j];
    var beta, b2 := s.At(p) != s.At(After(p)), s.At(Before(p));
    InjectOpens(v.r01[j], v.r02[j], v.r12[j], beta, b2, k);
    assert v.x1[j] == Sub(B(beta), v.r01[j], k);
    OutputSum(v, bits, p, k, j);
    OpenAround(s, p);
    assert Pow2(k) >= 2;
    DivModUnique(B(beta != b2), Pow2(k), 0, B(beta != b2));
  }

  lemma OutputSum(v: Views, bits: Plane, p: nat, k: nat, j: nat)
    requires p < 3 && Agree(v, bits, p, k) && j < |bits|
    ensures InRing(OutputAt(v, bits, p, k, j), k)
    ensures Sum(OutputAt(v, bits, p, k, j)) == MinusTwice(v.r01[j], v.y[j], k) + MinusTwice(v.x1[j], v.r12[j], k)
      + MinusTwice(B(bits[j].At(Before(p))), Add(v.r02[j], v.z[j], k), k)
  {
    assert p == 0 || p == 1 || p == 2;
  }

  lemma OpenAround(s: Shared<bool>, p: nat)
    requires p < 3
    ensures OpenBit(s) == ((s.At(p) != s.At(After(p))) != s.At(Before(p)))
  {
    assert p == 0 || p == 1 || p == 2;
  }

  ghost predicate AreInjected(out: Vec, bits: Plane, k: nat) {
    && |out| == |bits| && AllInRing(out, k)
    && forall j :: 0 <= j < |bits| ==> Open(out[j], k) == B(OpenBit(bits[j]))
  }

  lemma OutputsInjected(v: Views, bits: Plane, p: nat, k: nat, out: Vec)
    requires p < 3 && k >= 1 && Agree(v, bits, p, k) && |out| == |bits|
    requires forall j :: 0 <= j < |bits| ==> out[j] == OutputAt(v, bits, p, k, j)
    ensures AreInjected(out, bits, k)
  {
    forall j | 0 <= j < |bits|
      ensures InRing(out[j], k) && Open(out[j], k) == B(OpenBit(bits[j]))
    {
      OutputOpens(v, bits, p, k, j);
    }
  }

  /** Every XOR-shared bit becomes a consistent additive sharing of 0 or 1, whichever party plays
      which role. */
  method BitInject(net: Network, bits: Plane, k: nat) returns (out: Vec)
    requires net.Quiet() && k >= 1
    modifies net
    ensures net.Quiet() && net.calls == old(net.calls) + [Inject(k, |bits|)]
    ensures AreInjected(out, bits, k)
  {
    var p := PartyOf(0, net.sid);
    var v := InjectTraffic(net, bits, k, p);
    OtherRoles(net.sid);
    net.Finish(Inject(k, |bits|));
    out := seq(|bits|, j requires 0 <= j < |bits| && p < 3 && Agree(v, bits, p, k) => OutputAt(v, bits, p, k, j));
    OutputsInjected(v, bits, p, k, out);
  }
}
