/** AND gates on bit-sliced shares. A plane holds one bit of every lane. */
module Gates {
  import opened Rep3
  import opened Sessions
  import opened Results

  /** The part of a product of two XOR-shared bits a party can compute from its own shares. */
  predicate LocalAnd(x: Share<bool>, y: Share<bool>) {
    ((x.a && y.a) != (x.b && y.a)) != (x.a && y.b)
  }

  /** What party i sends for lane l: its local product, blinded by its two generators. */
  function Blinded(a: Plane, b: Plane, i: nat, mine: seq<bool>, prev: seq<bool>): (r: seq<bool>)
    requires i < 3 && |a| == |b| == |mine| == |prev|
    ensures |r| == |a|
  {
    seq(|a|, l requires 0 <= l < |a| =>
      (mine[l] != prev[l]) != LocalAnd(a[l].View(i), b[l].View(i)))
  }

  ghost predicate IsAnd(c: Plane, a: Plane, b: Plane) {
    && |c| == |a| == |b|
    && forall l :: 0 <= l < |a| ==> OpenBit(c[l]) == (OpenBit(a[l]) && OpenBit(b[l]))
  }

  method AndManySend(net: Network, i: nat, a: Plane, b: Plane) returns (local: seq<bool>)
    requires i < 3 && |a| == |b|
    requires net.Sound()
    modifies net`mine, net`prev, net`next, net`log, net`run
    ensures net.Sound()
    ensures local == Blinded(a, b, i, net.Coins(i, old(net.mine.At(i)), |a|),
                                      net.Coins(Before(i), old(net.prev.At(i)), |a|))
    ensures net.mine == old(net.mine).With(i, old(net.mine.At(i)) + [Fill(1, |a|)])
    ensures net.prev == old(net.prev).With(i, old(net.prev.At(i)) + [Fill(1, |a|)])
    ensures net.next == old(net.next).With(i, old(net.next.At(i)) + [Lanes(local)])
    ensures net.log == old(net.log).With(i, old(net.log.At(i)) +
      [DrewMine(Fill(1, |a|)), DrewPrev(Fill(1, |a|)), SentNext(|a|)])
  {
    var hm := net.DrawMine(i, Fill(1, |a|));
    var hp := net.DrawPrev(i, Fill(1, |a|));
    var mine, prev := net.Coins(i, hm, |a|), net.Coins(Before(i), hp, |a|);
    local := [];
    for l := 0 to |a|
      invariant local == Blinded(a, b, i, mine, prev)[..l]
    {
      local := local + [(mine[l] != prev[l]) != LocalAnd(a[l].View(i), b[l].View(i))];
    }
    net.SendNext(i, Lanes(local));
    assert net.log.At(i) == old(net.log.At(i)) + [DrewMine(Fill(1, |a|)), DrewPrev(Fill(1, |a|)), SentNext(|a|)];
  }

  /** The generators cancel: the three blinded products open to the conjunction. */
  lemma BlindedOpens(a: Plane, b: Plane, r0: seq<bool>, r1: seq<bool>, r2: seq<bool>, c: Plane)
    requires |a| == |b| == |r0| == |r1| == |r2| == |c|
    requires c == Zip3(Blinded(a, b, 0, r0, r2), Blinded(a, b, 1, r1, r0), Blinded(a, b, 2, r2, r1))
    ensures IsAnd(c, a, b)
  {
    forall l | 0 <= l < |a|
      ensures OpenBit(c[l]) == (OpenBit(a[l]) && OpenBit(b[l]))
    {
      var x, y := a[l], b[l];
      assert c[l] == Shared((r0[l] != r2[l]) != LocalAnd(x.View(0), y.View(0)),
                            (r1[l] != r0[l]) != LocalAnd(x.View(1), y.View(1)),
                            (r2[l] != r1[l]) != LocalAnd(x.View(2), y.View(2)));
    }
  }

  /** One round: everybody sends to the next party, then everybody receives. */
  method AndRound(net: Network, a: Plane, b: Plane) returns (c: Plane)
    requires net.Quiet() && |a| == |b|
    modifies net
    ensures net.Quiet() && net.calls == old(net.calls) + [And(|a|)]
    ensures |c| == |a|
    ensures var r0, r1, r2 := net.Coins(0, old(net.mine.p0), |a|), net.Coins(1, old(net.mine.p1), |a|),
                              net.Coins(2, old(net.mine.p2), |a|);
      c == Zip3(Blinded(a, b, 0, r0, r2), Blinded(a, b, 1, r1, r0), Blinded(a, b, 2, r2, r1))
  {
    var local0 := AndManySend(net, 0, a, b);
    var local1 := AndManySend(net, 1, a, b);
    var local2 := AndManySend(net, 2, a, b);
    var m := net.ReceiveRound();
    net.Finish(And(|a|));
    c := JoinVectors(local0, m.p0.bits, local1, m.p1.bits, local2, m.p2.bits);
  }

  /** The outputs of the three parties fit together and open to the conjunction. */
  method AndMany(net: Network, a: Plane, b: Plane) returns (r: Result<Plane>)
    requires net.Quiet()
    modifies net
    ensures net.Quiet()
    ensures r.Success? <==> |a| == |b|
    ensures r.Success? ==> net.calls == old(net.calls) + [And(|a|)]
    ensures r.Success? ==> IsAnd(r.value, a, b)
    ensures r.Failure? ==> net.calls == old(net.calls)
  {
    if |a| != |b| {
      return Failure(InvalidSize);
    }
    ghost var r0 := net.Coins(0, net.mine.p0, |a|);
    ghost var r1 := net.Coins(1, net.mine.p1, |a|);
    ghost var r2 := net.Coins(2, net.mine.p2, |a|);
    var c := AndRound(net, a, b);
    BlindedOpens(a, b, r0, r1, r2, c);
    return Success(c);
  }

  // ----- several planes in one round -----------------------------------------

  function Flatten<T>(x: seq<seq<T>>): (r: seq<T>) {
    if x == [] then [] else x[0] + Flatten(x[1..])
  }

  /** Cut a vector into consecutive pieces of the lengths of the entries of `x`. */
  function Cut<T>(c: seq<T>, x: seq<seq<T>>): (r: seq<seq<T>>)
    requires |c| == |Flatten(x)|
    ensures |r| == |x|
  {
    if x == [] then [] else [c[..|x[0]|]] + Cut(c[|x[0]|..], x[1..])
  }

  ghost predicate AreAnds(c: seq<Plane>, x: seq<Plane>, y: seq<Plane>) {
    && |c| == |x| == |y|
    && forall b :: 0 <= b < |x| ==> IsAnd(c[b], x[b], y[b])
  }

  predicate SameSizes(x: seq<Plane>, y: seq<Plane>) {
    |x| == |y| && forall b :: 0 <= b < |x| ==> |x[b]| == |y[b]|
  }

  lemma {:induction false} FlattenSizes(x: seq<Plane>, y: seq<Plane>)
    requires SameSizes(x, y)
    ensures |Flatten(x)| == |Flatten(y)|
  {
    if x != [] {
      FlattenSizes(x[1..], y[1..]);
    }
  }

  lemma AndSlice(c: Plane, a: Plane, b: Plane, lo: nat, hi: nat)
    requires IsAnd(c, a, b) && lo <= hi <= |c|
    ensures IsAnd(c[lo..hi], a[lo..hi], b[lo..hi])
  {
  }

  lemma {:induction false} CutAnds(c: Plane, x: seq<Plane>, y: seq<Plane>)
    requires SameSizes(x, y) && IsAnd(c, Flatten(x), Flatten(y))
    ensures AreAnds(Cut(c, x), x, y)
  {
    if x != [] {
      var n := |x[0]|;
      FlattenSizes(x[1..], y[1..]);
      AndSlice(c, Flatten(x), Flatten(y), 0, n);
      AndSlice(c, Flatten(x), Flatten(y), n, |c|);
      assert Flatten(x)[0..n] == x[0] && Flatten(y)[0..n] == y[0] && c[0..n] == c[..n];
      assert Flatten(x)[n..|c|] == Flatten(x[1..]) && Flatten(y)[n..|c|] == Flatten(y[1..]) && c[n..|c|] == c[n..];
      CutAnds(c[n..], x[1..], y[1..]);
      var tail := Cut(c[n..], x[1..]);
      assert Cut(c, x) == [c[..n]] + tail;
      forall b | 0 <= b < |x|
        ensures IsAnd(Cut(c, x)[b], x[b], y[b])
      {
        if b > 0 {
          assert IsAnd(tail[b - 1], x[1..][b - 1], y[1..][b - 1]);
        }
      }
    }
  }

  method Unflatten<T>(c: seq<T>, x: seq<seq<T>>) returns (r: seq<seq<T>>)
    requires |c| == |Flatten(x)|
    ensures r == Cut(c, x)
  {
    r := [];
    var offset := 0;
    for b := 0 to |x|
      invariant 0 <= offset
      invariant offset + |Flatten(x[b..])| == |c|
      invariant Cut(c, x) == r + Cut(c[offset..], x[b..])
    {
      assert x[b..][0] == x[b] && x[b..][1..] == x[b + 1..];
      assert c[offset..][..|x[b]|] == c[offset..offset + |x[b]|];
      assert c[offset..][|x[b]|..] == c[offset + |x[b]|..];
      r := r + [c[offset..offset + |x[b]|]];
      offset := offset + |x[b]|;
    }
  }

  /** All planes of one layer, ANDed in a single round. */
  method PackedAnd(net: Network, x: seq<Plane>, y: seq<Plane>) returns (r: Result<seq<Plane>>)
    requires net.Quiet()
    modifies net
    ensures net.Quiet()
    ensures r.Success? <==> SameSizes(x, y)
    ensures r.Success? ==> AreAnds(r.value, x, y)
    ensures net.calls == old(net.calls) + if r.Success? then [And(|Flatten(x)|)] else []
  {
    if !SameSizes(x, y) {
      return Failure(InvalidSize);
    }
    FlattenSizes(x, y);
    var c := AndMany(net, Flatten(x), Flatten(y));
    CutAnds(c.value, x, y);
    var planes := Unflatten(c.value, x);
    return Success(planes);
  }

  /** Independent groups of gates share a round; the groups come back in order. */
  method AndGrouped(net: Network, groups: seq<(Plane, Plane)>) returns (r: Result<seq<Plane>>)
    requires net.Quiet()
    modifies net
    ensures net.Quiet()
    ensures r.Success? <==> SameSizes(Lefts(groups), Rights(groups))
    ensures r.Success? ==> AreAnds(r.value, Lefts(groups), Rights(groups))
    ensures net.calls == old(net.calls) + if r.Success? then [And(|Flatten(Lefts(groups))|)] else []
  {
    r := PackedAnd(net, Lefts(groups), Rights(groups));
  }

  function Lefts(groups: seq<(Plane, Plane)>): (r: seq<Plane>)
    ensures |r| == |groups| && forall g :: 0 <= g < |groups| ==> r[g] == groups[g].0
  {
    seq(|groups|, g requires 0 <= g < |groups| => groups[g].0)
  }

  function Rights(groups: seq<(Plane, Plane)>): (r: seq<Plane>)
    ensures |r| == |groups| && forall g :: 0 <= g < |groups| ==> r[g] == groups[g].1
  {
    seq(|groups|, g requires 0 <= g < |groups| => groups[g].1)
  }

  // ----- conjunction of many columns --------------------------------------------

  ghost predicate AllOpen(v: seq<Plane>, l: nat)
    requires forall j :: 0 <= j < |v| ==> l < |v[j]|
  {
    forall j :: 0 <= j < |v| ==> OpenBit(v[j][l])
  }

  predicate Uniform(v: seq<Plane>, len: nat) {
    forall j :: 0 <= j < |v| ==> |v[j]| == len
  }

  /** Halving the columns keeps every lane's conjunction. */
  lemma HalveKeepsAnd(v: seq<Plane>, ands: seq<Plane>, last: seq<Plane>, h: nat, len: nat)
    requires Uniform(v, len) && h == |v| / 2 >= 1
    requires AreAnds(ands, v[..h], v[h..2 * h]) && last == v[2 * h..]
    ensures Uniform(ands + last, len)
    ensures forall l :: 0 <= l < len ==> AllOpen(ands + last, l) == AllOpen(v, l)
  {
    var w := ands + last;
    forall j | 0 <= j < h
      ensures IsAnd(w[j], v[j], v[h + j])
    {
      assert IsAnd(ands[j], v[..h][j], v[h..2 * h][j]);
    }
    assert forall j :: h <= j < |w| ==> w[j] == v[h + j];
    forall l | 0 <= l < len
      ensures AllOpen(w, l) == AllOpen(v, l)
    {
      if AllOpen(w, l) {
        forall j | 0 <= j < |v|
          ensures OpenBit(v[j][l])
        {
          var i := if j < h then j else j - h;
          assert OpenBit(w[i][l]);
        }
      }
    }
  }

  const WORD_LANES: nat := 64

  /** Packing into words fills up the last word with shares of zero. */
  function Padded(x: Plane): (r: Plane)
    ensures |r| >= |x| && r[..|x|] == x && |r| % 64 == 0 && |r| - |x| < 64
  {
    x + seq((WORD_LANES - |x| % WORD_LANES) % WORD_LANES, _ => Shared(false, false, false))
  }

  /** Whatever the padding lanes hold, truncating and cutting gives the planes of the two halves ANDed. */
  lemma TruncatedAnds(c: Plane, x: seq<Plane>, y: seq<Plane>)
    requires SameSizes(x, y) && |Flatten(x)| == |Flatten(y)| && IsAnd(c, Padded(Flatten(x)), Padded(Flatten(y)))
    ensures AreAnds(Cut(c[..|Flatten(x)|], x), x, y)
  {
    var n := |Flatten(x)|;
    AndSlice(c, Padded(Flatten(x)), Padded(Flatten(y)), 0, n);
    assert c[0..n] == c[..n];
    CutAnds(c[..n], x, y);
  }

  /** One halving round on packed words. */
  method AndHalves(net: Network, x: seq<Plane>, y: seq<Plane>) returns (ands: seq<Plane>)
    requires net.Quiet() && SameSizes(x, y)
    modifies net
    ensures net.Quiet() && AreAnds(ands, x, y)
  {
    FlattenSizes(x, y);
    var c := AndMany(net, Padded(Flatten(x)), Padded(Flatten(y)));
    TruncatedAnds(c.value, x, y);
    ands := Unflatten(c.value[..|Flatten(x)|], x);
  }

  /** Halving rounds leave in every lane the conjunction of all columns. Several columns of length zero
      cannot be cut apart again. */
  method AndProduct(net: Network, v: seq<Plane>, len: nat) returns (r: Result<Plane>)
    requires net.Quiet()
    requires len > 0 || |v| <= 1 || !Uniform(v, len)
    modifies net
    ensures net.Quiet()
    ensures r.Success? <==> v != [] && Uniform(v, len)
    ensures r.Success? ==> |r.value| == len && forall l :: 0 <= l < len ==> OpenBit(r.value[l]) == AllOpen(v, l)
  {
    if v == [] {
      return Failure(EmptyInput);
    }
    if !Uniform(v, len) {
      return Failure(InvalidSize);
    }
    var res := v;
    while |res| > 1
      invariant net.Quiet()
      invariant res != [] && Uniform(res, len)
      invariant forall l :: 0 <= l < len ==> AllOpen(res, l) == AllOpen(v, l)
      decreases |res|
    {
      var half := |res| / 2;
      var last := res[2 * half..];
      var ands := AndHalves(net, res[..half], res[half..2 * half]);
      HalveKeepsAnd(res, ands, last, half, len);
      res := ands + last;
    }
    return Success(res[0]);
  }

  // ----- opening -----------------------------------------------------------------

  /** What party i computes from its share and the received components. */
  function Xored(shares: Plane, i: nat, received: seq<bool>): (r: seq<bool>)
    requires i < 3 && |received| == |shares|
    ensures |r| == |shares|
  {
    seq(|shares|, l requires 0 <= l < |shares| => (shares[l].View(i).a != shares[l].View(i).b) != received[l])
  }

  function OpenBits(shares: Plane): (r: seq<bool>) {
    seq(|shares|, l requires 0 <= l < |shares| => OpenBit(shares[l]))
  }

  /** Every party sends its second component on and adds what it receives: all learn the bit. */
  method OpenBin(net: Network, shares: Plane) returns (result: Trio<seq<bool>>)
    requires net.Quiet()
    modifies net
    ensures net.Quiet() && net.calls == old(net.calls) + [Reveal(|shares|)]
    ensures result == Trio(OpenBits(shares), OpenBits(shares), OpenBits(shares))
    ensures forall i :: 0 <= i < 3 ==> Got(net.run, i, Lanes(Seconds(shares, Before(i))))
  {
    var m := net.PassOn(Trio(Lanes(Seconds(shares, 0)), Lanes(Seconds(shares, 1)), Lanes(Seconds(shares, 2))));
    XoredOpens(shares);
    result := Trio(Xored(shares, 0, m.p0.bits), Xored(shares, 1, m.p1.bits), Xored(shares, 2, m.p2.bits));
  }

  lemma XoredOpens(shares: Plane)
    ensures Xored(shares, 0, Seconds(shares, 2)) == OpenBits(shares)
    ensures Xored(shares, 1, Seconds(shares, 0)) == OpenBits(shares)
    ensures Xored(shares, 2, Seconds(shares, 1)) == OpenBits(shares)
  {
  }
}
