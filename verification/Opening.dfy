/** Opening ring elements, and additive sharings of zero. */
module Opening {
  import opened Words
  import opened Rep3
  import opened Sessions

  function Opens(shares: Vec, k: nat): (r: seq<nat>)
    ensures |r| == |shares| && forall j :: 0 <= j < |shares| ==> r[j] == Open(shares[j], k)
  {
    seq<nat>(|shares|, j requires 0 <= j < |shares| => Open(shares[j], k))
  }

  /** What party i computes from its share and the received component. */
  function Added(shares: Vec, i: nat, received: seq<nat>, k: nat): (r: seq<nat>)
    requires i < 3 && |received| == |shares|
    ensures |r| == |shares|
    ensures forall j :: 0 <= j < |shares| ==>
      r[j] == Add(Add(shares[j].View(i).a, shares[j].View(i).b, k), received[j], k)
  {
    seq<nat>(|shares|,
             j requires 0 <= j < |shares| => Add(Add(shares[j].View(i).a, shares[j].View(i).b, k), received[j], k))
  }

  lemma AddThree(x: nat, y: nat, z: nat, k: nat)
    ensures Add(Add(x, y, k), z, k) == (x + y + z) % Pow2(k)
  {
    ModIdem(x + y, Pow2(k));
    EqModAdd(Add(x, y, k), x + y, z, z, Pow2(k));
  }

  lemma AddedOpens(shares: Vec, i: nat, k: nat)
    requires i < 3
    ensures Added(shares, i, Seconds(shares, Before(i)), k) == Opens(shares, k)
  {
    var added := Added(shares, i, Seconds(shares, Before(i)), k);
    forall j | 0 <= j < |shares|
      ensures added[j] == Open(shares[j], k)
    {
      ViewsOpen(shares[j], i, k);
    }
  }

  /** A party's two components and the second one of its predecessor make up the secret. */
  lemma ViewsOpen(s: Shared<nat>, i: nat, k: nat)
    requires i < 3
    ensures Add(Add(s.View(i).a, s.View(i).b, k), s.View(Before(i)).b, k) == Open(s, k)
  {
    AddThree(s.View(i).a, s.View(i).b, s.View(Before(i)).b, k);
    assert i == 0 || i == 1 || i == 2;
  }

  /** Everybody passes its second component on; all three learn the secrets. */
  method OpenRing(net: Network, shares: Vec, k: nat) returns (r: Trio<seq<nat>>)
    requires net.Quiet()
    modifies net
    ensures net.Quiet() && net.calls == old(net.calls) + [Reveal(|shares|)]
    ensures r == Trio(Opens(shares, k), Opens(shares, k), Opens(shares, k))
    ensures forall i :: 0 <= i < 3 ==> Got(net.run, i, Elements(Seconds(shares, Before(i))))
  {
    var m := net.PassOn(Trio(Elements(Seconds(shares, 0)), Elements(Seconds(shares, 1)), Elements(Seconds(shares, 2))));
    AddedOpens(shares, 0, k);
    AddedOpens(shares, 1, k);
    AddedOpens(shares, 2, k);
    r := Trio(Added(shares, 0, m.p0.values, k), Added(shares, 1, m.p1.values, k), Added(shares, 2, m.p2.values, k));
    AllGot(net.run, shares);
  }

  lemma AllGot(run: Run, shares: Vec)
    requires Got(run, 0, Elements(Seconds(shares, 2))) && Got(run, 1, Elements(Seconds(shares, 0)))
    requires Got(run, 2, Elements(Seconds(shares, 1)))
    ensures forall i :: 0 <= i < 3 ==> Got(run, i, Elements(Seconds(shares, Before(i))))
  {
    forall i | 0 <= i < 3
      ensures Got(run, i, Elements(Seconds(shares, Before(i))))
    {
      assert i == 0 || i == 1 || i == 2;
    }
  }

  // ----- non-replicated sharings -------------------------------------------------------------------

  function Totals(x: seq<nat>, y: seq<nat>, z: seq<nat>, k: nat): (r: seq<nat>)
    requires |x| == |y| == |z|
    ensures |r| == |x| && forall j :: 0 <= j < |x| ==> r[j] == (x[j] + y[j] + z[j]) % Pow2(k)
  {
    seq<nat>(|x|, j requires 0 <= j < |x| => Residue(x[j] + y[j] + z[j], k))
  }

  function Sums(x: seq<nat>, y: seq<nat>, z: seq<nat>, k: nat): (r: seq<nat>)
    requires |x| == |y| == |z|
    ensures |r| == |x| && forall j :: 0 <= j < |x| ==> r[j] == Add(Add(x[j], y[j], k), z[j], k)
  {
    seq<nat>(|x|, j requires 0 <= j < |x| => Add(Add(x[j], y[j], k), z[j], k))
  }

  lemma SumsAreTotals(x: seq<nat>, y: seq<nat>, z: seq<nat>, k: nat)
    requires |x| == |y| == |z|
    ensures Sums(x, y, z, k) == Totals(x, y, z, k) == Sums(y, x, z, k) == Sums(z, y, x, k) == Sums(x, z, y, k)
    ensures Sums(y, z, x, k) == Totals(x, y, z, k) == Sums(z, x, y, k)
  {
    forall j | 0 <= j < |x|
      ensures SameSum(x[j], y[j], z[j], k)
    {
      AddThree(x[j], y[j], z[j], k);
      AddThree(y[j], x[j], z[j], k);
      AddThree(z[j], y[j], x[j], k);
      AddThree(x[j], z[j], y[j], k);
      AddThree(y[j], z[j], x[j], k);
      AddThree(z[j], x[j], y[j], k);
    }
  }

  ghost predicate SameSum(x: nat, y: nat, z: nat, k: nat) {
    var t := (x + y + z) % Pow2(k);
    && Add(Add(x, y, k), z, k) == t && Add(Add(y, x, k), z, k) == t && Add(Add(z, y, k), x, k) == t
    && Add(Add(x, z, k), y, k) == t && Add(Add(y, z, k), x, k) == t && Add(Add(z, x, k), y, k) == t
  }

  /** Everybody sends its share both ways and adds up all three. */
  method OpenBroadcast(net: Network, x: Trio<seq<nat>>, k: nat) returns (r: Trio<seq<nat>>)
    requires net.Quiet() && |x.p0| == |x.p1| == |x.p2|
    modifies net
    ensures net.Quiet() && net.calls == old(net.calls) + [Broadcast(|x.p0|)]
    ensures var t := Totals(x.p0, x.p1, x.p2, k); r == Trio(t, t, t)
  {
    var b, c := Exchange(net, x);
    SumsAreTotals(x.p0, x.p1, x.p2, k);
    r := Trio(Sums(x.p0, b.p0, c.p0, k), Sums(x.p1, b.p1, c.p1, k), Sums(x.p2, b.p2, c.p2, k));
  }

  method Exchange(net: Network, x: Trio<seq<nat>>) returns (b: Trio<seq<nat>>, c: Trio<seq<nat>>)
    requires net.Quiet() && |x.p0| == |x.p1| == |x.p2|
    modifies net
    ensures net.Quiet() && net.calls == old(net.calls) + [Broadcast(|x.p0|)]
    ensures b == Trio(x.p2, x.p0, x.p1) && c == Trio(x.p1, x.p2, x.p0)
  {
    var n := |x.p0|;
    ghost var before := net.log;
    SendAll(net, x, n);
    b, c := ReceiveAll(net, x, n);
    BroadcastLog(before.p0, n);
    BroadcastLog(before.p1, n);
    BroadcastLog(before.p2, n);
    net.Finish(Broadcast(n));
  }

  lemma BroadcastLog(log: seq<Event>, n: nat)
    ensures log + [SentNext(n), SentPrev(n)] + [GotPrev(n), GotNext(n)]
         == log + [SentNext(n), SentPrev(n), GotPrev(n), GotNext(n)]
  {
  }

  method SendAll(net: Network, x: Trio<seq<nat>>, n: nat)
    requires Drained(net.next) && Drained(net.back) && |x.p0| == |x.p1| == |x.p2| == n
    requires net.Sound()
    modifies net`next, net`back, net`log, net`run
    ensures net.Sound()
    ensures net.next == net.back == Trio([Elements(x.p0)], [Elements(x.p1)], [Elements(x.p2)])
    ensures var sent := [SentNext(n), SentPrev(n)];
      net.log == Trio(old(net.log.p0) + sent, old(net.log.p1) + sent, old(net.log.p2) + sent)
  {
    SendBoth(net, 0, x.p0);
    SendBoth(net, 1, x.p1);
    SendBoth(net, 2, x.p2);
    assert net.next.p0 == net.back.p0 == [Elements(x.p0)] && net.next.p1 == net.back.p1 == [Elements(x.p1)];
    assert net.next.p2 == net.back.p2 == [Elements(x.p2)];
  }

  method ReceiveAll(net: Network, ghost x: Trio<seq<nat>>, ghost n: nat) returns (b: Trio<seq<nat>>, c: Trio<seq<nat>>)
    requires net.next == net.back == Trio([Elements(x.p0)], [Elements(x.p1)], [Elements(x.p2)])
    requires |x.p0| == |x.p1| == |x.p2| == n
    requires net.Sound()
    modifies net`next, net`back, net`log, net`run
    ensures net.Sound() && Drained(net.next) && Drained(net.back)
    ensures b == Trio(x.p2, x.p0, x.p1) && c == Trio(x.p1, x.p2, x.p0)
    ensures var got := [GotPrev(n), GotNext(n)];
      net.log == Trio(old(net.log.p0) + got, old(net.log.p1) + got, old(net.log.p2) + got)
  {
    var b0, c0 := ReceiveBoth(net, 0, x.p2, x.p1);
    var b1, c1 := ReceiveBoth(net, 1, x.p0, x.p2);
    var b2, c2 := ReceiveBoth(net, 2, x.p1, x.p0);
    b, c := Trio(b0, b1, b2), Trio(c0, c1, c2);
  }

  method ReceiveBoth(net: Network, i: nat, ghost before: seq<nat>, ghost after: seq<nat>)
    returns (b: seq<nat>, c: seq<nat>)
    requires i < 3 && net.next.At(Before(i)) == [Elements(before)] && net.back.At(After(i)) == [Elements(after)]
    requires net.Sound()
    modifies net`next, net`back, net`log, net`run
    ensures net.Sound()
    ensures b == before && c == after
    ensures net.next == old(net.next).With(Before(i), []) && net.back == old(net.back).With(After(i), [])
    ensures net.log == old(net.log).With(i, old(net.log.At(i)) + [GotPrev(|b|), GotNext(|c|)])
  {
    var m := net.ReceivePrev(i);
    var n := net.ReceiveNext(i);
    b, c := m.values, n.values;
    assert net.next.At(Before(i)) == [] && net.back.At(After(i)) == [];
    assert net.log.At(i) == old(net.log.At(i)) + [GotPrev(|b|), GotNext(|c|)];
  }

  method SendBoth(net: Network, i: nat, x: seq<nat>)
    requires i < 3
    requires net.Sound()
    modifies net`next, net`back, net`log, net`run
    ensures net.Sound()
    ensures net.next == old(net.next).With(i, old(net.next.At(i)) + [Elements(x)])
    ensures net.back == old(net.back).With(i, old(net.back.At(i)) + [Elements(x)])
    ensures net.log == old(net.log).With(i, old(net.log.At(i)) + [SentNext(|x|), SentPrev(|x|)])
  {
    net.SendNext(i, Elements(x));
    net.SendPrev(i, Elements(x));
    assert net.log.At(i) == old(net.log.At(i)) + [SentNext(|x|), SentPrev(|x|)];
  }

  // ----- shares of zero -------------------------------------------------------------------------------

  function Differences(x: seq<nat>, y: seq<nat>, k: nat): (r: seq<nat>)
    requires |x| == |y|
    ensures |r| == |x| && forall j :: 0 <= j < |x| ==> r[j] == Sub(x[j], y[j], k)
  {
    seq<nat>(|x|, j requires 0 <= j < |x| => Sub(x[j], y[j], k))
  }

  ghost predicate SumToZero(z: Trio<seq<nat>>, n: nat, k: nat) {
    && |z.p0| == |z.p1| == |z.p2| == n
    && forall j :: 0 <= j < n ==> (z.p0[j] + z.p1[j] + z.p2[j]) % Pow2(k) == 0
  }

  lemma DifferencesCancel(x: nat, y: nat, z: nat, k: nat)
    ensures (Sub(x, z, k) + Sub(y, x, k) + Sub(z, y, k)) % Pow2(k) == 0
  {
    CancelsModulo(Sub(x, z, k) + Sub(y, x, k) + Sub(z, y, k), x - z, y - x, z - y, Pow2(k));
  }

  lemma CancelsModulo(t: int, a: int, b: int, c: int, m: int)
    requires m > 0 && a + b + c == 0 && t == a % m + b % m + c % m
    ensures t % m == 0
  {
    ReduceThree(a, b, c, m);
    DivModUnique(0, m, 0, 0);
  }

  method ZeroShares(net: Network, n: nat, k: nat) returns (z: Trio<seq<nat>>)
    requires net.Quiet()
    modifies net
    ensures net.Quiet() && net.calls == old(net.calls) + [Call.ZeroShares(k, n)]
    ensures SumToZero(z, n, k)
  {
    var z0 := ZeroShare(net, 0, n, k);
    var z1 := ZeroShare(net, 1, n, k);
    var z2 := ZeroShare(net, 2, n, k);
    net.Finish(Call.ZeroShares(k, n));
    z := Trio(z0, z1, z2);
    ghost var r0 := net.Values(0, old(net.mine.p0), k, n);
    ghost var r1 := net.Values(1, old(net.mine.p1), k, n);
    ghost var r2 := net.Values(2, old(net.mine.p2), k, n);
    ZerosSum(z, r0, r1, r2, k);
  }

  lemma ZerosSum(z: Trio<seq<nat>>, r0: seq<nat>, r1: seq<nat>, r2: seq<nat>, k: nat)
    requires |r0| == |r1| == |r2| && z == Trio(Differences(r0, r2, k), Differences(r1, r0, k), Differences(r2, r1, k))
    ensures SumToZero(z, |r0|, k)
  {
    forall j | 0 <= j < |r0|
      ensures (z.p0[j] + z.p1[j] + z.p2[j]) % Pow2(k) == 0
    {
      DifferencesCancel(r0[j], r1[j], r2[j], k);
    }
  }

  method ZeroShare(net: Network, i: nat, n: nat, k: nat) returns (z: seq<nat>)
    requires i < 3
    requires net.Sound()
    modifies net`mine, net`prev, net`log
    ensures net.Sound()
    ensures z
         == Differences(net.Values(i, old(net.mine.At(i)), k, n), net.Values(Before(i), old(net.prev.At(i)), k, n), k)
    ensures net.mine == old(net.mine).With(i, old(net.mine.At(i)) + [Each(k, n)])
    ensures net.prev == old(net.prev).With(i, old(net.prev.At(i)) + [Each(k, n)])
    ensures net.log == old(net.log).With(i, old(net.log.At(i)) + [DrewMine(Each(k, n)), DrewPrev(Each(k, n))])
  {
    var hm := net.DrawMine(i, Each(k, n));
    var hp := net.DrawPrev(i, Each(k, n));
    z := Differences(net.Values(i, hm, k, n), net.Values(Before(i), hp, k, n), k);
    assert net.log.At(i) == old(net.log.At(i)) + [DrewMine(Each(k, n)), DrewPrev(Each(k, n))];
  }
}
