/** The three-party shuffle of batches of (id, code, mask) triplets. */
module Shuffling {
  import opened Words
  import opened Rep3
  import opened Sessions
  import opened Results
  import opened Gates
  import opened Conversions
  import opened Swaps
  import Prf

  // ----- gathering -----------------------------------------------------------------------------

  /** Entry e of the output comes from this entry of the input: same batch, permuted position. */
  function Source(perm: seq<nat>, e: nat): (s: nat)
    requires |perm| >= 1
  {
    e - e % |perm| + perm[e % |perm|]
  }

  /** The same for the flat vector of triplets. */
  function FlatSource(perm: seq<nat>, x: nat): (s: nat)
    requires |perm| >= 1
  {
    3 * Source(perm, x / 3) + x % 3
  }

  lemma SourceInside(perm: seq<nat>, e: nat, count: nat)
    requires |perm| >= 1 && Prf.IsPermutation(perm) && count % |perm| == 0 && e < count
    ensures Source(perm, e) < count
  {
    var n := |perm|;
    var q := ModQuotient(e, n);
    var c := ModQuotient(count, n);
    WholeBlocks(q, c, n);
  }

  /** A multiple of n below another one is below by at least n. */
  lemma WholeBlocks(q: int, c: int, n: int)
    requires n >= 1
    ensures q * n < c * n ==> (q + 1) * n <= c * n
    ensures (q + 1) * n == q * n + n
  {
    if q >= c {
      MulNonneg(q - c, n);
      assert q * n == c * n + (q - c) * n;
    } else {
      MulNonneg(c - q - 1, n);
      assert c * n == (q + 1) * n + (c - q - 1) * n;
    }
  }

  ghost predicate Regular(perm: seq<nat>, len: nat) {
    |perm| >= 1 && Prf.IsPermutation(perm) && len % 3 == 0 && (len / 3) % |perm| == 0
  }

  lemma FlatInside(perm: seq<nat>, x: nat, len: nat)
    requires Regular(perm, len) && x < len
    ensures FlatSource(perm, x) < len
  {
    SourceInside(perm, x / 3, len / 3);
  }

  ghost function Gather(perm: seq<nat>, v: seq<nat>): (r: seq<nat>)
    requires Regular(perm, |v|)
    ensures |r| == |v|
    ensures forall x :: 0 <= x < |v| ==> FlatSource(perm, x) < |v| && r[x] == v[FlatSource(perm, x)]
  {
    assert forall x :: 0 <= x < |v| ==> FlatSource(perm, x) < |v| by {
      forall x | 0 <= x < |v|
        ensures FlatSource(perm, x) < |v|
      {
        FlatInside(perm, x, |v|);
      }
    }
    seq<nat>(|v|, x requires 0 <= x < |v| => v[FlatSource(perm, x)])
  }

  lemma EntrySource(perm: seq<nat>, q: nat, i: nat)
    requires |perm| >= 1 && i < |perm|
    ensures Source(perm, q * |perm| + i) == q * |perm| + perm[i]
  {
    DivModUnique(q * |perm| + i, |perm|, q, i);
  }

  /** The nested loops over batches and permutation entries. */
  method ShuffleTriplets(perm: seq<nat>, data: seq<nat>) returns (res: seq<nat>)
    requires Regular(perm, |data|)
    ensures res == Gather(perm, data)
  {
    var n := |perm|;
    res := [];
    var off := 0;
    ghost var q := 0;
    while off < |data|
      invariant off == 3 * (q * n) <= |data| && res == Gather(perm, data)[..off]
      decreases |data| - off
    {
      BatchFits(|data|, n, q);
      for i := 0 to n
        invariant res == Gather(perm, data)[..off + 3 * i]
      {
        EntrySource(perm, q, i);
        var start := off + 3 * perm[i];
        assert 3 * (q * n + i) == off + 3 * i;
        NextTriplet(perm, data, q * n + i, start);
        res := res + data[start..start + 3];
      }
      off := off + 3 * n;
      q := q + 1;
    }
  }

  lemma BatchFits(len: nat, n: nat, q: nat)
    requires n >= 1 && len % 3 == 0 && (len / 3) % n == 0 && 3 * (q * n) < len
    ensures 3 * ((q + 1) * n) <= len && (q + 1) * n == q * n + n
  {
    var c := ModQuotient(len / 3, n);
    WholeBlocks(q, c, n);
  }

  lemma NextTriplet(perm: seq<nat>, data: seq<nat>, e: nat, start: nat)
    requires Regular(perm, |data|) && 3 * e + 3 <= |data| && start == 3 * Source(perm, e)
    ensures start + 3 <= |data|
    ensures Gather(perm, data)[..3 * e + 3] == Gather(perm, data)[..3 * e] + data[start..start + 3]
  {
    var g := Gather(perm, data);
    SourceInside(perm, e, |data| / 3);
    assert (3 * e) / 3 == e && (3 * e + 1) / 3 == e && (3 * e + 2) / 3 == e;
    assert g[3 * e] == data[start] && g[3 * e + 1] == data[start + 1] && g[3 * e + 2] == data[start + 2];
  }

  // ----- elementwise arithmetic ------------------------------------------------------------------

  function AddV(u: seq<nat>, v: seq<nat>, k: nat): (r: seq<nat>)
    requires |u| == |v|
    ensures |r| == |u| && forall x :: 0 <= x < |u| ==> r[x] == Add(u[x], v[x], k)
  {
    seq<nat>(|u|, x requires 0 <= x < |u| => Add(u[x], v[x], k))
  }

  function SubV(u: seq<nat>, v: seq<nat>, k: nat): (r: seq<nat>)
    requires |u| == |v|
    ensures |r| == |u| && forall x :: 0 <= x < |u| ==> r[x] == Sub(u[x], v[x], k)
  {
    seq<nat>(|u|, x requires 0 <= x < |u| => Sub(u[x], v[x], k))
  }

  /** u and v add up to w modulo 2^k. */
  ghost predicate SumTo(u: seq<nat>, v: seq<nat>, w: seq<nat>, k: nat) {
    |u| == |v| == |w| && forall x :: 0 <= x < |w| ==> (u[x] + v[x]) % Pow2(k) == w[x] % Pow2(k)
  }

  lemma MaskCancels(a: nat, b: nat, z: nat, k: nat)
    ensures (Add(a, z, k) + Sub(b, z, k)) % Pow2(k) == (a + b) % Pow2(k)
  {
    var m := Pow2(k);
    ModIdem(a + z, m);
    ModIdem(b - z, m);
    EqModAdd(Add(a, z, k), a + z, Sub(b, z, k), b - z, m);
  }

  /** One hop: masking, permuting both halves the same way, keeps the sum. */
  lemma HopSums(perm: seq<nat>, u: seq<nat>, v: seq<nat>, z: seq<nat>, w: seq<nat>, k: nat)
    requires SumTo(u, v, w, k) && |z| == |u| && Regular(perm, |u|)
    ensures SumTo(Gather(perm, AddV(u, z, k)), Gather(perm, SubV(v, z, k)), Gather(perm, w), k)
  {
    forall x | 0 <= x < |w|
      ensures (Gather(perm, AddV(u, z, k))[x] + Gather(perm, SubV(v, z, k))[x]) % Pow2(k)
           == Gather(perm, w)[x] % Pow2(k)
    {
      FlatInside(perm, x, |w|);
      var s := FlatSource(perm, x);
      MaskCancels(u[s], v[s], z[s], k);
    }
  }

  /** The shares dealt at the end: random halves and what is missing to the sum. */
  lemma DealtSum(x2: nat, y2: nat, tb: nat, ta: nat, k: nat)
    ensures (tb + Add(Sub(x2, tb, k), Sub(y2, ta, k), k) + ta) % Pow2(k) == (x2 + y2) % Pow2(k)
  {
    var m := Pow2(k);
    var c1, c2 := Sub(x2, tb, k), Sub(y2, ta, k);
    ModIdem(x2 - tb, m); ModIdem(y2 - ta, m);
    EqModAdd(c1, x2 - tb, c2, y2 - ta, m);
    ModIdem(c1 + c2, m);
    EqModAdd(Add(c1, c2, k), (x2 - tb) + (y2 - ta), tb + ta, tb + ta, m);
  }

  // ----- what the parties draw ---------------------------------------------------------------------

  /** The permutation, the mask and the output share drawn from one key. */
  datatype Drawn = Drawn(perm: seq<nat>, mask: seq<nat>, tilde: seq<nat>)

  function DrawnFrom(net: Network, key: nat, history: seq<Draw>, k: nat, n: nat, batch: nat): (d: Drawn)
    ensures |d.mask| == |d.tilde| == n
  {
    Drawn(net.Shuffled(key, history, batch),
          net.Values(key, history + [Permutation(batch)], k, n),
          net.Values(key, history + [Permutation(batch), Each(k, n)], k, n))
  }

  /** The permutations of the keys of role 0, role 1 and role 2, each shared with the next role. */
  ghost predicate ArePermutations(d0: Drawn, d1: Drawn, d2: Drawn, net: Network, mine: Trio<seq<Draw>>, n: nat) {
    var p := PartyOf(0, net.sid);
    && d0.perm == net.Shuffled(p, mine.At(p), n)
    && d1.perm == net.Shuffled(After(p), mine.At(After(p)), n)
    && d2.perm == net.Shuffled(Before(p), mine.At(Before(p)), n)
  }

  /** The setup all roles start with. */
  method Setup(net: Network, p: nat, k: nat, n: nat, batch: nat) returns (hm: seq<Draw>, hp: seq<Draw>)
    requires p < 3
    requires net.Sound()
    modifies net`mine, net`prev, net`log
    ensures net.Sound()
    ensures hm == old(net.mine.At(p)) && hp == old(net.prev.At(p))
    ensures net.mine == old(net.mine).With(p, hm + [Permutation(batch), Each(k, n)])
    ensures net.prev == old(net.prev).With(p, hp + [Permutation(batch), Each(k, n)])
    ensures net.log == old(net.log).With(p, old(net.log.At(p)) +
      [DrewMine(Permutation(batch)), DrewPrev(Permutation(batch)), DrewMine(Each(k, n)), DrewPrev(Each(k, n))])
  {
    hm := net.DrawMine(p, Permutation(batch));
    hp := net.DrawPrev(p, Permutation(batch));
    var m2 := net.DrawMine(p, Each(k, n));
    var p2 := net.DrawPrev(p, Each(k, n));
    assert net.mine.At(p) == hm + [Permutation(batch), Each(k, n)];
    assert net.prev.At(p) == hp + [Permutation(batch), Each(k, n)];
    assert net.log.At(p) == old(net.log.At(p)) +
      [DrewMine(Permutation(batch)), DrewPrev(Permutation(batch)), DrewMine(Each(k, n)), DrewPrev(Each(k, n))];
  }

  /** Role 0 sends X1 = pi20(pi01(A + B + Z01) + Z20). */
  ghost function FirstHalf(a: seq<nat>, b: seq<nat>, d0: Drawn, d2: Drawn, k: nat): (x1: seq<nat>)
    requires |a| == |b| == |d0.mask| == |d2.mask| && Regular(d0.perm, |a|) && Regular(d2.perm, |a|)
    ensures |x1| == |a|
  {
    Gather(d2.perm, AddV(Gather(d0.perm, AddV(AddV(a, b, k), d0.mask, k)), d2.mask, k))
  }

  /** Role 1 sends Y0 = pi01(C - Z01). */
  ghost function FirstY(c: seq<nat>, d0: Drawn, k: nat): (y0: seq<nat>)
    requires |c| == |d0.mask| && Regular(d0.perm, |c|)
    ensures |y0| == |c|
  {
    Gather(d0.perm, SubV(c, d0.mask, k))
  }

  /** Role 1 computes X2 = pi12(X1 + Z12). */
  ghost function LastX(x1: seq<nat>, d1: Drawn, k: nat): (x2: seq<nat>)
    requires |x1| == |d1.mask| && Regular(d1.perm, |x1|)
    ensures |x2| == |x1|
  {
    Gather(d1.perm, AddV(x1, d1.mask, k))
  }

  /** Role 2 computes Y2 = pi12(pi20(Y0 - Z20) - Z12). */
  ghost function LastY(y0: seq<nat>, d1: Drawn, d2: Drawn, k: nat): (y2: seq<nat>)
    requires |y0| == |d1.mask| == |d2.mask| && Regular(d1.perm, |y0|) && Regular(d2.perm, |y0|)
    ensures |y2| == |y0|
  {
    Gather(d1.perm, SubV(Gather(d2.perm, SubV(y0, d2.mask, k)), d1.mask, k))
  }

  method Role0First(net: Network, p: nat, a: seq<nat>, b: seq<nat>, k: nat, batch: nat)
    returns (hm: seq<Draw>, hp: seq<Draw>, x1: seq<nat>)
    requires p < 3 && |a| == |b| && batch >= 1 && |a| % 3 == 0 && (|a| / 3) % batch == 0
    requires net.Sound()
    modifies net`mine, net`prev, net`next, net`log, net`run
    ensures net.Sound()
    ensures hm == old(net.mine.At(p)) && hp == old(net.prev.At(p))
    ensures x1 == FirstHalf(a, b, DrawnFrom(net, p, hm, k, |a|, batch), DrawnFrom(net, Before(p), hp, k, |a|, batch), k)
    ensures net.mine == old(net.mine).With(p, hm + [Permutation(batch), Each(k, |a|)])
    ensures net.prev == old(net.prev).With(p, hp + [Permutation(batch), Each(k, |a|)])
    ensures net.next == old(net.next).With(p, old(net.next.At(p)) + [Elements(x1)])
    ensures net.log == old(net.log).With(p, old(net.log.At(p)) + ShuffleScript(k, |a| / 3, batch, 0)[..5])
  {
    var n := |a|;
    hm, hp := Setup(net, p, k, n, batch);
    var x0 := ShuffleTriplets(net.Shuffled(p, hm, batch),
                              AddV(AddV(a, b, k), net.Values(p, hm + [Permutation(batch)], k, n), k));
    x1 := ShuffleTriplets(net.Shuffled(Before(p), hp, batch),
                          AddV(x0, net.Values(Before(p), hp + [Permutation(batch)], k, n), k));
    net.SendNext(p, Elements(x1));
    assert 3 * (n / 3) == n;
    assert net.log.At(p) == old(net.log.At(p)) + ShuffleScript(k, n / 3, batch, 0)[..5];
  }

  method Role0(net: Network, p: nat, a: seq<nat>, b: seq<nat>, k: nat, batch: nat)
    returns (tb: seq<nat>, ta: seq<nat>, ghost x1: seq<nat>)
    requires p < 3 && |a| == |b| && batch >= 1 && |a| % 3 == 0 && (|a| / 3) % batch == 0
    requires net.Sound()
    modifies net`mine, net`prev, net`next, net`log, net`run
    ensures net.Sound()
    ensures var n, hm, hp := |a|, old(net.mine.At(p)), old(net.prev.At(p));
      && tb == DrawnFrom(net, p, hm, k, n, batch).tilde && ta == DrawnFrom(net, Before(p), hp, k, n, batch).tilde
      && x1 == FirstHalf(a, b, DrawnFrom(net, p, hm, k, n, batch), DrawnFrom(net, Before(p), hp, k, n, batch), k)
      && net.mine == old(net.mine).With(p, hm + [Permutation(batch), Each(k, n), Each(k, n)])
      && net.prev == old(net.prev).With(p, hp + [Permutation(batch), Each(k, n), Each(k, n)])
      && net.next == old(net.next).With(p, old(net.next.At(p)) + [Elements(x1)])
    ensures net.log == old(net.log).With(p, old(net.log.At(p)) + ShuffleScript(k, |a| / 3, batch, 0))
  {
    var n := |a|;
    var hm, hp, x := Role0First(net, p, a, b, k, batch);
    x1 := x;
    var m3 := net.DrawMine(p, Each(k, n));
    var p3 := net.DrawPrev(p, Each(k, n));
    tb, ta := net.Values(p, m3, k, n), net.Values(Before(p), p3, k, n);
    assert hm + [Permutation(batch), Each(k, n)] + [Each(k, n)] == hm + [Permutation(batch), Each(k, n), Each(k, n)];
    assert hp + [Permutation(batch), Each(k, n)] + [Each(k, n)] == hp + [Permutation(batch), Each(k, n), Each(k, n)];
    assert 3 * (n / 3) == n;
    assert net.log.At(p) == old(net.log.At(p)) + ShuffleScript(k, n / 3, batch, 0);
  }

  /** Role 1 up to its first send: Y0 = pi01(C - Z01). */
  method Role1First(net: Network, p: nat, c: seq<nat>, k: nat, batch: nat)
    returns (hm: seq<Draw>, hp: seq<Draw>, y0: seq<nat>)
    requires p < 3 && batch >= 1 && |c| % 3 == 0 && (|c| / 3) % batch == 0
    requires net.Sound()
    modifies net`mine, net`prev, net`next, net`log, net`run
    ensures net.Sound()
    ensures hm == old(net.mine.At(p)) && hp == old(net.prev.At(p))
    ensures y0 == FirstY(c, DrawnFrom(net, Before(p), hp, k, |c|, batch), k)
    ensures net.mine == old(net.mine).With(p, hm + [Permutation(batch), Each(k, |c|)])
    ensures net.prev == old(net.prev).With(p, hp + [Permutation(batch), Each(k, |c|)])
    ensures net.next == old(net.next).With(p, old(net.next.At(p)) + [Elements(y0)])
    ensures net.log == old(net.log).With(p, old(net.log.At(p)) + ShuffleScript(k, |c| / 3, batch, 1)[..5])
  {
    hm, hp := Setup(net, p, k, |c|, batch);
    y0 := ShuffleTriplets(net.Shuffled(Before(p), hp, batch),
                          SubV(c, net.Values(Before(p), hp + [Permutation(batch)], k, |c|), k));
    net.SendNext(p, Elements(y0));
    assert 3 * (|c| / 3) == |c|;
    assert net.log.At(p) == old(net.log.At(p)) + ShuffleScript(k, |c| / 3, batch, 1)[..5];
  }

  /** Role 1 up to its second send: C1 = pi12(X1 + Z12) - tilde(B). */
  method Role1Second(net: Network, p: nat, k: nat, n: nat, batch: nat, hm: seq<Draw>)
    returns (tb: seq<nat>, c1: seq<nat>)
    requires p < 3 && batch >= 1 && n % 3 == 0 && (n / 3) % batch == 0
    requires |net.next.At(Before(p))| == 1 && net.next.At(Before(p))[0].Elements?
    requires |net.next.At(Before(p))[0].values| == n
    requires net.Sound()
    modifies net`prev, net`next, net`log, net`run
    ensures net.Sound()
    ensures tb == net.Values(Before(p), old(net.prev.At(p)), k, n)
    ensures c1 == SubV(LastX(old(net.next.At(Before(p)))[0].values, DrawnFrom(net, p, hm, k, n, batch), k), tb, k)
    ensures net.prev == old(net.prev).With(p, old(net.prev.At(p)) + [Each(k, n)])
    ensures net.next == old(net.next).With(p, old(net.next.At(p)) + [Elements(c1)]).With(Before(p), [])
    ensures net.log == old(net.log).With(p, old(net.log.At(p)) + [GotPrev(n), DrewPrev(Each(k, n)), SentNext(n)])
  {
    var x1 := net.ReceivePrev(p);
    var x2 := ShuffleTriplets(net.Shuffled(p, hm, batch),
                              AddV(x1.values, net.Values(p, hm + [Permutation(batch)], k, n), k));
    var p3 := net.DrawPrev(p, Each(k, n));
    tb := net.Values(Before(p), p3, k, n);
    c1 := SubV(x2, tb, k);
    net.SendNext(p, Elements(c1));
    assert net.next.At(Before(p)) == [];
    assert net.log.At(p) == old(net.log.At(p)) + [GotPrev(n), DrewPrev(Each(k, n)), SentNext(n)];
  }

  method Role1(net: Network, p: nat, c: seq<nat>, k: nat, batch: nat)
    returns (tb: seq<nat>, c1: seq<nat>, ghost y0: seq<nat>)
    requires p < 3 && batch >= 1 && |c| % 3 == 0 && (|c| / 3) % batch == 0
    requires |net.next.At(Before(p))| == 1 && net.next.At(Before(p))[0].Elements?
    requires |net.next.At(Before(p))[0].values| == |c|
    requires net.Sound()
    modifies net`mine, net`prev, net`next, net`log, net`run
    ensures net.Sound()
    ensures var n, hm, hp := |c|, old(net.mine.At(p)), old(net.prev.At(p));
      var d1, d0 := DrawnFrom(net, p, hm, k, n, batch), DrawnFrom(net, Before(p), hp, k, n, batch);
      && tb == d0.tilde && y0 == FirstY(c, d0, k)
      && c1 == SubV(LastX(old(net.next.At(Before(p)))[0].values, d1, k), tb, k)
      && net.mine == old(net.mine).With(p, hm + [Permutation(batch), Each(k, n)])
      && net.prev == old(net.prev).With(p, hp + [Permutation(batch), Each(k, n), Each(k, n)])
      && net.next == old(net.next).With(p, old(net.next.At(p)) + [Elements(y0), Elements(c1)]).With(Before(p), [])
    ensures net.log == old(net.log).With(p, old(net.log.At(p)) + ShuffleScript(k, |c| / 3, batch, 1)[..8])
  {
    var n := |c|;
    var hm, hp, y := Role1First(net, p, c, k, batch);
    y0 := y;
    assert net.next.At(Before(p)) == old(net.next.At(Before(p)));
    tb, c1 := Role1Second(net, p, k, n, batch, hm);
    assert hp + [Permutation(batch), Each(k, n)] + [Each(k, n)] == hp + [Permutation(batch), Each(k, n), Each(k, n)];
    assert net.next.At(p) == old(net.next.At(p)) + [Elements(y0), Elements(c1)];
    assert 3 * (n / 3) == n;
    assert ShuffleScript(k, n / 3, batch, 1)[..5] + [GotPrev(n), DrewPrev(Each(k, n)), SentNext(n)]
         == ShuffleScript(k, n / 3, batch, 1)[..8];
    assert net.log.At(p) == old(net.log.At(p)) + ShuffleScript(k, n / 3, batch, 1)[..8];
  }

  /** Role 2 up to Y2. */
  method Role2First(net: Network, p: nat, k: nat, n: nat, batch: nat)
    returns (hm: seq<Draw>, hp: seq<Draw>, y2: seq<nat>)
    requires p < 3 && batch >= 1 && n % 3 == 0 && (n / 3) % batch == 0
    requires net.next.At(Before(p)) != [] && net.next.At(Before(p))[0].Elements?
    requires |net.next.At(Before(p))[0].values| == n
    requires net.Sound()
    modifies net`mine, net`prev, net`next, net`log, net`run
    ensures net.Sound()
    ensures hm == old(net.mine.At(p)) && hp == old(net.prev.At(p))
    ensures y2 == LastY(old(net.next.At(Before(p)))[0].values, DrawnFrom(net, Before(p), hp, k, n, batch),
                        DrawnFrom(net, p, hm, k, n, batch), k)
    ensures net.mine == old(net.mine).With(p, hm + [Permutation(batch), Each(k, n)])
    ensures net.prev == old(net.prev).With(p, hp + [Permutation(batch), Each(k, n)])
    ensures net.next == old(net.next).With(Before(p), old(net.next.At(Before(p)))[1..])
    ensures net.log == old(net.log).With(p, old(net.log.At(p)) + ShuffleScript(k, n / 3, batch, 2)[..5])
  {
    hm, hp := Setup(net, p, k, n, batch);
    var y0 := net.ReceivePrev(p);
    var y1 := ShuffleTriplets(net.Shuffled(p, hm, batch),
                              SubV(y0.values, net.Values(p, hm + [Permutation(batch)], k, n), k));
    y2 := ShuffleTriplets(net.Shuffled(Before(p), hp, batch),
                          SubV(y1, net.Values(Before(p), hp + [Permutation(batch)], k, n), k));
    assert 3 * (n / 3) == n;
    assert net.log.At(p) == old(net.log.At(p)) + ShuffleScript(k, n / 3, batch, 2)[..5];
  }

  /** Role 2 afterwards: it sends C2 = Y2 - tilde(A) back and receives the second message of role 1. */
  method Role2Second(net: Network, p: nat, k: nat, n: nat, y2: seq<nat>)
    returns (ta: seq<nat>, c1: seq<nat>, c2: seq<nat>)
    requires p < 3 && |y2| == n
    requires |net.next.At(Before(p))| == 1 && net.next.At(Before(p))[0].Elements?
    requires |net.next.At(Before(p))[0].values| == n
    requires net.Sound()
    modifies net`mine, net`next, net`back, net`log, net`run
    ensures net.Sound()
    ensures ta == net.Values(p, old(net.mine.At(p)), k, n) && c2 == SubV(y2, ta, k)
    ensures c1 == old(net.next.At(Before(p)))[0].values
    ensures net.mine == old(net.mine).With(p, old(net.mine.At(p)) + [Each(k, n)])
    ensures net.next == old(net.next).With(Before(p), [])
    ensures net.back == old(net.back).With(p, old(net.back.At(p)) + [Elements(c2)])
    ensures net.log == old(net.log).With(p, old(net.log.At(p)) + [DrewMine(Each(k, n)), SentPrev(n), GotPrev(n)])
  {
    var m3 := net.DrawMine(p, Each(k, n));
    ta := net.Values(p, m3, k, n);
    c2 := SubV(y2, ta, k);
    net.SendPrev(p, Elements(c2));
    var m := net.ReceivePrev(p);
    c1 := m.values;
    assert net.next.At(Before(p)) == [];
    assert net.log.At(p) == old(net.log.At(p)) + [DrewMine(Each(k, n)), SentPrev(n), GotPrev(n)];
  }

  lemma LastEvents(k: nat, n: nat, batch: nat, log: seq<Event>)
    requires n % 3 == 0
    ensures log + ShuffleScript(k, n / 3, batch, 2)[..5] + [DrewMine(Each(k, n)), SentPrev(n), GotPrev(n)]
         == log + ShuffleScript(k, n / 3, batch, 2)
    ensures log + ShuffleScript(k, n / 3, batch, 1)[..8] + [GotNext(n)] == log + ShuffleScript(k, n / 3, batch, 1)
  {
    assert 3 * (n / 3) == n;
  }

  method Role2(net: Network, p: nat, k: nat, n: nat, batch: nat) returns (ta: seq<nat>, c1: seq<nat>, c2: seq<nat>)
    requires p < 3 && batch >= 1 && n % 3 == 0 && (n / 3) % batch == 0
    requires |net.next.At(Before(p))| == 2 && net.next.At(Before(p))[0].Elements? && net.next.At(Before(p))[1].Elements?
    requires |net.next.At(Before(p))[0].values| == n && |net.next.At(Before(p))[1].values| == n
    requires net.Sound()
    modifies net`mine, net`prev, net`next, net`back, net`log, net`run
    ensures net.Sound()
    ensures var hm, hp := old(net.mine.At(p)), old(net.prev.At(p));
      var d2, d1 := DrawnFrom(net, p, hm, k, n, batch), DrawnFrom(net, Before(p), hp, k, n, batch);
      && ta == d2.tilde && c1 == old(net.next.At(Before(p)))[1].values
      && c2 == SubV(LastY(old(net.next.At(Before(p)))[0].values, d1, d2, k), ta, k)
      && net.mine == old(net.mine).With(p, hm + [Permutation(batch), Each(k, n), Each(k, n)])
      && net.prev == old(net.prev).With(p, hp + [Permutation(batch), Each(k, n)])
    ensures net.next == old(net.next).With(Before(p), [])
    ensures net.back == old(net.back).With(p, old(net.back.At(p)) + [Elements(c2)])
    ensures net.log == old(net.log).With(p, old(net.log.At(p)) + ShuffleScript(k, n / 3, batch, 2))
  {
    ghost var log := net.log.At(p);
    var hm, hp, y2 := Role2First(net, p, k, n, batch);
    ta, c1, c2 := Role2Second(net, p, k, n, y2);
    assert hm + [Permutation(batch), Each(k, n)] + [Each(k, n)] == hm + [Permutation(batch), Each(k, n), Each(k, n)];
    LastEvents(k, n, batch, log);
  }

  // ----- all three together -----------------------------------------------------------------------------

  /** What the three roles end up with. */
  datatype Views = Views(tb: seq<nat>, ta: seq<nat>, tb1: seq<nat>, c1: seq<nat>, c2': seq<nat>, ta2: seq<nat>,
                         c1': seq<nat>, c2: seq<nat>)

  ghost predicate SameLengths(a: seq<nat>, b: seq<nat>, c: seq<nat>, d0: Drawn, d1: Drawn, d2: Drawn) {
    && |a| == |b| == |c| == |d0.mask| == |d1.mask| == |d2.mask| == |d0.tilde| == |d2.tilde|
    && Regular(d0.perm, |a|) && Regular(d1.perm, |a|) && Regular(d2.perm, |a|)
  }

  /** Messages arrive as sent, shared keys give equal draws. */
  ghost predicate Agree(v: Views, a: seq<nat>, b: seq<nat>, c: seq<nat>, d0: Drawn, d1: Drawn, d2: Drawn, k: nat) {
    && SameLengths(a, b, c, d0, d1, d2)
    && v.tb == v.tb1 == d0.tilde && v.ta == v.ta2 == d2.tilde && v.c1' == v.c1 && v.c2' == v.c2
    && v.c1 == SubV(LastX(FirstHalf(a, b, d0, d2, k), d1, k), d0.tilde, k)
    && v.c2 == SubV(LastY(FirstY(c, d0, k), d1, d2, k), d2.tilde, k)
  }

  lemma DrawnLengths(net: Network, a: seq<nat>, b: seq<nat>, c: seq<nat>, mine: Trio<seq<Draw>>, k: nat, batch: nat,
                     p: nat)
    requires p < 3 && |a| == |b| == |c| && batch >= 1 && |a| % 3 == 0 && (|a| / 3) % batch == 0
    ensures SameLengths(a, b, c, DrawnFrom(net, p, mine.At(p), k, |a|, batch),
                        DrawnFrom(net, After(p), mine.At(After(p)), k, |a|, batch),
                        DrawnFrom(net, Before(p), mine.At(Before(p)), k, |a|, batch))
  {
  }

  /** Roles 0 and 1 up to the second send of role 1; its messages are waiting for role 2. */
  method FirstTwoRoles(net: Network, a: seq<nat>, b: seq<nat>, c: seq<nat>, k: nat, batch: nat, p: nat,
                       ghost d0: Drawn, ghost d1: Drawn, ghost d2: Drawn)
    returns (tb: seq<nat>, ta: seq<nat>, tb1: seq<nat>, c1: seq<nat>, ghost y0: seq<nat>)
    requires p < 3 && Drained(net.next) && net.InStep() && SameLengths(a, b, c, d0, d1, d2)
    requires batch >= 1 && |a| % 3 == 0 && (|a| / 3) % batch == 0
    requires d0 == DrawnFrom(net, p, net.mine.At(p), k, |a|, batch)
    requires d1 == DrawnFrom(net, After(p), net.mine.At(After(p)), k, |a|, batch)
    requires d2 == DrawnFrom(net, Before(p), net.mine.At(Before(p)), k, |a|, batch)
    requires net.Sound()
    modifies net`mine, net`prev, net`next, net`log, net`run
    ensures net.Sound()
    ensures tb == tb1 == d0.tilde && ta == d2.tilde && y0 == FirstY(c, d0, k)
    ensures c1 == SubV(LastX(FirstHalf(a, b, d0, d2, k), d1, k), d0.tilde, k)
    ensures net.next.At(p) == [] && net.next.At(Before(p)) == []
    ensures net.next.At(After(p)) == [Elements(y0), Elements(c1)]
    ensures var two, three := [Permutation(batch), Each(k, |a|)], [Permutation(batch), Each(k, |a|), Each(k, |a|)];
      && net.mine == old(net.mine).With(p, old(net.mine.At(p)) + three)
                                  .With(After(p), old(net.mine.At(After(p))) + two)
      && net.prev == old(net.prev).With(p, old(net.prev.At(p)) + three)
                                  .With(After(p), old(net.prev.At(After(p))) + three)
    ensures net.log == old(net.log).With(p, old(net.log.At(p)) + ShuffleScript(k, |a| / 3, batch, 0))
      .With(After(p), old(net.log.At(After(p))) + ShuffleScript(k, |a| / 3, batch, 1)[..8])
  {
    assert p == 0 || p == 1 || p == 2;
    ghost var x1;
    tb, ta, x1 := Role0(net, p, a, b, k, batch);
    assert net.next.At(p) == [Elements(x1)];
    tb1, c1, y0 := Role1(net, After(p), c, k, batch);
  }

  method Traffic(net: Network, a: seq<nat>, b: seq<nat>, c: seq<nat>, k: nat, batch: nat, p: nat,
                 ghost d0: Drawn, ghost d1: Drawn, ghost d2: Drawn) returns (v: Views)
    requires p < 3 && Drained(net.next) && Drained(net.back) && net.InStep()
    requires |a| == |b| == |c| && batch >= 1 && |a| % 3 == 0 && (|a| / 3) % batch == 0
    requires d0 == DrawnFrom(net, p, net.mine.At(p), k, |a|, batch)
    requires d1 == DrawnFrom(net, After(p), net.mine.At(After(p)), k, |a|, batch)
    requires d2 == DrawnFrom(net, Before(p), net.mine.At(Before(p)), k, |a|, batch)
    requires net.Sound()
    modifies net`mine, net`prev, net`next, net`back, net`log, net`run
    ensures net.Sound()
    ensures Drained(net.next) && Drained(net.back) && net.InStep()
    ensures net.log.At(p) == old(net.log.At(p)) + ShuffleScript(k, |a| / 3, batch, 0)
    ensures net.log.At(After(p)) == old(net.log.At(After(p))) + ShuffleScript(k, |a| / 3, batch, 1)
    ensures net.log.At(Before(p)) == old(net.log.At(Before(p))) + ShuffleScript(k, |a| / 3, batch, 2)
    ensures Agree(v, a, b, c, d0, d1, d2, k)
  {
    assert p == 0 || p == 1 || p == 2;
    DrawnLengths(net, a, b, c, net.mine, k, batch, p);
    var tb, ta, tb1, c1, y0 := FirstTwoRoles(net, a, b, c, k, batch, p, d0, d1, d2);
    var ta2, c1', c2 := Role2(net, Before(p), k, |a|, batch);
    var m := net.ReceiveNext(After(p));
    v := Views(tb, ta, tb1, c1, m.values, ta2, c1', c2);
    LastEvents(k, |a|, batch, old(net.log.At(After(p))));
  }

  // ----- the output -------------------------------------------------------------------------------------------

  function FlatSums(flat: Vec): (w: seq<nat>)
    ensures |w| == |flat| && forall x :: 0 <= x < |flat| ==> w[x] == Sum(flat[x])
  {
    seq<nat>(|flat|, x requires 0 <= x < |flat| => Sum(flat[x]))
  }

  /** The output sharing at flat position x, assembled from the three parties' shares. */
  function OutputAt(v: Views, p: nat, k: nat, x: nat): (r: Shared<nat>)
    requires p < 3 && v.tb1 == v.tb && v.ta2 == v.ta && v.c1' == v.c1 && v.c2' == v.c2
    requires x < |v.tb| && x < |v.ta| && x < |v.c1| && x < |v.c2|
  {
    JoinAround(p, Share(v.tb[x], v.ta[x]), Share(Add(v.c1[x], v.c2'[x], k), v.tb1[x]),
               Share(v.ta2[x], Add(v.c1'[x], v.c2[x], k)))
  }

  ghost function Permuted(w: seq<nat>, d0: Drawn, d1: Drawn, d2: Drawn): (r: seq<nat>)
    requires Regular(d0.perm, |w|) && Regular(d1.perm, |w|) && Regular(d2.perm, |w|)
    ensures |r| == |w|
  {
    Gather(d1.perm, Gather(d2.perm, Gather(d0.perm, w)))
  }

  lemma StartSums(a: seq<nat>, b: seq<nat>, c: seq<nat>, w: seq<nat>, k: nat)
    requires |a| == |b| == |c| == |w| && forall x :: 0 <= x < |w| ==> w[x] == a[x] + b[x] + c[x]
    ensures SumTo(AddV(a, b, k), c, w, k)
  {
    forall x | 0 <= x < |w|
      ensures (AddV(a, b, k)[x] + c[x]) % Pow2(k) == w[x] % Pow2(k)
    {
      ModIdem(a[x] + b[x], Pow2(k));
      EqModAdd(Add(a[x], b[x], k), a[x] + b[x], c[x], c[x], Pow2(k));
    }
  }

  /** X2 + Y2 is the input permuted three times. */
  lemma HalvesSum(a: seq<nat>, b: seq<nat>, c: seq<nat>, w: seq<nat>, d0: Drawn, d1: Drawn, d2: Drawn, k: nat)
    requires SameLengths(a, b, c, d0, d1, d2) && |w| == |a| && forall x :: 0 <= x < |w| ==> w[x] == a[x] + b[x] + c[x]
    ensures SumTo(LastX(FirstHalf(a, b, d0, d2, k), d1, k), LastY(FirstY(c, d0, k), d1, d2, k),
                  Permuted(w, d0, d1, d2), k)
  {
    StartSums(a, b, c, w, k);
    var x0, y0, w0 := Gather(d0.perm, AddV(AddV(a, b, k), d0.mask, k)), FirstY(c, d0, k), Gather(d0.perm, w);
    HopSums(d0.perm, AddV(a, b, k), c, d0.mask, w, k);
    HopSums(d2.perm, x0, y0, d2.mask, w0, k);
    HopSums(d1.perm, FirstHalf(a, b, d0, d2, k), Gather(d2.perm, SubV(y0, d2.mask, k)), d1.mask, Gather(d2.perm, w0),
            k);
  }

  /** The shares are dealt from the halves x2 and y2. */
  ghost predicate DealtFrom(v: Views, x2: seq<nat>, y2: seq<nat>, k: nat) {
    && Assembled(v, |x2|) && |y2| == |x2| && v.c1 == SubV(x2, v.tb, k) && v.c2 == SubV(y2, v.ta, k)
  }

  /** The dealt shares of one position add up to the two halves. */
  lemma OutputOpens(v: Views, x2: seq<nat>, y2: seq<nat>, w: seq<nat>, p: nat, k: nat, x: nat)
    requires p < 3 && DealtFrom(v, x2, y2, k) && SumTo(x2, y2, w, k) && x < |w|
    ensures Open(OutputAt(v, p, k, x), k) == w[x] % Pow2(k)
  {
    OutputSum(v, p, k, x);
    DealtSum(x2[x], y2[x], v.tb[x], v.ta[x], k);
  }

  lemma OutputSum(v: Views, p: nat, k: nat, x: nat)
    requires p < 3 && v.tb1 == v.tb && v.ta2 == v.ta && v.c1' == v.c1 && v.c2' == v.c2
    requires x < |v.tb| && x < |v.ta| && x < |v.c1| && x < |v.c2|
    ensures Sum(OutputAt(v, p, k, x)) == v.tb[x] + Add(v.c1[x], v.c2[x], k) + v.ta[x]
  {
    assert p == 0 || p == 1 || p == 2;
  }

  /** Position x opens to the permuted position of the input. */
  ghost predicate ShuffledAt(out: Vec, flat: Vec, d0: Drawn, d1: Drawn, d2: Drawn, k: nat, x: nat)
    requires Regular(d0.perm, |flat|) && Regular(d1.perm, |flat|) && Regular(d2.perm, |flat|)
  {
    x < |out| && x < |flat| && Open(out[x], k) == Permuted(FlatSums(flat), d0, d1, d2)[x] % Pow2(k)
  }

  ghost predicate IsShuffled(out: Vec, flat: Vec, d0: Drawn, d1: Drawn, d2: Drawn, k: nat) {
    && |out| == |flat| && Regular(d0.perm, |flat|) && Regular(d1.perm, |flat|) && Regular(d2.perm, |flat|)
    && forall x {:trigger ShuffledAt(out, flat, d0, d1, d2, k, x)} :: 0 <= x < |flat| ==>
      ShuffledAt(out, flat, d0, d1, d2, k, x)
  }

  lemma ComponentsSum(flat: Vec, p: nat)
    requires p < 3
    ensures var a, b, c, w := Component(flat, p), Component(flat, Before(p)), Component(flat, After(p)), FlatSums(flat);
      forall y :: 0 <= y < |w| ==> w[y] == a[y] + b[y] + c[y]
  {
    assert p == 0 || p == 1 || p == 2;
  }

  lemma AgreeDealt(v: Views, a: seq<nat>, b: seq<nat>, c: seq<nat>, d0: Drawn, d1: Drawn, d2: Drawn, k: nat)
    requires Agree(v, a, b, c, d0, d1, d2, k)
    ensures DealtFrom(v, LastX(FirstHalf(a, b, d0, d2, k), d1, k), LastY(FirstY(c, d0, k), d1, d2, k), k)
  {
  }

  lemma OutputsShuffled(out: Vec, v: Views, flat: Vec, d0: Drawn, d1: Drawn, d2: Drawn, k: nat, p: nat)
    requires p < 3 && Agree(v, Component(flat, p), Component(flat, Before(p)), Component(flat, After(p)), d0, d1, d2, k)
    requires Assembled(v, |flat|) && out == Assemble(v, p, k, |flat|)
    ensures IsShuffled(out, flat, d0, d1, d2, k)
  {
    var a, b, c, w := Component(flat, p), Component(flat, Before(p)), Component(flat, After(p)), FlatSums(flat);
    var x2, y2 := LastX(FirstHalf(a, b, d0, d2, k), d1, k), LastY(FirstY(c, d0, k), d1, d2, k);
    ComponentsSum(flat, p);
    HalvesSum(a, b, c, w, d0, d1, d2, k);
    AgreeDealt(v, a, b, c, d0, d1, d2, k);
    var z := Permuted(w, d0, d1, d2);
    forall x | 0 <= x < |flat|
      ensures ShuffledAt(out, flat, d0, d1, d2, k, x)
    {
      OutputOpens(v, x2, y2, z, p, k, x);
    }
  }

  /** The output sharings of n positions. */
  function Assemble(v: Views, p: nat, k: nat, n: nat): (out: Vec)
    requires p < 3 && Assembled(v, n)
    ensures |out| == n && forall x :: 0 <= x < n ==> out[x] == OutputAt(v, p, k, x)
  {
    seq(n, x requires 0 <= x < n => OutputAt(v, p, k, x))
  }

  /** The messages and draws of one shuffle, whichever party plays which role. */
  method ShuffleTraffic(net: Network, flat: Vec, k: nat, batch: nat, p: nat)
    returns (v: Views, ghost d0: Drawn, ghost d1: Drawn, ghost d2: Drawn)
    requires net.Quiet() && batch >= 1 && |flat| % 3 == 0 && (|flat| / 3) % batch == 0 && p == PartyOf(0, net.sid)
    modifies net
    ensures net.Quiet() && net.calls == old(net.calls) + [Shuffle(k, |flat| / 3, batch)]
    ensures ArePermutations(d0, d1, d2, net, old(net.mine), batch)
    ensures Agree(v, Component(flat, p), Component(flat, Before(p)), Component(flat, After(p)), d0, d1, d2, k)
  {
    d0 := DrawnFrom(net, p, net.mine.At(p), k, |flat|, batch);
    d1 := DrawnFrom(net, After(p), net.mine.At(After(p)), k, |flat|, batch);
    d2 := DrawnFrom(net, Before(p), net.mine.At(Before(p)), k, |flat|, batch);
    v := Traffic(net, Component(flat, p), Component(flat, Before(p)), Component(flat, After(p)), k, batch, p, d0, d1,
                 d2);
    ShuffleLogs(net.log, old(net.log), k, |flat| / 3, batch, net.sid, p);
    net.Finish(Shuffle(k, |flat| / 3, batch));
  }

  /** What the roles did, party by party. */
  lemma ShuffleLogs(now: Trio<seq<Event>>, before: Trio<seq<Event>>, k: nat, count: nat, batch: nat, sid: nat, p: nat)
    requires p == PartyOf(0, sid) && now.At(p) == before.At(p) + ShuffleScript(k, count, batch, 0)
    requires now.At(After(p)) == before.At(After(p)) + ShuffleScript(k, count, batch, 1)
    requires now.At(Before(p)) == before.At(Before(p)) + ShuffleScript(k, count, batch, 2)
    ensures forall i :: 0 <= i < 3 ==> now.At(i) == before.At(i) + Script(Shuffle(k, count, batch), i, sid)
  {
    OtherRoles(sid);
    forall i | 0 <= i < 3
      ensures now.At(i) == before.At(i) + Script(Shuffle(k, count, batch), i, sid)
    {
      assert i == p || i == After(p) || i == Before(p);
    }
  }

  method ShuffleFlat(net: Network, flat: Vec, k: nat, batch: nat)
    returns (out: Vec, ghost d0: Drawn, ghost d1: Drawn, ghost d2: Drawn)
    requires net.Quiet() && batch >= 1 && |flat| % 3 == 0 && (|flat| / 3) % batch == 0
    modifies net
    ensures net.Quiet() && net.calls == old(net.calls) + [Shuffle(k, |flat| / 3, batch)]
    ensures ArePermutations(d0, d1, d2, net, old(net.mine), batch) && IsShuffled(out, flat, d0, d1, d2, k)
  {
    var p, v := PartyOf(0, net.sid), Views([], [], [], [], [], [], [], []);
    v, d0, d1, d2 := ShuffleTraffic(net, flat, k, batch, p);
    AgreeAssembles(v, flat, d0, d1, d2, k, p);
    out := Assemble(v, p, k, |flat|);
    OutputsShuffled(out, v, flat, d0, d1, d2, k, p);
  }

  lemma AgreeAssembles(v: Views, flat: Vec, d0: Drawn, d1: Drawn, d2: Drawn, k: nat, p: nat)
    requires p < 3 && Agree(v, Component(flat, p), Component(flat, Before(p)), Component(flat, After(p)), d0, d1, d2, k)
    ensures Assembled(v, |flat|)
  {
  }

  predicate Assembled(v: Views, n: nat) {
    v.tb1 == v.tb && v.ta2 == v.ta && v.c1' == v.c1 && v.c2' == v.c2 && |v.tb| == |v.ta| == |v.c1| == |v.c2| == n
  }

  // ----- entries and batches ------------------------------------------------------------------------------------

  /** Position of the source of output position i within a batch. */
  function Composed(d0: Drawn, d1: Drawn, d2: Drawn, i: nat): (s: nat)
    requires i < |d0.perm| == |d1.perm| == |d2.perm|
    requires Prf.IsPermutation(d0.perm) && Prf.IsPermutation(d1.perm) && Prf.IsPermutation(d2.perm)
    ensures s < |d0.perm|
  {
    d0.perm[d2.perm[d1.perm[i]]]
  }

  /** Where field f of entry i of the batch that starts at entry o comes from. */
  lemma Hop(perm: seq<nat>, w: seq<nat>, o: nat, i: nat, f: nat, x: nat, y: nat)
    requires Regular(perm, |w|) && o % |perm| == 0 && i < |perm| && f < 3
    requires x == 3 * (o + i) + f < |w| && y == 3 * (o + perm[i]) + f
    ensures y < |w| && Gather(perm, w)[x] == w[y]
  {
    var q := ModQuotient(o, |perm|);
    DivModUnique(o + i, |perm|, q, i);
    assert x / 3 == o + i && x % 3 == f;
    FlatInside(perm, x, |w|);
  }

  lemma FlatComposed(w: seq<nat>, d0: Drawn, d1: Drawn, d2: Drawn, o: nat, i: nat, f: nat, x: nat, y: nat)
    requires Regular(d0.perm, |w|) && Regular(d1.perm, |w|) && Regular(d2.perm, |w|)
    requires i < |d0.perm| == |d1.perm| == |d2.perm| && o % |d0.perm| == 0 && f < 3
    requires x == 3 * (o + i) + f < |w| && y == 3 * (o + Composed(d0, d1, d2, i)) + f
    ensures y < |w| && Permuted(w, d0, d1, d2)[x] == w[y]
  {
    var w1 := Gather(d0.perm, w);
    var w2 := Gather(d2.perm, w1);
    var i1 := d1.perm[i];
    var i2 := d2.perm[i1];
    var x1, x2 := 3 * (o + i1) + f, 3 * (o + i2) + f;
    Hop(d1.perm, w2, o, i, f, x, x1);
    Hop(d2.perm, w1, o, i1, f, x1, x2);
    Hop(d0.perm, w, o, i2, f, x2, y);
  }

  lemma FieldShuffled(out: Vec, flat: Vec, d0: Drawn, d1: Drawn, d2: Drawn, k: nat, o: nat, i: nat, f: nat, x: nat,
                      y: nat)
    requires IsShuffled(out, flat, d0, d1, d2, k) && f < 3
    requires i < |d0.perm| == |d1.perm| == |d2.perm| && o % |d0.perm| == 0
    requires x == 3 * (o + i) + f < |flat| && y == 3 * (o + Composed(d0, d1, d2, i)) + f
    ensures y < |flat| && Open(out[x], k) == Open(flat[y], k)
  {
    assert ShuffledAt(out, flat, d0, d1, d2, k, x);
    FlatComposed(FlatSums(flat), d0, d1, d2, o, i, f, x, y);
  }

  /** Entry i of the batch that starts at entry o opens to the entry at the permuted position:
      id, code and mask together. */
  lemma EntriesShuffled(out: Vec, flat: Vec, entries: seq<Entry>, d0: Drawn, d1: Drawn, d2: Drawn, k: nat, o: nat,
                        i: nat, s: nat)
    requires flat == FieldsOf(entries) && IsShuffled(out, flat, d0, d1, d2, k)
    requires i < |d0.perm| == |d1.perm| == |d2.perm| && o % |d0.perm| == 0 && o + i < |entries|
    requires s == o + Composed(d0, d1, d2, i)
    ensures s < |entries| && OpenOne(EntryAt(out, o + i), k) == OpenOne(entries[s], k)
  {
    var e := o + i;
    var x, y := 3 * e, 3 * s;
    FieldShuffled(out, flat, d0, d1, d2, k, o, i, 0, x, y);
    FieldShuffled(out, flat, d0, d1, d2, k, o, i, 1, x + 1, y + 1);
    FieldShuffled(out, flat, d0, d1, d2, k, o, i, 2, x + 2, y + 2);
    EntryFromFields(out, flat, entries, e, s, k);
  }

  lemma EntryFromFields(out: Vec, flat: Vec, entries: seq<Entry>, e: nat, s: nat, k: nat)
    requires flat == FieldsOf(entries) && 3 * e + 2 < |out| && 3 * s + 2 < |flat|
    requires Open(out[3 * e], k) == Open(flat[3 * s], k) && Open(out[3 * e + 1], k) == Open(flat[3 * s + 1], k)
    requires Open(out[3 * e + 2], k) == Open(flat[3 * s + 2], k)
    ensures s < |entries| && OpenOne(EntryAt(out, e), k) == OpenOne(entries[s], k)
  {
    assert EntryAt(flat, s) == entries[s];
  }

  // ----- batches ---------------------------------------------------------------------------------------

  ghost predicate SameBatches(distances: seq<seq<Entry>>, n: nat) {
    forall b :: 0 <= b < |distances| ==> |distances[b]| == n
  }

  lemma {:induction false} FlattenLength(x: seq<seq<Entry>>, n: nat)
    requires SameBatches(x, n)
    ensures |Flatten(x)| == |x| * n
  {
    if x != [] {
      FlattenLength(x[1..], n);
      assert |x| * n == n + (|x| - 1) * n;
    }
  }

  /** Batch b of the flat list starts at entry b * n. */
  lemma {:induction false} FlattenAt(x: seq<seq<Entry>>, n: nat, b: nat, i: nat)
    requires SameBatches(x, n) && b < |x| && i < n
    ensures b * n + i < |Flatten(x)| && Flatten(x)[b * n + i] == x[b][i]
  {
    FlattenLength(x, n);
    if b > 0 {
      FlattenAt(x[1..], n, b - 1, i);
      assert b * n == n + (b - 1) * n;
    }
  }

  /** Batch b of the result lists the entries of batch b in permuted order. */
  ghost predicate IsShuffledBatch(result: seq<Entry>, batch: seq<Entry>, d0: Drawn, d1: Drawn, d2: Drawn, k: nat) {
    && |result| == |batch| == |d0.perm| == |d1.perm| == |d2.perm|
    && Prf.IsPermutation(d0.perm) && Prf.IsPermutation(d1.perm) && Prf.IsPermutation(d2.perm)
    && forall i :: 0 <= i < |batch| ==> OpenOne(result[i], k) == OpenOne(batch[Composed(d0, d1, d2, i)], k)
  }

  function EntriesOf(out: Vec): (r: seq<Entry>)
    requires |out| % 3 == 0
    ensures |r| == |out| / 3 && forall e :: 0 <= e < |r| ==> r[e] == EntryAt(out, e)
  {
    seq(|out| / 3, e requires 0 <= e < |out| / 3 => EntryAt(out, e))
  }

  method AllSameLength(distances: seq<seq<Entry>>, n: nat) returns (same: bool)
    ensures same <==> SameBatches(distances, n)
  {
    for b := 0 to |distances|
      invariant SameBatches(distances[..b], n)
    {
      if |distances[b]| != n {
        return false;
      }
      assert distances[..b + 1] == distances[..b] + [distances[b]];
    }
    assert distances[..|distances|] == distances;
    return true;
  }

  ghost predicate IsShuffleOf(out: Vec, flat: Vec, x: seq<seq<Entry>>, n: nat, d0: Drawn, d1: Drawn, d2: Drawn,
                              k: nat) {
    && n >= 1 && SameBatches(x, n) && flat == FieldsOf(Flatten(x)) && IsShuffled(out, flat, d0, d1, d2, k)
    && n == |d0.perm| == |d1.perm| == |d2.perm|
  }

  lemma BatchInside(x: seq<seq<Entry>>, n: nat, o: nat, b: nat)
    requires n >= 1 && SameBatches(x, n) && b < |x| && o == b * n
    ensures o + n <= |Flatten(x)| && o % n == 0 && o + n == (b + 1) * n
  {
    FlattenLength(x, n);
    MulNonneg(|x| - b - 1, n);
    assert |x| * n == o + n + (|x| - b - 1) * n;
    DivModUnique(o, n, b, 0);
  }

  lemma OneShuffled(out: Vec, flat: Vec, x: seq<seq<Entry>>, n: nat, d0: Drawn, d1: Drawn, d2: Drawn, k: nat, b: nat,
                    o: nat, i: nat)
    requires IsShuffleOf(out, flat, x, n, d0, d1, d2, k) && b < |x| && o == b * n && i < n
    ensures 3 * (o + i) + 2 < |out| && OpenOne(EntryAt(out, o + i), k) == OpenOne(x[b][Composed(d0, d1, d2, i)], k)
  {
    BatchInside(x, n, o, b);
    EntriesShuffled(out, flat, Flatten(x), d0, d1, d2, k, o, i, o + Composed(d0, d1, d2, i));
    FlattenAt(x, n, b, Composed(d0, d1, d2, i));
  }

  ghost predicate IsSlice(r: seq<Entry>, out: Vec, o: nat) {
    forall i :: 0 <= i < |r| ==> 3 * (o + i) + 2 < |out| && r[i] == EntryAt(out, o + i)
  }

  lemma SliceOf(entries: seq<Entry>, out: Vec, o: nat, n: nat)
    requires |out| % 3 == 0 && entries == EntriesOf(out) && o + n <= |entries|
    ensures IsSlice(entries[o..o + n], out, o)
  {
  }

  lemma BatchShuffled(r: seq<Entry>, out: Vec, flat: Vec, x: seq<seq<Entry>>, n: nat, d0: Drawn, d1: Drawn, d2: Drawn,
                      k: nat, b: nat, o: nat)
    requires IsShuffleOf(out, flat, x, n, d0, d1, d2, k) && b < |x| && o == b * n && |r| == n && IsSlice(r, out, o)
    ensures IsShuffledBatch(r, x[b], d0, d1, d2, k)
  {
    forall i | 0 <= i < n
      ensures OpenOne(r[i], k) == OpenOne(x[b][Composed(d0, d1, d2, i)], k)
    {
      OneShuffled(out, flat, x, n, d0, d1, d2, k, b, o, i);
    }
  }

  /** All batches are shuffled by the same permutation, whichever party plays which role. */
  method RandomShuffleBatch(net: Network, distances: seq<seq<Entry>>, k: nat)
    returns (r: Result<seq<seq<Entry>>>, ghost d0: Drawn, ghost d1: Drawn, ghost d2: Drawn)
    requires net.Quiet() && (distances != [] && SameBatches(distances, |distances[0]|) ==> |distances[0]| >= 1)
    modifies net
    ensures net.Quiet()
    ensures r.Success? <==> distances != [] && SameBatches(distances, |distances[0]|)
    ensures r.Success? ==> |r.value| == |distances|
    ensures r.Success? ==> ArePermutations(d0, d1, d2, net, old(net.mine), |distances[0]|)
    ensures r.Success? ==> forall b :: 0 <= b < |distances| ==> IsShuffledBatch(r.value[b], distances[b], d0, d1, d2, k)
  {
    d0, d1, d2 := Drawn([], [], []), Drawn([], [], []), Drawn([], [], []);
    if distances == [] {
      r := Failure(EmptyInput);
      return;
    }
    var n := |distances[0]|;
    var same := AllSameLength(distances, n);
    if !same {
      r := Failure(UnevenBatches);
      return;
    }
    var batches;
    batches, d0, d1, d2 := ShuffleUniform(net, distances, n, k);
    r := Success(batches);
  }

  method ShuffleUniform(net: Network, distances: seq<seq<Entry>>, n: nat, k: nat)
    returns (batches: seq<seq<Entry>>, ghost d0: Drawn, ghost d1: Drawn, ghost d2: Drawn)
    requires net.Quiet() && n >= 1 && SameBatches(distances, n)
    modifies net
    ensures net.Quiet() && |batches| == |distances| && ArePermutations(d0, d1, d2, net, old(net.mine), n)
    ensures forall b :: 0 <= b < |distances| ==> IsShuffledBatch(batches[b], distances[b], d0, d1, d2, k)
  {
    FlattenLength(distances, n);
    var entries := Flatten(distances);
    DivModUnique(|entries|, n, |distances|, 0);
    var flat, out := FieldsOf(entries), [];
    assert |flat| / 3 == |entries|;
    out, d0, d1, d2 := ShuffleFlat(net, flat, k, n);
    var shuffled := EntriesOf(out);
    batches := SplitBatches(shuffled, n, |distances|);
    ChunksShuffled(batches, shuffled, out, flat, distances, n, d0, d1, d2, k);
  }

  /** Consecutive chunks of n entries. */
  ghost predicate AreChunks(batches: seq<seq<Entry>>, entries: seq<Entry>, n: nat) {
    forall b :: 0 <= b < |batches| ==> 0 <= b * n && b * n + n <= |entries| && batches[b] == entries[b * n..b * n + n]
  }

  method SplitBatches(entries: seq<Entry>, n: nat, count: nat) returns (batches: seq<seq<Entry>>)
    requires |entries| == count * n
    ensures |batches| == count && AreChunks(batches, entries, n)
  {
    batches := [];
    var off := 0;
    for b := 0 to count
      invariant |batches| == b && off == b * n && AreChunks(batches, entries, n)
    {
      ChunkFits(b, count, n, off);
      batches := batches + [entries[off..off + n]];
      off := off + n;
    }
  }

  lemma ChunkFits(b: nat, count: nat, n: nat, off: nat)
    requires b < count && off == b * n
    ensures off + n == (b + 1) * n <= count * n
  {
    MulNonneg(count - b - 1, n);
    assert count * n == off + n + (count - b - 1) * n;
  }

  lemma ChunkShuffled(batch: seq<Entry>, entries: seq<Entry>, out: Vec, flat: Vec, x: seq<seq<Entry>>, n: nat,
                      d0: Drawn, d1: Drawn, d2: Drawn, k: nat, b: nat, o: nat)
    requires b < |x| && o == b * n && o + n <= |entries| && batch == entries[o..o + n]
    requires |out| % 3 == 0 && entries == EntriesOf(out) && IsShuffleOf(out, flat, x, n, d0, d1, d2, k)
    ensures IsShuffledBatch(batch, x[b], d0, d1, d2, k)
  {
    SliceOf(entries, out, o, n);
    BatchShuffled(batch, out, flat, x, n, d0, d1, d2, k, b, o);
  }

  lemma ChunksShuffled(batches: seq<seq<Entry>>, entries: seq<Entry>, out: Vec, flat: Vec, x: seq<seq<Entry>>, n: nat,
                       d0: Drawn, d1: Drawn, d2: Drawn, k: nat)
    requires |batches| == |x| && AreChunks(batches, entries, n) && |out| % 3 == 0 && entries == EntriesOf(out)
    requires IsShuffleOf(out, flat, x, n, d0, d1, d2, k)
    ensures forall b :: 0 <= b < |x| ==> IsShuffledBatch(batches[b], x[b], d0, d1, d2, k)
  {
    forall b | 0 <= b < |x|
      ensures IsShuffledBatch(batches[b], x[b], d0, d1, d2, k)
    {
      ChunkShuffled(batches[b], entries, out, flat, x, n, d0, d1, d2, k, b, b * n);
    }
  }
}
