/** Two-way split: every additively shared value becomes a sum of two XOR-shared words. */
module Splitting {
  import opened Words
  import opened Rep3
  import opened Sessions

  /** The bits of the secret of an XOR sharing of k-bit words. */
  function XorBits(s: Shared<nat>, k: nat): (r: seq<bool>)
    ensures |r| == k
    ensures forall b :: 0 <= b < k ==> r[b] == ((Bit(s.x0, b) != Bit(s.x1, b)) != Bit(s.x2, b))
  {
    seq(k, b requires 0 <= b => (Bit(s.x0, b) != Bit(s.x1, b)) != Bit(s.x2, b))
  }

  function OpenXor(s: Shared<nat>, k: nat): (r: nat) {
    Val(XorBits(s, k), k)
  }

  /** s1 and s2 are XOR sharings of two words whose sum is the secret of x. */
  predicate IsSplit(s1: Shared<nat>, s2: Shared<nat>, x: Shared<nat>, k: nat) {
    && InRing(s1, k) && InRing(s2, k)
    && (OpenXor(s1, k) + OpenXor(s2, k)) % Pow2(k) == Open(x, k)
  }

  ghost predicate AreSplit(s1: Vec, s2: Vec, x: Vec, k: nat) {
    && |s1| == |s2| == |x|
    && forall j :: 0 <= j < |x| ==> IsSplit(s1[j], s2[j], x[j], k)
  }

  /** What the dealer of a chunk sends: the sum of its two components under its mask. */
  function Masked(v: Vec, d: nat, mask: seq<nat>, k: nat): (t: seq<nat>)
    requires d < 3 && |mask| == |v|
    ensures |t| == |v|
  {
    seq(|v|, j requires 0 <= j < |v| => XorWord(Add(v[j].View(d).a, v[j].View(d).b, k), mask[j], k))
  }

  /** The mask cancels in the XOR of the three components of s1. */
  lemma MaskedBits(d: nat, u: nat, r: nat, k: nat, s1: Shared<nat>)
    requires d < 3 && r < Pow2(k)
    requires s1 == JoinAround(d, Share(XorWord(u, r, k), r), Share(0, XorWord(u, r, k)), Share(r, 0))
    ensures InRing(s1, k) && OpenXor(s1, k) == u % Pow2(k)
  {
    forall b | 0 <= b < k
      ensures XorBits(s1, k)[b] == Bit(u, b)
    {
      XorWordBit(u, r, k, b);
      ZeroBit(b);
    }
    assert XorBits(s1, k) == Bits(u, k);
    ValBits(u, k, k);
    XorWordSmall(u, r, k);
  }

  lemma RestBits(d: nat, c: nat, k: nat, s2: Shared<nat>)
    requires d < 3 && c < Pow2(k)
    requires s2 == JoinAround(d, Share(0, 0), Share(c, 0), Share(0, c))
    ensures InRing(s2, k) && OpenXor(s2, k) == c
  {
    forall b | 0 <= b < k
      ensures XorBits(s2, k)[b] == Bit(c, b)
    {
      ZeroBit(b);
    }
    assert XorBits(s2, k) == Bits(c, k);
    ValBits(c, k, k);
    DivModUnique(c, Pow2(k), 0, c);
  }

  lemma SplitFromParts(x: Shared<nat>, ab: nat, c: nat, k: nat, s1: Shared<nat>, s2: Shared<nat>)
    requires InRing(s1, k) && InRing(s2, k) && ab + c == Sum(x)
    requires OpenXor(s1, k) == (ab % Pow2(k)) % Pow2(k) && OpenXor(s2, k) == c
    ensures IsSplit(s1, s2, x, k)
  {
    PartsSum(OpenXor(s1, k), OpenXor(s2, k), ab, c, Pow2(k));
  }

  lemma ViewsSum(x: Shared<nat>, d: nat)
    requires d < 3
    ensures x.View(d).a + x.View(d).b + x.At((d + 1) % 3) == Sum(x)
  {
    assert d == 0 || d == 1 || d == 2;
  }

  lemma MaskedOpens(x: Shared<nat>, ab: nat, c: nat, d: nat, r: nat, k: nat, s1: Shared<nat>, s2: Shared<nat>)
    requires d < 3 && r < Pow2(k) && c < Pow2(k) && ab + c == Sum(x)
    requires var t := XorWord(ab % Pow2(k), r, k); s1 == JoinAround(d, Share(t, r), Share(0, t), Share(r, 0))
    requires s2 == JoinAround(d, Share(0, 0), Share(c, 0), Share(0, c))
    ensures IsSplit(s1, s2, x, k)
  {
    MaskedBits(d, ab % Pow2(k), r, k, s1);
    RestBits(d, c, k, s2);
    SplitFromParts(x, ab, c, k, s1, s2);
  }

  lemma PartsSum(u: nat, w: nat, ab: nat, c: nat, m: nat)
    requires m > 0 && u == (ab % m) % m && w == c
    ensures (u + w) % m == (ab + c) % m
  {
    AddReduced(ab, c, m);
  }

  lemma AddReduced(ab: nat, c: nat, m: nat)
    requires m > 0
    ensures ((ab % m) % m + c) % m == (ab + c) % m
  {
    ModIdem(ab, m);
    EqModAdd((ab % m) % m, ab, c, c, m);
  }

  lemma ChunkSplits(v: Vec, d: nat, r: seq<nat>, k: nat, s1: Vec, s2: Vec)
    requires d < 3 && |r| == |v| && AllInRing(v, k) && forall j :: 0 <= j < |r| ==> r[j] < Pow2(k)
    requires var t := Masked(v, d, r, k); s1 == DealerShares(v, d, t, r, t, r) && s2 == RestShares(v, d)
    ensures AreSplit(s1, s2, v, k)
  {
    forall j | 0 <= j < |v|
      ensures IsSplit(s1[j], s2[j], v[j], k)
    {
      ViewsSum(v[j], d);
      MaskedOpens(v[j], v[j].View(d).a + v[j].View(d).b, v[j].At((d + 1) % 3), d, r[j], k, s1[j], s2[j]);
    }
  }

  lemma XorWordSmall(x: nat, y: nat, k: nat)
    ensures XorWord(x, y, k) < Pow2(k)
  {
    ValBound(seq(k, i requires 0 <= i => Bit(x, i) != Bit(y, i)), k);
  }

  function DealerShares(v: Vec, d: nat, t: seq<nat>, rPrev: seq<nat>, received: seq<nat>, rNext: seq<nat>): (s1: Vec)
    requires d < 3 && |t| == |v| && rPrev == rNext && received == t && |rPrev| == |v|
    ensures |s1| == |v|
    ensures forall j :: 0 <= j < |v| ==>
      s1[j] == JoinAround(d, Share(t[j], rPrev[j]), Share(0, received[j]), Share(rNext[j], 0))
  {
    seq(|v|, j requires 0 <= j < |v| => JoinAround(d, Share(t[j], rPrev[j]), Share(0, received[j]), Share(rNext[j], 0)))
  }

  function RestShares(v: Vec, d: nat): (s2: Vec)
    requires d < 3
    ensures |s2| == |v|
    ensures forall j :: 0 <= j < |v| ==>
      s2[j] == JoinAround(d, Share(0, 0), Share(v[j].At((d + 1) % 3), 0), Share(0, v[j].At((d + 1) % 3)))
  {
    seq(|v|, j requires 0 <= j < |v| =>
      JoinAround(d, Share(0, 0), Share(v[j].View((d + 1) % 3).a, 0), Share(0, v[j].View((d + 2) % 3).b)))
  }

  /** Traffic and draws of one chunk: d deals, its successor receives, its predecessor draws. */
  method ChunkRound(net: Network, v: Vec, d: nat, k: nat)
    returns (t: seq<nat>, rPrev: seq<nat>, received: seq<nat>, rNext: seq<nat>)
    requires d < 3 && Drained(net.next) && net.InStep()
    requires net.Sound()
    modifies net`mine, net`prev, net`next, net`log, net`run
    ensures net.Sound()
    ensures Drained(net.next) && net.InStep()
    ensures net.log.At(d) == old(net.log.At(d)) + [DrewPrev(Each(k, |v|)), SentNext(|v|)]
    ensures net.log.At(After(d)) == old(net.log.At(After(d))) + [GotPrev(|v|)]
    ensures net.log.At(Before(d)) == old(net.log.At(Before(d))) + [DrewMine(Each(k, |v|))]
    ensures |rPrev| == |v| && rPrev == rNext && forall j :: 0 <= j < |v| ==> rPrev[j] < Pow2(k)
    ensures t == Masked(v, d, rPrev, k) == received
  {
    var hp := net.DrawPrev(d, Each(k, |v|));
    rPrev := net.Values(Before(d), hp, k, |v|);
    t := Masked(v, d, rPrev, k);
    net.SendNext(d, Elements(t));
    var m := net.ReceivePrev(After(d));
    received := m.values;
    var hm := net.DrawMine(Before(d), Each(k, |v|));
    rNext := net.Values(Before(d), hm, k, |v|);
  }

  lemma ChunkRoles(chunk: nat, sid: nat)
    requires chunk < 3
    ensures PartyOf(After(chunk), sid) == After(PartyOf(chunk, sid))
    ensures PartyOf(Before(chunk), sid) == Before(PartyOf(chunk, sid))
  {
  }

  ghost function ChunkScripts(k: nat, len: nat, r: nat, chunks: nat): (s: seq<Event>)
    requires r < 3 && chunks <= 3
  {
    if chunks == 0 then [] else ChunkScripts(k, len, r, chunks - 1) + SplitChunkScript(k, len, r, chunks - 1)
  }

  /** The party with role r has followed the script of the first chunks. */
  ghost predicate LogAt(log: Trio<seq<Event>>, before: Trio<seq<Event>>, k: nat, len: nat, sid: nat, chunks: nat,
                        r: nat)
    requires chunks <= 3 && r < 3
  {
    log.At(PartyOf(r, sid)) == before.At(PartyOf(r, sid)) + ChunkScripts(k, len, r, chunks)
  }

  /** All three have. */
  ghost predicate LogsAt(log: Trio<seq<Event>>, before: Trio<seq<Event>>, k: nat, len: nat, sid: nat, chunks: nat)
    requires chunks <= 3
  {
    forall r {:trigger LogAt(log, before, k, len, sid, chunks, r)} :: 0 <= r < 3 ==>
      LogAt(log, before, k, len, sid, chunks, r)
  }

  lemma LogAdvances(log: Trio<seq<Event>>, now: Trio<seq<Event>>, before: Trio<seq<Event>>,
                    k: nat, len: nat, sid: nat, chunk: nat, r: nat)
    requires chunk < 3 && r < 3 && LogAt(log, before, k, len, sid, chunk, r)
    requires now.At(PartyOf(r, sid)) == log.At(PartyOf(r, sid)) + SplitChunkScript(k, len, r, chunk)
    ensures LogAt(now, before, k, len, sid, chunk + 1, r)
  {
    assert ChunkScripts(k, len, r, chunk + 1) == ChunkScripts(k, len, r, chunk) + SplitChunkScript(k, len, r, chunk);
  }

  /** What the dealer, its successor and its predecessor did is the script of their roles. */
  lemma ChunkLog(log: Trio<seq<Event>>, now: Trio<seq<Event>>, k: nat, len: nat, sid: nat, chunk: nat, r: nat)
    requires chunk < 3 && r < 3
    requires var d, n := PartyOf(chunk, sid), Piece(len, chunk);
      && now.At(d) == log.At(d) + [DrewPrev(Each(k, n)), SentNext(n)]
      && now.At(After(d)) == log.At(After(d)) + [GotPrev(n)]
      && now.At(Before(d)) == log.At(Before(d)) + [DrewMine(Each(k, n))]
    ensures now.At(PartyOf(r, sid)) == log.At(PartyOf(r, sid)) + SplitChunkScript(k, len, r, chunk)
  {
    ChunkRoles(chunk, sid);
    assert r == chunk || r == After(chunk) || r == Before(chunk);
  }

  lemma LogsAdvance(log: Trio<seq<Event>>, now: Trio<seq<Event>>, before: Trio<seq<Event>>, k: nat, len: nat, sid: nat,
                    chunk: nat)
    requires chunk < 3 && LogsAt(log, before, k, len, sid, chunk)
    requires var d, n := PartyOf(chunk, sid), Piece(len, chunk);
      && now.At(d) == log.At(d) + [DrewPrev(Each(k, n)), SentNext(n)]
      && now.At(After(d)) == log.At(After(d)) + [GotPrev(n)]
      && now.At(Before(d)) == log.At(Before(d)) + [DrewMine(Each(k, n))]
    ensures LogsAt(now, before, k, len, sid, chunk + 1)
  {
    var chunks := chunk + 1;
    forall r | 0 <= r < 3
      ensures LogAt(now, before, k, len, sid, chunks, r)
    {
      assert LogAt(log, before, k, len, sid, chunk, r);
      ChunkLog(log, now, k, len, sid, chunk, r);
      LogAdvances(log, now, before, k, len, sid, chunk, r);
    }
  }

  ghost predicate MidCall(net: Network)
    reads net
  {
    Drained(net.next) && Drained(net.back) && net.InStep() && net.Sound()
  }

  /** The three parties' steps for one chunk, dealt by party d. */
  method SplitChunk(net: Network, v: Vec, chunk: nat, d: nat, k: nat, ghost len: nat, ghost before: Trio<seq<Event>>)
    returns (s1: Vec, s2: Vec)
    requires chunk < 3 && d == PartyOf(chunk, net.sid) && |v| == Piece(len, chunk) && AllInRing(v, k)
    requires MidCall(net) && LogsAt(net.log, before, k, len, net.sid, chunk)
    modifies net`mine, net`prev, net`next, net`log, net`run
    ensures MidCall(net) && LogsAt(net.log, before, k, len, net.sid, chunk + 1)
    ensures AreSplit(s1, s2, v, k)
  {
    ghost var log := net.log;
    var t, rPrev, received, rNext := ChunkRound(net, v, d, k);
    LogsAdvance(log, net.log, before, k, len, net.sid, chunk);
    s1 := DealerShares(v, d, t, rPrev, received, rNext);
    s2 := RestShares(v, d);
    ChunkSplits(v, d, rPrev, k, s1, s2);
  }

  method SplitPieces(net: Network, x: Vec, k: nat) returns (s1: Vec, s2: Vec)
    requires MidCall(net) && AllInRing(x, k)
    modifies net`mine, net`prev, net`next, net`log, net`run
    ensures MidCall(net) && LogsAt(net.log, old(net.log), k, |x|, net.sid, 3)
    ensures AreSplit(s1, s2, x, k)
  {
    s1, s2 := [], [];
    ghost var before := net.log;
    for chunk := 0 to 3
      invariant MidCall(net) && LogsAt(net.log, before, k, |x|, net.sid, chunk)
      invariant AreSplit(s1, s2, x[..Offset(|x|, chunk)], k)
    {
      var offset := Offset(|x|, chunk);
      var piece := x[offset..offset + Piece(|x|, chunk)];
      var t1, t2 := SplitChunk(net, piece, chunk, PartyOf(chunk, net.sid), k, |x|, before);
      NextPiece(s1, s2, t1, t2, x, piece, chunk, k);
      s1, s2 := s1 + t1, s2 + t2;
    }
    assert x[..|x|] == x;
  }

  lemma NextPiece(s1: Vec, s2: Vec, t1: Vec, t2: Vec, x: Vec, piece: Vec, chunk: nat, k: nat)
    requires chunk < 3 && AreSplit(s1, s2, x[..Offset(|x|, chunk)], k) && AreSplit(t1, t2, piece, k)
    requires piece == x[Offset(|x|, chunk)..Offset(|x|, chunk) + Piece(|x|, chunk)]
    ensures Offset(|x|, chunk + 1) <= |x| && AreSplit(s1 + t1, s2 + t2, x[..Offset(|x|, chunk + 1)], k)
  {
    var offset := Offset(|x|, chunk);
    AppendSplit(s1, s2, x[..offset], t1, t2, piece, k);
    OffsetNext(|x|, chunk);
    assert x[..offset] + piece == x[..Offset(|x|, chunk + 1)];
  }

  /** Each third of the input is dealt by another party; the sums of the two outputs are the secrets. */
  method TwoWaySplit(net: Network, x: Vec, k: nat) returns (s1: Vec, s2: Vec)
    requires net.Quiet() && AllInRing(x, k)
    modifies net
    ensures net.Quiet() && net.calls == old(net.calls) + [Split(k, |x|)]
    ensures AreSplit(s1, s2, x, k)
  {
    s1, s2 := [], [];
    if |x| > 0 {
      ghost var before := net.log;
      s1, s2 := SplitPieces(net, x, k);
      AllChunks(k, |x|);
      Derotate(net.log, before, k, |x|, net.sid);
    }
    net.Finish(Split(k, |x|));
  }

  function Offset(len: nat, chunk: nat): (r: nat)
    requires chunk <= 3
    ensures chunk < 3 ==> r + Piece(len, chunk) <= len
  {
    if chunk == 0 then 0
    else if chunk == 1 then Piece(len, 0)
    else if chunk == 2 then Piece(len, 0) + Piece(len, 1)
    else len
  }

  lemma OffsetNext(len: nat, chunk: nat)
    requires chunk < 3
    ensures Offset(len, chunk + 1) == Offset(len, chunk) + Piece(len, chunk)
  {
  }

  lemma AllChunks(k: nat, len: nat)
    requires len > 0
    ensures forall r :: 0 <= r < 3 ==> ChunkScripts(k, len, r, 3) == SplitScript(k, len, r)
  {
    forall r | 0 <= r < 3
      ensures ChunkScripts(k, len, r, 3) == SplitScript(k, len, r)
    {
      assert ChunkScripts(k, len, r, 1) == SplitChunkScript(k, len, r, 0);
      assert ChunkScripts(k, len, r, 2) == ChunkScripts(k, len, r, 1) + SplitChunkScript(k, len, r, 1);
    }
  }

  lemma Derotate(log: Trio<seq<Event>>, before: Trio<seq<Event>>, k: nat, len: nat, sid: nat)
    requires LogsAt(log, before, k, len, sid, 3)
    ensures forall i :: 0 <= i < 3 ==> log.At(i) == before.At(i) + ChunkScripts(k, len, Rotated(i, sid), 3)
  {
    forall i | 0 <= i < 3
      ensures log.At(i) == before.At(i) + ChunkScripts(k, len, Rotated(i, sid), 3)
    {
      assert PartyOf(Rotated(i, sid), sid) == i && LogAt(log, before, k, len, sid, 3, Rotated(i, sid));
    }
  }

  lemma AppendSplit(s1: Vec, s2: Vec, x: Vec, t1: Vec, t2: Vec, y: Vec, k: nat)
    requires AreSplit(s1, s2, x, k) && AreSplit(t1, t2, y, k)
    ensures AreSplit(s1 + t1, s2 + t2, x + y, k)
  {
  }
}
