/** What a session draws against what the generators put out. */
module Draws {
  import opened Words
  import opened Results
  import opened Sessions
  import opened Swaps
  import opened Shuffling
  import Prf

  /** The session's stream for a draw begins with these values. */
  ghost predicate Shows(net: Network, key: nat, history: seq<Draw>, out: seq<nat>) {
    forall j :: 0 <= j < |out| ==> net.stream(key, history, j) == out[j]
  }

  // ----- permutations ------------------------------------------------------------------------------------

  /** out lists the accepted outputs behind the first n choices drawn from position pos on. */
  ghost predicate Delivers(out: seq<nat>, g: Prf.Generator, pos: nat, n: nat, next: nat)
    requires n <= |out|
  {
    if n <= 1 then next == pos
    else exists mid: nat :: Delivers(out, g, pos, n - 1, mid) && Accepts(out, g, mid, n, next)
  }

  ghost predicate Accepts(out: seq<nat>, g: Prf.Generator, mid: nat, n: nat, next: nat)
    requires 1 <= n <= |out|
  {
    next >= 1 && Prf.FirstAccepted(g, mid, next - 1, n) && out[n - 1] == g(next - 1)
  }

  lemma AcceptedChoice(out: seq<nat>, g: Prf.Generator, mid: nat, n: nat, next: nat, next': nat, c: seq<nat>)
    requires 1 <= n <= |out| && n <= |c| && Accepts(out, g, mid, n, next) && Prf.DrawStep(g, mid, next', n, c)
    ensures next == next' && c[n - 1] == out[n - 1] % n
  {
  }

  lemma {:induction false} DeliveredChoices(out: seq<nat>, g: Prf.Generator, pos: nat, n: nat, next: nat, next': nat,
                                            c: seq<nat>)
    requires n <= |out| && n <= |c| && Delivers(out, g, pos, n, next) && Prf.DrawsFrom(g, pos, c, n, next')
    ensures next == next' && forall i :: 0 <= i < n ==> c[i] == out[i] % (i + 1)
  {
    if n > 1 {
      var mid: nat :| Delivers(out, g, pos, n - 1, mid) && Accepts(out, g, mid, n, next);
      var mid': nat :| Prf.DrawsFrom(g, pos, c, n - 1, mid') && Prf.DrawStep(g, mid', next', n, c);
      DeliveredChoices(out, g, pos, n - 1, mid, mid', c);
      AcceptedChoice(out, g, mid, n, next, next', c);
    }
  }

  lemma ReducedChoices(net: Network, key: nat, history: seq<Draw>, out: seq<nat>, c: seq<nat>)
    requires Shows(net, key, history, out) && |c| == |out| && forall i :: 0 <= i < |c| ==> c[i] == out[i] % (i + 1)
    ensures net.Choices(key, history, |c|) == c
  {
  }

  /** The permutation a session draws is the one the generator's choices lead to. */
  lemma PermutationDrawn(net: Network, key: nat, history: seq<Draw>, out: seq<nat>, g: Prf.Generator, pos: nat,
                         c: seq<nat>, next: nat, next': nat)
    requires Shows(net, key, history, out) && Delivers(out, g, pos, |out|, next)
    requires |c| == |out| && Prf.DrawsFrom(g, pos, c, |c|, next')
    ensures next == next' && Prf.ValidChoices(c) && net.Shuffled(key, history, |c|) == Prf.FisherYates(c, |c|)
  {
    DeliveredChoices(out, g, pos, |out|, next, next', c);
    ReducedChoices(net, key, history, out, c);
  }

  lemma {:induction false} AcceptedFrom(g: Prf.Generator, pos: nat, hit: nat, modulus: nat) returns (p: nat)
    requires modulus >= 1 && pos <= hit && g(hit) <= Prf.RejectionBound(modulus)
    ensures Prf.FirstAccepted(g, pos, p, modulus)
    decreases hit - pos
  {
    if g(pos) <= Prf.RejectionBound(modulus) {
      p := pos;
    } else {
      p := AcceptedFrom(g, pos + 1, hit, modulus);
    }
  }

  lemma {:induction false} DeliversPrefix(out: seq<nat>, more: seq<nat>, g: Prf.Generator, pos: nat, n: nat, next: nat)
    requires n <= |out| && n <= |more| && (forall i :: 0 <= i < n ==> out[i] == more[i])
    requires Delivers(out, g, pos, n, next)
    ensures Delivers(more, g, pos, n, next)
  {
    if n > 1 {
      var mid: nat :| Delivers(out, g, pos, n - 1, mid) && Accepts(out, g, mid, n, next);
      DeliversPrefix(out, more, g, pos, n - 1, mid);
      assert Accepts(more, g, mid, n, next);
    }
  }

  /** Every fair generator delivers outputs for every number of choices. */
  lemma {:induction false} FairDelivers(g: Prf.Generator, pos: nat, n: nat) returns (out: seq<nat>, next: nat)
    requires Prf.Fair(g) && n <= 0xffff_ffff
    ensures |out| == n && Delivers(out, g, pos, n, next)
  {
    if n <= 1 {
      out, next := seq(n, i => 0), pos;
    } else {
      var before, mid := FairDelivers(g, pos, n - 1);
      Prf.BoundIsMultiple(n);
      assert Prf.Later(g, mid);
      var hit :| hit >= mid && g(hit) < 0x8000_0000_0000_0000;
      var p := AcceptedFrom(g, mid, hit, n);
      out, next := before + [g(p)], p + 1;
      DeliversPrefix(before, out, g, pos, n - 1, mid);
      assert Accepts(out, g, mid, n, next);
    }
  }

  /** A stream that shows valid choices leads to their permutation. */
  lemma ChoicesShown(net: Network, key: nat, history: seq<Draw>, c: seq<nat>)
    requires Shows(net, key, history, c) && Prf.ValidChoices(c)
    ensures net.Shuffled(key, history, |c|) == Prf.FisherYates(c, |c|)
  {
    forall i | 0 <= i < |c|
      ensures c[i] == c[i] % (i + 1)
    {
      DivModUnique(c[i], i + 1, 0, c[i]);
    }
    ReducedChoices(net, key, history, c, c);
  }

  // ----- ring elements and coins ------------------------------------------------------------------------

  /** Any ring elements are drawn from a stream that shows them. */
  lemma ValuesShown(net: Network, key: nat, history: seq<Draw>, width: nat, v: seq<nat>)
    requires Shows(net, key, history, v) && forall j :: 0 <= j < |v| ==> v[j] < Pow2(width)
    ensures net.Values(key, history, width, |v|) == v
  {
    forall j | 0 <= j < |v|
      ensures Residue(v[j], width) == v[j]
    {
      DivModUnique(v[j], Pow2(width), 0, v[j]);
    }
  }

  /** Any coins are drawn from a stream whose values have these parities. */
  lemma CoinsShown(net: Network, key: nat, history: seq<Draw>, out: seq<nat>, coins: seq<bool>)
    requires Shows(net, key, history, out) && |coins| == |out|
    requires forall j :: 0 <= j < |out| ==> out[j] % 2 == B(coins[j])
    ensures net.Coins(key, history, |coins|) == coins
  {
  }

  // ----- the shuffle -------------------------------------------------------------------------------------

  /** The stream in which the key of role r always shows list r. */
  function ChosenStream(sid: nat, c0: seq<nat>, c1: seq<nat>, c2: seq<nat>): (stream: (nat, seq<Draw>, nat) -> nat) {
    var p := PartyOf(0, sid);
    (key: nat, history: seq<Draw>, j: nat) =>
      var c := if key == p then c0 else if key == After(p) then c1 else c2;
      if j < |c| then c[j] else 0
  }

  predicate SameSize(c0: seq<nat>, c1: seq<nat>, c2: seq<nat>) {
    |c0| == |c1| == |c2| >= 1 && Prf.ValidChoices(c0) && Prf.ValidChoices(c1) && Prf.ValidChoices(c2)
  }

  /** The three roles' choices decide the permutations. */
  lemma DrawnAsChosen(net: Network, mine: Trio<seq<Draw>>, c0: seq<nat>, c1: seq<nat>, c2: seq<nat>, d0: Drawn,
                      d1: Drawn, d2: Drawn)
    requires SameSize(c0, c1, c2) && net.stream == ChosenStream(net.sid, c0, c1, c2)
    requires ArePermutations(d0, d1, d2, net, mine, |c0|)
    ensures d0.perm == Prf.FisherYates(c0, |c0|) && d1.perm == Prf.FisherYates(c1, |c1|)
    ensures d2.perm == Prf.FisherYates(c2, |c2|)
  {
    var p := PartyOf(0, net.sid);
    ChoicesShown(net, p, mine.At(p), c0);
    ChoicesShown(net, After(p), mine.At(After(p)), c1);
    ChoicesShown(net, Before(p), mine.At(Before(p)), c2);
  }

  /** Where entry i of a batch comes from: the permutation of role 1 is looked up first, that of role 0 last. */
  function SourceOf(c0: seq<nat>, c1: seq<nat>, c2: seq<nat>, i: nat): (s: nat)
    requires SameSize(c0, c1, c2) && i < |c0|
    ensures s < |c0|
  {
    var n := |c0|;
    Prf.FisherYatesPermutes(c0, n);
    Prf.FisherYatesPermutes(c1, n);
    Prf.FisherYatesPermutes(c2, n);
    Prf.FisherYates(c0, n)[Prf.FisherYates(c2, n)[Prf.FisherYates(c1, n)[i]]]
  }

  /** A session with these choices shuffles every batch by their three permutations. */
  method ShuffleChosen(sid: nat, distances: seq<seq<Entry>>, k: nat, c0: seq<nat>, c1: seq<nat>, c2: seq<nat>)
    returns (r: seq<seq<Entry>>)
    requires SameSize(c0, c1, c2) && distances != [] && SameBatches(distances, |c0|)
    ensures |r| == |distances| && SameBatches(r, |c0|)
    ensures forall b, i :: 0 <= b < |r| && 0 <= i < |c0| ==>
      OpenOne(r[b][i], k) == OpenOne(distances[b][SourceOf(c0, c1, c2, i)], k)
  {
    var net := new Network(sid, ChosenStream(sid, c0, c1, c2));
    ghost var mine := net.mine;
    var res, d0, d1, d2 := RandomShuffleBatch(net, distances, k);
    r := res.value;
    DrawnAsChosen(net, mine, c0, c1, c2, d0, d1, d2);
    forall b, i | 0 <= b < |r| && 0 <= i < |c0|
      ensures OpenOne(r[b][i], k) == OpenOne(distances[b][SourceOf(c0, c1, c2, i)], k)
    {
      assert IsShuffledBatch(r[b], distances[b], d0, d1, d2, k);
    }
  }

  /** Choices for role 0 and none of consequence for the others. */
  lemma OnePermutes(p: seq<nat>, i: nat)
    requires Prf.IsPermutation(p) && i < |p|
    ensures SameSize(Prf.ChoicesOf(p), Prf.Identity(|p|), Prf.Identity(|p|))
    ensures SourceOf(Prf.ChoicesOf(p), Prf.Identity(|p|), Prf.Identity(|p|), i) == p[i]
  {
    Prf.IdentityChosen(|p|, |p|);
  }

  /** For every permutation there is a session that shuffles every batch by it. */
  method ShuffleTo(sid: nat, distances: seq<seq<Entry>>, k: nat, p: seq<nat>) returns (r: seq<seq<Entry>>)
    requires Prf.IsPermutation(p) && p != [] && distances != [] && SameBatches(distances, |p|)
    ensures |r| == |distances| && SameBatches(r, |p|)
    ensures forall b, i :: 0 <= b < |r| && 0 <= i < |p| ==> OpenOne(r[b][i], k) == OpenOne(distances[b][p[i]], k)
  {
    var c, same := Prf.ChoicesOf(p), Prf.Identity(|p|);
    r := ShuffleChosen(sid, distances, k, c, same, same);
    forall b, i | 0 <= b < |r| && 0 <= i < |p|
      ensures OpenOne(r[b][i], k) == OpenOne(distances[b][p[i]], k)
    {
      OnePermutes(p, i);
    }
  }
}
