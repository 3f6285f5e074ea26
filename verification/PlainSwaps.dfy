/** Conditional swaps of entries whose ids are public. The ids are narrower than the ring they are
    embedded in, and their difference and sum wrap before they are. */
module PlainSwaps {
  import opened Words
  import opened Rep3
  import opened Sessions
  import opened Results
  import opened Injection
  import opened Ops
  import opened Swaps

  // ----- the two id expressions ----------------------------------------------------------------

  /** bit * (id1 - id2) + id2, where the difference wraps to w bits before it enters the ring. */
  function FirstId(bit: Shared<nat>, id1: nat, id2: nat, w: nat, k: nat): (r: Shared<nat>) {
    AddConst(ScaleShared(bit, (id1 - id2) % Pow2(w), k), id2, k)
  }

  /** (id1 + id2) - first, where the sum wraps to w bits. */
  function SecondId(first: Shared<nat>, id1: nat, id2: nat, w: nat, k: nat): (r: Shared<nat>) {
    AddConst(SubShared(Shared(0, 0, 0), first, k), (id1 + id2) % Pow2(w), k)
  }

  /** What the two open to, with ids modulo `word` in a ring modulo m. */
  function FirstValue(b: bool, id1: nat, id2: nat, word: nat, m: nat): (r: nat)
    requires word > 0 && m > 0
  {
    (W(b, (id1 - id2) % word) + id2) % m
  }

  function SecondValue(b: bool, id1: nat, id2: nat, word: nat, m: nat): (r: nat)
    requires word > 0 && m > 0
  {
    ((id1 + id2) % word - FirstValue(b, id1, id2, word, m)) % m
  }

  lemma FirstIdOpens(bit: Shared<nat>, b: bool, id1: nat, id2: nat, w: nat, k: nat)
    requires Open(bit, k) == B(b)
    ensures Open(FirstId(bit, id1, id2, w, k), k) == FirstValue(b, id1, id2, Pow2(w), Pow2(k))
  {
    var d := (id1 - id2) % Pow2(w);
    OpenScale(bit, d, k);
    assert B(b) * d == W(b, d);
    OpenAddConst(ScaleShared(bit, d, k), id2, k);
    ModIdem(W(b, d), Pow2(k));
    EqModAdd(W(b, d) % Pow2(k), W(b, d), id2, id2, Pow2(k));
  }

  lemma NegatedPlus(x: int, c: int, m: int)
    requires m > 0
    ensures ((-x) % m + c) % m == (c - x) % m
  {
    ModIdem(-x, m);
    EqModAdd((-x) % m, -x, c, c, m);
  }

  lemma NegatedOpens(first: Shared<nat>, k: nat)
    ensures Open(SubShared(Shared(0, 0, 0), first, k), k) == (0 - Open(first, k)) % Pow2(k)
  {
    DivModUnique(0, Pow2(k), 0, 0);
    OpenSub(Shared(0, 0, 0), first, k);
  }

  lemma SecondIdOpens(bit: Shared<nat>, b: bool, id1: nat, id2: nat, w: nat, k: nat)
    requires Open(bit, k) == B(b)
    ensures Open(SecondId(FirstId(bit, id1, id2, w, k), id1, id2, w, k), k)
         == SecondValue(b, id1, id2, Pow2(w), Pow2(k))
  {
    var first, c := FirstId(bit, id1, id2, w, k), (id1 + id2) % Pow2(w);
    FirstIdOpens(bit, b, id1, id2, w, k);
    NegatedOpens(first, k);
    OpenAddConst(SubShared(Shared(0, 0, 0), first, k), c, k);
    NegatedPlus(Open(first, k), c, Pow2(k));
  }

  // ----- when the ids come out right -------------------------------------------------------------

  lemma Wrapped(id1: nat, id2: nat, word: nat)
    requires id1 < word && id2 < word
    ensures (id1 - id2) % word == if id1 >= id2 then id1 - id2 else id1 - id2 + word
    ensures (id1 + id2) % word == if id1 + id2 < word then id1 + id2 else id1 + id2 - word
  {
    var d, s := id1 - id2, id1 + id2;
    DivModUnique(d, word, if d >= 0 then 0 else -1, if d >= 0 then d else d + word);
    DivModUnique(s, word, if s < word then 0 else 1, if s < word then s else s - word);
  }

  /** Neither the difference nor the sum of the ids wraps. */
  predicate Fit(id1: nat, id2: nat, word: nat) {
    id1 >= id2 && id1 + id2 < word
  }

  /** In a ring of the ids' own width both always come out right. */
  lemma NarrowValues(b: bool, id1: nat, id2: nat, word: nat)
    requires id1 < word && id2 < word
    ensures FirstValue(b, id1, id2, word, word) == if b then id1 else id2
    ensures SecondValue(b, id1, id2, word, word) == if b then id2 else id1
  {
    Wrapped(id1, id2, word);
    var x, y := if b then id1 else id2, if b then id2 else id1;
    DivModUnique(W(b, (id1 - id2) % word) + id2, word, if b && id1 < id2 then 1 else 0, x);
    DivModUnique((id1 + id2) % word - x, word, if id1 + id2 < word then 0 else -1, y);
  }

  /** In a wider one the first is right unless it is selected and smaller, and the second is right if
      moreover the sum does not wrap. */
  lemma WideValues(b: bool, id1: nat, id2: nat, word: nat, m: nat)
    requires id1 < word && id2 < word && m >= 4 * word
    ensures FirstValue(b, id1, id2, word, m) == (if b then id1 else id2) <==> !b || id1 >= id2
    ensures SecondValue(b, id1, id2, word, m) == (if b then id2 else id1) <==> (!b || id1 >= id2) && id1 + id2 < word
  {
    Wrapped(id1, id2, word);
    var x, y := if b then id1 else id2, if b then id2 else id1;
    var bad := b && id1 < id2;
    var first := if bad then x + word else x;
    DivModUnique(W(b, (id1 - id2) % word) + id2, m, 0, first);
    var v := y - (if bad then word else 0) - if id1 + id2 < word then 0 else word;
    DivModUnique(v, m, if v >= 0 then 0 else -1, if v >= 0 then v else v + m);
  }

  /** Whatever sharing of whichever bit is used, both shared ids open to the right ones. */
  ghost predicate IdsRight(id1: nat, id2: nat, w: nat, k: nat) {
    forall bit: Shared<nat>, b: bool :: Open(bit, k) == B(b) ==> IdsOpenRight(bit, b, id1, id2, w, k)
  }

  ghost predicate IdsOpenRight(bit: Shared<nat>, b: bool, id1: nat, id2: nat, w: nat, k: nat) {
    var first := FirstId(bit, id1, id2, w, k);
    && Open(first, k) == (if b then id1 else id2)
    && Open(SecondId(first, id1, id2, w, k), k) == if b then id2 else id1
  }

  lemma IdsOpen(bit: Shared<nat>, b: bool, id1: nat, id2: nat, w: nat, k: nat)
    requires Open(bit, k) == B(b)
    ensures IdsOpenRight(bit, b, id1, id2, w, k) <==>
      && FirstValue(b, id1, id2, Pow2(w), Pow2(k)) == (if b then id1 else id2)
      && SecondValue(b, id1, id2, Pow2(w), Pow2(k)) == if b then id2 else id1
  {
    FirstIdOpens(bit, b, id1, id2, w, k);
    SecondIdOpens(bit, b, id1, id2, w, k);
  }

  /** In a ring of the ids' own width the shared ids are always right. */
  lemma PlainIdsNarrow(id1: nat, id2: nat, w: nat)
    requires id1 < Pow2(w) && id2 < Pow2(w)
    ensures IdsRight(id1, id2, w, w)
  {
    forall bit: Shared<nat>, b: bool | Open(bit, w) == B(b)
      ensures IdsOpenRight(bit, b, id1, id2, w, w)
    {
      IdsOpen(bit, b, id1, id2, w, w);
      NarrowValues(b, id1, id2, Pow2(w));
    }
  }

  lemma Wider(w: nat, k: nat)
    requires k >= w + 2
    ensures Pow2(k) >= 4 * Pow2(w)
  {
    Pow2Add(w, k - w);
    Pow2Add(2, k - w - 2);
    assert Pow2(k - w) >= 4;
    MulNonneg(Pow2(k - w) - 4, Pow2(w));
  }

  /** In a wider ring they are right if and only if the first id is not the smaller one and the sum fits. */
  lemma PlainIdsWide(id1: nat, id2: nat, w: nat, k: nat)
    requires id1 < Pow2(w) && id2 < Pow2(w) && k >= w + 2
    ensures IdsRight(id1, id2, w, k) <==> Fit(id1, id2, Pow2(w))
  {
    Wider(w, k);
    forall bit: Shared<nat>, b: bool | Open(bit, k) == B(b)
      ensures IdsOpenRight(bit, b, id1, id2, w, k) <==> (!b || id1 >= id2) && id1 + id2 < Pow2(w)
    {
      IdsOpen(bit, b, id1, id2, w, k);
      WideValues(b, id1, id2, Pow2(w), Pow2(k));
    }
    var one := Shared(1, 0, 0);
    DivModUnique(1, Pow2(k), 0, 1);
    assert Open(one, k) == B(true);
    assert IdsRight(id1, id2, w, k) ==> IdsOpenRight(one, true, id1, id2, w, k);
  }

  /** Ids 3 and 7 in a wider ring, first one selected: it opens 2^w too high. */
  lemma PlainIdCounterexample(bit: Shared<nat>, w: nat, k: nat)
    requires 7 < Pow2(w) && k >= w + 2 && Open(bit, k) == 1
    ensures Open(FirstId(bit, 3, 7, w, k), k) == 3 + Pow2(w)
  {
    Wider(w, k);
    FirstIdOpens(bit, true, 3, 7, w, k);
    Wrapped(3, 7, Pow2(w));
    var v := 3 + Pow2(w);
    DivModUnique(v, Pow2(k), 0, v);
  }

  // ----- swapping a list ------------------------------------------------------------------------------

  datatype PlainEntry = PlainEntry(id: nat, distance: Distance)

  /** A public id as a sharing: role 0 and role 1 hold it, role 2 does not. */
  function FromConst(id: nat): (r: Shared<nat>) {
    Join(Share(id, 0), Share(0, id), Share(0, 0))
  }

  function Embed(e: PlainEntry): (r: Entry) {
    Entry(FromConst(e.id), e.distance.code, e.distance.mask)
  }

  function OpenPlain(list: seq<PlainEntry>, k: nat): (r: seq<OpenEntry>)
    ensures |r| == |list|
    ensures forall i :: 0 <= i < |list| ==>
      r[i] == OpenEntry(list[i].id, Open(list[i].distance.code, k), Open(list[i].distance.mask, k))
  {
    seq(|list|, i requires 0 <= i < |list| =>
      OpenEntry(list[i].id, Open(list[i].distance.code, k), Open(list[i].distance.mask, k)))
  }

  predicate Narrow(s: seq<OpenEntry>, word: nat) {
    forall i :: 0 <= i < |s| ==> s[i].id < word
  }

  /** What is written to the two ends of a pair. */
  function PlainFirst(e1: OpenEntry, e2: OpenEntry, b: bool, word: nat, m: nat): (r: OpenEntry)
    requires word > 0 && m > 0
  {
    (if b then e1 else e2).(id := FirstValue(b, e1.id, e2.id, word, m))
  }

  function PlainSecond(e1: OpenEntry, e2: OpenEntry, b: bool, word: nat, m: nat): (r: OpenEntry)
    requires word > 0 && m > 0
  {
    (if b then e2 else e1).(id := SecondValue(b, e1.id, e2.id, word, m))
  }

  function PlainSnapshot(s: seq<OpenEntry>, keep: seq<bool>, indices: seq<Pair>, n: nat, word: nat, m: nat)
    : (r: seq<OpenEntry>)
    requires n <= |indices| && n <= |keep| && Inside(indices, |s|) && word > 0 && m > 0
    ensures |r| == |s|
  {
    if n == 0 then s
    else
      var (p, b) := (indices[n - 1], keep[n - 1]);
      PlainSnapshot(s, keep, indices, n - 1, word, m)
        [p.0 := PlainFirst(s[p.0], s[p.1], b, word, m)][p.1 := PlainSecond(s[p.0], s[p.1], b, word, m)]
  }

  /** The pair at an index gets the ids right for this bit. */
  predicate PairRight(s: seq<OpenEntry>, p: Pair, b: bool, word: nat, m: nat)
    requires p.0 < |s| && p.1 < |s| && word > 0 && m > 0
  {
    && FirstValue(b, s[p.0].id, s[p.1].id, word, m) == (if b then s[p.0] else s[p.1]).id
    && SecondValue(b, s[p.0].id, s[p.1].id, word, m) == (if b then s[p.1] else s[p.0]).id
  }

  lemma {:induction false} RightIsSnapshot(s: seq<OpenEntry>, keep: seq<bool>, indices: seq<Pair>, n: nat, word: nat,
                                           m: nat)
    requires n <= |indices| && n <= |keep| && Inside(indices, |s|) && word > 0 && m > 0
    requires forall j :: 0 <= j < n ==> PairRight(s, indices[j], keep[j], word, m)
    ensures PlainSnapshot(s, keep, indices, n, word, m) == SwapSnapshot(s, keep, indices, n)
  {
    if n > 0 {
      RightIsSnapshot(s, keep, indices, n - 1, word, m);
      assert PairRight(s, indices[n - 1], keep[n - 1], word, m);
    }
  }

  /** Later pairs elsewhere leave what pair l wrote. */
  lemma {:induction false} PlainWritten(s: seq<OpenEntry>, keep: seq<bool>, indices: seq<Pair>, l: nat, n: nat, x: nat,
                                        word: nat, m: nat)
    requires l < n <= |indices| && n <= |keep| && Inside(indices, |s|) && word > 0 && m > 0 && !Apart(indices[l], x)
    requires forall j :: l < j < n ==> Apart(indices[j], x)
    ensures x < |s|
    ensures PlainSnapshot(s, keep, indices, n, word, m)[x] ==
      var p := indices[l];
      if x == p.1 then PlainSecond(s[p.0], s[p.1], keep[l], word, m) else PlainFirst(s[p.0], s[p.1], keep[l], word, m)
    decreases n
  {
    if l + 1 < n {
      PlainWritten(s, keep, indices, l, n - 1, x, word, m);
    }
  }

  /** All bits alike. */
  function AllBits(n: nat, b: bool): (keep: seq<bool>)
    ensures |keep| == n && forall j :: 0 <= j < n ==> keep[j] == b
  {
    seq(n, _ => b)
  }

  predicate PairsFit(s: seq<OpenEntry>, indices: seq<Pair>, word: nat)
    requires Inside(indices, |s|)
  {
    forall j :: 0 <= j < |indices| ==> Fit(s[indices[j].0].id, s[indices[j].1].id, word)
  }

  lemma MisfitShows(s: seq<OpenEntry>, indices: seq<Pair>, j: nat, word: nat, m: nat)
    requires Inside(indices, |s|) && Disjoint(indices) && Narrow(s, word) && m >= 4 * word > 0 && j < |indices|
    requires !Fit(s[indices[j].0].id, s[indices[j].1].id, word)
    ensures var keep := AllBits(|indices|, true);
      PlainSnapshot(s, keep, indices, |indices|, word, m) != SwapSnapshot(s, keep, indices, |indices|)
  {
    var n, keep, p := |indices|, AllBits(|indices|, true), indices[j];
    WideValues(true, s[p.0].id, s[p.1].id, word, m);
    var x := if s[p.0].id < s[p.1].id then p.0 else p.1;
    assert forall i :: j < i < n ==> PairsApart(p, indices[i]);
    PlainWritten(s, keep, indices, j, n, x, word, m);
    LastWriter(s, keep, indices, j, n, x);
  }

  /** On disjoint pairs in a wider ring: the ids follow the distances for all bits if and only if they
      fit in every pair. */
  lemma PlainSwapWide(s: seq<OpenEntry>, indices: seq<Pair>, word: nat, m: nat)
    requires Inside(indices, |s|) && Disjoint(indices) && Narrow(s, word) && m >= 4 * word > 0
    ensures (forall keep: seq<bool> :: |keep| == |indices| ==>
        PlainSnapshot(s, keep, indices, |indices|, word, m) == SwapSnapshot(s, keep, indices, |indices|))
      <==> PairsFit(s, indices, word)
  {
    if PairsFit(s, indices, word) {
      forall keep: seq<bool> | |keep| == |indices|
        ensures PlainSnapshot(s, keep, indices, |indices|, word, m) == SwapSnapshot(s, keep, indices, |indices|)
      {
        forall j | 0 <= j < |indices|
          ensures PairRight(s, indices[j], keep[j], word, m)
        {
          WideValues(keep[j], s[indices[j].0].id, s[indices[j].1].id, word, m);
        }
        RightIsSnapshot(s, keep, indices, |indices|, word, m);
      }
    } else {
      var j :| 0 <= j < |indices| && !Fit(s[indices[j].0].id, s[indices[j].1].id, word);
      MisfitShows(s, indices, j, word, m);
    }
  }

  /** In a ring of the ids' own width they always do. */
  lemma PlainSwapNarrow(s: seq<OpenEntry>, keep: seq<bool>, indices: seq<Pair>, word: nat)
    requires Inside(indices, |s|) && Narrow(s, word) && |keep| == |indices| && word > 0
    ensures PlainSnapshot(s, keep, indices, |indices|, word, word) == SwapSnapshot(s, keep, indices, |indices|)
  {
    forall j | 0 <= j < |indices|
      ensures PairRight(s, indices[j], keep[j], word, word)
    {
      NarrowValues(keep[j], s[indices[j].0].id, s[indices[j].1].id, word);
    }
    RightIsSnapshot(s, keep, indices, |indices|, word, word);
  }

  // ----- the protocol -------------------------------------------------------------------------------------

  function SideDistances(list: seq<PlainEntry>, indices: seq<Pair>, second: bool): (r: seq<Distance>)
    requires Inside(indices, |list|)
    ensures |r| == |indices|
    ensures forall j :: 0 <= j < |indices| ==> r[j] == list[if second then indices[j].1 else indices[j].0].distance
  {
    seq(|indices|, j requires 0 <= j < |indices| => list[if second then indices[j].1 else indices[j].0].distance)
  }

  function EmbedAll(list: seq<PlainEntry>): (r: seq<Entry>)
    ensures |r| == |list| && forall i :: 0 <= i < |list| ==> r[i] == Embed(list[i])
  {
    seq(|list|, i requires 0 <= i < |list| => Embed(list[i]))
  }

  lemma EmbedOpens(list: seq<PlainEntry>, k: nat)
    requires forall i :: 0 <= i < |list| ==> list[i].id < Pow2(k)
    ensures OpenList(EmbedAll(list), k) == OpenPlain(list, k)
  {
    forall i | 0 <= i < |list|
      ensures OpenOne(Embed(list[i]), k) == OpenPlain(list, k)[i]
    {
      DivModUnique(list[i].id, Pow2(k), 0, list[i].id);
    }
  }

  /** The two entries written for a pair. */
  function NewFirst(bit: Shared<nat>, e1: PlainEntry, e2: PlainEntry, first: Distance, w: nat, k: nat): (r: Entry) {
    Entry(FirstId(bit, e1.id, e2.id, w, k), first.code, first.mask)
  }

  function NewSecond(bit: Shared<nat>, e1: PlainEntry, e2: PlainEntry, first: Distance, w: nat, k: nat): (r: Entry) {
    Entry(SecondId(FirstId(bit, e1.id, e2.id, w, k), e1.id, e2.id, w, k),
          Other(e1.distance.code, e2.distance.code, first.code, k),
          Other(e1.distance.mask, e2.distance.mask, first.mask, k))
  }

  lemma NewPairOpens(bit: Shared<nat>, b: bool, e1: PlainEntry, e2: PlainEntry, first: Distance, w: nat, k: nat)
    requires Open(bit, k) == B(b) && OpenDistance(first, k) == OpenDistance((if b then e1 else e2).distance, k)
    ensures var o := OpenPlain([e1, e2], k);
      && OpenOne(NewFirst(bit, e1, e2, first, w, k), k) == PlainFirst(o[0], o[1], b, Pow2(w), Pow2(k))
      && OpenOne(NewSecond(bit, e1, e2, first, w, k), k) == PlainSecond(o[0], o[1], b, Pow2(w), Pow2(k))
  {
    FirstIdOpens(bit, b, e1.id, e2.id, w, k);
    SecondIdOpens(bit, b, e1.id, e2.id, w, k);
    OtherOpens(e1.distance.code, e2.distance.code, first.code, k, b);
    OtherOpens(e1.distance.mask, e2.distance.mask, first.mask, k, b);
  }

  lemma WriteNewPair(out: seq<Entry>, list: seq<PlainEntry>, p: Pair, bit: Shared<nat>, b: bool, first: Distance,
                     w: nat, k: nat)
    requires |out| == |list| && p.0 < |list| && p.1 < |list|
    requires Open(bit, k) == B(b) && OpenDistance(first, k) == OpenDistance(list[if b then p.0 else p.1].distance, k)
    ensures var s := OpenPlain(list, k);
      OpenList(out[p.0 := NewFirst(bit, list[p.0], list[p.1], first, w, k)]
                  [p.1 := NewSecond(bit, list[p.0], list[p.1], first, w, k)], k)
      == OpenList(out, k)[p.0 := PlainFirst(s[p.0], s[p.1], b, Pow2(w), Pow2(k))]
                         [p.1 := PlainSecond(s[p.0], s[p.1], b, Pow2(w), Pow2(k))]
  {
    NewPairOpens(bit, b, list[p.0], list[p.1], first, w, k);
  }

  ghost predicate AreFirsts(first: seq<Distance>, list: seq<PlainEntry>, indices: seq<Pair>, keep: seq<bool>, k: nat)
    requires Inside(indices, |list|)
  {
    && |first| == |keep| == |indices|
    && forall j :: 0 <= j < |indices| ==>
      OpenDistance(first[j], k) == OpenDistance(list[if keep[j] then indices[j].0 else indices[j].1].distance, k)
  }

  method WritePlain(list: seq<PlainEntry>, indices: seq<Pair>, control: Vec, first: seq<Distance>, w: nat, k: nat,
                    ghost keep: seq<bool>) returns (out: seq<Entry>)
    requires Inside(indices, |list|) && AreFirsts(first, list, indices, keep, k) && |control| == |indices|
    requires forall j :: 0 <= j < |control| ==> Open(control[j], k) == B(keep[j])
    requires forall i :: 0 <= i < |list| ==> list[i].id < Pow2(k)
    ensures OpenList(out, k) == PlainSnapshot(OpenPlain(list, k), keep, indices, |indices|, Pow2(w), Pow2(k))
  {
    out := EmbedAll(list);
    EmbedOpens(list, k);
    for j := 0 to |indices|
      invariant |out| == |list|
      invariant OpenList(out, k) == PlainSnapshot(OpenPlain(list, k), keep, indices, j, Pow2(w), Pow2(k))
    {
      var (i1, i2) := indices[j];
      WriteNewPair(out, list, indices[j], control[j], keep[j], first[j], w, k);
      out := out[i1 := NewFirst(control[j], list[i1], list[i2], first[j], w, k)]
                [i2 := NewSecond(control[j], list[i1], list[i2], first[j], w, k)];
    }
  }

  /** Public ids of w bits become shared ids in the k-bit ring; the distances are swapped as before. */
  method ConditionallySwapDistancesPlainIds(net: Network, bits: Plane, list: seq<PlainEntry>, indices: seq<Pair>,
                                            w: nat, k: nat)
    returns (r: Result<seq<Entry>>)
    requires net.Quiet() && k >= 1 && w <= k && Narrow(OpenPlain(list, k), Pow2(w))
    modifies net
    ensures net.Quiet()
    ensures r.Success? <==> |bits| == |indices| && Inside(indices, |list|)
    ensures r.Success? ==>
      OpenList(r.value, k) == PlainSnapshot(OpenPlain(list, k), OpenKeeps(bits), indices, |indices|, Pow2(w), Pow2(k))
  {
    if |bits| != |indices| {
      return Failure(InvalidSize);
    }
    var ok := CheckIndices(indices, |list|);
    if !ok {
      return Failure(OutOfBounds);
    }
    var control := BitInject(net, bits, k);
    var left, right := SideDistances(list, indices, false), SideDistances(list, indices, true);
    var first := ConditionallySelectDistance(net, left, right, control, k);
    IdsInRing(list, w, k);
    SelectedAreFirsts(first.value, list, indices, bits, control, k);
    var out := WritePlain(list, indices, control, first.value, w, k, OpenKeeps(bits));
    return Success(out);
  }

  lemma IdsInRing(list: seq<PlainEntry>, w: nat, k: nat)
    requires w <= k && Narrow(OpenPlain(list, k), Pow2(w))
    ensures forall i :: 0 <= i < |list| ==> list[i].id < Pow2(k)
  {
    Pow2Add(w, k - w);
    MulNonneg(Pow2(k - w) - 1, Pow2(w));
    forall i | 0 <= i < |list|
      ensures list[i].id < Pow2(k)
    {
      assert OpenPlain(list, k)[i].id < Pow2(w);
    }
  }

  lemma SelectedAreFirsts(first: seq<Distance>, list: seq<PlainEntry>, indices: seq<Pair>, bits: Plane, control: Vec,
                          k: nat)
    requires Inside(indices, |list|) && |bits| == |indices| && AreInjected(control, bits, k)
    requires AreSelected(first, SideDistances(list, indices, false), SideDistances(list, indices, true), control, k)
    ensures AreFirsts(first, list, indices, OpenKeeps(bits), k)
  {
  }
}
