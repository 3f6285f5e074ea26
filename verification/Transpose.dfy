/** Bit-matrix transposition by an in-place network of swaps. A machine word is the sequence of its
    bits, least significant first; shifts, masks and exclusive or act on it lane by lane. */
module Transpose {
  import opened Words

  type Word = seq<bool>

  function Shr(w: Word, j: nat): (r: Word)
    ensures |r| == |w| && forall i :: 0 <= i < |w| ==> r[i] == (i + j < |w| && w[i + j])
  {
    seq(|w|, i requires 0 <= i < |w| => i + j < |w| && w[i + j])
  }

  function Shl(w: Word, j: nat): (r: Word)
    ensures |r| == |w| && forall i :: 0 <= i < |w| ==> r[i] == (i >= j && w[i - j])
  {
    seq(|w|, i requires 0 <= i < |w| => i >= j && w[i - j])
  }

  function Xor(v: Word, w: Word): (r: Word)
    requires |v| == |w|
    ensures |r| == |w| && forall i :: 0 <= i < |w| ==> r[i] == (v[i] != w[i])
  {
    seq(|w|, i requires 0 <= i < |w| => v[i] != w[i])
  }

  function And(v: Word, w: Word): (r: Word)
    requires |v| == |w|
    ensures |r| == |w| && forall i :: 0 <= i < |w| ==> r[i] == (v[i] && w[i])
  {
    seq(|w|, i requires 0 <= i < |w| => v[i] && w[i])
  }

  function Or(v: Word, w: Word): (r: Word)
    requires |v| == |w|
    ensures |r| == |w| && forall i :: 0 <= i < |w| ==> r[i] == (v[i] || w[i])
  {
    seq(|w|, i requires 0 <= i < |w| => v[i] || w[i])
  }

  // ----- index bits ------------------------------------------------------------------

  /** x with bit f replaced by b. */
  function WithBit(x: nat, f: nat, b: bool): (r: nat) {
    if f == 0 then 2 * (x / 2) + B(b) else 2 * WithBit(x / 2, f - 1, b) + x % 2
  }

  /** The row index and the lane index from which the entry at (r, c) comes once the index bits from
      f up to e have been exchanged; bits of the lane index from e up select a block and stay. */
  function SourceRow(r: nat, c: nat, f: nat, e: nat): (s: nat)
    decreases e
  {
    if e == 0 then 0
    else if f == 0 then 2 * SourceRow(r / 2, c / 2, 0, e - 1) + c % 2
    else 2 * SourceRow(r / 2, c / 2, f - 1, e - 1) + r % 2
  }

  function SourceCol(r: nat, c: nat, f: nat, e: nat): (s: nat)
    decreases e
  {
    if e == 0 then c
    else if f == 0 then 2 * SourceCol(r / 2, c / 2, 0, e - 1) + r % 2
    else 2 * SourceCol(r / 2, c / 2, f - 1, e - 1) + c % 2
  }

  lemma WithBitHalves(x: nat, f: nat, b: bool)
    ensures WithBit(x, f, b) / 2 == (if f > 0 then WithBit(x / 2, f - 1, b) else x / 2)
    ensures WithBit(x, f, b) % 2 == if f > 0 then x % 2 else B(b)
  {
  }

  /** Exchanging index bit f on top of the higher bits gives the exchange from f up. */
  lemma {:induction false} ExchangeStep(r: nat, c: nat, f: nat, e: nat)
    requires f < e
    ensures var r', c' := WithBit(r, f, Bit(c, f)), WithBit(c, f, Bit(r, f));
      && SourceRow(r', c', f + 1, e) == SourceRow(r, c, f, e)
      && SourceCol(r', c', f + 1, e) == SourceCol(r, c, f, e)
    decreases f
  {
    var r', c' := WithBit(r, f, Bit(c, f)), WithBit(c, f, Bit(r, f));
    WithBitHalves(r, f, Bit(c, f));
    WithBitHalves(c, f, Bit(r, f));
    if f > 0 {
      ExchangeStep(r / 2, c / 2, f - 1, e - 1);
      ExchangeLater(r, c, r', c', f, e);
    } else {
      ExchangeNow(r, c, r', c', e);
    }
  }

  lemma ExchangeLater(r: nat, c: nat, r': nat, c': nat, f: nat, e: nat)
    requires f > 0 && e > 0 && r' % 2 == r % 2 && c' % 2 == c % 2
    requires SourceRow(r' / 2, c' / 2, f, e - 1) == SourceRow(r / 2, c / 2, f - 1, e - 1)
    requires SourceCol(r' / 2, c' / 2, f, e - 1) == SourceCol(r / 2, c / 2, f - 1, e - 1)
    ensures SourceRow(r', c', f + 1, e) == SourceRow(r, c, f, e) && SourceCol(r', c', f + 1, e) == SourceCol(r, c, f, e)
  {
  }

  lemma ExchangeNow(r: nat, c: nat, r': nat, c': nat, e: nat)
    requires e > 0 && r' / 2 == r / 2 && c' / 2 == c / 2 && r' % 2 == c % 2 && c' % 2 == r % 2
    ensures SourceRow(r', c', 1, e) == SourceRow(r, c, 0, e) && SourceCol(r', c', 1, e) == SourceCol(r, c, 0, e)
  {
  }

  /** Nothing exchanged yet. */
  lemma {:induction false} ExchangeNone(r: nat, c: nat, e: nat)
    requires r < Pow2(e)
    ensures SourceRow(r, c, e, e) == r && SourceCol(r, c, e, e) == c
  {
    if e > 0 {
      ExchangeNone(r / 2, c / 2, e - 1);
    }
  }

  /** Everything exchanged: the transpose inside each block. */
  lemma {:induction false} ExchangeAll(r: nat, c: nat, e: nat)
    requires r < Pow2(e)
    ensures SourceRow(r, c, 0, e) == c % Pow2(e) && SourceCol(r, c, 0, e) == c - c % Pow2(e) + r
  {
    if e > 0 {
      ExchangeAll(r / 2, c / 2, e - 1);
      ModDouble(c, Pow2(e - 1));
    }
  }

  predicate Divisible(w: nat, f: nat) {
    f == 0 || (w % 2 == 0 && Divisible(w / 2, f - 1))
  }

  lemma {:induction false} DivisibleLess(w: nat, f: nat, g: nat)
    requires Divisible(w, f) && g <= f
    ensures Divisible(w, g)
  {
    if g > 0 {
      DivisibleLess(w / 2, f - 1, g - 1);
    }
  }

  lemma {:induction false} ClearBit(x: nat, f: nat)
    ensures !Bit(x, f) ==> WithBit(x, f, true) == x + Pow2(f) && WithBit(x, f, false) == x
    ensures Bit(x, f) ==> x >= Pow2(f) && WithBit(x, f, false) == x - Pow2(f) && WithBit(x, f, true) == x
    ensures !Bit(WithBit(x, f, false), f)
  {
    if f > 0 {
      ClearBit(x / 2, f - 1);
    }
  }

  lemma {:induction false} FlippedBelow(x: nat, f: nat)
    requires x >= Pow2(f)
    ensures Bit(x - Pow2(f), f) != Bit(x, f)
  {
    if f > 0 {
      FlippedBelow(x / 2, f - 1);
      assert (x - Pow2(f)) / 2 == x / 2 - Pow2(f - 1);
    }
  }

  /** The partner of an index below w is below w. */
  lemma {:induction false} PartnerInside(x: nat, f: nat, w: nat)
    requires x < w && Divisible(w, f + 1) && !Bit(x, f)
    ensures x + Pow2(f) < w
  {
    if f > 0 {
      PartnerInside(x / 2, f - 1, w / 2);
    }
  }

  // ----- masks ------------------------------------------------------------------------

  /** Lanes whose index has bit f clear. */
  ghost predicate IsMask(m: Word, f: nat) {
    forall i :: 0 <= i < |m| ==> m[i] == !Bit(i, f)
  }

  lemma {:induction false} MaskLane(i: nat, f: nat)
    ensures (!Bit(i, f + 1) != (i >= Pow2(f) && !Bit(i - Pow2(f), f + 1))) == !Bit(i, f)
  {
    if f > 0 {
      MaskLane(i / 2, f - 1);
      if i >= Pow2(f) {
        assert (i - Pow2(f)) / 2 == i / 2 - Pow2(f - 1);
      }
    }
  }

  lemma MaskHalves(m: Word, f: nat)
    requires IsMask(m, f + 1)
    ensures IsMask(Xor(m, Shl(m, Pow2(f))), f)
  {
    forall i | 0 <= i < |m|
      ensures Xor(m, Shl(m, Pow2(f)))[i] == !Bit(i, f)
    {
      MaskLane(i, f);
    }
  }

  // ----- one swap ---------------------------------------------------------------------

  /** The bits in which the upper half of `lo` and the lower half of `hi` differ. */
  function Difference(lo: Word, hi: Word, j: nat, m: Word): (t: Word)
    requires |lo| == |hi| == |m|
    ensures |t| == |m|
  {
    And(Xor(Shr(lo, j), hi), m)
  }

  function NewHigh(lo: Word, hi: Word, j: nat, m: Word): (r: Word)
    requires |lo| == |hi| == |m|
    ensures |r| == |m|
  {
    Xor(hi, Difference(lo, hi, j, m))
  }

  function NewLow(lo: Word, hi: Word, j: nat, m: Word): (r: Word)
    requires |lo| == |hi| == |m|
    ensures |r| == |m|
  {
    Xor(lo, Shl(Difference(lo, hi, j, m), j))
  }

  lemma HighAt(lo: Word, hi: Word, j: nat, m: Word, i: nat)
    requires |lo| == |hi| == |m| && i < |m|
    ensures NewHigh(lo, hi, j, m)[i] == if m[i] then i + j < |m| && lo[i + j] else hi[i]
  {
    assert Difference(lo, hi, j, m)[i] == (((i + j < |m| && lo[i + j]) != hi[i]) && m[i]);
  }

  lemma LowAt(lo: Word, hi: Word, j: nat, m: Word, i: nat)
    requires |lo| == |hi| == |m| && i < |m|
    ensures NewLow(lo, hi, j, m)[i] == if i >= j && m[i - j] then hi[i - j] else lo[i]
  {
    if i >= j {
      assert Difference(lo, hi, j, m)[i - j] == ((lo[i] != hi[i - j]) && m[i - j]);
    }
  }

  // ----- the network ---------------------------------------------------------------------

  ghost predicate Rectangular(rows: seq<Word>, w: nat) {
    forall k :: 0 <= k < |rows| ==> |rows[k]| == w
  }

  /** Bitwise and with the complement of j. */
  function AndNot(x: nat, j: nat): (r: nat)
    decreases j
  {
    if j == 0 then x else 2 * AndNot(x / 2, j / 2) + if j % 2 == 1 then 0 else x % 2
  }

  lemma {:induction false} AndNotPower(x: nat, f: nat)
    ensures AndNot(x, Pow2(f)) == WithBit(x, f, false)
  {
    if f > 0 {
      AndNotPower(x / 2, f - 1);
    } else {
      assert AndNot(x / 2, 0) == x / 2;
    }
  }

  /** Once bit f has just come on it stays on for 2^f steps. */
  lemma {:induction false} RunOfOnes(x: nat, d: nat, f: nat)
    requires x > 0 && !Bit(x - 1, f) && Bit(x, f) && d < Pow2(f)
    ensures Bit(x + d, f)
  {
    if f > 0 {
      assert x % 2 == 0 && (x - 1) / 2 == x / 2 - 1 && (x + d) / 2 == x / 2 + d / 2;
      RunOfOnes(x / 2, d / 2, f - 1);
    }
  }

  /** The row step (k + j + 1) & !j goes to the next index with bit f clear. */
  lemma NextRow(k: nat, f: nat)
    requires !Bit(k, f)
    ensures AndNot(k + Pow2(f) + 1, Pow2(f)) == if Bit(k + 1, f) then k + 1 + Pow2(f) else k + 1
    ensures !Bit(AndNot(k + Pow2(f) + 1, Pow2(f)), f)
  {
    AndNotPower(k + Pow2(f) + 1, f);
    FlippedBelow(k + 1 + Pow2(f), f);
    ClearBit(k + 1 + Pow2(f), f);
  }

  lemma SkippedRows(k: nat, k': nat, x: nat, f: nat)
    requires !Bit(k, f) && k' == (if Bit(k + 1, f) then k + 1 + Pow2(f) else k + 1) && k < x < k'
    ensures Bit(x, f)
  {
    RunOfOnes(k + 1, x - k - 1, f);
  }

  /** The first row of the pair row r belongs to. */
  function First(r: nat, f: nat): (k: int) {
    if Bit(r, f) then r - Pow2(f) else r
  }

  /** Lane c of a swapped row: its index bit f chooses the row it comes from. */
  ghost predicate LaneOf(row: Word, lo: Word, hi: Word, f: nat, high: bool, c: nat)
    requires |row| == |lo| == |hi| && c < |row|
  {
    WithBit(c, f, high) < |lo| && row[c] == (if Bit(c, f) then hi else lo)[WithBit(c, f, high)]
  }

  /** The row is the upper or the lower one of a swapped pair. */
  ghost predicate IsSwap(row: Word, lo: Word, hi: Word, f: nat, high: bool) {
    |row| == |lo| == |hi| && forall c :: 0 <= c < |row| ==> LaneOf(row, lo, hi, f, high, c)
  }

  lemma LaneFrom(row: Word, lo: Word, hi: Word, f: nat, high: bool, c: nat, x: nat, b: bool)
    requires |row| == |lo| == |hi| && c < |row| && x < |row| && WithBit(c, f, high) == x && Bit(c, f) == b
    requires row[c] == if b then hi[x] else lo[x]
    ensures LaneOf(row, lo, hi, f, high, c)
  {
  }

  /** Lane c of the new rows, where b says whether c is in the upper half of its block. */
  lemma LowValue(lo: Word, hi: Word, m: Word, j: nat, c: nat, b: bool)
    requires |lo| == |hi| == |m| && c < |m| && (b ==> c >= j && m[c - j]) && (!b && c >= j ==> !m[c - j])
    ensures NewLow(lo, hi, j, m)[c] == if b then hi[c - j] else lo[c]
  {
    LowAt(lo, hi, j, m, c);
  }

  lemma HighValue(lo: Word, hi: Word, m: Word, j: nat, c: nat, b: bool)
    requires |lo| == |hi| == |m| && c < |m| && m[c] == !b && (!b ==> c + j < |m|)
    ensures NewHigh(lo, hi, j, m)[c] == if b then hi[c] else lo[c + j]
  {
    HighAt(lo, hi, j, m, c);
  }

  /** What the mask says about lane c and its partner. */
  lemma MaskFacts(m: Word, f: nat, j: nat, c: nat)
    requires Divisible(|m|, f + 1) && IsMask(m, f) && j == Pow2(f) && c < |m|
    ensures Bit(c, f) ==> c >= j && !m[c] && m[c - j] && WithBit(c, f, false) == c - j && WithBit(c, f, true) == c
    ensures !Bit(c, f) ==> c + j < |m| && m[c] && WithBit(c, f, false) == c && WithBit(c, f, true) == c + j
    ensures !Bit(c, f) && c >= j ==> !m[c - j]
  {
    ClearBit(c, f);
    if !Bit(c, f) {
      PartnerInside(c, f, |m|);
    }
    if c >= j {
      FlippedBelow(c, f);
    }
  }

  lemma LanesSwapped(lo: Word, hi: Word, m: Word, f: nat, j: nat, c: nat)
    requires |lo| == |hi| == |m| && Divisible(|m|, f + 1) && IsMask(m, f) && j == Pow2(f) && c < |m|
    ensures LaneOf(NewLow(lo, hi, j, m), lo, hi, f, false, c) && LaneOf(NewHigh(lo, hi, j, m), lo, hi, f, true, c)
  {
    var b := Bit(c, f);
    MaskFacts(m, f, j, c);
    LowValue(lo, hi, m, j, c, b);
    HighValue(lo, hi, m, j, c, b);
    LaneFrom(NewLow(lo, hi, j, m), lo, hi, f, false, c, if b then c - j else c, b);
    LaneFrom(NewHigh(lo, hi, j, m), lo, hi, f, true, c, if b then c else c + j, b);
  }

  lemma SwapsPair(lo: Word, hi: Word, m: Word, f: nat, j: nat)
    requires |lo| == |hi| == |m| && Divisible(|m|, f + 1) && IsMask(m, f) && j == Pow2(f)
    ensures IsSwap(NewLow(lo, hi, j, m), lo, hi, f, false) && IsSwap(NewHigh(lo, hi, j, m), lo, hi, f, true)
  {
    var low, high := NewLow(lo, hi, j, m), NewHigh(lo, hi, j, m);
    forall c | 0 <= c < |m|
      ensures LaneOf(low, lo, hi, f, false, c) && LaneOf(high, lo, hi, f, true, c)
    {
      LanesSwapped(lo, hi, m, f, j, c);
    }
  }

  /** Row r after the swap of its pair. */
  ghost predicate RowSwapped(now: seq<Word>, before: seq<Word>, f: nat, r: nat)
    requires |now| == |before| && r < |now|
  {
    if Bit(r, f) then r >= Pow2(f) && IsSwap(now[r], before[r - Pow2(f)], before[r], f, true)
    else r + Pow2(f) < |now| && IsSwap(now[r], before[r], before[r + Pow2(f)], f, false)
  }

  /** Rows whose pair starts before k are swapped, the others untouched. */
  ghost predicate LayerUpTo(now: seq<Word>, before: seq<Word>, k: nat, f: nat) {
    && |now| == |before|
    && forall r :: 0 <= r < |now| ==>
      if First(r, f) < k then RowSwapped(now, before, f, r) else now[r] == before[r]
  }

  /** A row outside the pair at k changes status only if it cannot exist. */
  lemma OtherRow(k: nat, k': nat, r: nat, f: nat)
    requires !Bit(k, f) && k' == (if Bit(k + 1, f) then k + 1 + Pow2(f) else k + 1)
    requires r != k && r != k + Pow2(f)
    ensures First(r, f) < k' <==> First(r, f) < k
  {
    FirstIsClear(r, f);
    if k < First(r, f) < k' {
      SkippedRows(k, k', First(r, f), f);
    }
  }

  lemma LayerAdvance(now: seq<Word>, next: seq<Word>, before: seq<Word>, k: nat, k': nat, f: nat)
    requires LayerUpTo(now, before, k, f) && !Bit(k, f) && k + Pow2(f) < |now|
    requires k' == if Bit(k + 1, f) then k + 1 + Pow2(f) else k + 1
    requires |next| == |now|
    requires IsSwap(next[k], before[k], before[k + Pow2(f)], f, false)
    requires IsSwap(next[k + Pow2(f)], before[k], before[k + Pow2(f)], f, true)
    requires forall r :: 0 <= r < |now| && r != k && r != k + Pow2(f) ==> next[r] == now[r]
    ensures LayerUpTo(next, before, k', f)
  {
    forall r | 0 <= r < |now|
      ensures if First(r, f) < k' then RowSwapped(next, before, f, r) else next[r] == before[r]
    {
      if r != k && r != k + Pow2(f) {
        OtherRow(k, k', r, f);
        SameRow(now, next, before, f, r);
      } else {
        PairRow(next, before, k, f, r);
      }
    }
  }

  lemma PairRow(next: seq<Word>, before: seq<Word>, k: nat, f: nat, r: nat)
    requires !Bit(k, f) && k + Pow2(f) < |next| == |before| && (r == k || r == k + Pow2(f))
    requires IsSwap(next[k], before[k], before[k + Pow2(f)], f, false)
    requires IsSwap(next[k + Pow2(f)], before[k], before[k + Pow2(f)], f, true)
    ensures First(r, f) == k && RowSwapped(next, before, f, r)
  {
    FlippedBelow(k + Pow2(f), f);
  }

  lemma SameRow(now: seq<Word>, next: seq<Word>, before: seq<Word>, f: nat, r: nat)
    requires |now| == |next| == |before| && r < |now| && now[r] == next[r]
    ensures RowSwapped(now, before, f, r) == RowSwapped(next, before, f, r)
  {
  }

  lemma FirstIsClear(r: nat, f: nat)
    ensures First(r, f) >= 0 && !Bit(First(r, f), f)
  {
    ClearBit(r, f);
    if Bit(r, f) {
      FlippedBelow(r, f);
    }
  }

  /** One layer of the network: all pairs of rows at distance j. */
  method SwapLayer(a: array<Word>, j: nat, m: Word, ghost f: nat)
    requires j == Pow2(f) && Divisible(a.Length, f + 1) && Rectangular(a[..], |m|) && Divisible(|m|, f + 1)
    requires IsMask(m, f)
    modifies a
    ensures forall r :: 0 <= r < a.Length ==> RowSwapped(a[..], old(a[..]), f, r)
  {
    ghost var before := a[..];
    var k := 0;
    NothingSwapped(before, f);
    while k < a.Length
      invariant !Bit(k, f)
      invariant LayerUpTo(a[..], before, k, f)
      decreases a.Length - k
    {
      PartnerInside(k, f, a.Length);
      ghost var now := a[..];
      NotYetSwapped(now, before, k, f, j);
      SwapPair(a, k, j, m, f);
      NextRow(k, f);
      LayerAdvance(now, a[..], before, k, AndNot(k + j + 1, j), f);
      k := AndNot(k + j + 1, j);
    }
    AllSwapped(a[..], before, k, f);
  }

  lemma NothingSwapped(rows: seq<Word>, f: nat)
    ensures !Bit(0, f) && LayerUpTo(rows, rows, 0, f)
  {
    ZeroBit(f);
    forall r | 0 <= r < |rows|
      ensures First(r, f) >= 0
    {
      ClearBit(r, f);
    }
  }

  /** The pair at k is still as it was. */
  lemma NotYetSwapped(now: seq<Word>, before: seq<Word>, k: nat, f: nat, j: nat)
    requires LayerUpTo(now, before, k, f) && !Bit(k, f) && j == Pow2(f) && k + j < |now|
    ensures now[k] == before[k] && now[k + j] == before[k + j]
  {
    FlippedBelow(k + j, f);
    assert First(k, f) == k && First(k + j, f) == k;
  }

  lemma AllSwapped(now: seq<Word>, before: seq<Word>, k: nat, f: nat)
    requires LayerUpTo(now, before, k, f) && k >= |now|
    ensures forall r :: 0 <= r < |now| ==> RowSwapped(now, before, f, r)
  {
    forall r | 0 <= r < |now|
      ensures RowSwapped(now, before, f, r)
    {
      assert First(r, f) <= r < k;
    }
  }

  /** The exchange of the off-diagonal halves of two rows. */
  method SwapPair(a: array<Word>, k: nat, j: nat, m: Word, ghost f: nat)
    requires j == Pow2(f) && k + j < a.Length && |a[k]| == |a[k + j]| == |m| && Divisible(|m|, f + 1) && IsMask(m, f)
    modifies a
    ensures forall r :: 0 <= r < a.Length && r != k && r != k + j ==> a[r] == old(a[r])
    ensures IsSwap(a[k], old(a[k]), old(a[k + j]), f, false) && IsSwap(a[k + j], old(a[k]), old(a[k + j]), f, true)
  {
    SwapsPair(a[k], a[k + j], m, f, j);
    var t := Difference(a[k], a[k + j], j, m);
    a[k + j] := Xor(a[k + j], t);
    a[k] := Xor(a[k], Shl(t, j));
  }

  lemma PartnerRow(r: nat, b: bool, f: nat)
    ensures WithBit(r, f, b) == if b == Bit(r, f) then r else if b then r + Pow2(f) else r - Pow2(f)
  {
    ClearBit(r, f);
  }

  /** In terms of indices: the layer exchanges index bit f of row and lane. */
  lemma SwappedLane(now: seq<Word>, before: seq<Word>, f: nat, r: nat, c: nat, w: nat)
    requires |now| == |before| && r < |now| && Rectangular(before, w) && c < w && RowSwapped(now, before, f, r)
    ensures |now[r]| == w
    ensures var r', c' := WithBit(r, f, Bit(c, f)), WithBit(c, f, Bit(r, f));
      r' < |before| && c' < w && now[r][c] == before[r'][c']
  {
    PartnerRow(r, Bit(c, f), f);
    var j := Pow2(f);
    if Bit(r, f) {
      assert IsSwap(now[r], before[r - j], before[r], f, true);
      SwappedFrom(now[r], before[r - j], before[r], f, true, c);
    } else {
      assert IsSwap(now[r], before[r], before[r + j], f, false);
      SwappedFrom(now[r], before[r], before[r + j], f, false, c);
    }
  }

  lemma SwappedFrom(row: Word, lo: Word, hi: Word, f: nat, high: bool, c: nat)
    requires IsSwap(row, lo, hi, f, high) && c < |row|
    ensures WithBit(c, f, high) < |lo| == |hi|
    ensures row[c] == if Bit(c, f) then hi[WithBit(c, f, high)] else lo[WithBit(c, f, high)]
  {
    assert LaneOf(row, lo, hi, f, high, c);
  }

  // ----- whole transposition ----------------------------------------------------------------

  /** The invariant of the network: index bits from f up are exchanged. */
  ghost predicate ExchangedFrom(now: seq<Word>, input: seq<Word>, f: nat, e: nat, w: nat) {
    && |now| == |input| == Pow2(e) && Rectangular(now, w) && Rectangular(input, w)
    && forall r, c :: 0 <= r < |now| && 0 <= c < w ==>
      var r', c' := SourceRow(r, c, f, e), SourceCol(r, c, f, e);
      r' < |input| && c' < w && now[r][c] == input[r'][c']
  }

  lemma LayerExchanges(next: seq<Word>, now: seq<Word>, input: seq<Word>, m: Word, f: nat, e: nat)
    requires f < e && ExchangedFrom(now, input, f + 1, e, |m|) && |next| == |now|
    requires forall r :: 0 <= r < |next| ==> RowSwapped(next, now, f, r)
    ensures ExchangedFrom(next, input, f, e, |m|)
  {
    forall r | 0 <= r < |next|
      ensures |next[r]| == |m|
    {
      assert RowSwapped(next, now, f, r);
    }
    forall r, c | 0 <= r < |next| && 0 <= c < |m|
      ensures var r', c' := SourceRow(r, c, f, e), SourceCol(r, c, f, e);
        r' < |input| && c' < |m| && next[r][c] == input[r'][c']
    {
      SwappedLane(next, now, f, r, c, |m|);
      ExchangeStep(r, c, f, e);
    }
  }

  lemma {:induction false} DivisiblePower(e: nat)
    ensures Divisible(Pow2(e), e)
  {
    if e > 0 {
      DivisiblePower(e - 1);
      HalvedPower(Pow2(e - 1));
    }
  }

  lemma HalvedPower(p: nat)
    ensures (2 * p) % 2 == 0 && (2 * p) / 2 == p
  {
  }

  /** The swap network transposes every block of 2^e rows by 2^e lanes. */
  method TransposeRows(a: array<Word>, initialMask: Word, ghost e: nat, ghost w: nat)
    requires e >= 1 && a.Length == Pow2(e) && Divisible(w, e) && Rectangular(a[..], w)
    requires |initialMask| == w && IsMask(initialMask, e - 1)
    modifies a
    ensures ExchangedFrom(a[..], old(a[..]), 0, e, w)
  {
    var m := initialMask;
    var j := a.Length / 2;
    ghost var f := e;
    DivisiblePower(e);
    InitiallyNone(a[..], e, w);
    while j != 0
      invariant 0 <= f <= e && j == (if f == 0 then 0 else Pow2(f - 1))
      invariant |m| == w && (f > 0 ==> IsMask(m, f - 1))
      invariant ExchangedFrom(a[..], old(a[..]), f, e, w)
      decreases f
    {
      f := f - 1;
      DivisibleLess(a.Length, e, f + 1);
      DivisibleLess(w, e, f + 1);
      ghost var now := a[..];
      SwapLayer(a, j, m, f);
      LayerExchanges(a[..], now, old(a[..]), m, f, e);
      j := j / 2;
      if f > 0 {
        MaskHalves(m, f - 1);
      }
      m := Xor(m, Shl(m, j));
    }
  }

  lemma InitiallyNone(rows: seq<Word>, e: nat, w: nat)
    requires |rows| == Pow2(e) && Rectangular(rows, w)
    ensures ExchangedFrom(rows, rows, e, e, w)
  {
    forall r, c | 0 <= r < |rows| && 0 <= c < w
      ensures SourceRow(r, c, e, e) == r && SourceCol(r, c, e, e) == c
    {
      ExchangeNone(r, c, e);
    }
  }

  // ----- packing and padding -------------------------------------------------------------------

  lemma {:induction false} HighBitsZero(v: nat, n: nat, i: nat)
    requires v < Pow2(n) && n <= i
    ensures !Bit(v, i)
  {
    if n == 0 {
      ZeroBit(i);
    } else {
      HighBitsZero(v / 2, n - 1, i - 1);
    }
  }

  /** Lane x of packed row i: the fields of width n = 2^e hold inputs i, i + n, i + 2n, ... */
  ghost predicate PackedLane(word: Word, xs: seq<nat>, i: nat, n: nat, x: nat)
    requires n > 0 && i < n && x < |word| <= |xs| && |xs| % n == 0
  {
    LaneIndex(x, i, n, |xs|);
    word[x] == Bit(xs[x - x % n + i], x % n)
  }

  lemma MulMonotone(n: nat, x: nat, y: nat)
    requires x <= y
    ensures n * x <= n * y
  {
    assert n * (y - x) >= 0;
    assert n * (y - x) == n * y - n * x;
  }

  lemma LaneIndex(x: nat, i: nat, n: nat, w: nat)
    requires n > 0 && x < w && w % n == 0 && i < n
    ensures 0 <= x - x % n + i < w
  {
    var q, g := x / n, w / n;
    assert x == n * q + x % n && w == n * g;
    if q < g {
      MulMonotone(n, q + 1, g);
      assert n * (q + 1) == n * q + n;
    } else {
      MulMonotone(n, g, q);
    }
  }

  lemma FieldLane(off: nat, x: nat, n: nat)
    requires n > 0 && off % n == 0 && off <= x < off + n
    ensures x % n == x - off
  {
    assert off == n * (off / n);
    DivModUnique(x, n, off / n, x - off);
  }

  /** OR-ing shifted fields together places input i + off at lanes off .. off + n. */
  method PackRow(xs: seq<nat>, i: nat, n: nat, ghost e: nat) returns (word: Word)
    requires n == Pow2(e) && i < n && |xs| % n == 0
    requires forall k :: 0 <= k < |xs| ==> xs[k] < Pow2(n)
    ensures |word| == |xs| && forall x :: 0 <= x < |xs| ==> PackedLane(word, xs, i, n, x)
  {
    var w := |xs|;
    word := seq(w, x => false);
    var off := 0;
    while off < w
      invariant 0 <= off && off % n == 0 && |word| == w
      invariant forall x :: 0 <= x < w ==> if x < off then PackedLane(word, xs, i, n, x) else !word[x]
      decreases w - off
    {
      LaneIndex(off, i, n, w);
      var next := Or(word, Shl(Bits(xs[off + i], w), off));
      forall x | 0 <= x < w
        ensures if x < off + n then PackedLane(next, xs, i, n, x) else !next[x]
      {
        if off <= x < off + n {
          FieldLane(off, x, n);
        } else if x >= off + n {
          HighBitsZero(xs[off + i], n, x - off);
        }
      }
      word := next;
      ModPlusMultiple(off, 1, n);
      off := off + n;
    }
  }

  /** Bit b of entry l of a vector that counts as zero beyond its end. */
  predicate PaddedBit(xs: seq<nat>, l: nat, b: nat) {
    l < |xs| && Bit(xs[l], b)
  }

  lemma TransposedLane(rows: seq<Word>, input: seq<Word>, xs: seq<nat>, e: nat, b: nat, c: nat)
    requires |xs| % Pow2(e) == 0 && ExchangedFrom(rows, input, 0, e, |xs|) && b < Pow2(e) && c < |xs|
    requires forall i, x :: 0 <= i < Pow2(e) && 0 <= x < |xs| ==> PackedLane(input[i], xs, i, Pow2(e), x)
    ensures rows[b][c] == Bit(xs[c], b)
  {
    var n := Pow2(e);
    ExchangeAll(b, c, e);
    var x := c - c % n + b;
    var q := ModQuotient(c, n);
    DivModUnique(x, n, q, b);
    assert PackedLane(input[c % n], xs, c % n, n, x);
  }

  /** A block of as many inputs as a word has lanes. */
  method TransposeBlock(xs: seq<nat>, n: nat, ghost e: nat) returns (rows: seq<Word>)
    requires e >= 1 && n == Pow2(e) && |xs| % n == 0 && Divisible(|xs|, e)
    requires forall k :: 0 <= k < |xs| ==> xs[k] < Pow2(n)
    ensures |rows| == n && Rectangular(rows, |xs|)
    ensures forall b, c :: 0 <= b < n && 0 <= c < |xs| ==> rows[b][c] == Bit(xs[c], b)
  {
    var w := |xs|;
    var a := new Word[n](_ => []);
    for i := 0 to n
      invariant forall k :: 0 <= k < i ==> |a[k]| == w
      invariant forall k, x :: 0 <= k < i && 0 <= x < w ==> PackedLane(a[k], xs, k, n, x)
    {
      var row := PackRow(xs, i, n, e);
      a[i] := row;
    }
    ghost var input := a[..];
    // lanes whose index has bit log2(n) - 1 clear: 0x00ff.., 0x0000ffff.., 0x00000000ffffffff..
    var mask := HalfMask(n / 2, w, e - 1);
    TransposeRows(a, mask, e, w);
    rows := a[..];
    forall b, c | 0 <= b < n && 0 <= c < w
      ensures rows[b][c] == Bit(xs[c], b)
    {
      TransposedLane(rows, input, xs, e, b, c);
    }
  }

  /** Alternating runs of `run` ones and `run` zeros, ones first. */
  method HalfMask(run: nat, w: nat, ghost f: nat) returns (m: Word)
    requires run == Pow2(f)
    ensures |m| == w && IsMask(m, f)
  {
    m := [];
    ZeroBit(f);
    var left, on := run, true;
    for i := 0 to w
      invariant |m| == i && IsMask(m, f)
      invariant 0 < left <= run && on == !Bit(i, f) && i % run == run - left
    {
      NextMaskBit(i, f);
      m := m + [on];
      left := left - 1;
      if left == 0 {
        left, on := run, !on;
      }
    }
  }

  lemma {:induction false} NextMaskBit(i: nat, f: nat)
    ensures Bit(i + 1, f) == if i % Pow2(f) == Pow2(f) - 1 then !Bit(i, f) else Bit(i, f)
    ensures (i + 1) % Pow2(f) == if i % Pow2(f) == Pow2(f) - 1 then 0 else i % Pow2(f) + 1
  {
    if f > 0 {
      NextMaskBit(i / 2, f - 1);
      ModDouble(i, Pow2(f - 1));
      ModDouble(i + 1, Pow2(f - 1));
    }
  }

  function PaddedLen(len: nat, w: nat): (r: nat)
    requires w > 0
    ensures len <= r < len + w
  {
    if len % w == 0 then len else len + (w - len % w)
  }

  lemma PaddedLenMultiple(len: nat, w: nat)
    requires w > 0
    ensures PaddedLen(len, w) % w == 0
  {
    var q := ModQuotient(len, w);
    if len % w != 0 {
      assert len + (w - len % w) == (q + 1) * w + 0;
      DivModUnique(len + (w - len % w), w, q + 1, 0);
    }
  }

  ghost predicate IsTransposed(planes: seq<Word>, xs: seq<nat>, width: nat, lanes: nat) {
    && |planes| == width && Rectangular(planes, lanes)
    && forall b, l :: 0 <= b < width && 0 <= l < lanes ==> planes[b][l] == PaddedBit(xs, l, b)
  }

  lemma AppendBlock(planes: seq<Word>, rows: seq<Word>, next: seq<Word>, xs: seq<nat>, block: seq<nat>, width: nat,
                    off: nat, n: nat)
    requires IsTransposed(planes, xs, width, off) && width <= n == |rows| && Rectangular(rows, |block|)
    requires forall b, c :: 0 <= b < n && 0 <= c < |block| ==> rows[b][c] == Bit(block[c], b)
    requires forall c :: 0 <= c < |block| ==> block[c] == if off + c < |xs| then xs[off + c] else 0
    requires |next| == width && forall b :: 0 <= b < width ==> next[b] == planes[b] + rows[b]
    ensures IsTransposed(next, xs, width, off + |block|)
  {
    forall b, l | 0 <= b < width && 0 <= l < off + |block|
      ensures next[b][l] == PaddedBit(xs, l, b)
    {
      if l >= off {
        assert next[b][l] == rows[b][l - off];
        assert block[l - off] == if l < |xs| then xs[l] else 0;
        ZeroBit(b);
      }
    }
  }

  /** Bit b of input l goes to lane l of plane b; padding lanes are zero. */
  method TransposePack(xs: seq<nat>, width: nat, n: nat, w: nat, ghost e: nat) returns (planes: seq<Word>)
    requires e >= 1 && width <= n == Pow2(e) && w > 0 && w % n == 0 && Divisible(w, e)
    requires forall k :: 0 <= k < |xs| ==> xs[k] < Pow2(n)
    ensures IsTransposed(planes, xs, width, PaddedLen(|xs|, w))
  {
    PaddedLenMultiple(|xs|, w);
    var total := PaddedLen(|xs|, w);
    planes := seq(width, b => []);
    var off := 0;
    while off < total
      invariant off <= total && off % w == 0
      invariant IsTransposed(planes, xs, width, off)
      decreases total - off
    {
      LaneIndex(off, w - 1, w, total);
      var block := seq(w, c => if 0 <= off + c < |xs| then xs[off + c] else 0);
      var rows := TransposeBlock(block, n, e);
      var next := seq(width, b requires 0 <= b < width => planes[b] + rows[b]);
      AppendBlock(planes, rows, next, xs, block, width, off, n);
      planes := next;
      ModPlusMultiple(off, 1, w);
      off := off + w;
    }
  }
}
