/** Oblivious conditional swaps of (id, distance) entries. */
module Swaps {
  import opened Words
  import opened Rep3
  import opened Sessions
  import opened Results
  import opened Injection
  import opened Ops

  datatype Entry = Entry(id: Shared<nat>, code: Shared<nat>, mask: Shared<nat>)
  datatype OpenEntry = OpenEntry(id: nat, code: nat, mask: nat)
  type Pair = (nat, nat)

  function OpenOne(e: Entry, k: nat): (r: OpenEntry) {
    OpenEntry(Open(e.id, k), Open(e.code, k), Open(e.mask, k))
  }

  function OpenList(list: seq<Entry>, k: nat): (r: seq<OpenEntry>)
    ensures |r| == |list| && forall i :: 0 <= i < |list| ==> r[i] == OpenOne(list[i], k)
  {
    seq(|list|, i requires 0 <= i < |list| => OpenOne(list[i], k))
  }

  predicate Inside(indices: seq<Pair>, n: nat) {
    forall j :: 0 <= j < |indices| ==> indices[j].0 < n && indices[j].1 < n
  }

  // ----- what swapping means -----------------------------------------------------------

  /** Swap one pair of a plain list unless the bit is set. */
  function SwapOne<T>(s: seq<T>, keep: bool, p: Pair): (r: seq<T>)
    requires p.0 < |s| && p.1 < |s|
    ensures |r| == |s|
  {
    if keep then s else s[p.0 := s[p.1]][p.1 := s[p.0]]
  }

  /** The swaps one after the other. */
  function SwapEach<T>(s: seq<T>, keep: seq<bool>, indices: seq<Pair>, n: nat): (r: seq<T>)
    requires n <= |indices| && n <= |keep| && Inside(indices, |s|)
    ensures |r| == |s|
  {
    if n == 0 then s else SwapOne(SwapEach(s, keep, indices, n - 1), keep[n - 1], indices[n - 1])
  }

  /** The swaps computed from the original list and written one after the other. */
  function SwapSnapshot<T>(s: seq<T>, keep: seq<bool>, indices: seq<Pair>, n: nat): (r: seq<T>)
    requires n <= |indices| && n <= |keep| && Inside(indices, |s|)
    ensures |r| == |s|
  {
    if n == 0 then s
    else
      var (p, b) := (indices[n - 1], keep[n - 1]);
      SwapSnapshot(s, keep, indices, n - 1)[p.0 := if b then s[p.0] else s[p.1]][p.1 := if b then s[p.1] else s[p.0]]
  }

  predicate Apart(p: Pair, i: nat) {
    p.0 != i && p.1 != i
  }

  predicate PairsApart(p: Pair, q: Pair) {
    Apart(p, q.0) && Apart(p, q.1)
  }

  predicate Disjoint(indices: seq<Pair>) {
    forall i, j :: 0 <= i < j < |indices| ==> PairsApart(indices[i], indices[j])
  }

  /** A pair of one index with itself moves nothing. */
  predicate Trivial(p: Pair) {
    p.0 == p.1
  }

  /** Nothing an earlier pair moves is read or written by a later one. */
  predicate Separate(indices: seq<Pair>) {
    forall i, j :: 0 <= i < j < |indices| ==> Trivial(indices[i]) || PairsApart(indices[i], indices[j])
  }

  /** A pair from position n on writes index x. */
  predicate Rewritten(indices: seq<Pair>, n: nat, x: nat) {
    exists j :: n <= j < |indices| && !Apart(indices[j], x)
  }

  /** Later pairs overwrite both ends of a pair or neither. */
  predicate Balanced(indices: seq<Pair>) {
    forall i :: 0 <= i < |indices| ==>
      Trivial(indices[i]) || Rewritten(indices, i + 1, indices[i].0) == Rewritten(indices, i + 1, indices[i].1)
  }

  predicate Distinct<T(==)>(s: seq<T>) {
    forall i, j :: 0 <= i < j < |s| ==> s[i] != s[j]
  }

  /** The pairs from n on leave index x alone: they are elsewhere, trivial or switched off. */
  predicate Passive(keep: seq<bool>, indices: seq<Pair>, n: nat, m: nat, x: nat)
    requires m <= |indices| && m <= |keep|
  {
    forall j :: n <= j < m ==> keep[j] || Trivial(indices[j]) || Apart(indices[j], x)
  }

  /** One after the other, an index keeps its entry while no pair moves it. */
  lemma {:induction false} Untouched<T>(s: seq<T>, keep: seq<bool>, indices: seq<Pair>, n: nat, m: nat, x: nat)
    requires n <= m <= |indices| && m <= |keep| && Inside(indices, |s|) && x < |s| && Passive(keep, indices, n, m, x)
    ensures SwapEach(s, keep, indices, m)[x] == SwapEach(s, keep, indices, n)[x]
    decreases m
  {
    if n < m {
      Untouched(s, keep, indices, n, m - 1, x);
    }
  }

  /** What a pair writes to one of its ends. */
  function Written<T>(s: seq<T>, keep: bool, p: Pair, x: nat): (r: T)
    requires p.0 < |s| && p.1 < |s| && !Apart(p, x)
  {
    if keep then s[x] else if x == p.0 then s[p.1] else s[p.0]
  }

  /** From the snapshot, an index ends with what the last pair touching it wrote. */
  lemma {:induction false} LastWriter<T>(s: seq<T>, keep: seq<bool>, indices: seq<Pair>, n: nat, m: nat, x: nat)
    requires n < m <= |indices| && m <= |keep| && Inside(indices, |s|) && !Apart(indices[n], x)
    requires forall j :: n < j < m ==> Apart(indices[j], x)
    ensures x < |s| && SwapSnapshot(s, keep, indices, m)[x] == Written(s, keep[n], indices[n], x)
    decreases m
  {
    if n + 1 < m {
      LastWriter(s, keep, indices, n, m - 1, x);
    }
  }

  lemma {:induction false} NeverWritten<T>(s: seq<T>, keep: seq<bool>, indices: seq<Pair>, m: nat, x: nat)
    requires m <= |indices| && m <= |keep| && Inside(indices, |s|) && x < |s|
    requires forall j :: 0 <= j < m ==> Apart(indices[j], x)
    ensures SwapSnapshot(s, keep, indices, m)[x] == s[x]
  {
    if m > 0 {
      NeverWritten(s, keep, indices, m - 1, x);
    }
  }

  /** The last pair from n on that writes x. */
  lemma {:induction false} FindLast(indices: seq<Pair>, n: nat, x: nat) returns (l: nat)
    requires Rewritten(indices, n, x)
    ensures n <= l < |indices| && !Apart(indices[l], x) && forall j :: l < j < |indices| ==> Apart(indices[j], x)
    decreases |indices| - n
  {
    if Rewritten(indices, n + 1, x) {
      l := FindLast(indices, n + 1, x);
    } else {
      l := n;
    }
  }

  // ----- when the snapshot is swapping one after the other -------------------------------

  lemma {:induction false} SeparateAgrees<T>(s: seq<T>, keep: seq<bool>, indices: seq<Pair>, n: nat)
    requires n <= |indices| && n <= |keep| && Inside(indices, |s|) && Separate(indices)
    ensures SwapSnapshot(s, keep, indices, n) == SwapEach(s, keep, indices, n)
  {
    if n > 0 {
      SeparateAgrees(s, keep, indices, n - 1);
      Untouched(s, keep, indices, 0, n - 1, indices[n - 1].0);
      Untouched(s, keep, indices, 0, n - 1, indices[n - 1].1);
    }
  }

  /** The bits that swap pair i only. */
  function OnlyAt(n: nat, i: nat): (keep: seq<bool>)
    ensures |keep| == n && forall j :: 0 <= j < n ==> keep[j] == (j != i)
  {
    seq(n, j => j != i)
  }

  /** If a later pair touches an end of a pair that moves something, one choice of bits tells the two apart:
      the later pair writes the original entry back. */
  lemma OverlapDisagrees<T>(s: seq<T>, indices: seq<Pair>, i: nat, j: nat)
    requires Inside(indices, |s|) && Distinct(s) && i < j < |indices|
    requires !Trivial(indices[i]) && !PairsApart(indices[i], indices[j])
    ensures var keep := OnlyAt(|indices|, i);
      SwapSnapshot(s, keep, indices, |indices|) != SwapEach(s, keep, indices, |indices|)
  {
    var n, keep := |indices|, OnlyAt(|indices|, i);
    var x := if !Apart(indices[i], indices[j].0) then indices[j].0 else indices[j].1;
    assert Rewritten(indices, i + 1, x) by {
      assert !Apart(indices[j], x);
    }
    var l := FindLast(indices, i + 1, x);
    LastWriter(s, keep, indices, l, n, x);
    OnlyOneSwap(s, indices, i, x);
  }

  lemma OnlyOneSwap<T>(s: seq<T>, indices: seq<Pair>, i: nat, x: nat)
    requires Inside(indices, |s|) && Distinct(s) && i < |indices| && !Trivial(indices[i]) && !Apart(indices[i], x)
    ensures x < |s| && SwapEach(s, OnlyAt(|indices|, i), indices, |indices|)[x] != s[x]
  {
    var keep, p := OnlyAt(|indices|, i), indices[i];
    Untouched(s, keep, indices, i + 1, |indices|, x);
    Untouched(s, keep, indices, 0, i, p.0);
    Untouched(s, keep, indices, 0, i, p.1);
    var before := SwapEach(s, keep, indices, i);
    assert SwapEach(s, keep, indices, i + 1) == SwapOne(before, false, p);
    SwapMoves(s, before, p, x);
  }

  lemma SwapMoves<T>(s: seq<T>, t: seq<T>, p: Pair, x: nat)
    requires p.0 < |s| == |t| && p.1 < |s| && Distinct(s) && !Trivial(p) && !Apart(p, x)
    requires t[p.0] == s[p.0] && t[p.1] == s[p.1]
    ensures SwapOne(t, false, p)[x] != s[x]
  {
  }

  /** Whatever the bits, snapshot and sequence agree: for a list without repeated entries, exactly if
      no pair that moves something is touched by a later one. */
  lemma SnapshotIsEach<T>(s: seq<T>, indices: seq<Pair>)
    requires Inside(indices, |s|) && Distinct(s)
    ensures (forall keep: seq<bool> :: |keep| == |indices| ==>
        SwapSnapshot(s, keep, indices, |indices|) == SwapEach(s, keep, indices, |indices|))
      <==> Separate(indices)
  {
    if Separate(indices) {
      forall keep: seq<bool> | |keep| == |indices|
        ensures SwapSnapshot(s, keep, indices, |indices|) == SwapEach(s, keep, indices, |indices|)
      {
        SeparateAgrees(s, keep, indices, |indices|);
      }
    } else {
      var i, j :| 0 <= i < j < |indices| && !Trivial(indices[i]) && !PairsApart(indices[i], indices[j]);
      OverlapDisagrees(s, indices, i, j);
    }
  }

  /** On overlapping pairs an entry can get lost and another one be duplicated. */
  lemma OverlapDiffers()
    ensures var indices: seq<Pair> := [(0, 1), (1, 2)];
      var keep, s := [false, false], [10, 20, 30];
      && Inside(indices, |s|) && !Separate(indices) && !Balanced(indices)
      && SwapSnapshot(s, keep, indices, 2) == [20, 30, 20] && SwapEach(s, keep, indices, 2) == [20, 30, 10]
  {
    var indices: seq<Pair> := [(0, 1), (1, 2)];
    var keep, s := [false, false], [10, 20, 30];
    assert !PairsApart(indices[0], indices[1]);
    assert Rewritten(indices, 1, 1) by {
      assert !Apart(indices[1], 1);
    }
    assert !Rewritten(indices, 1, 0);
    assert SwapSnapshot(s, keep, indices, 1) == [20, 10, 30];
    assert SwapEach(s, keep, indices, 1) == [20, 10, 30];
  }

  // ----- when nothing is lost or duplicated ----------------------------------------------

  lemma SwapOneKeeps<T>(s: seq<T>, p: Pair)
    requires p.0 < |s| && p.1 < |s|
    ensures multiset(s[p.0 := s[p.1]][p.1 := s[p.0]]) == multiset(s)
  {
  }

  lemma SwapOneEntries<T>(s: seq<T>, keep: bool, p: Pair)
    requires p.0 < |s| && p.1 < |s|
    ensures multiset(SwapOne(s, keep, p)) == multiset(s)
  {
    if !keep {
      SwapOneKeeps(s, p);
    }
  }

  lemma {:induction false} EachKeepsEntries<T>(s: seq<T>, keep: seq<bool>, indices: seq<Pair>, n: nat)
    requires n <= |indices| && n <= |keep| && Inside(indices, |s|)
    ensures multiset(SwapEach(s, keep, indices, n)) == multiset(s)
  {
    if n > 0 {
      var m := n - 1;
      var before := SwapEach(s, keep, indices, m);
      EachKeepsEntries(s, keep, indices, m);
      SwapOneEntries(before, keep[m], indices[m]);
      LastSwap(s, keep, indices, m, before);
    }
  }

  lemma LastSwap<T>(s: seq<T>, keep: seq<bool>, indices: seq<Pair>, m: nat, before: seq<T>)
    requires m < |indices| && m < |keep| && Inside(indices, |s|) && before == SwapEach(s, keep, indices, m)
    ensures SwapEach(s, keep, indices, m + 1) == SwapOne(before, keep[m], indices[m])
  {
  }

  /** The pairs that still count: not switched off and not overwritten. */
  function Final(keep: seq<bool>, indices: seq<Pair>): (r: seq<bool>)
    requires |keep| == |indices|
    ensures |r| == |keep|
    ensures forall j :: 0 <= j < |r| ==> r[j] == (keep[j] || Rewritten(indices, j + 1, indices[j].0))
  {
    seq(|keep|, j requires 0 <= j < |keep| => keep[j] || Rewritten(indices, j + 1, indices[j].0))
  }

  /** A pair that still counts is touched by no later one. */
  lemma FinalIsLast(keep: seq<bool>, indices: seq<Pair>, i: nat, j: nat)
    requires |keep| == |indices| && Balanced(indices) && i < j < |indices| && !Final(keep, indices)[i]
    requires !Trivial(indices[i])
    ensures PairsApart(indices[i], indices[j])
  {
    assert !Rewritten(indices, i + 1, indices[i].0) && !Rewritten(indices, i + 1, indices[i].1);
    assert Apart(indices[j], indices[i].0) && Apart(indices[j], indices[i].1);
  }

  /** Swapping the pairs that still count one after the other: what the last pair touching x wrote. */
  lemma FinalAt<T>(s: seq<T>, keep: seq<bool>, indices: seq<Pair>, l: nat, x: nat)
    requires |keep| == |indices| && Inside(indices, |s|) && Balanced(indices) && l < |indices| && !Apart(indices[l], x)
    requires forall j :: l < j < |indices| ==> Apart(indices[j], x)
    ensures x < |s| && SwapEach(s, Final(keep, indices), indices, |indices|)[x] == Written(s, keep[l], indices[l], x)
  {
    var n, f, p := |indices|, Final(keep, indices), indices[l];
    Untouched(s, f, indices, l + 1, n, x);
    assert Passive(f, indices, 0, l, p.0) && Passive(f, indices, 0, l, p.1) by {
      forall j | 0 <= j < l && !f[j] && !Trivial(indices[j])
        ensures PairsApart(indices[j], p)
      {
        FinalIsLast(keep, indices, j, l);
      }
    }
    Untouched(s, f, indices, 0, l, p.0);
    Untouched(s, f, indices, 0, l, p.1);
    assert !Rewritten(indices, l + 1, x);
    assert Trivial(p) || f[l] == keep[l];
  }

  lemma BalancedIsFinal<T>(s: seq<T>, keep: seq<bool>, indices: seq<Pair>)
    requires |keep| == |indices| && Inside(indices, |s|) && Balanced(indices)
    ensures SwapSnapshot(s, keep, indices, |indices|) == SwapEach(s, Final(keep, indices), indices, |indices|)
  {
    var n, f := |indices|, Final(keep, indices);
    forall x | 0 <= x < |s|
      ensures SwapSnapshot(s, keep, indices, n)[x] == SwapEach(s, f, indices, n)[x]
    {
      if Rewritten(indices, 0, x) {
        var l := FindLast(indices, 0, x);
        LastWriter(s, keep, indices, l, n, x);
        FinalAt(s, keep, indices, l, x);
      } else {
        assert forall j :: 0 <= j < n ==> Apart(indices[j], x);
        NeverWritten(s, keep, indices, n, x);
        Untouched(s, f, indices, 0, n, x);
      }
    }
  }

  /** One end overwritten, the other not: with all other bits set, the entry of the overwritten end appears twice. */
  lemma UnbalancedDuplicates<T>(s: seq<T>, indices: seq<Pair>, i: nat, x: nat, y: nat)
    requires Inside(indices, |s|) && i < |indices| && x != y && !Apart(indices[i], x) && !Apart(indices[i], y)
    requires Rewritten(indices, i + 1, x) && !Rewritten(indices, i + 1, y)
    ensures x < |s| && y < |s|
    ensures var r := SwapSnapshot(s, OnlyAt(|indices|, i), indices, |indices|); r[x] == r[y] == s[x]
  {
    var n, keep := |indices|, OnlyAt(|indices|, i);
    var l := FindLast(indices, i + 1, x);
    LastWriter(s, keep, indices, l, n, x);
    LastWriter(s, keep, indices, i, n, y);
  }

  lemma DistinctOnce<T>(s: seq<T>, v: T)
    requires Distinct(s)
    ensures multiset(s)[v] <= 1
    decreases |s|
  {
    if s != [] {
      var n := |s| - 1;
      assert s == s[..n] + [s[n]];
      DistinctOnce(s[..n], v);
      if multiset(s[..n])[v] > 0 {
        assert v in s[..n];
      }
    }
  }

  lemma CountedTwice<T>(s: seq<T>, x: nat, y: nat)
    requires x < y < |s| && s[x] == s[y]
    ensures multiset(s)[s[x]] >= 2
  {
    assert s == s[..y] + s[y..];
    assert s[x] in s[..y] && s[y] in s[y..];
  }

  /** Whatever the bits, the code loses and duplicates nothing: exactly if of every pair that moves
      something later pairs overwrite both ends or neither. */
  lemma SwapKeepsEntries<T>(s: seq<T>, indices: seq<Pair>)
    requires Inside(indices, |s|) && Distinct(s)
    ensures (forall keep: seq<bool> :: |keep| == |indices| ==>
        multiset(SwapSnapshot(s, keep, indices, |indices|)) == multiset(s))
      <==> Balanced(indices)
  {
    if Balanced(indices) {
      forall keep: seq<bool> | |keep| == |indices|
        ensures multiset(SwapSnapshot(s, keep, indices, |indices|)) == multiset(s)
      {
        BalancedIsFinal(s, keep, indices);
        EachKeepsEntries(s, Final(keep, indices), indices, |indices|);
      }
    } else {
      var i :| 0 <= i < |indices| && !Trivial(indices[i])
        && Rewritten(indices, i + 1, indices[i].0) != Rewritten(indices, i + 1, indices[i].1);
      var (a, b) := indices[i];
      var (x, y) := if Rewritten(indices, i + 1, a) then (a, b) else (b, a);
      UnbalancedDuplicates(s, indices, i, x, y);
      var r := SwapSnapshot(s, OnlyAt(|indices|, i), indices, |indices|);
      CountedTwice(r, if x < y then x else y, if x < y then y else x);
      DistinctOnce(s, s[x]);
    }
  }

  /** Separate pairs, and so disjoint ones, are balanced. */
  lemma SeparateIsBalanced(indices: seq<Pair>)
    ensures Disjoint(indices) ==> Separate(indices)
    ensures Separate(indices) ==> Balanced(indices)
  {
    if Separate(indices) {
      forall i, x | 0 <= i < |indices| && !Trivial(indices[i]) && !Apart(indices[i], x)
        ensures !Rewritten(indices, i + 1, x)
      {
        assert forall j :: i < j < |indices| ==> PairsApart(indices[i], indices[j]);
      }
    }
  }

  // ----- the protocol with shared ids --------------------------------------------------------

  /** The entries on one side of every pair. */
  function Side(list: seq<Entry>, indices: seq<Pair>, second: bool): (r: seq<Entry>)
    requires Inside(indices, |list|)
    ensures |r| == |indices|
    ensures forall j :: 0 <= j < |indices| ==> r[j] == list[if second then indices[j].1 else indices[j].0]
  {
    seq(|indices|, j requires 0 <= j < |indices| => list[if second then indices[j].1 else indices[j].0])
  }

  function FieldsOf(entries: seq<Entry>): (r: Vec)
    ensures |r| == 3 * |entries|
    ensures forall j :: 0 <= j < |entries| ==> EntryAt(r, j) == entries[j]
  {
    seq(3 * |entries|, i requires 0 <= i < 3 * |entries| =>
      if i % 3 == 0 then entries[i / 3].id else if i % 3 == 1 then entries[i / 3].code else entries[i / 3].mask)
  }

  function Thrice(control: Vec): (r: Vec)
    ensures |r| == 3 * |control|
    ensures forall j :: 0 <= j < |control| ==> control[j] == r[3 * j] == r[3 * j + 1] == r[3 * j + 2]
  {
    seq(3 * |control|, i requires 0 <= i < 3 * |control| => control[i / 3])
  }

  function EntryAt(flat: Vec, j: nat): (e: Entry)
    requires 3 * j + 2 < |flat|
  {
    Entry(flat[3 * j], flat[3 * j + 1], flat[3 * j + 2])
  }

  function Other(d1: Shared<nat>, d2: Shared<nat>, first: Shared<nat>, k: nat): (r: Shared<nat>) {
    SubShared(AddShared(d1, d2, k), first, k)
  }

  function OtherEntry(e1: Entry, e2: Entry, first: Entry, k: nat): (r: Entry) {
    Entry(Other(e1.id, e2.id, first.id, k), Other(e1.code, e2.code, first.code, k),
          Other(e1.mask, e2.mask, first.mask, k))
  }

  /** The sum minus the selected one is the other one. */
  lemma OtherOpens(d1: Shared<nat>, d2: Shared<nat>, first: Shared<nat>, k: nat, b: bool)
    requires Open(first, k) == Open(if b then d1 else d2, k)
    ensures Open(Other(d1, d2, first, k), k) == Open(if b then d2 else d1, k)
  {
    OpenAdd(d1, d2, k);
    ModIdem(Open(first, k), Pow2(k));
    DivModUnique(Open(first, k), Pow2(k), 0, Open(first, k));
    OpenSubOf(AddShared(d1, d2, k), first, Open(d1, k) + Open(d2, k), Open(first, k), k);
    var o := Open(if b then d2 else d1, k);
    DivModUnique(o, Pow2(k), 0, o);
  }

  lemma OtherEntryOpens(e1: Entry, e2: Entry, first: Entry, k: nat, b: bool)
    requires OpenOne(first, k) == OpenOne(if b then e1 else e2, k)
    ensures OpenOne(OtherEntry(e1, e2, first, k), k) == OpenOne(if b then e2 else e1, k)
  {
    OtherOpens(e1.id, e2.id, first.id, k, b);
    OtherOpens(e1.code, e2.code, first.code, k, b);
    OtherOpens(e1.mask, e2.mask, first.mask, k, b);
  }

  function OpenKeeps(bits: Plane): (r: seq<bool>)
    ensures |r| == |bits| && forall j :: 0 <= j < |bits| ==> r[j] == OpenBit(bits[j])
  {
    seq(|bits|, j requires 0 <= j < |bits| => OpenBit(bits[j]))
  }

  lemma SelectedField(flat: Vec, control: Vec, left: Vec, right: Vec, i: nat, b: bool, k: nat)
    requires AreMuxed(flat, control, left, right, k) && i < |flat| && Open(control[i], k) == B(b)
    ensures Open(flat[i], k) == Open(if b then left[i] else right[i], k)
  {
    MuxedAt(flat, control, left, right, i, k);
    MuxSelects(Open(control[i], k), Open(left[i], k), Open(right[i], k), k);
  }

  lemma SelectedTriple(flat: Vec, c: Vec, l: Vec, r: Vec, j: nat, b: bool, k: nat)
    requires AreMuxed(flat, c, l, r, k) && 3 * j + 2 < |flat|
    requires Open(c[3 * j], k) == Open(c[3 * j + 1], k) == Open(c[3 * j + 2], k) == B(b)
    ensures OpenOne(EntryAt(flat, j), k) == OpenOne(EntryAt(if b then l else r, j), k)
  {
    SelectedField(flat, c, l, r, 3 * j, b, k);
    SelectedField(flat, c, l, r, 3 * j + 1, b, k);
    SelectedField(flat, c, l, r, 3 * j + 2, b, k);
  }

  lemma SelectedEntry(flat: Vec, control: Vec, list: seq<Entry>, indices: seq<Pair>, j: nat, b: bool, k: nat)
    requires Inside(indices, |list|) && |control| == |indices| && j < |indices|
    requires AreMuxed(flat, Thrice(control), FieldsOf(Side(list, indices, false)), FieldsOf(Side(list, indices, true)),
                      k)
    requires Open(control[j], k) == B(b)
    ensures OpenOne(EntryAt(flat, j), k) == OpenOne(list[if b then indices[j].0 else indices[j].1], k)
  {
    var left, right := Side(list, indices, false), Side(list, indices, true);
    SelectedTriple(flat, Thrice(control), FieldsOf(left), FieldsOf(right), j, b, k);
    assert EntryAt(FieldsOf(left), j) == left[j] && EntryAt(FieldsOf(right), j) == right[j];
  }

  /** Selected entries per pair: the first one if the bit is set, else the second. */
  method SelectEntries(net: Network, bits: Plane, list: seq<Entry>, indices: seq<Pair>, k: nat) returns (flat: Vec)
    requires net.Quiet() && k >= 1 && |bits| == |indices| && Inside(indices, |list|)
    modifies net
    ensures net.Quiet() && |flat| == 3 * |indices|
    ensures forall j :: 0 <= j < |indices| ==>
      OpenOne(EntryAt(flat, j), k) == OpenOne(list[if OpenBit(bits[j]) then indices[j].0 else indices[j].1], k)
  {
    var control := BitInject(net, bits, k);
    flat := ReshareMux(net, Thrice(control), FieldsOf(Side(list, indices, false)), FieldsOf(Side(list, indices, true)),
                       k);
    forall j | 0 <= j < |indices|
      ensures OpenOne(EntryAt(flat, j), k) == OpenOne(list[if OpenBit(bits[j]) then indices[j].0 else indices[j].1], k)
    {
      SelectedEntry(flat, control, list, indices, j, OpenBit(bits[j]), k);
    }
  }

  method CheckIndices(indices: seq<Pair>, n: nat) returns (ok: bool)
    ensures ok <==> Inside(indices, n)
  {
    for j := 0 to |indices|
      invariant Inside(indices[..j], n)
    {
      if indices[j].0 >= n || indices[j].1 >= n {
        return false;
      }
      assert indices[..j + 1] == indices[..j] + [indices[j]];
    }
    assert indices[..|indices|] == indices;
    return true;
  }

  lemma WritePair(out: seq<Entry>, list: seq<Entry>, p: Pair, first: Entry, b: bool, k: nat)
    requires |out| == |list| && p.0 < |list| && p.1 < |list|
    requires OpenOne(first, k) == OpenOne(list[if b then p.0 else p.1], k)
    ensures var s := OpenList(list, k);
      OpenList(out[p.0 := first][p.1 := OtherEntry(list[p.0], list[p.1], first, k)], k)
      == OpenList(out, k)[p.0 := if b then s[p.0] else s[p.1]][p.1 := if b then s[p.1] else s[p.0]]
  {
    OtherEntryOpens(list[p.0], list[p.1], first, k, b);
  }

  /** Writes the selected entries and the remaining ones back, pair by pair. */
  method WriteSelected(list: seq<Entry>, indices: seq<Pair>, selected: Vec, k: nat, ghost keep: seq<bool>)
    returns (out: seq<Entry>)
    requires Inside(indices, |list|) && |selected| == 3 * |indices| && |keep| == |indices|
    requires forall j :: 0 <= j < |indices| ==>
      OpenOne(EntryAt(selected, j), k) == OpenOne(list[if keep[j] then indices[j].0 else indices[j].1], k)
    ensures OpenList(out, k) == SwapSnapshot(OpenList(list, k), keep, indices, |indices|)
  {
    out := list;
    for j := 0 to |indices|
      invariant |out| == |list|
      invariant OpenList(out, k) == SwapSnapshot(OpenList(list, k), keep, indices, j)
    {
      var (i1, i2) := indices[j];
      var first := EntryAt(selected, j);
      WritePair(out, list, indices[j], first, keep[j], k);
      out := out[i1 := first][i2 := OtherEntry(list[i1], list[i2], first, k)];
    }
  }

  /** A pair is swapped where its bit opens to zero. The swaps are computed from the list as it was. */
  method ConditionallySwapDistances(net: Network, bits: Plane, list: seq<Entry>, indices: seq<Pair>, k: nat)
    returns (r: Result<seq<Entry>>)
    requires net.Quiet() && k >= 1
    modifies net
    ensures net.Quiet()
    ensures r.Success? <==> |bits| == |indices| && Inside(indices, |list|)
    ensures r.Success? ==> OpenList(r.value, k) == SwapSnapshot(OpenList(list, k), OpenKeeps(bits), indices, |indices|)
  {
    if |bits| != |indices| {
      return Failure(InvalidSize);
    }
    var ok := CheckIndices(indices, |list|);
    if !ok {
      return Failure(OutOfBounds);
    }
    var selected := SelectEntries(net, bits, list, indices, k);
    var out := WriteSelected(list, indices, selected, k, OpenKeeps(bits));
    return Success(out);
  }
}
