/** Two-dimensional histograms from cumulative counts. */
module Histogram {
  import opened Words

  // ----- counting pairs of scores --------------------------------------------------------------------

  type Scores = seq<(int, int)>

  /** How many of the first m pairs lie below both bounds. */
  function CountBelow(pairs: Scores, left: int, right: int, m: nat): (r: nat)
    requires m <= |pairs|
    ensures r <= m
  {
    if m == 0 then 0
    else CountBelow(pairs, left, right, m - 1) + B(pairs[m - 1].0 < left && pairs[m - 1].1 < right)
  }

  predicate InRange(x: int, lo: int, hi: int) {
    lo <= x < hi
  }

  /** How many of the first m pairs lie in a cell. */
  function CountCell(pairs: Scores, lo: int, hi: int, lo': int, hi': int, m: nat): (r: nat)
    requires m <= |pairs|
  {
    if m == 0 then 0
    else CountCell(pairs, lo, hi, lo', hi',
                   m - 1) + B(InRange(pairs[m - 1].0, lo, hi) && InRange(pairs[m - 1].1, lo', hi'))
  }

  /** Inclusion-exclusion over one pair and so over all of them. */
  lemma {:induction false} InclusionExclusion(pairs: Scores, lo: int, hi: int, lo': int, hi': int, m: nat)
    requires m <= |pairs| && lo <= hi && lo' <= hi'
    ensures CountCell(pairs, lo, hi, lo', hi', m)
         == CountBelow(pairs, hi, hi', m) - CountBelow(pairs, lo, hi', m)
          - CountBelow(pairs, hi, lo', m) + CountBelow(pairs, lo, lo', m)
  {
    if m > 0 {
      InclusionExclusion(pairs, lo, hi, lo', hi', m - 1);
    }
  }

  /** Nothing lies below the floor of the score domain. */
  lemma {:induction false} NothingBelow(pairs: Scores, floor: int, bound: int, m: nat)
    requires m <= |pairs| && forall k :: 0 <= k < m ==> floor <= pairs[k].0 && floor <= pairs[k].1
    ensures CountBelow(pairs, floor, bound, m) == 0 && CountBelow(pairs, bound, floor, m) == 0
  {
    if m > 0 {
      NothingBelow(pairs, floor, bound, m - 1);
    }
  }

  // ----- filling buckets -----------------------------------------------------------------------------

  const FLOOR: int := -0x8000

  datatype Bucket = Bucket(count: nat, leftLo: int, leftHi: int, rightLo: int, rightHi: int)

  /** Missing entries count as zero. */
  function Entry(c: seq<nat>, idx: int): (r: nat) {
    if 0 <= idx < |c| then c[idx] else 0
  }

  /** Count of cell (i, j) by inclusion-exclusion on the cumulative entries. */
  function Decumulated(c: seq<nat>, n: nat, i: nat, j: nat): (r: int) {
    var idx := i * n + j;
    Entry(c, idx) - (if i > 0 then Entry(c, idx - n) else 0) - (if j > 0 then Entry(c, idx - 1) else 0)
      + (if i > 0 && j > 0 then Entry(c, idx - n - 1) else 0)
  }

  function Edge(thresholds: seq<int>, k: nat): (r: int)
    requires k <= |thresholds|
  {
    if k == 0 then FLOOR else thresholds[k - 1]
  }

  /** The bucket emitted for a cell: none if the count is not positive. */
  function Emitted(c: seq<nat>, thresholds: seq<int>, i: nat, j: nat): (r: seq<Bucket>)
    requires i < |thresholds| && j < |thresholds|
  {
    var cell := Decumulated(c, |thresholds|, i, j);
    if cell > 0 then
      [Bucket(cell, Edge(thresholds, i), Edge(thresholds, i + 1), Edge(thresholds, j), Edge(thresholds, j + 1))]
    else []
  }

  /** The buckets of row i up to column j. */
  function Row(c: seq<nat>, thresholds: seq<int>, i: nat, j: nat): (r: seq<Bucket>)
    requires i < |thresholds| && j <= |thresholds|
  {
    if j == 0 then [] else Row(c, thresholds, i, j - 1) + Emitted(c, thresholds, i, j - 1)
  }

  /** The buckets of the first i rows. */
  function Rows(c: seq<nat>, thresholds: seq<int>, i: nat): (r: seq<Bucket>)
    requires i <= |thresholds|
  {
    if i == 0 then [] else Rows(c, thresholds, i - 1) + Row(c, thresholds, i - 1, |thresholds|)
  }

  /** Everything emitted before cell (row, col). */
  ghost function UpTo(c: seq<nat>, thresholds: seq<int>, row: nat, col: nat): (r: seq<Bucket>)
    requires row <= |thresholds| && col <= |thresholds|
  {
    Rows(c, thresholds, row) + if row < |thresholds| then Row(c, thresholds, row, col) else []
  }

  /** Cell (row, col) is number idx, or idx is one past the last cell. */
  predicate Position(idx: nat, row: nat, col: nat, n: nat) {
    idx == row * n + col && (if row < n then col < n else row == n && col == 0)
  }

  lemma NextPosition(idx: nat, row: nat, col: nat, n: nat, row': nat, col': nat)
    requires Position(idx, row, col, n) && row < n
    requires if col + 1 == n then row' == row + 1 && col' == 0 else row' == row && col' == col + 1
    ensures Position(idx + 1, row', col', n)
  {
    assert (row + 1) * n == row * n + n;
  }

  lemma InsideGrid(row: nat, col: nat, n: nat)
    requires row < n && col < n
    ensures row * n + col < n * n
  {
    MulNonneg(n - row - 1, n);
    assert n * n == row * n + n + (n - row - 1) * n;
  }

  lemma PositionInside(idx: nat, row: nat, col: nat, n: nat)
    requires Position(idx, row, col, n)
    ensures row < n <==> idx < n * n
  {
    if row < n {
      InsideGrid(row, col, n);
    }
  }

  lemma UpToNext(c: seq<nat>, thresholds: seq<int>, row: nat, col: nat, row': nat, col': nat)
    requires row < |thresholds| && col < |thresholds|
    requires if col + 1 == |thresholds| then row' == row + 1 && col' == 0 else row' == row && col' == col + 1
    ensures UpTo(c, thresholds, row', col') == UpTo(c, thresholds, row, col) + Emitted(c, thresholds, row, col)
  {
    var done, part, e := Rows(c, thresholds, row), Row(c, thresholds, row, col), Emitted(c, thresholds, row, col);
    RowNext(c, thresholds, row, col, part, e);
    if col + 1 == |thresholds| {
      RowsNext(c, thresholds, row, done, part + e);
    }
    assert done + (part + e) == (done + part) + e;
  }

  lemma RowNext(c: seq<nat>, thresholds: seq<int>, row: nat, col: nat, part: seq<Bucket>, e: seq<Bucket>)
    requires row < |thresholds| && col < |thresholds| && part == Row(c, thresholds, row, col)
    requires e == Emitted(c, thresholds, row, col)
    ensures Row(c, thresholds, row, col + 1) == part + e
  {
  }

  lemma RowsNext(c: seq<nat>, thresholds: seq<int>, row: nat, done: seq<Bucket>, full: seq<Bucket>)
    requires row < |thresholds| && done == Rows(c, thresholds, row) && full == Row(c, thresholds, row, |thresholds|)
    ensures Rows(c, thresholds, row + 1) == done + full && UpTo(c, thresholds, row + 1, 0) == done + full
  {
    assert row + 1 < |thresholds| ==> Row(c, thresholds, row + 1, 0) == [];
  }

  /** The body of the loop for cell number idx. */
  method EmitCell(c: seq<nat>, thresholds: seq<int>, idx: nat, ghost row: nat, ghost col: nat)
    returns (out: seq<Bucket>)
    requires Position(idx, row, col, |thresholds|) && row < |thresholds|
    ensures out == Emitted(c, thresholds, row, col)
  {
    var n := |thresholds|;
    DivModUnique(idx, n, row, col);
    var i, j := idx / n, idx % n;
    var cell := Entry(c, idx) - (if i > 0 then Entry(c, idx - n) else 0) - (if j > 0 then Entry(c, idx - 1) else 0)
      + (if i > 0 && j > 0 then Entry(c, idx - n - 1) else 0);
    if cell < 0 {
      cell := 0;
    }
    if cell > 0 {
      return [Bucket(cell, Edge(thresholds, i), Edge(thresholds, i + 1), Edge(thresholds, j), Edge(thresholds, j + 1))];
    }
    return [];
  }

  class BucketStatistics2D {
    var buckets: seq<Bucket>
    var perSide: nat

    constructor (perSide: nat)
      ensures this.perSide == perSide && buckets == []
    {
      this.perSide := perSide;
      buckets := [];
    }

    /** Replaces the buckets by the non-empty cells, row by row. */
    method FillBucketsDi(c: seq<nat>, thresholds: seq<int>)
      modifies this
      ensures perSide == |thresholds|
      ensures buckets == Rows(c, thresholds, |thresholds|)
      ensures forall pairs :: Cumulative(c, pairs, thresholds) && SortedThresholds(thresholds) && InDomain(pairs) ==>
        IsHistogram(buckets, pairs, thresholds, -0x8000)
    {
      buckets := [];
      perSide := |thresholds|;
      var nn := perSide * perSide;
      ghost var row, col := 0, 0;
      for idx := 0 to nn
        invariant perSide == |thresholds| && Position(idx, row, col, |thresholds|)
        invariant buckets == UpTo(c, thresholds, row, col)
      {
        PositionInside(idx, row, col, perSide);
        var cell := EmitCell(c, thresholds, idx, row, col);
        buckets := buckets + cell;
        ghost var last := col + 1 == perSide;
        ghost var row', col' := if last then row + 1 else row, if last then 0 else col + 1;
        NextPosition(idx, row, col, perSide, row', col');
        UpToNext(c, thresholds, row, col, row', col');
        row, col := row', col';
      }
      PositionInside(nn, row, col, perSide);
      forall pairs | Cumulative(c, pairs, thresholds) && SortedThresholds(thresholds) && InDomain(pairs)
        ensures IsHistogram(buckets, pairs, thresholds, -0x8000)
      {
        RowsAreHistogram(c, pairs, thresholds, -0x8000);
      }
    }
  }

  // ----- exact counts --------------------------------------------------------------------------------------

  predicate SortedThresholds(thresholds: seq<int>) {
    forall k, l :: 0 <= k <= l < |thresholds| ==> -0x8000 <= thresholds[k] <= thresholds[l]
  }

  predicate InDomain(pairs: Scores) {
    forall k :: 0 <= k < |pairs| ==> -0x8000 <= pairs[k].0 && -0x8000 <= pairs[k].1
  }

  /** Entry (i, j) counts the pairs below thresholds i and j. */
  predicate CumulativeAt(c: seq<nat>, pairs: Scores, thresholds: seq<int>, i: nat, j: nat) {
    i < |thresholds| && j < |thresholds| ==>
      Entry(c, i * |thresholds| + j) == CountBelow(pairs, thresholds[i], thresholds[j], |pairs|)
  }

  ghost predicate Cumulative(c: seq<nat>, pairs: Scores, thresholds: seq<int>) {
    forall i: nat, j: nat :: CumulativeAt(c, pairs, thresholds, i, j)
  }

  /** Cumulative count with index 0 for the floor. */
  function Below(pairs: Scores, thresholds: seq<int>, i: nat, j: nat): (r: nat)
    requires i <= |thresholds| && j <= |thresholds|
  {
    CountBelow(pairs, Edge(thresholds, i), Edge(thresholds, j), |pairs|)
  }

  lemma FloorCounts(pairs: Scores, thresholds: seq<int>, i: nat)
    requires InDomain(pairs) && i <= |thresholds|
    ensures Below(pairs, thresholds, 0, i) == 0 && Below(pairs, thresholds, i, 0) == 0
  {
    NothingBelow(pairs, FLOOR, Edge(thresholds, i), |pairs|);
  }

  /** What inclusion-exclusion finds is the number of pairs in the cell; so nothing is ever clamped. */
  lemma CellExact(c: seq<nat>, pairs: Scores, thresholds: seq<int>, i: nat, j: nat)
    requires Cumulative(c, pairs, thresholds) && SortedThresholds(thresholds) && InDomain(pairs) && i < |thresholds|
    requires j < |thresholds|
    ensures Decumulated(c, |thresholds|, i, j)
         == CountCell(pairs, Edge(thresholds, i), Edge(thresholds, i + 1), Edge(thresholds, j), Edge(thresholds, j + 1),
                      |pairs|)
    ensures Decumulated(c, |thresholds|, i, j)
         == Below(pairs, thresholds, i + 1, j + 1) - Below(pairs, thresholds, i, j + 1)
          - Below(pairs, thresholds, i + 1, j) + Below(pairs, thresholds, i, j)
  {
    var n := |thresholds|;
    FloorCounts(pairs, thresholds, i);
    FloorCounts(pairs, thresholds, i + 1);
    FloorCounts(pairs, thresholds, j);
    FloorCounts(pairs, thresholds, j + 1);
    assert CumulativeAt(c, pairs, thresholds, i, j);
    if i > 0 {
      assert CumulativeAt(c, pairs, thresholds, i - 1, j);
      assert (i - 1) * n + j == i * n + j - n;
    }
    if j > 0 {
      assert CumulativeAt(c, pairs, thresholds, i, j - 1);
    }
    if i > 0 && j > 0 {
      assert CumulativeAt(c, pairs, thresholds, i - 1, j - 1);
      assert (i - 1) * n + (j - 1) == i * n + j - n - 1;
    }
    InclusionExclusion(pairs, Edge(thresholds, i), Edge(thresholds, i + 1), Edge(thresholds, j),
                       Edge(thresholds, j + 1), |pairs|);
  }

  function Total(buckets: seq<Bucket>): (r: nat) {
    if buckets == [] then 0 else Total(buckets[..|buckets| - 1]) + buckets[|buckets| - 1].count
  }

  lemma {:induction false} TotalAppend(x: seq<Bucket>, y: seq<Bucket>)
    ensures Total(x + y) == Total(x) + Total(y)
  {
    if y == [] {
      assert x + y == x;
    } else {
      var n := |y| - 1;
      TotalAppend(x, y[..n]);
      assert (x + y)[..|x + y| - 1] == x + y[..n];
    }
  }

  lemma EmittedTotal(c: seq<nat>, pairs: Scores, thresholds: seq<int>, i: nat, j: nat)
    requires Cumulative(c, pairs, thresholds) && SortedThresholds(thresholds) && InDomain(pairs) && i < |thresholds|
    requires j < |thresholds|
    ensures Total(Emitted(c, thresholds, i, j))
         == Below(pairs, thresholds, i + 1, j + 1) - Below(pairs, thresholds, i, j + 1)
          - Below(pairs, thresholds, i + 1, j) + Below(pairs, thresholds, i, j)
  {
    CellExact(c, pairs, thresholds, i, j);
    var e := Emitted(c, thresholds, i, j);
    if e != [] {
      assert e[..|e| - 1] == [];
    }
  }

  lemma {:induction false} RowTotal(c: seq<nat>, pairs: Scores, thresholds: seq<int>, i: nat, j: nat)
    requires Cumulative(c, pairs, thresholds) && SortedThresholds(thresholds) && InDomain(pairs) && i < |thresholds|
    requires j <= |thresholds|
    ensures Total(Row(c, thresholds, i, j)) == Below(pairs, thresholds, i + 1, j) - Below(pairs, thresholds, i, j)
  {
    if j == 0 {
      FloorCounts(pairs, thresholds, i);
      FloorCounts(pairs, thresholds, i + 1);
    } else {
      var k := j - 1;
      RowTotal(c, pairs, thresholds, i, k);
      EmittedTotal(c, pairs, thresholds, i, k);
      var part, e := Row(c, thresholds, i, k), Emitted(c, thresholds, i, k);
      RowNext(c, thresholds, i, k, part, e);
      TotalAppend(part, e);
    }
  }

  /** The emitted counts add up to the last cumulative entry. */
  lemma {:induction false} RowsTotal(c: seq<nat>, pairs: Scores, thresholds: seq<int>, i: nat)
    requires Cumulative(c, pairs, thresholds) && SortedThresholds(thresholds) && InDomain(pairs) && i <= |thresholds|
    ensures Total(Rows(c, thresholds, i)) == Below(pairs, thresholds, i, |thresholds|)
  {
    if i == 0 {
      FloorCounts(pairs, thresholds, |thresholds|);
    } else {
      var k := i - 1;
      RowsTotal(c, pairs, thresholds, k);
      OneRowMore(c, pairs, thresholds, k);
      assert k + 1 == i;
    }
  }

  lemma OneRowMore(c: seq<nat>, pairs: Scores, thresholds: seq<int>, k: nat)
    requires Cumulative(c, pairs, thresholds) && SortedThresholds(thresholds) && InDomain(pairs) && k < |thresholds|
    requires Total(Rows(c, thresholds, k)) == Below(pairs, thresholds, k, |thresholds|)
    ensures Total(Rows(c, thresholds, k + 1)) == Below(pairs, thresholds, k + 1, |thresholds|)
  {
    RowTotal(c, pairs, thresholds, k, |thresholds|);
    var done, full := Rows(c, thresholds, k), Row(c, thresholds, k, |thresholds|);
    RowsNext(c, thresholds, k, done, full);
    TotalAppend(done, full);
  }

  // ----- the histogram of a list of pairs --------------------------------------------------------------------

  /** A cell of the histogram, counted directly; empty cells are left out. The first row and column begin at the
      least score, the others at the threshold before. */
  ghost function ExactCell(pairs: Scores, thresholds: seq<int>, least: int, i: nat, j: nat): (r: seq<Bucket>)
    requires i < |thresholds| && j < |thresholds|
  {
    var lo := if i == 0 then least else thresholds[i - 1];
    var lo' := if j == 0 then least else thresholds[j - 1];
    var count := CountCell(pairs, lo, thresholds[i], lo', thresholds[j], |pairs|);
    if count > 0 then [Bucket(count, lo, thresholds[i], lo', thresholds[j])] else []
  }

  ghost function ExactRow(pairs: Scores, thresholds: seq<int>, least: int, i: nat, j: nat): (r: seq<Bucket>)
    requires i < |thresholds| && j <= |thresholds|
  {
    if j == 0 then [] else ExactRow(pairs, thresholds, least, i, j - 1) + ExactCell(pairs, thresholds, least, i, j - 1)
  }

  ghost function ExactRows(pairs: Scores, thresholds: seq<int>, least: int, i: nat): (r: seq<Bucket>)
    requires i <= |thresholds|
  {
    if i == 0 then []
    else ExactRows(pairs, thresholds, least, i - 1) + ExactRow(pairs, thresholds, least, i - 1, |thresholds|)
  }

  /** A cell is emitted with its exact count and range, or left out because no pair lies in it. */
  lemma EmittedExact(c: seq<nat>, pairs: Scores, thresholds: seq<int>, least: int, i: nat, j: nat)
    requires Cumulative(c, pairs, thresholds) && SortedThresholds(thresholds) && InDomain(pairs) && i < |thresholds|
    requires j < |thresholds| && least == -0x8000
    ensures Emitted(c, thresholds, i, j) == ExactCell(pairs, thresholds, least, i, j)
  {
    CellExact(c, pairs, thresholds, i, j);
  }

  lemma {:induction false} RowIsExact(c: seq<nat>, pairs: Scores, thresholds: seq<int>, least: int, i: nat, j: nat)
    requires Cumulative(c, pairs, thresholds) && SortedThresholds(thresholds) && InDomain(pairs)
    requires i < |thresholds| && j <= |thresholds| && least == -0x8000
    ensures Row(c, thresholds, i, j) == ExactRow(pairs, thresholds, least, i, j)
  {
    if j > 0 {
      RowIsExact(c, pairs, thresholds, least, i, j - 1);
      EmittedExact(c, pairs, thresholds, least, i, j - 1);
    }
  }

  lemma {:induction false} RowsAreExact(c: seq<nat>, pairs: Scores, thresholds: seq<int>, least: int, i: nat)
    requires Cumulative(c, pairs, thresholds) && SortedThresholds(thresholds) && InDomain(pairs) && i <= |thresholds|
    requires least == -0x8000
    ensures Rows(c, thresholds, i) == ExactRows(pairs, thresholds, least, i)
  {
    if i > 0 {
      var k := i - 1;
      RowsAreExact(c, pairs, thresholds, least, k);
      OneRowExact(c, pairs, thresholds, least, k);
      assert k + 1 == i;
    }
  }

  lemma OneRowExact(c: seq<nat>, pairs: Scores, thresholds: seq<int>, least: int, k: nat)
    requires Cumulative(c, pairs, thresholds) && SortedThresholds(thresholds) && InDomain(pairs) && k < |thresholds|
    requires least == -0x8000 && Rows(c, thresholds, k) == ExactRows(pairs, thresholds, least, k)
    ensures Rows(c, thresholds, k + 1) == ExactRows(pairs, thresholds, least, k + 1)
  {
    RowIsExact(c, pairs, thresholds, least, k, |thresholds|);
    var done, full := Rows(c, thresholds, k), Row(c, thresholds, k, |thresholds|);
    RowsNext(c, thresholds, k, done, full);
    ExactRowsNext(pairs, thresholds, least, k, done, full);
  }

  lemma ExactRowsNext(pairs: Scores, thresholds: seq<int>, least: int, k: nat, done: seq<Bucket>, full: seq<Bucket>)
    requires k < |thresholds| && done == ExactRows(pairs, thresholds, least, k)
    requires full == ExactRow(pairs, thresholds, least, k, |thresholds|)
    ensures ExactRows(pairs, thresholds, least, k + 1) == done + full
  {
  }

  /** The non-empty cells with their exact counts, row by row; together they hold every pair below the last
      threshold on both sides. */
  ghost predicate IsHistogram(buckets: seq<Bucket>, pairs: Scores, thresholds: seq<int>, least: int) {
    var n := |thresholds|;
    && buckets == ExactRows(pairs, thresholds, least, n)
    && Total(buckets) == if n == 0 then 0 else CountBelow(pairs, thresholds[n - 1], thresholds[n - 1], |pairs|)
  }

  /** Cumulative counts of any list of pairs decumulate to its histogram, which begins at the least 16-bit score. */
  lemma RowsAreHistogram(c: seq<nat>, pairs: Scores, thresholds: seq<int>, least: int)
    requires Cumulative(c, pairs, thresholds) && SortedThresholds(thresholds) && InDomain(pairs) && least == -0x8000
    ensures IsHistogram(Rows(c, thresholds, |thresholds|), pairs, thresholds, least)
  {
    RowsAreExact(c, pairs, thresholds, least, |thresholds|);
    RowsTotal(c, pairs, thresholds, |thresholds|);
    FloorCounts(pairs, thresholds, 0);
  }

  // ----- missing entries -----------------------------------------------------------------------------------

  ghost predicate PaddedWithZeros(c: seq<nat>, padded: seq<nat>) {
    c <= padded && forall x :: |c| <= x < |padded| ==> padded[x] == 0
  }

  lemma PaddedEntry(c: seq<nat>, padded: seq<nat>, idx: int)
    requires PaddedWithZeros(c, padded)
    ensures Entry(padded, idx) == Entry(c, idx)
  {
  }

  lemma PaddedCell(c: seq<nat>, padded: seq<nat>, thresholds: seq<int>, i: nat, j: nat)
    requires i < |thresholds| && j < |thresholds| && PaddedWithZeros(c, padded)
    ensures Emitted(padded, thresholds, i, j) == Emitted(c, thresholds, i, j)
  {
    var n := |thresholds|;
    PaddedEntry(c, padded, i * n + j);
    PaddedEntry(c, padded, i * n + j - n);
    PaddedEntry(c, padded, i * n + j - 1);
    PaddedEntry(c, padded, i * n + j - n - 1);
  }

  lemma {:induction false} PaddedRow(c: seq<nat>, padded: seq<nat>, thresholds: seq<int>, i: nat, j: nat)
    requires i < |thresholds| && j <= |thresholds| && PaddedWithZeros(c, padded)
    ensures Row(padded, thresholds, i, j) == Row(c, thresholds, i, j)
  {
    if j > 0 {
      PaddedRow(c, padded, thresholds, i, j - 1);
      PaddedCell(c, padded, thresholds, i, j - 1);
    }
  }

  /** A list of counts that is too short counts as filled up with zeros. */
  lemma {:induction false} PaddedRows(c: seq<nat>, padded: seq<nat>, thresholds: seq<int>, i: nat)
    requires i <= |thresholds| && PaddedWithZeros(c, padded)
    ensures Rows(padded, thresholds, i) == Rows(c, thresholds, i)
  {
    if i > 0 {
      PaddedRows(c, padded, thresholds, i - 1);
      PaddedRow(c, padded, thresholds, i - 1, |thresholds|);
    }
  }
}
