/** Draws from a keyed generator: unbiased residues and uniformly random permutations. */
module Prf {
  import opened Words
  import opened Results

  const TWO64: nat := 0x1_0000_0000_0000_0000
  type U64 = x: nat | x < TWO64

  /** The 64-bit outputs of one generator. */
  type Generator = nat -> U64

  // ----- rejection sampling ------------------------------------------------------------------------

  /** The largest value that is accepted. */
  function RejectionBound(modulus: nat): (r: int)
    requires modulus >= 1
  {
    (TWO64 - 1) - ((TWO64 - 1) % modulus + 1) % modulus
  }

  lemma BoundIsMultiple(modulus: nat)
    requires 1 <= modulus <= 0xffff_ffff
    ensures var b := RejectionBound(modulus);
      0x8000_0000_0000_0000 <= b < 0x1_0000_0000_0000_0000 <= b + modulus && (b + 1) % modulus == 0
  {
    var m, r := modulus, (TWO64 - 1) % modulus;
    var q := ModQuotient(TWO64 - 1, m);
    if r + 1 == m {
      DivModUnique(r + 1, m, 1, 0);
      assert TWO64 == (q + 1) * m;
      DivModUnique(TWO64, m, q + 1, 0);
    } else {
      DivModUnique(r + 1, m, 0, r + 1);
      DivModUnique(q * m, m, q, 0);
    }
  }

  /** Value number i with residue r. */
  ghost function Preimage(r: nat, m: nat, i: nat): (v: nat) {
    if i == 0 then r else Preimage(r, m, i - 1) + m
  }

  lemma {:induction false} PreimageIs(r: nat, m: nat, i: nat)
    ensures Preimage(r, m, i) == i * m + r
  {
    if i > 0 {
      PreimageIs(r, m, i - 1);
      assert i * m == (i - 1) * m + m;
    }
  }

  /** The first n values with residue r: those below n * m. */
  ghost function Preimages(r: nat, m: nat, n: nat): (s: set<nat>)
    requires r < m
  {
    if n == 0 then {} else Preimages(r, m, n - 1) + {Preimage(r, m, n - 1)}
  }

  lemma {:induction false} PreimagesMember(r: nat, m: nat, n: nat, v: nat)
    requires r < m
    ensures v in Preimages(r, m, n) <==> v < n * m && v % m == r
  {
    if n > 0 {
      var low := (n - 1) * m;
      PreimagesMember(r, m, n - 1, v);
      PreimageIs(r, m, n - 1);
      assert n * m == low + m;
      LastBlock(v, r, m, n - 1, low);
    }
  }

  lemma NewPreimage(r: nat, m: nat, n: nat)
    requires r < m
    ensures Preimage(r, m, n) !in Preimages(r, m, n)
  {
    PreimageIs(r, m, n);
    PreimagesMember(r, m, n, Preimage(r, m, n));
  }

  lemma AddOne(s: set<nat>, x: nat)
    requires x !in s
    ensures |s + {x}| == |s| + 1
  {
  }

  lemma {:induction false} PreimagesCount(r: nat, m: nat, n: nat)
    requires r < m
    ensures |Preimages(r, m, n)| == n
  {
    if n > 0 {
      PreimagesCount(r, m, n - 1);
      NewPreimage(r, m, n - 1);
      AddOne(Preimages(r, m, n - 1), Preimage(r, m, n - 1));
    }
  }

  /** The block of m values from low = n * m on holds one value with residue r. */
  lemma LastBlock(v: nat, r: nat, m: nat, n: nat, low: nat)
    requires r < m && low == n * m
    ensures v < low + m && v % m == r <==> (v < low && v % m == r) || v == low + r
  {
    DivModUnique(low + r, m, n, r);
    if low <= v < low + m {
      DivModUnique(v, m, n, v - low);
    }
  }

  /** Every residue has exactly (bound + 1) / modulus accepted preimages, and no larger bound does better: less than
      one whole block of 64-bit values is rejected. */
  lemma ResiduesEquallyLikely(r: nat, modulus: nat)
    requires 1 <= modulus <= 0xffff_ffff && r < modulus
    ensures var n := (RejectionBound(modulus) + 1) / modulus;
      n >= 1 && |Preimages(r, modulus, n)| == n && 0x1_0000_0000_0000_0000 <= RejectionBound(modulus) + modulus
      && forall v: nat :: v in Preimages(r, modulus, n) <==> v <= RejectionBound(modulus) && v % modulus == r
  {
    BoundIsMultiple(modulus);
    var total := RejectionBound(modulus) + 1;
    var n := total / modulus;
    var q := ModQuotient(total, modulus);
    DivModUnique(total, modulus, q, 0);
    assert n * modulus == total;
    PreimagesCount(r, modulus, n);
    forall v: nat
      ensures v in Preimages(r, modulus, n) <==> v <= RejectionBound(modulus) && v % modulus == r
    {
      PreimagesMember(r, modulus, n, v);
    }
  }

  /** An accepted value still to come. */
  ghost predicate Later(g: Generator, pos: nat) {
    exists hit :: hit >= pos && g(hit) < 0x8000_0000_0000_0000
  }

  /** The generator does not stay in the upper half forever. */
  ghost predicate Fair(g: Generator) {
    forall pos: nat :: Later(g, pos)
  }

  ghost predicate FirstAccepted(g: Generator, pos: nat, p: nat, modulus: nat)
    requires modulus >= 1
  {
    pos <= p && g(p) <= RejectionBound(modulus) && forall i :: pos <= i < p ==> g(i) > RejectionBound(modulus)
  }

  /** The residue of the first accepted output; the position moves just behind it. */
  method GenU32Mod(g: Generator, pos: nat, modulus: nat) returns (r: Result<nat>, next: nat)
    requires Fair(g) && modulus <= 0xffff_ffff
    ensures r.Success? <==> modulus != 0
    ensures r.Success? ==> next >= 1 && FirstAccepted(g, pos, next - 1, modulus) && r.value == g(next - 1) % modulus
    ensures r.Failure? ==> next == pos
  {
    next := pos;
    if modulus == 0 {
      r := Failure(InvalidSize);
      return;
    }
    BoundIsMultiple(modulus);
    assert Later(g, pos);
    ghost var hit :| hit >= pos && g(hit) < 0x8000_0000_0000_0000;
    var bound := RejectionBound(modulus);
    while true
      invariant pos <= next <= hit && forall i :: pos <= i < next ==> g(i) > bound
      decreases hit - next
    {
      var v := g(next);
      next := next + 1;
      if v <= bound {
        r := Success(v % modulus);
        return;
      }
    }
  }

  // ----- permutations ---------------------------------------------------------------------------------

  predicate IsPermutation(p: seq<nat>) {
    && (forall i :: 0 <= i < |p| ==> p[i] < |p|)
    && (forall i, j :: 0 <= i < j < |p| ==> p[i] != p[j])
  }

  predicate ValidChoices(c: seq<nat>) {
    forall i :: 0 <= i < |c| ==> c[i] <= i
  }

  function Swap(s: seq<nat>, i: nat, j: nat): (r: seq<nat>)
    requires i < |s| && j < |s|
    ensures |r| == |s|
  {
    s[i := s[j]][j := s[i]]
  }

  /** The permutation of n elements the index choices lead to. */
  function FisherYates(c: seq<nat>, n: nat): (p: seq<nat>)
    requires n <= |c| && ValidChoices(c)
    ensures |p| == n
  {
    if n == 0 then [] else Swap(FisherYates(c, n - 1) + [n - 1], n - 1, c[n - 1])
  }

  lemma SwapPermutes(p: seq<nat>, j: nat)
    requires IsPermutation(p) && j <= |p|
    ensures IsPermutation(Swap(p + [|p|], |p|, j))
  {
  }

  /** Whatever the choices, the result is a permutation. */
  lemma {:induction false} FisherYatesPermutes(c: seq<nat>, n: nat)
    requires n <= |c| && ValidChoices(c)
    ensures IsPermutation(FisherYates(c, n))
  {
    if n > 0 {
      FisherYatesPermutes(c, n - 1);
      SwapPermutes(FisherYates(c, n - 1), c[n - 1]);
    }
  }

  /** The last choice is where the largest value ends up. */
  lemma LargestAt(p: seq<nat>, j: nat, i: nat)
    requires IsPermutation(p) && j <= |p| && i <= |p|
    ensures Swap(p + [|p|], |p|, j)[i] == |p| <==> i == j
  {
  }

  /** Swapping back recovers the smaller permutation. */
  lemma SwapBack(p: seq<nat>, j: nat)
    requires j <= |p|
    ensures Swap(Swap(p + [|p|], |p|, j), |p|, j)[..|p|] == p
  {
    assert Swap(Swap(p + [|p|], |p|, j), |p|, j) == p + [|p|];
  }

  /** Different choices give different permutations. */
  lemma {:induction false} FisherYatesInjective(c: seq<nat>, d: seq<nat>, n: nat)
    requires n <= |c| && n <= |d| && ValidChoices(c) && ValidChoices(d) && FisherYates(c, n) == FisherYates(d, n)
    ensures c[..n] == d[..n]
  {
    if n > 0 {
      var p, q := FisherYates(c, n - 1), FisherYates(d, n - 1);
      FisherYatesPermutes(c, n - 1);
      FisherYatesPermutes(d, n - 1);
      LargestAt(p, c[n - 1], c[n - 1]);
      LargestAt(q, d[n - 1], c[n - 1]);
      SwapBack(p, c[n - 1]);
      SwapBack(q, c[n - 1]);
      FisherYatesInjective(c, d, n - 1);
      assert c[..n] == c[..n - 1] + [c[n - 1]] && d[..n] == d[..n - 1] + [d[n - 1]];
    }
  }

  lemma {:induction false} FisherYatesPrefix(c: seq<nat>, d: seq<nat>, n: nat)
    requires n <= |c| && n <= |d| && ValidChoices(c) && ValidChoices(d) && forall i :: 0 <= i < n ==> c[i] == d[i]
    ensures FisherYates(c, n) == FisherYates(d, n)
  {
    if n > 0 {
      FisherYatesPrefix(c, d, n - 1);
    }
  }

  ghost function Values(p: seq<nat>, n: nat): (s: set<nat>)
    requires n <= |p|
  {
    set i | 0 <= i < n :: p[i]
  }

  lemma {:induction false} ValuesCount(p: seq<nat>, n: nat)
    requires n <= |p| && IsPermutation(p)
    ensures |Values(p, n)| == n
  {
    if n > 0 {
      ValuesCount(p, n - 1);
      NextValue(p, n - 1);
      AddOne(Values(p, n - 1), p[n - 1]);
    }
  }

  lemma NextValue(p: seq<nat>, n: nat)
    requires n < |p| && IsPermutation(p)
    ensures Values(p, n + 1) == Values(p, n) + {p[n]} && p[n] !in Values(p, n)
  {
  }

  ghost function Below(n: nat): (s: set<nat>) {
    if n == 0 then {} else Below(n - 1) + {n - 1}
  }

  lemma {:induction false} BelowCount(n: nat)
    ensures |Below(n)| == n && forall i: nat :: i in Below(n) <==> i < n
  {
    if n > 0 {
      BelowCount(n - 1);
    }
  }

  lemma SubsetSmaller(s: set<nat>, t: set<nat>)
    requires s <= t
    ensures |s| <= |t|
  {
    if s != {} {
      var x :| x in s;
      SubsetSmaller(s - {x}, t - {x});
    }
  }

  /** A permutation of n + 1 elements holds the value n somewhere. */
  lemma LargestOccurs(p: seq<nat>, n: nat)
    requires IsPermutation(p) && |p| == n + 1
    ensures n in Values(p, |p|)
  {
    ValuesCount(p, |p|);
    BelowCount(n);
    if n !in Values(p, |p|) {
      SubsetSmaller(Values(p, |p|), Below(n));
    }
  }

  lemma Unswap(p: seq<nat>, n: nat, j: nat)
    requires |p| == n + 1 && IsPermutation(p) && j <= n && p[j] == n
    ensures var q := Swap(p, n, j)[..n]; IsPermutation(q) && Swap(q + [n], n, j) == p
  {
    assert Swap(p, n, j)[..n] + [n] == Swap(p, n, j);
  }

  function PositionOf(p: seq<nat>, v: nat): (j: nat)
    requires v in p
    ensures j < |p| && p[j] == v
  {
    var n := |p| - 1;
    if p[n] == v then n else assert v in p[..n]; PositionOf(p[..n], v)
  }

  /** Every permutation arises from some choices. */
  function ChoicesOf(p: seq<nat>): (c: seq<nat>)
    requires IsPermutation(p)
    ensures |c| == |p| && ValidChoices(c) && FisherYates(c, |p|) == p
    decreases |p|
  {
    if p == [] then []
    else
      var n := |p| - 1;
      LargestOccurs(p, n);
      var j := PositionOf(p, n);
      Unswap(p, n, j);
      var c := ChoicesOf(Swap(p, n, j)[..n]) + [j];
      FisherYatesPrefix(ChoicesOf(Swap(p, n, j)[..n]), c, n);
      c
  }

  /** Choosing every index itself moves nothing. */
  lemma {:induction false} IdentityChosen(size: nat, n: nat)
    requires n <= size
    ensures FisherYates(Identity(size), n) == Identity(n)
  {
    if n > 0 {
      IdentityChosen(size, n - 1);
      assert Identity(n - 1) + [n - 1] == Identity(n);
    }
  }

  // ----- in place -----------------------------------------------------------------------------------------

  /** The first n entries are shuffled, the others still in place. */
  function PartlyShuffled(c: seq<nat>, n: nat, size: nat): (p: seq<nat>)
    requires n <= |c| && ValidChoices(c) && n <= size
    ensures |p| == size
  {
    FisherYates(c, n) + Identity(size)[n..]
  }

  function Identity(size: nat): (p: seq<nat>)
    ensures |p| == size && forall i :: 0 <= i < size ==> p[i] == i
  {
    seq(size, i requires 0 <= i => i)
  }

  lemma ShuffleStep(c: seq<nat>, d: seq<nat>, n: nat, size: nat)
    requires n < size && |c| == n && ValidChoices(c) && |d| == n + 1 && d[..n] == c && d[n] <= n
    ensures ValidChoices(d) && Swap(PartlyShuffled(c, n, size), n, d[n]) == PartlyShuffled(d, n + 1, size)
  {
    assert forall i :: 0 <= i < n ==> d[i] == c[i];
    FisherYatesPrefix(c, d, n);
    assert Identity(size)[n..] == [n] + Identity(size)[n + 1..];
  }

  method SwapInPlace(p: array<nat>, i: nat, j: nat)
    requires i < p.Length && j < p.Length
    modifies p
    ensures p[..] == Swap(old(p[..]), i, j)
  {
    p[i], p[j] := p[j], p[i];
  }

  method IdentityArray(size: nat) returns (p: array<nat>)
    ensures fresh(p) && p[..] == Identity(size)
  {
    p := new nat[size];
    for i := 0 to size
      invariant forall k :: 0 <= k < i ==> p[k] == k
    {
      p[i] := i;
    }
  }

  /** c lists the choices for n elements drawn from position pos on; next is the position after them. */
  ghost predicate DrawsFrom(g: Generator, pos: nat, c: seq<nat>, n: nat, next: nat)
    requires n <= |c|
  {
    if n <= 1 then next == pos && (n == 1 ==> c[0] == 0)
    else exists mid: nat :: DrawsFrom(g, pos, c, n - 1, mid) && DrawStep(g, mid, next, n, c)
  }

  /** Choice n - 1 is drawn between these positions. */
  ghost predicate DrawStep(g: Generator, pos: nat, next: nat, n: nat, c: seq<nat>)
    requires 1 <= n <= |c|
  {
    next >= 1 && FirstAccepted(g, pos, next - 1, n) && c[n - 1] == g(next - 1) % n
  }

  lemma {:induction false} DrawsExtend(g: Generator, pos: nat, c: seq<nat>, d: seq<nat>, n: nat, next: nat)
    requires n <= |c| && n <= |d| && (forall i :: 0 <= i < n ==> c[i] == d[i]) && DrawsFrom(g, pos, c, n, next)
    ensures DrawsFrom(g, pos, d, n, next)
  {
    if n > 1 {
      var mid: nat :| DrawsFrom(g, pos, c, n - 1, mid) && DrawStep(g, mid, next, n, c);
      DrawsExtend(g, pos, c, d, n - 1, mid);
      assert DrawStep(g, mid, next, n, d);
    }
  }

  lemma DrawsNext(g: Generator, pos: nat, c: seq<nat>, mid: nat, next: nat)
    requires |c| >= 1 && DrawsFrom(g, pos, c, |c|, mid) && next >= 1 && FirstAccepted(g, mid, next - 1, |c| + 1)
    ensures DrawsFrom(g, pos, c + [g(next - 1) % (|c| + 1)], |c| + 1, next)
  {
    var d := c + [g(next - 1) % (|c| + 1)];
    DrawsExtend(g, pos, c, d, |c|, mid);
    assert DrawStep(g, mid, next, |c| + 1, d);
  }

  lemma StepUnique(g: Generator, pos: nat, p: nat, q: nat, n: nat, c: seq<nat>, d: seq<nat>)
    requires 1 <= n <= |c| && n <= |d| && DrawStep(g, pos, p, n, c) && DrawStep(g, pos, q, n, d)
    ensures p == q && c[n - 1] == d[n - 1]
  {
  }

  /** Two holders of a key who start at the same position draw the same choices and stay in step. */
  lemma {:induction false} DrawsAgree(g: Generator, pos: nat, c: seq<nat>, d: seq<nat>, n: nat, next: nat, next': nat)
    requires n <= |c| && n <= |d| && DrawsFrom(g, pos, c, n, next) && DrawsFrom(g, pos, d, n, next')
    ensures next == next' && forall i :: 0 <= i < n ==> c[i] == d[i]
  {
    if n > 1 {
      var mid: nat :| DrawsFrom(g, pos, c, n - 1, mid) && DrawStep(g, mid, next, n, c);
      var mid': nat :| DrawsFrom(g, pos, d, n - 1, mid') && DrawStep(g, mid', next', n, d);
      DrawsAgree(g, pos, c, d, n - 1, mid, mid');
      StepUnique(g, mid, next, next', n, c, d);
    }
  }

  /** One permutation from each of a party's two generators. */
  method GenPermutation(mine: Generator, prev: Generator, posA: nat, posB: nat, size: nat)
    returns (a: seq<nat>, b: seq<nat>, nextA: nat, nextB: nat, ghost ca: seq<nat>, ghost cb: seq<nat>)
    requires Fair(mine) && Fair(prev) && size <= 0xffff_ffff
    ensures |ca| == |cb| == size && ValidChoices(ca) && ValidChoices(cb)
    ensures a == FisherYates(ca, size) && b == FisherYates(cb, size)
    ensures IsPermutation(a) && IsPermutation(b)
    ensures DrawsFrom(mine, posA, ca, size, nextA) && DrawsFrom(prev, posB, cb, size, nextB)
  {
    var permA := IdentityArray(size);
    var permB := IdentityArray(size);
    nextA, nextB := posA, posB;
    ca, cb := [], [];
    if size == 0 {
      a, b := permA[..], permB[..];
      return;
    }
    ca, cb := [0], [0];
    for i := 1 to size
      invariant permA != permB && fresh(permA) && fresh(permB)
      invariant |ca| == |cb| == i && ValidChoices(ca) && ValidChoices(cb)
      invariant DrawsFrom(mine, posA, ca, i, nextA) && DrawsFrom(prev, posB, cb, i, nextB)
      invariant permA.Length == size && permA[..] == PartlyShuffled(ca, i, size)
      invariant permB.Length == size && permB[..] == PartlyShuffled(cb, i, size)
    {
      var ja, afterA := GenU32Mod(mine, nextA, i + 1);
      var jb, afterB := GenU32Mod(prev, nextB, i + 1);
      DrawsNext(mine, posA, ca, nextA, afterA);
      DrawsNext(prev, posB, cb, nextB, afterB);
      nextA, nextB := afterA, afterB;
      ShuffleStep(ca, ca + [ja.value], i, size);
      ShuffleStep(cb, cb + [jb.value], i, size);
      ca, cb := ca + [ja.value], cb + [jb.value];
      SwapInPlace(permA, i, ja.value);
      SwapInPlace(permB, i, jb.value);
    }
    a, b := permA[..], permB[..];
    FisherYatesPermutes(ca, size);
    FisherYatesPermutes(cb, size);
  }

  // ----- every permutation is drawn ------------------------------------------------------------------------

  /** A generator whose outputs are the choices, none for choice 0, and zero after them. */
  function Feeding(c: seq<nat>): (g: Generator)
    requires ValidChoices(c) && |c| <= 0xffff_ffff
  {
    (i: nat) => if i + 1 < |c| then c[i + 1] else 0
  }

  lemma FeedingIsFair(c: seq<nat>)
    requires ValidChoices(c) && |c| <= 0xffff_ffff
    ensures Fair(Feeding(c))
  {
    forall pos: nat
      ensures Later(Feeding(c), pos)
    {
      assert Feeding(c)(pos) < 0x8000_0000_0000_0000;
    }
  }

  lemma FeedingStep(c: seq<nat>, n: nat)
    requires ValidChoices(c) && 2 <= n <= |c| <= 0xffff_ffff
    ensures DrawStep(Feeding(c), n - 2, n - 1, n, c)
  {
    BoundIsMultiple(n);
    DivModUnique(c[n - 1], n, 0, c[n - 1]);
  }

  lemma {:induction false} FeedingDraws(c: seq<nat>, n: nat)
    requires ValidChoices(c) && 1 <= n <= |c| <= 0xffff_ffff
    ensures DrawsFrom(Feeding(c), 0, c, n, n - 1)
  {
    if n > 1 {
      FeedingDraws(c, n - 1);
      FeedingStep(c, n);
    }
  }

  /** Every permutation is drawn from some generator, and from no other choices. */
  lemma EveryPermutationDrawn(p: seq<nat>) returns (g: Generator, c: seq<nat>, next: nat)
    requires IsPermutation(p) && |p| <= 0xffff_ffff
    ensures Fair(g) && |c| == |p| && ValidChoices(c) && DrawsFrom(g, 0, c, |p|, next) && FisherYates(c, |p|) == p
    ensures forall d :: |d| == |p| && ValidChoices(d) && FisherYates(d, |p|) == p ==> d == c
  {
    c := ChoicesOf(p);
    g, next := Feeding(c), if p == [] then 0 else |p| - 1;
    FeedingIsFair(c);
    if p != [] {
      FeedingDraws(c, |p|);
    }
    forall d | |d| == |p| && ValidChoices(d) && FisherYates(d, |p|) == p
      ensures d == c
    {
      FisherYatesInjective(c, d, |p|);
    }
  }
}
