/** Machine words: residues modulo 2^k, their bits (least significant first), and carries. */
module Words {

  function Pow2(k: nat): (r: nat)
    ensures r >= 1
  {
    if k == 0 then 1 else 2 * Pow2(k - 1)
  }

  function B(b: bool): (r: nat)
    ensures r <= 1
  {
    if b then 1 else 0
  }

  /** A bit standing at a position of weight w. */
  function W(b: bool, w: nat): (r: nat) {
    if b then w else 0
  }

  /** Bit `i` of `x`. */
  predicate Bit(x: nat, i: nat) {
    if i == 0 then x % 2 == 1 else Bit(x / 2, i - 1)
  }

  /** The low `n` bits of `x`. */
  function Bits(x: nat, n: nat): (r: seq<bool>) {
    seq(n, i requires 0 <= i => Bit(x, i))
  }

  /** The number whose bits are the first `n` entries of `b`. */
  function Val(b: seq<bool>, n: nat): (r: nat)
    requires n <= |b|
  {
    if n == 0 then 0 else Val(b, n - 1) + W(b[n - 1], Pow2(n - 1))
  }

  /** Bitwise exclusive or of two `n`-bit words. */
  function XorWord(x: nat, y: nat, n: nat): (r: nat) {
    Val(seq(n, i requires 0 <= i => Bit(x, i) != Bit(y, i)), n)
  }

  predicate Maj(x: bool, y: bool, z: bool) {
    (x && y) || (x && z) || (y && z)
  }

  /** The carry into position `n` when the bit strings `a` and `b` are added. */
  predicate Carry(a: seq<bool>, b: seq<bool>, n: nat)
    requires n <= |a| && n <= |b|
  {
    n > 0 && Maj(a[n - 1], b[n - 1], Carry(a, b, n - 1))
  }

  /** Bit `i` of the sum of two bit strings. */
  predicate SumBit(a: seq<bool>, b: seq<bool>, i: nat)
    requires i < |a| && i < |b|
  {
    (a[i] != b[i]) != Carry(a, b, i)
  }

  function SumBits(a: seq<bool>, b: seq<bool>, n: nat): (r: seq<bool>)
    requires n <= |a| && n <= |b|
    ensures |r| == n && forall i :: 0 <= i < n ==> r[i] == SumBit(a, b, i)
  {
    seq(n, i requires 0 <= i < n => SumBit(a, b, i))
  }

  // ----- powers of two -------------------------------------------------------

  lemma {:induction false} Pow2Add(a: nat, b: nat)
    ensures Pow2(a + b) == Pow2(a) * Pow2(b)
  {
    if a > 0 {
      Pow2Add(a - 1, b);
      assert Pow2(a + b) == 2 * Pow2(a - 1 + b);
      DoubledProduct(Pow2(a - 1), Pow2(b));
    }
  }

  lemma DoubledProduct(x: int, y: int)
    ensures (2 * x) * y == 2 * (x * y)
  {
  }

  lemma Pow2Values()
    ensures Pow2(1) == 2 && Pow2(8) == 0x100 && Pow2(14) == 0x4000 && Pow2(15) == 0x8000
    ensures Pow2(16) == 0x1_0000 && Pow2(17) == 0x2_0000 && Pow2(18) == 0x4_0000
    ensures Pow2(31) == 0x8000_0000 && Pow2(32) == 0x1_0000_0000
    ensures Pow2(47) == 0x8000_0000_0000 && Pow2(48) == 0x1_0000_0000_0000
  {
    assert Pow2(1) == 2 && Pow2(2) == 4 && Pow2(8) == 0x100 && Pow2(14) == 0x4000;
    Pow2Next(14, 0x4000);
    Pow2Next(15, 0x8000);
    Pow2Next(16, 0x1_0000);
    Pow2Next(17, 0x2_0000);
    Pow2Add(16, 15);
    Pow2Next(31, 0x8000_0000);
    Pow2Add(32, 15);
    Pow2Next(47, 0x8000_0000_0000);
  }

  lemma Pow2Next(k: nat, v: nat)
    requires Pow2(k) == v
    ensures Pow2(k + 1) == 2 * v
  {
  }

  // ----- division with remainder -----------------------------------------------

  lemma DivModUnique(x: int, m: int, q: int, r: int)
    requires m > 0 && 0 <= r < m && x == q * m + r
    ensures x / m == q && x % m == r
  {
    var d := x / m - q;
    assert x == m * (x / m) + x % m;
    assert d * m == r - x % m by {
      assert d * m == m * (x / m) - q * m;
    }
    NoFactorBetween(d, m);
  }

  lemma MulNonneg(x: int, y: int)
    requires x >= 0 && y >= 0
    ensures x * y >= 0
  {
  }

  lemma NoFactorBetween(d: int, m: int)
    requires m > 0
    ensures -m < d * m < m ==> d == 0
  {
    if d > 0 {
      MulNonneg(d - 1, m);
      assert d * m == m + (d - 1) * m;
    } else if d < 0 {
      MulNonneg(-d - 1, m);
      assert d * m == -m - (-d - 1) * m;
    }
  }

  lemma ModPlusMultiple(x: int, q: int, m: int)
    requires m > 0
    ensures (x + q * m) % m == x % m
  {
    assert x == m * (x / m) + x % m;
    assert x + q * m == (x / m + q) * m + x % m by {
      assert (x / m + q) * m == (x / m) * m + q * m;
    }
    DivModUnique(x + q * m, m, x / m + q, x % m);
  }

  /** Numbers that differ by a multiple of the modulus have the same residue. */
  lemma SameResidue(x: int, y: int, q: int, m: int)
    requires m > 0 && x == y + q * m
    ensures x % m == y % m
  {
    ModPlusMultiple(y, q, m);
  }

  /** Witness form of congruence. */
  lemma ModQuotient(x: int, m: int) returns (q: int)
    requires m > 0
    ensures x == q * m + x % m
  {
    q := x / m;
    assert x == m * (x / m) + x % m;
  }

  /** Congruent numbers differ by a multiple of the modulus. */
  lemma EqModGap(a: int, b: int, m: int) returns (d: int)
    requires m > 0 && a % m == b % m
    ensures a == b + d * m
  {
    var qa := ModQuotient(a, m);
    var qb := ModQuotient(b, m);
    d := qa - qb;
    assert d * m == qa * m - qb * m;
  }

  lemma SumOfMultiples(u: int, v: int, m: int)
    ensures (u + v) * m == u * m + v * m && (u - v) * m == u * m - v * m
  {
  }

  lemma EqModAdd(a: int, b: int, c: int, d: int, m: int)
    requires m > 0 && a % m == b % m && c % m == d % m
    ensures (a + c) % m == (b + d) % m && (a - c) % m == (b - d) % m
  {
    var u := EqModGap(a, b, m);
    var v := EqModGap(c, d, m);
    SumOfMultiples(u, v, m);
    SameResidue(a + c, b + d, u + v, m);
    SameResidue(a - c, b - d, u - v, m);
  }

  lemma EqModScale(a: int, b: int, c: int, m: int)
    requires m > 0 && a % m == b % m
    ensures (a * c) % m == (b * c) % m
  {
    var d := EqModGap(a, b, m);
    ScaledMultiple(a, b, c, d, m);
    SameResidue(a * c, b * c, d * c, m);
  }

  lemma ScaledMultiple(a: int, b: int, c: int, d: int, m: int)
    requires a == b + d * m
    ensures a * c == b * c + (d * c) * m
  {
    assert (b + d * m) * c == b * c + (d * m) * c;
    assert (d * m) * c == (d * c) * m;
  }

  lemma EqModMul(a: int, b: int, c: int, d: int, m: int)
    requires m > 0 && a % m == b % m && c % m == d % m
    ensures (a * c) % m == (b * d) % m
  {
    EqModScale(a, b, c, m);
    EqModScale(c, d, b, m);
    assert b * c == c * b && b * d == d * b;
  }

  lemma ModIdem(a: int, m: int)
    requires m > 0
    ensures (a % m) % m == a % m
  {
    DivModUnique(a % m, m, 0, a % m);
  }

  lemma ModSub(x: int, y: int, m: int)
    requires m > 0
    ensures (x % m - y % m) % m == (x - y) % m
  {
    ModIdem(x, m);
    ModIdem(y, m);
    EqModAdd(x % m, x, y % m, y, m);
  }

  /** Scaling value and modulus together scales the residue. */
  lemma ModScaleBoth(x: int, m: int, c: int)
    requires m > 0 && c > 0
    ensures m * c > 0 && (x * c) % (m * c) == (x % m) * c
  {
    var q := ModQuotient(x, m);
    assert x * c == q * (m * c) + (x % m) * c by {
      assert x * c == (q * m + x % m) * c == (q * m) * c + (x % m) * c;
      assert (q * m) * c == q * (m * c);
    }
    assert 0 <= (x % m) * c < m * c;
    DivModUnique(x * c, m * c, q, (x % m) * c);
  }

  // ----- bits ------------------------------------------------------------------

  lemma ModDouble(x: nat, p: nat)
    requires p > 0
    ensures x % (2 * p) == 2 * ((x / 2) % p) + x % 2
  {
    var h := x / 2;
    var q := ModQuotient(h, p);
    assert x == q * (2 * p) + (2 * (h % p) + x % 2) by {
      assert q * (2 * p) == 2 * (q * p);
    }
    DivModUnique(x, 2 * p, q, 2 * (h % p) + x % 2);
  }

  lemma {:induction false} ZeroBit(f: nat)
    ensures !Bit(0, f)
  {
    if f > 0 {
      ZeroBit(f - 1);
    }
  }

  lemma {:induction false} BitSplit(x: nat, n: nat)
    ensures x % Pow2(n + 1) == x % Pow2(n) + W(Bit(x, n), Pow2(n))
  {
    ModDouble(x, Pow2(n));
    if n > 0 {
      BitSplit(x / 2, n - 1);
      ModDouble(x, Pow2(n - 1));
    }
  }

  lemma {:induction false} ValBits(x: nat, n: nat, m: nat)
    requires n <= m
    ensures Val(Bits(x, m), n) == x % Pow2(n)
  {
    if n > 0 {
      ValBits(x, n - 1, m);
      BitSplit(x, n - 1);
    }
  }

  lemma {:induction false} ValBound(b: seq<bool>, n: nat)
    requires n <= |b|
    ensures Val(b, n) < Pow2(n)
  {
    if n > 0 {
      ValBound(b, n - 1);
    }
  }

  lemma {:induction false} ValExt(a: seq<bool>, b: seq<bool>, n: nat)
    requires n <= |a| && n <= |b| && forall i :: 0 <= i < n ==> a[i] == b[i]
    ensures Val(a, n) == Val(b, n)
  {
    if n > 0 {
      ValExt(a, b, n - 1);
    }
  }

  lemma {:induction false} ValMod(b: seq<bool>, n: nat, i: nat)
    requires i <= n <= |b|
    ensures Val(b, n) % Pow2(i) == Val(b, i)
    decreases n
  {
    ValBound(b, n);
    if i == n {
      DivModUnique(Val(b, n), Pow2(n), 0, Val(b, n));
    } else {
      ValMod(b, n - 1, i);
      Pow2Add(n - 1 - i, i);
      var q := W(b[n - 1], Pow2(n - 1 - i));
      assert Val(b, n) == Val(b, n - 1) + q * Pow2(i) by {
        assert B(b[n - 1]) * (Pow2(n - 1 - i) * Pow2(i)) == q * Pow2(i);
      }
      ModPlusMultiple(Val(b, n - 1), q, Pow2(i));
    }
  }

  /** The bits of a number read back the string it was built from. */
  lemma BitOfVal(b: seq<bool>, n: nat, i: nat)
    requires i < n <= |b|
    ensures Bit(Val(b, n), i) == b[i]
  {
    var v := Val(b, n);
    BitSplit(v, i);
    ValMod(b, n, i);
    ValMod(b, n, i + 1);
    assert W(Bit(v, i), Pow2(i)) == W(b[i], Pow2(i));
  }

  lemma XorWordBit(x: nat, y: nat, n: nat, i: nat)
    requires i < n
    ensures XorWord(x, y, n) < Pow2(n)
    ensures Bit(XorWord(x, y, n), i) == (Bit(x, i) != Bit(y, i))
  {
    var b := seq(n, i requires 0 <= i => Bit(x, i) != Bit(y, i));
    ValBound(b, n);
    BitOfVal(b, n, i);
  }

  // ----- addition --------------------------------------------------------------

  lemma FullAdder(x: bool, y: bool, c: bool, p: nat)
    ensures W(x, p) + W(y, p) + W(c, p) == W((x != y) != c, p) + W(Maj(x, y, c), 2 * p)
  {
  }

  /** Schoolbook addition: sum bits below position n plus the carry out of it. */
  lemma {:induction false} AddBits(a: seq<bool>, b: seq<bool>, n: nat)
    requires n <= |a| && n <= |b|
    ensures Val(a, n) + Val(b, n)
         == Val(SumBits(a, b, n), n) + W(Carry(a, b, n), Pow2(n))
  {
    if n > 0 {
      AddBits(a, b, n - 1);
      var s := SumBits(a, b, n);
      var t := SumBits(a, b, n - 1);
      ValExt(s, t, n - 1);
      FullAdder(a[n - 1], b[n - 1], Carry(a, b, n - 1), Pow2(n - 1));
    }
  }

  /** Bit i of a sum of two numbers is the adder's sum bit. */
  lemma BitOfSum(a: seq<bool>, b: seq<bool>, n: nat, i: nat)
    requires i < n <= |a| && n <= |b|
    ensures Bit(Val(a, n) + Val(b, n), i) == SumBit(a, b, i)
  {
    AddBits(a, b, n);
    var s := SumBits(a, b, n);
    BitOfVal(s, n, i);
    BitAboveModulus(Val(s, n), B(Carry(a, b, n)), n, i);
  }

  lemma BitOfWrappedSum(a: seq<bool>, b: seq<bool>, n: nat, i: nat)
    requires i < n <= |a| && n <= |b|
    ensures Bit((Val(a, n) + Val(b, n)) % Pow2(n), i) == SumBit(a, b, i)
  {
    BitOfSum(a, b, n, i);
    BitMod(Val(a, n) + Val(b, n), n, i);
  }

  /** Adding a multiple of 2^n leaves the bits below n alone. */
  lemma BitAboveModulus(x: nat, q: nat, n: nat, i: nat)
    requires i < n
    ensures Bit(x + q * Pow2(n), i) == Bit(x, i)
  {
    BitMod(x, n, i);
    BitMod(x + q * Pow2(n), n, i);
    ModPlusMultiple(x, q, Pow2(n));
  }

  /** The bits below n only depend on the residue modulo 2^n. */
  lemma BitMod(x: nat, n: nat, i: nat)
    requires i < n
    ensures Bit(x % Pow2(n), i) == Bit(x, i)
  {
    var b := Bits(x, n);
    ValBits(x, n, n);
    BitOfVal(b, n, i);
  }

  /** The top bit of an n-bit word says whether the word is at least 2^(n-1). */
  lemma TopBit(x: nat, n: nat)
    requires n > 0 && x < Pow2(n)
    ensures Bit(x, n - 1) <==> x >= Pow2(n - 1)
  {
    BitSplit(x, n - 1);
    DivModUnique(x, Pow2(n), 0, x);
    assert x % Pow2(n - 1) < Pow2(n - 1);
  }

  // ----- signed reading ----------------------------------------------------------

  /** Two's-complement reading of an n-bit word. */
  function Signed(x: nat, n: nat): (r: int)
    requires n > 0
  {
    if x >= Pow2(n - 1) then x - Pow2(n) else x
  }

  /** A residue that represents an in-range integer reads back as that integer. */
  lemma SignedOf(v: int, n: nat)
    requires n > 0 && 0 <= v + Pow2(n - 1) < Pow2(n)
    ensures Signed(v % Pow2(n), n) == v
    ensures Bit(v % Pow2(n), n - 1) <==> v < 0
  {
    var p := Pow2(n);
    if v >= 0 {
      DivModUnique(v, p, 0, v);
    } else {
      DivModUnique(v, p, -1, v + p);
    }
    TopBit(v % p, n);
  }
}
