/** Inversion in the Galois ring: units are the elements with an odd coefficient, and raising one
    to the power 15 * 2^15 - 1 inverts it. */
module Units {
  import opened Words
  import opened Galois

  // ----- powers --------------------------------------------------------------------------------

  function Power(a: Elem, n: nat): (r: Elem) {
    if n == 0 then ONE else Times(Power(a, n - 1), a)
  }

  lemma TimesOne(a: Elem)
    ensures Times(ONE, a) == a && Times(a, ONE) == a
  {
  }

  lemma {:induction false} PowerAdd(a: Elem, m: nat, n: nat)
    ensures Power(a, m + n) == Times(Power(a, m), Power(a, n))
  {
    if n == 0 {
      TimesOne(Power(a, m));
    } else {
      PowerAdd(a, m, n - 1);
      TimesAssociates(Power(a, m), Power(a, n - 1), a);
    }
  }

  lemma {:induction false} PowerSquare(a: Elem, n: nat)
    ensures Power(Times(a, a), n) == Power(a, 2 * n)
  {
    if n > 0 {
      PowerSquare(a, n - 1);
      assert Power(a, 2 * n) == Times(Times(Power(a, 2 * n - 2), a), a);
      TimesAssociates(Power(a, 2 * n - 2), a, a);
    }
  }

  lemma {:induction false} ReducePower(a: Elem, n: nat)
    ensures Reduce(Power(Reduce(a), n)) == Reduce(Power(a, n))
  {
    if n > 0 {
      ReducePower(a, n - 1);
      ReduceTimes(Power(Reduce(a), n - 1), Reduce(a));
      ReduceTimes(Power(a, n - 1), Reduce(a));
      ReduceTimes(a, Power(a, n - 1));
    }
  }

  /** y absorbs a factor x. */
  lemma AbsorbFactor(x: Ring, y: Ring, e: nat)
    requires e >= 1
    ensures Reduce(Times(Power(x, e), y)) == Reduce(Times(Power(x, e - 1), Mul(x, y)))
  {
    TimesAssociates(Power(x, e - 1), x, y);
    ReduceTimes(Times(x, y), Power(x, e - 1));
  }

  lemma SquareBase(x: Ring, y: Ring, h: nat)
    ensures Reduce(Times(Power(x, 2 * h), y)) == Reduce(Times(Power(Mul(x, x), h), y))
  {
    PowerSquare(x, h);
    ReducePower(Times(x, x), h);
    ReduceTimes(Power(Times(x, x), h), y);
    ReduceTimes(Power(Mul(x, x), h), y);
  }

  ghost predicate IsPower(p: Elem, x: Ring, e: nat) {
    p == Power(x, e)
  }

  /** x^e * y is the power still to be computed. */
  ghost predicate Remaining(x: Ring, e: nat, y: Ring, goal: Ring) {
    forall p {:trigger IsPower(p, x, e)} :: IsPower(p, x, e) ==> Reduce(Times(p, y)) == goal
  }

  lemma RemainingIs(x: Ring, e: nat, y: Ring, goal: Ring)
    ensures Remaining(x, e, y, goal) <==> Reduce(Times(Power(x, e), y)) == goal
  {
    assert IsPower(Power(x, e), x, e);
  }

  lemma AllRemaining(a: Ring, exp: nat)
    ensures Remaining(a, exp, ONE, Reduce(Power(a, exp)))
  {
    TimesOne(Power(a, exp));
  }

  lemma FactorAbsorbed(x: Ring, e: nat, y: Ring, goal: Ring)
    requires e >= 1 && Remaining(x, e, y, goal)
    ensures Remaining(x, e - 1, Mul(x, y), goal)
  {
    RemainingIs(x, e, y, goal);
    AbsorbFactor(x, y, e);
    RemainingIs(x, e - 1, Mul(x, y), goal);
  }

  lemma BaseSquared(x: Ring, h: nat, y: Ring, goal: Ring)
    requires Remaining(x, 2 * h, y, goal)
    ensures Remaining(Mul(x, x), h, y, goal)
  {
    RemainingIs(x, 2 * h, y, goal);
    SquareBase(x, y, h);
    RemainingIs(Mul(x, x), h, y, goal);
  }

  lemma LastFactor(x: Ring, y: Ring, goal: Ring)
    requires Remaining(x, 1, y, goal)
    ensures Mul(x, y) == goal
  {
    RemainingIs(x, 1, y, goal);
    TimesOne(x);
    assert Power(x, 1) == Times(Power(x, 0), x);
  }

  /** Makes an odd exponent even by moving a factor to y. */
  method MakeEven(x: Ring, e: nat, y: Ring, ghost goal: Ring) returns (y': Ring, h: nat)
    requires e >= 1 && Remaining(x, e, y, goal)
    ensures Remaining(x, 2 * h, y', goal) && e - 1 <= 2 * h <= e
  {
    h := e / 2;
    if e % 2 == 1 {
      FactorAbsorbed(x, e, y, goal);
      assert 2 * h == e - 1;
      y' := Mul(x, y);
    } else {
      assert 2 * h == e;
      y' := y;
    }
  }

  /** One turn of the loop: squares the base and halves the exponent. */
  method SquareStep(x: Ring, e: nat, y: Ring, ghost goal: Ring) returns (x': Ring, e': nat, y': Ring)
    requires e >= 2 && Remaining(x, e, y, goal)
    ensures Remaining(x', e', y', goal) && 1 <= e' < e
  {
    y', e' := MakeEven(x, e, y, goal);
    BaseSquared(x, e', y', goal);
    x' := Mul(x, x);
  }

  /** Square and multiply computes the power. */
  method Pow(a: Ring, exp: nat) returns (r: Ring)
    ensures r == Reduce(Power(a, exp))
  {
    if exp == 0 {
      return ONE;
    }
    var e, x, y := exp, a, ONE;
    ghost var goal := Reduce(Power(a, exp));
    AllRemaining(a, exp);
    while e > 1
      invariant e >= 1 && Remaining(x, e, y, goal)
    {
      x, e, y := SquareStep(x, e, y, goal);
    }
    LastFactor(x, y, goal);
    r := Mul(x, y);
  }

  // ----- modulo two: the field with sixteen elements ---------------------------------------------

  function Parity(a: Elem): (r: Elem) {
    Elem(a.c0 % 2, a.c1 % 2, a.c2 % 2, a.c3 % 2)
  }

  function Halved(a: Elem): (r: Elem) {
    Elem(a.c0 / 2, a.c1 / 2, a.c2 / 2, a.c3 / 2)
  }

  lemma ParitySplit(a: Elem)
    ensures a == Plus(Parity(a), Scale(2, Halved(a)))
  {
  }

  lemma ParityShift(a: Elem, w: Elem)
    ensures Parity(Plus(a, Scale(2, w))) == Parity(a)
  {
  }

  lemma ParityFirst(a: Elem, b: Elem)
    ensures Parity(Times(a, b)) == Parity(Times(Parity(a), b))
  {
    ParitySplit(a);
    PlusTimes(Parity(a), Scale(2, Halved(a)), b);
    ScaleFirst(2, Halved(a), b);
    ParityShift(Times(Parity(a), b), Times(Halved(a), b));
  }

  lemma ParityTimes(a: Elem, b: Elem)
    ensures Parity(Times(a, b)) == Parity(Times(Parity(a), Parity(b)))
  {
    ParityFirst(a, b);
    TimesCommutes(Parity(a), b);
    ParityFirst(b, Parity(a));
    TimesCommutes(Parity(b), Parity(a));
  }

  /** The powers of x modulo two. */
  function XPower(k: nat): (e: Elem) {
    if k == 0 then ONE else Parity(TimesX(XPower(k - 1)))
  }

  const X: Elem := Elem(0, 1, 0, 0)

  lemma TimesXIsTimes(a: Elem)
    ensures Times(a, X) == TimesX(a)
  {
  }

  lemma {:induction false} XPowerIsPower(k: nat)
    ensures Parity(Power(X, k)) == XPower(k)
  {
    if k > 0 {
      XPowerIsPower(k - 1);
      TimesXIsTimes(Power(X, k - 1));
      ParityTimesX(Power(X, k - 1));
    }
  }

  lemma ParityTimesX(a: Elem)
    ensures Parity(TimesX(a)) == Parity(TimesX(Parity(a)))
  {
  }

  /** The field's powers of x, and x^15 = 1. */
  lemma XPowerTable()
    ensures XPower(0) == Elem(1, 0, 0, 0) && XPower(1) == Elem(0, 1, 0, 0) && XPower(2) == Elem(0, 0, 1, 0)
    ensures XPower(3) == Elem(0, 0, 0, 1) && XPower(4) == Elem(1, 1, 0, 0) && XPower(5) == Elem(0, 1, 1, 0)
    ensures XPower(6) == Elem(0, 0, 1, 1) && XPower(7) == Elem(1, 1, 0, 1) && XPower(8) == Elem(1, 0, 1, 0)
    ensures XPower(9) == Elem(0, 1, 0, 1) && XPower(10) == Elem(1, 1, 1, 0) && XPower(11) == Elem(0, 1, 1, 1)
    ensures XPower(12) == Elem(1, 1, 1, 1) && XPower(13) == Elem(1, 0, 1, 1) && XPower(14) == Elem(1, 0, 0, 1)
    ensures XPower(15) == ONE
  {
  }

  predicate HasOddCoefficient(a: Elem) {
    a.c0 % 2 == 1 || a.c1 % 2 == 1 || a.c2 % 2 == 1 || a.c3 % 2 == 1
  }

  /** Exponents of x by bit pattern, least significant coefficient first. */
  const LOGARITHM: seq<nat> := [0, 0, 1, 4, 2, 8, 5, 10, 3, 14, 9, 7, 6, 13, 11, 12]

  /** x generates the field. */
  lemma Generated(a: Elem) returns (k: nat)
    requires HasOddCoefficient(a)
    ensures Parity(a) == XPower(k)
  {
    XPowerTable();
    var n := a.c0 % 2 + 2 * (a.c1 % 2) + 4 * (a.c2 % 2) + 8 * (a.c3 % 2);
    assert 1 <= n < 16;
    k := LOGARITHM[n];
  }

  lemma {:induction false} ParityPower(a: Elem, b: Elem, n: nat)
    requires Parity(a) == Parity(b)
    ensures Parity(Power(a, n)) == Parity(Power(b, n))
  {
    if n > 0 {
      ParityPower(a, b, n - 1);
      ParityTimes(Power(a, n - 1), a);
      ParityTimes(Power(b, n - 1), b);
    }
  }

  lemma {:induction false} PowerPower(a: Elem, m: nat, n: nat, p: nat)
    requires p == m * n
    ensures Power(Power(a, m), n) == Power(a, p)
  {
    if n > 0 {
      var q := m * (n - 1);
      assert p == q + m;
      PowerPower(a, m, n - 1, q);
      PowerAdd(a, q, m);
    }
  }

  lemma PowerSwap(a: Elem, m: nat, n: nat)
    ensures Power(Power(a, m), n) == Power(Power(a, n), m)
  {
    var p := m * n;
    PowerPower(a, m, n, p);
    PowerPower(a, n, m, p);
  }

  lemma {:induction false} PowerOfOne(n: nat)
    ensures Power(ONE, n) == ONE
  {
    if n > 0 {
      PowerOfOne(n - 1);
      var p := Power(ONE, n - 1);
      TimesOne(p);
      assert Power(ONE, n) == Times(p, ONE);
    }
  }

  lemma XPowerOrder(k: nat, n: nat)
    requires XPower(n) == ONE
    ensures Parity(Power(Power(X, n), k)) == Parity(Power(ONE, k))
  {
    XPowerIsPower(n);
    ParityPower(Power(X, n), ONE, k);
  }

  lemma PowerOfXPower(a: Elem, k: nat, n: nat)
    requires Parity(a) == XPower(k)
    ensures Parity(Power(a, n)) == Parity(Power(Power(X, n), k))
  {
    XPowerIsPower(k);
    ParityPower(a, Power(X, k), n);
    PowerSwap(X, k, n);
  }

  /** a^15 = 1 modulo two for every element with an odd coefficient. */
  lemma UnitOrderModTwo(a: Elem, n: nat)
    requires HasOddCoefficient(a) && n == 15
    ensures Parity(Power(a, n)) == ONE
  {
    XPowerTable();
    var k := Generated(a);
    PowerOfXPower(a, k, n);
    XPowerOrder(k, n);
    PowerOfOne(k);
  }

  // ----- lifting to 2^16 -----------------------------------------------------------------------------

  /** (1 + m z)^2 = 1 + 2m (z + h z^2) for m = 2h. */
  lemma SquareLift(z: Elem, m: int, h: int)
    requires m == 2 * h
    ensures var a := Plus(ONE, Scale(m, z));
      Times(a, a) == Plus(ONE, Scale(2 * m, Plus(z, Scale(h, Times(z, z)))))
  {
    var y := Scale(m, z);
    PlusTimes(ONE, y, Plus(ONE, y));
    TimesOne(Plus(ONE, y));
    TimesPlus(y, ONE, y);
    TimesOne(y);
    ScaleTimes(m, z, y);
    ScaleTimes(m, z, z);
    LiftTerms(z, Times(z, z), m, h);
  }

  lemma LiftTerms(z: Elem, zz: Elem, m: int, h: int)
    requires m == 2 * h
    ensures Plus(Plus(ONE, Scale(m, z)), Plus(Scale(m, z), Scale(m, Scale(m, zz))))
         == Plus(ONE, Scale(2 * m, Plus(z, Scale(h, zz))))
  {
    LiftTerm(z.c0, zz.c0, m, h);
    LiftTerm(z.c1, zz.c1, m, h);
    LiftTerm(z.c2, zz.c2, m, h);
    LiftTerm(z.c3, zz.c3, m, h);
  }

  lemma LiftTerm(x: int, y: int, m: int, h: int)
    requires m == 2 * h
    ensures m * x + (m * x + m * (m * y)) == (2 * m) * (x + h * y)
  {
    assert (2 * m) * (h * y) == m * (2 * h * y);
  }

  lemma {:induction false} UnitPower(a: Elem, j: nat) returns (z: Elem)
    requires HasOddCoefficient(a)
    ensures Power(a, 15 * Pow2(j)) == Plus(ONE, Scale(Pow2(j + 1), z))
  {
    if j == 0 {
      var n := 15 * Pow2(j);
      UnitOrderModTwo(a, n);
      ParitySplit(Power(a, n));
      z := Halved(Power(a, n));
    } else {
      var y := UnitPower(a, j - 1);
      var n := 15 * Pow2(j - 1);
      PowerAdd(a, n, n);
      SquareLift(y, Pow2(j), Pow2(j - 1));
      z := Plus(y, Scale(Pow2(j - 1), Times(y, y)));
    }
  }

  // ----- inverses ------------------------------------------------------------------------------------------

  const INVERSE_EXPONENT: nat := 15 * 0x8000 - 1

  function Inverse(a: Ring): (r: Ring) {
    Reduce(Power(a, INVERSE_EXPONENT))
  }

  /** For every element with an odd coefficient the power is the inverse. */
  lemma InverseCorrect(a: Ring)
    requires HasOddCoefficient(a)
    ensures Mul(Inverse(a), a) == ONE && Mul(a, Inverse(a)) == ONE
  {
    var n := INVERSE_EXPONENT;
    FullPower(a, n + 1);
    PowerTimes(a, n);
    MulCommutes(Inverse(a), a);
  }

  lemma FullPower(a: Ring, n: nat)
    requires HasOddCoefficient(a) && n == 15 * 0x8000
    ensures Reduce(Power(a, n)) == ONE
  {
    Pow2Values();
    var z := UnitPower(a, 15);
    assert 15 * Pow2(15) == n && Pow2(15 + 1) == MODULUS;
    ReduceShift(ONE, z);
  }

  lemma PowerTimes(a: Ring, n: nat)
    ensures Mul(Reduce(Power(a, n)), a) == Reduce(Power(a, n + 1))
  {
    ReduceTimes(Power(a, n), a);
  }

  /** No other element has an inverse. */
  lemma EvenHasNoInverse(a: Ring, b: Ring)
    requires !HasOddCoefficient(a)
    ensures Mul(a, b) != ONE
  {
    var c := Halved(a);
    assert a == Scale(2, c);
    ScaleFirst(2, c, b);
    EvenResidue(Times(c, b).c0);
  }

  lemma EvenResidue(t: int)
    ensures (2 * t) % MODULUS != 1
  {
  }

  datatype Inverted = Inverted(value: Ring) | NoInverse

  /** The source panics on elements without an inverse. */
  method Invert(a: Ring) returns (r: Inverted)
    ensures r.Inverted? <==> exists b: Ring :: Mul(a, b) == ONE
    ensures r.Inverted? ==> r.value == Inverse(a) && Mul(a, r.value) == ONE
  {
    if !HasOddCoefficient(a) {
      forall b: Ring
        ensures Mul(a, b) != ONE
      {
        EvenHasNoInverse(a, b);
      }
      return NoInverse;
    }
    InverseCorrect(a);
    var x := Pow(a, INVERSE_EXPONENT);
    return Inverted(x);
  }
}
