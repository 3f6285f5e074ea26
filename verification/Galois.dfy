/** The Galois ring Z_{2^16}[x] / (x^4 - x - 1): ring laws, exponentiation, units. */
module Galois {

  const MODULUS: int := 0x1_0000

  /** Coefficients of 1, x, x^2, x^3. */
  datatype Elem = Elem(c0: int, c1: int, c2: int, c3: int)

  predicate Reduced(e: Elem) {
    0 <= e.c0 < MODULUS && 0 <= e.c1 < MODULUS && 0 <= e.c2 < MODULUS && 0 <= e.c3 < MODULUS
  }

  type Ring = e: Elem | Reduced(e) witness Elem(0, 0, 0, 0)

  const ZERO: Ring := Elem(0, 0, 0, 0)
  const ONE: Ring := Elem(1, 0, 0, 0)

  // ----- polynomials with integer coefficients modulo x^4 - x - 1 ----------------------------

  function Plus(a: Elem, b: Elem): (r: Elem) {
    Elem(a.c0 + b.c0, a.c1 + b.c1, a.c2 + b.c2, a.c3 + b.c3)
  }

  function Scale(s: int, a: Elem): (r: Elem) {
    Elem(s * a.c0, s * a.c1, s * a.c2, s * a.c3)
  }

  /** Multiplication by x: x^4 becomes x + 1. */
  function TimesX(a: Elem): (r: Elem) {
    Elem(a.c3, a.c0 + a.c3, a.c1, a.c2)
  }

  function Times(a: Elem, b: Elem): (r: Elem) {
    Elem(a.c0 * b.c0 + a.c1 * b.c3 + a.c2 * b.c2 + a.c3 * b.c1,
         a.c0 * b.c1 + a.c1 * b.c0 + a.c1 * b.c3 + a.c2 * b.c2 + a.c3 * b.c1 + a.c2 * b.c3 + a.c3 * b.c2,
         a.c0 * b.c2 + a.c1 * b.c1 + a.c2 * b.c0 + a.c2 * b.c3 + a.c3 * b.c2 + a.c3 * b.c3,
         a.c0 * b.c3 + a.c1 * b.c2 + a.c2 * b.c1 + a.c3 * b.c0 + a.c3 * b.c3)
  }

  lemma TimesCommutes(a: Elem, b: Elem)
    ensures Times(a, b) == Times(b, a)
  {
  }

  lemma ScalePlus(s: int, a: Elem, b: Elem)
    ensures Scale(s, Plus(a, b)) == Plus(Scale(s, a), Scale(s, b))
  {
  }

  lemma ScaleScale(s: int, t: int, a: Elem)
    ensures Scale(s * t, a) == Scale(s, Scale(t, a))
  {
  }

  lemma TimesPlus(a: Elem, b: Elem, c: Elem)
    ensures Times(a, Plus(b, c)) == Plus(Times(a, b), Times(a, c))
  {
    DistributeOver(a.c0, b, c); DistributeOver(a.c1, b, c); DistributeOver(a.c2, b, c); DistributeOver(a.c3, b, c);
    var left, right := Times(a, Plus(b, c)), Plus(Times(a, b), Times(a, c));
    assert left.c0 == right.c0;
    assert left.c1 == right.c1;
    assert left.c2 == right.c2;
    assert left.c3 == right.c3;
  }

  lemma DistributeOver(x: int, b: Elem, c: Elem)
    ensures x * (b.c0 + c.c0) == x * b.c0 + x * c.c0 && x * (b.c1 + c.c1) == x * b.c1 + x * c.c1
    ensures x * (b.c2 + c.c2) == x * b.c2 + x * c.c2 && x * (b.c3 + c.c3) == x * b.c3 + x * c.c3
  {
    Distributes(x, b.c0, c.c0); Distributes(x, b.c1, c.c1); Distributes(x, b.c2, c.c2); Distributes(x, b.c3, c.c3);
  }

  lemma PlusTimes(a: Elem, b: Elem, c: Elem)
    ensures Times(Plus(a, b), c) == Plus(Times(a, c), Times(b, c))
  {
    TimesCommutes(Plus(a, b), c);
    TimesPlus(c, a, b);
    TimesCommutes(a, c);
    TimesCommutes(b, c);
  }

  lemma ScaleTimes(s: int, a: Elem, b: Elem)
    ensures Times(Scale(s, a), b) == Scale(s, Times(a, b))
    ensures Times(a, Scale(s, b)) == Scale(s, Times(a, b))
  {
    ScaleFirst(s, a, b);
    ScaleFirst(s, b, a);
    TimesCommutes(a, Scale(s, b));
    TimesCommutes(a, b);
  }

  lemma ScaleFirst(s: int, a: Elem, b: Elem)
    ensures Times(Scale(s, a), b) == Scale(s, Times(a, b))
  {
    TimesIsCombination(a, b);
    TimesIsCombination(Scale(s, a), b);
    ScaleCombination(s, a, b, TimesX(b), TimesX(TimesX(b)), TimesX(TimesX(TimesX(b))));
  }

  lemma ScaleCombination(s: int, a: Elem, b0: Elem, b1: Elem, b2: Elem, b3: Elem)
    ensures Combination(Scale(s, a), b0, b1, b2, b3) == Scale(s, Combination(a, b0, b1, b2, b3))
  {
    ScaleScale(s, a.c0, b0); ScaleScale(s, a.c1, b1); ScaleScale(s, a.c2, b2); ScaleScale(s, a.c3, b3);
    ScalePlus(s, Scale(a.c0, b0), Scale(a.c1, b1));
    ScalePlus(s, Scale(a.c2, b2), Scale(a.c3, b3));
    ScalePlus(s, Plus(Scale(a.c0, b0), Scale(a.c1, b1)), Plus(Scale(a.c2, b2), Scale(a.c3, b3)));
  }

  /** A product is the sum of the second factor's multiples by 1, x, x^2 and x^3. */
  function Combination(a: Elem, b0: Elem, b1: Elem, b2: Elem, b3: Elem): (r: Elem) {
    Plus(Plus(Scale(a.c0, b0), Scale(a.c1, b1)), Plus(Scale(a.c2, b2), Scale(a.c3, b3)))
  }

  lemma TimesIsCombination(a: Elem, b: Elem)
    ensures Times(a, b) == Combination(a, b, TimesX(b), TimesX(TimesX(b)), TimesX(TimesX(TimesX(b))))
  {
    Distributes(a.c1, b.c0, b.c3);
    Distributes(a.c2, b.c3, b.c2); Distributes(a.c2, b.c0, b.c3);
    Distributes(a.c3, b.c2, b.c1); Distributes(a.c3, b.c3, b.c2); Distributes(a.c3, b.c0, b.c3);
    assert TimesX(TimesX(b)) == Elem(b.c2, b.c3 + b.c2, b.c0 + b.c3, b.c1);
    assert TimesX(TimesX(TimesX(b))) == Elem(b.c1, b.c2 + b.c1, b.c3 + b.c2, b.c0 + b.c3);
  }

  lemma Distributes(x: int, y: int, z: int)
    ensures x * (y + z) == x * y + x * z
  {
  }

  lemma SumTimes(x: int, y: int, z: int)
    ensures (x + y) * z == x * z + y * z
  {
  }

  lemma TimesXTimes(b: Elem, c: Elem)
    ensures Times(TimesX(b), c) == TimesX(Times(b, c))
  {
    SumTimes(b.c0, b.c3, c.c0); SumTimes(b.c0, b.c3, c.c1); SumTimes(b.c0, b.c3, c.c2); SumTimes(b.c0, b.c3, c.c3);
    var left, right := Times(TimesX(b), c), TimesX(Times(b, c));
    assert left.c0 == right.c0;
    assert left.c1 == right.c1;
    assert left.c2 == right.c2;
    assert left.c3 == right.c3;
  }

  lemma CombinationTimes(a: Elem, b0: Elem, b1: Elem, b2: Elem, b3: Elem, c: Elem)
    ensures Times(Combination(a, b0, b1, b2, b3), c)
         == Combination(a, Times(b0, c), Times(b1, c), Times(b2, c), Times(b3, c))
  {
    PlusTimes(Plus(Scale(a.c0, b0), Scale(a.c1, b1)), Plus(Scale(a.c2, b2), Scale(a.c3, b3)), c);
    PlusTimes(Scale(a.c0, b0), Scale(a.c1, b1), c);
    PlusTimes(Scale(a.c2, b2), Scale(a.c3, b3), c);
    ScaleFirst(a.c0, b0, c); ScaleFirst(a.c1, b1, c); ScaleFirst(a.c2, b2, c); ScaleFirst(a.c3, b3, c);
  }

  lemma TimesAssociates(a: Elem, b: Elem, c: Elem)
    ensures Times(Times(a, b), c) == Times(a, Times(b, c))
  {
    TimesIsCombination(a, b);
    TimesIsCombination(a, Times(b, c));
    CombinationTimes(a, b, TimesX(b), TimesX(TimesX(b)), TimesX(TimesX(TimesX(b))), c);
    TimesXTimes(b, c);
    TimesXTimes(TimesX(b), c);
    TimesXTimes(TimesX(TimesX(b)), c);
  }

  // ----- reduction modulo 2^16 ------------------------------------------------------------------

  function Reduce(a: Elem): (r: Ring) {
    Elem(a.c0 % MODULUS, a.c1 % MODULUS, a.c2 % MODULUS, a.c3 % MODULUS)
  }

  function Quotient(a: Elem): (r: Elem) {
    Elem(a.c0 / MODULUS, a.c1 / MODULUS, a.c2 / MODULUS, a.c3 / MODULUS)
  }

  lemma Split(a: Elem)
    ensures a == Plus(Reduce(a), Scale(MODULUS, Quotient(a)))
  {
  }

  lemma ReduceShift(a: Elem, w: Elem)
    ensures Reduce(Plus(a, Scale(MODULUS, w))) == Reduce(a)
  {
  }

  lemma ReducePlus(a: Elem, b: Elem)
    ensures Reduce(Plus(Reduce(a), b)) == Reduce(Plus(a, b))
    ensures Reduce(Plus(b, Reduce(a))) == Reduce(Plus(b, a))
  {
  }

  lemma ReduceTimes(a: Elem, b: Elem)
    ensures Reduce(Times(Reduce(a), b)) == Reduce(Times(a, b))
    ensures Reduce(Times(b, Reduce(a))) == Reduce(Times(b, a))
  {
    var q := Quotient(a);
    Split(a);
    PlusTimes(Reduce(a), Scale(MODULUS, q), b);
    ScaleFirst(MODULUS, q, b);
    ReduceShift(Times(Reduce(a), b), Times(q, b));
    TimesCommutes(b, Reduce(a));
    TimesCommutes(b, a);
  }

  // ----- the ring ----------------------------------------------------------------------------------

  function Add(a: Ring, b: Ring): (r: Ring) { Reduce(Plus(a, b)) }

  function Neg(a: Ring): (r: Ring) { Reduce(Scale(-1, a)) }

  function Sub(a: Ring, b: Ring): (r: Ring) { Reduce(Plus(a, Scale(-1, b))) }

  function Mul(a: Ring, b: Ring): (r: Ring) { Reduce(Times(a, b)) }

  lemma AddCommutes(a: Ring, b: Ring)
    ensures Add(a, b) == Add(b, a)
  {
  }

  lemma AddAssociates(a: Ring, b: Ring, c: Ring)
    ensures Add(Add(a, b), c) == Add(a, Add(b, c))
  {
    assert Plus(Plus(a, b), c) == Plus(a, Plus(b, c));
    AddReduced(Plus(a, b), c);
    AddReduced(Plus(b, c), a);
  }

  lemma AddReduced(a: Elem, b: Ring)
    ensures Add(Reduce(a), b) == Reduce(Plus(a, b)) && Add(b, Reduce(a)) == Reduce(Plus(b, a))
  {
    ReducePlus(a, b);
  }

  lemma AddZero(a: Ring)
    ensures Add(a, ZERO) == a && Add(ZERO, a) == a && Sub(a, ZERO) == a && Sub(a, a) == ZERO
  {
  }

  lemma SubIsAdd(a: Ring, b: Ring)
    ensures Sub(a, b) == Add(a, Neg(b))
  {
    ReducePlus(Scale(-1, b), a);
  }

  lemma MulCommutes(a: Ring, b: Ring)
    ensures Mul(a, b) == Mul(b, a)
  {
    TimesCommutes(a, b);
  }

  lemma MulAssociates(a: Ring, b: Ring, c: Ring)
    ensures Mul(Mul(a, b), c) == Mul(a, Mul(b, c))
  {
    ReduceTimes(Times(a, b), c);
    ReduceTimes(Times(b, c), a);
    TimesAssociates(a, b, c);
  }

  lemma MulOne(a: Ring)
    ensures Mul(a, ONE) == a && Mul(ONE, a) == a && Mul(a, ZERO) == ZERO && Mul(ZERO, a) == ZERO
  {
  }

  lemma Distribute(a: Ring, b: Ring, c: Ring)
    ensures Mul(Add(a, b), c) == Add(Mul(a, c), Mul(b, c)) && Mul(c, Add(a, b)) == Add(Mul(c, a), Mul(c, b))
  {
    ReduceTimes(Plus(a, b), c);
    PlusTimes(a, b, c);
    ReducePlus(Times(a, c), Times(b, c));
    ReducePlus(Times(b, c), Reduce(Times(a, c)));
    MulCommutes(Add(a, b), c);
    MulCommutes(a, c);
    MulCommutes(b, c);
  }
}
