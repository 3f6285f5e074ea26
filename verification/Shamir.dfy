/** Shamir sharing over the Galois ring for three and five parties. */
module Shamir {
  import opened Galois
  import opened Units
  import Interpolation

  const GALOIS: Interpolation.Ops<Ring> :=
    Interpolation.Ops(Add, Neg, Mul, Inverse, (a: Ring) => HasOddCoefficient(a), ZERO, ONE)

  lemma RingLawsHold(a: Ring, b: Ring, c: Ring)
    ensures Interpolation.RingLaws(GALOIS, a, b, c)
  {
    AddCommutes(a, b);
    AddAssociates(a, b, c);
    AddZero(a);
    SubIsAdd(a, a);
    MulCommutes(a, b);
    MulAssociates(a, b, c);
    MulOne(a);
    Galois.Distribute(b, c, a);
    if HasOddCoefficient(a) {
      InverseCorrect(a);
    }
  }

  lemma GaloisIsRing()
    ensures Interpolation.IsRing(GALOIS)
  {
    forall a: Ring, b: Ring, c: Ring
      ensures Interpolation.RingLaws(GALOIS, a, b, c)
    {
      RingLawsHold(a, b, c);
    }
  }

  // ----- evaluation points -----------------------------------------------------------------------

  const EXCEPTIONAL_SEQUENCE: seq<Ring> := [
    Elem(0, 0, 0, 0), Elem(1, 0, 0, 0), Elem(0, 1, 0, 0), Elem(1, 1, 0, 0),
    Elem(0, 0, 1, 0), Elem(1, 0, 1, 0), Elem(0, 1, 1, 0), Elem(1, 1, 1, 0),
    Elem(0, 0, 0, 1), Elem(1, 0, 0, 1), Elem(0, 1, 0, 1), Elem(1, 1, 0, 1),
    Elem(0, 0, 1, 1), Elem(1, 0, 1, 1), Elem(0, 1, 1, 1), Elem(1, 1, 1, 1)]

  predicate IsBinary(e: Elem) {
    0 <= e.c0 <= 1 && 0 <= e.c1 <= 1 && 0 <= e.c2 <= 1 && 0 <= e.c3 <= 1
  }

  function Code(e: Elem): (n: int) {
    e.c0 + 2 * e.c1 + 4 * e.c2 + 8 * e.c3
  }

  lemma SequenceIsBinary(i: nat)
    requires i < 16
    ensures IsBinary(EXCEPTIONAL_SEQUENCE[i]) && Code(EXCEPTIONAL_SEQUENCE[i]) == i
  {
  }

  lemma BinaryDifference(a: Ring, b: Ring)
    requires IsBinary(a) && IsBinary(b) && Code(a) != Code(b)
    ensures HasOddCoefficient(Sub(a, b))
  {
    if a.c0 != b.c0 {
      FirstDiffers(a, b);
    } else if a.c1 != b.c1 {
      SecondDiffers(a, b);
    } else if a.c2 != b.c2 {
      ThirdDiffers(a, b);
    } else {
      FourthDiffers(a, b);
    }
  }

  lemma FirstDiffers(a: Ring, b: Ring)
    requires 0 <= a.c0 <= 1 && 0 <= b.c0 <= 1 && a.c0 != b.c0
    ensures HasOddCoefficient(Sub(a, b))
  {
    BitDifference(a.c0, b.c0, Sub(a, b).c0);
  }

  lemma SecondDiffers(a: Ring, b: Ring)
    requires 0 <= a.c1 <= 1 && 0 <= b.c1 <= 1 && a.c1 != b.c1
    ensures HasOddCoefficient(Sub(a, b))
  {
    BitDifference(a.c1, b.c1, Sub(a, b).c1);
  }

  lemma ThirdDiffers(a: Ring, b: Ring)
    requires 0 <= a.c2 <= 1 && 0 <= b.c2 <= 1 && a.c2 != b.c2
    ensures HasOddCoefficient(Sub(a, b))
  {
    BitDifference(a.c2, b.c2, Sub(a, b).c2);
  }

  lemma FourthDiffers(a: Ring, b: Ring)
    requires 0 <= a.c3 <= 1 && 0 <= b.c3 <= 1 && a.c3 != b.c3
    ensures HasOddCoefficient(Sub(a, b))
  {
    BitDifference(a.c3, b.c3, Sub(a, b).c3);
  }

  /** One minus zero is 1, zero minus one the modulus less 1. */
  lemma BitDifference(x: int, y: int, d: int)
    requires 0 <= x <= 1 && 0 <= y <= 1 && x != y && d == (x + -1 * y) % MODULUS
    ensures d % 2 == 1
  {
    assert d == if x == 1 then 1 else MODULUS - 1;
  }

  /** Any two points of the sequence differ by a unit. */
  lemma PointsDiffer(i: nat, j: nat)
    requires i < 16 && j < 16 && i != j
    ensures HasOddCoefficient(Sub(EXCEPTIONAL_SEQUENCE[i], EXCEPTIONAL_SEQUENCE[j]))
  {
    SequenceIsBinary(i);
    SequenceIsBinary(j);
    BinaryDifference(EXCEPTIONAL_SEQUENCE[i], EXCEPTIONAL_SEQUENCE[j]);
  }

  /** The first n nonzero points. */
  function Points(n: nat): (z: seq<Ring>)
    requires 1 <= n <= 15
    ensures |z| == n && forall i :: 0 <= i < n ==> z[i] == EXCEPTIONAL_SEQUENCE[i + 1]
  {
    EXCEPTIONAL_SEQUENCE[1..n + 1]
  }

  lemma SubIsSub(a: Ring, b: Ring)
    ensures Interpolation.Sub(GALOIS, a, b) == Sub(a, b)
  {
    SubIsAdd(a, b);
  }

  /** Any selection of different points of the sequence can interpolate. */
  lemma SelectionsInterpolate(ids: seq<nat>, z: seq<Ring>)
    requires |ids| == |z| && forall i :: 0 <= i < |ids| ==> ids[i] < 16 && z[i] == EXCEPTIONAL_SEQUENCE[ids[i]]
    requires forall i, j :: 0 <= i < |ids| && 0 <= j < |ids| && i != j ==> ids[i] != ids[j]
    ensures Interpolation.UnitDifferences(GALOIS, z)
  {
    forall i, j | 0 <= i < |z| && 0 <= j < |z| && i != j
      ensures GALOIS.unit(Interpolation.Sub(GALOIS, z[i], z[j]))
    {
      PointsDiffer(ids[i], ids[j]);
      SubIsSub(z[i], z[j]);
    }
  }

  lemma PointsInterpolate(n: nat)
    requires 1 <= n <= 15
    ensures Interpolation.UnitDifferences(GALOIS, Points(n))
  {
    SelectionsInterpolate(seq(n, i requires 0 <= i < n => i + 1), Points(n));
  }

  // ----- Lagrange weights ---------------------------------------------------------------------------

  /** Lagrange coefficients at zero for the first n nonzero points, 1 <= n <= 15. */
  method LagrangePolysAtZero(n: nat) returns (res: seq<Ring>)
    requires 1 <= n <= 15
    ensures res == Interpolation.Weights(GALOIS, Points(n))
  {
    res := Interpolation.LagrangeWeights(GALOIS, Points(n));
  }

  /** For every n the weights send z^0 to one and z^d to zero for 0 < d < n. */
  lemma WeightsInterpolate(n: nat, d: nat)
    requires 1 <= n <= 15 && d < n
    ensures Interpolation.Moment(GALOIS, Points(n), d, n) == if d == 0 then ONE else ZERO
  {
    GaloisIsRing();
    PointsInterpolate(n);
    Interpolation.Moments(GALOIS, Points(n), d);
  }

  // ----- sharing ---------------------------------------------------------------------------------------

  type ShamirShare = Interpolation.Share<Ring>

  /** Degree one: s + r z. */
  function Line(s: Ring, r: Ring, z: Ring): (y: Ring) {
    Add(s, Mul(r, z))
  }

  /** Degree two by Horner's rule: s + (r + t z) z. */
  function Parabola(s: Ring, r: Ring, t: Ring, z: Ring): (y: Ring) {
    Add(s, Mul(Add(r, Mul(t, z)), z))
  }

  function Lines(s: Ring, r: Ring): (y: seq<Ring>)
    ensures |y| == 3 && forall i :: 0 <= i < 3 ==> y[i] == Line(s, r, Points(3)[i])
  {
    seq(3, i requires 0 <= i < 3 => Line(s, r, Points(3)[i]))
  }

  function Parabolas(s: Ring, r: Ring, t: Ring): (y: seq<Ring>)
    ensures |y| == 5 && forall i :: 0 <= i < 5 ==> y[i] == Parabola(s, r, t, Points(5)[i])
  {
    seq(5, i requires 0 <= i < 5 => Parabola(s, r, t, Points(5)[i]))
  }

  lemma ConstantIsEval(c: Ring, z: Ring)
    ensures Interpolation.Eval(GALOIS, [c], z) == c
  {
    assert Interpolation.Eval(GALOIS, [c], z) == Add(c, Mul(z, Interpolation.Eval(GALOIS, [], z)));
    MulOne(z);
    AddZero(c);
  }

  lemma LineIsEval(s: Ring, r: Ring, z: Ring)
    ensures Interpolation.Eval(GALOIS, [s, r], z) == Line(s, r, z)
  {
    ConstantIsEval(r, z);
    assert [s, r][1..] == [r];
    MulCommutes(r, z);
  }

  lemma ParabolaIsEval(s: Ring, r: Ring, t: Ring, z: Ring)
    ensures Interpolation.Eval(GALOIS, [s, r, t], z) == Parabola(s, r, t, z)
  {
    LineIsEval(r, t, z);
    assert [s, r, t][1..] == [r, t];
    MulCommutes(Line(r, t, z), z);
  }

  lemma LinesAreValues(s: Ring, r: Ring)
    ensures Interpolation.AreValues(GALOIS, Points(3), Lines(s, r), [s, r])
  {
    forall i | 0 <= i < 3
      ensures Lines(s, r)[i] == Interpolation.Eval(GALOIS, [s, r], Points(3)[i])
    {
      LineIsEval(s, r, Points(3)[i]);
    }
  }

  lemma ParabolasAreValues(s: Ring, r: Ring, t: Ring)
    ensures Interpolation.AreValues(GALOIS, Points(5), Parabolas(s, r, t), [s, r, t])
  {
    forall i | 0 <= i < 5
      ensures Parabolas(s, r, t)[i] == Interpolation.Eval(GALOIS, [s, r, t], Points(5)[i])
    {
      ParabolaIsEval(s, r, t, Points(5)[i]);
    }
  }

  method Encode3(s: Ring, r: Ring) returns (shares: seq<ShamirShare>)
    ensures Interpolation.AreShares(shares, Lines(s, r))
  {
    shares := [];
    for i := 1 to 4
      invariant |shares| == i - 1
      invariant forall k :: 0 <= k < i - 1 ==> shares[k] == Interpolation.Share(k + 1, Lines(s, r)[k])
    {
      shares := shares + [Interpolation.Share(i, Line(s, r, EXCEPTIONAL_SEQUENCE[i]))];
    }
  }

  method Encode5(s: Ring, r: Ring, t: Ring) returns (shares: seq<ShamirShare>)
    ensures Interpolation.AreShares(shares, Parabolas(s, r, t))
  {
    shares := [];
    for i := 1 to 6
      invariant |shares| == i - 1
      invariant forall k :: 0 <= k < i - 1 ==> shares[k] == Interpolation.Share(k + 1, Parabolas(s, r, t)[k])
    {
      shares := shares + [Interpolation.Share(i, Parabola(s, r, t, EXCEPTIONAL_SEQUENCE[i]))];
    }
  }

  // ----- circuits without multiplications ------------------------------------------------------------------

  /** Shares 1, 2 and 3 by wrapping additions only. */
  function Encode3Mat(s: Ring, r: Ring): (y: seq<Ring>) {
    [Add(s, r), SecondShare(s, r), Add(SecondShare(s, r), r)]
  }

  function SecondShare(s: Ring, r: Ring): (y: Ring) {
    Reduce(SecondSum(s, r))
  }

  function SecondSum(s: Ring, r: Ring): (y: Elem) {
    Elem(s.c0 + r.c3, s.c1 + r.c0 + r.c3, s.c2 + r.c1, s.c3 + r.c2)
  }

  function MulX(a: Ring): (r: Ring) {
    Reduce(TimesX(a))
  }

  const X1: Ring := Elem(0, 1, 0, 0)
  const X2: Ring := Elem(0, 0, 1, 0)

  lemma MulXIsMul(a: Ring)
    ensures MulX(a) == Mul(a, X1) && MulX(MulX(a)) == Mul(a, X2)
  {
    TimesXIsTimes(a);
    assert Times(a, X2) == TimesX(TimesX(a));
    ReduceTimesX(TimesX(a));
  }

  lemma ReduceTimesX(a: Elem)
    ensures Reduce(TimesX(Reduce(a))) == Reduce(TimesX(a))
  {
    ReduceTwice(a.c3);
    ReduceTwice(a.c1);
    ReduceTwice(a.c2);
    ReduceSum(a.c0, a.c3);
  }

  lemma ReduceTwice(x: int)
    ensures (x % MODULUS) % MODULUS == x % MODULUS
  {
  }

  lemma ReduceSum(x: int, y: int)
    ensures (x % MODULUS + y % MODULUS) % MODULUS == (x + y) % MODULUS
  {
  }

  /** The next point up: p(z + 1) for a line. */
  lemma LineShift(s: Ring, r: Ring, z: Ring)
    ensures Line(s, r, Add(z, ONE)) == Add(Line(s, r, z), r)
  {
    Galois.Distribute(z, ONE, r);
    MulOne(r);
    AddAssociates(s, Mul(r, z), r);
  }

  lemma SecondSumIs(s: Ring, r: Ring)
    ensures SecondSum(s, r) == Plus(s, TimesX(r))
  {
  }

  lemma AddMulX(s: Ring, r: Ring)
    ensures Add(s, MulX(r)) == SecondShare(s, r)
  {
    SecondSumIs(s, r);
    AddReduced(TimesX(r), s);
  }

  lemma LineAtX(s: Ring, r: Ring)
    ensures Line(s, r, X1) == Add(s, MulX(r))
  {
    MulXIsMul(r);
  }

  /** Points 3 and 5 are points 2 and 4 plus one. */
  lemma NextPoint(i: nat)
    requires i == 2 || i == 4
    ensures EXCEPTIONAL_SEQUENCE[i + 1] == Add(EXCEPTIONAL_SEQUENCE[i], ONE)
  {
    SequenceIsBinary(i);
    SequenceIsBinary(i + 1);
    BinarySuccessor(EXCEPTIONAL_SEQUENCE[i], EXCEPTIONAL_SEQUENCE[i + 1]);
  }

  lemma BinarySuccessor(z: Ring, next: Ring)
    requires IsBinary(z) && IsBinary(next) && z.c0 == 0 && Code(next) == Code(z) + 1
    ensures next == Add(z, ONE)
  {
    SameCode(next, Elem(1, z.c1, z.c2, z.c3));
    AddSmall(z, ONE, next);
  }

  lemma SameCode(a: Elem, b: Elem)
    requires IsBinary(a) && IsBinary(b) && Code(a) == Code(b)
    ensures a == b
  {
    assert a.c3 == b.c3;
    assert a.c2 == b.c2;
    assert a.c1 == b.c1;
  }

  lemma AddSmall(a: Ring, b: Ring, c: Ring)
    requires Plus(a, b) == c
    ensures Add(a, b) == c
  {
  }

  lemma PointTable()
    ensures EXCEPTIONAL_SEQUENCE[1] == ONE && EXCEPTIONAL_SEQUENCE[2] == X1
    ensures EXCEPTIONAL_SEQUENCE[3] == Elem(1, 1, 0, 0)
    ensures EXCEPTIONAL_SEQUENCE[4] == X2 && EXCEPTIONAL_SEQUENCE[5] == Elem(1, 0, 1, 0)
  {
  }

  /** The circuit deals the same shares as evaluating the line. */
  lemma Encode3MatIsLines(s: Ring, r: Ring)
    ensures Encode3Mat(s, r) == Lines(s, r)
  {
    var e, y := Encode3Mat(s, r), Lines(s, r);
    LinesTable(s, r);
    assert e[0] == y[0] by {
      FirstLine(s, r);
    }
    assert e[1] == y[1] && e[2] == y[2] by {
      LineAtX(s, r);
      AddMulX(s, r);
      LineShift(s, r, X1);
    }
  }

  lemma LinesTable(s: Ring, r: Ring)
    ensures var y, x := Lines(s, r), X1; y == [Line(s, r, ONE), Line(s, r, x), Line(s, r, Add(x, ONE))]
  {
    PointTable();
    NextPoint(2);
  }

  lemma FirstLine(s: Ring, r: Ring)
    ensures Line(s, r, ONE) == Add(s, r)
  {
    MulOne(r);
  }

  /** Five shares with multiplications by x only. */
  function Encode5Mat(s: Ring, r: Ring, t: Ring): (y: seq<Ring>) {
    var q, tx := Add(r, t), MulX(t);
    var txx := MulX(tx);
    var y1, y2, y4 := Add(s, q), Add(s, MulX(Add(r, tx))), Add(s, MulX(MulX(Add(r, txx))));
    var dx := Add(tx, tx);
    var dxx := MulX(dx);
    [y1, y2, Add(Add(y2, q), dx), y4, Add(Add(y4, q), dxx)]
  }

  /** P(z + 1) = P(z) + (r + t) + 2 z t */
  lemma ParabolaShift(s: Ring, r: Ring, t: Ring, z: Ring)
    ensures Parabola(s, r, t, Add(z, ONE)) == Add(Add(Parabola(s, r, t, z), Add(r, t)), Add(Mul(t, z), Mul(t, z)))
  {
    var tz := Mul(t, z);
    var u := Add(r, tz);
    Galois.Distribute(z, ONE, t);
    MulOne(t);
    AddAssociates(r, tz, t);
    ShiftedHorner(u, t, z, tz);
    assert Mul(Add(r, Mul(t, Add(z, ONE))), Add(z, ONE)) == Add(Mul(u, z), Add(Add(r, t), Add(tz, tz))) by {
      Regroup(Mul(u, z), r, t, tz);
    }
    AddAssociates(s, Mul(u, z), Add(Add(r, t), Add(tz, tz)));
    AddAssociates(Add(s, Mul(u, z)), Add(r, t), Add(tz, tz));
  }

  /** (u + t)(z + 1) = u z + (t z + (u + t)) */
  lemma ShiftedHorner(u: Ring, t: Ring, z: Ring, tz: Ring)
    requires tz == Mul(t, z)
    ensures Mul(Add(u, t), Add(z, ONE)) == Add(Mul(u, z), Add(tz, Add(u, t)))
  {
    Galois.Distribute(z, ONE, Add(u, t));
    MulOne(Add(u, t));
    Galois.Distribute(u, t, z);
    AddAssociates(Mul(u, z), tz, Add(u, t));
  }

  lemma Regroup(v: Ring, r: Ring, t: Ring, tz: Ring)
    ensures Add(v, Add(tz, Add(Add(r, tz), t))) == Add(v, Add(Add(r, t), Add(tz, tz)))
  {
    AddAssociates(r, tz, t);
    AddCommutes(tz, t);
    AddAssociates(r, t, tz);
    AddCommutes(tz, Add(Add(r, t), tz));
    AddAssociates(Add(r, t), tz, tz);
  }

  lemma ParabolaAtOne(s: Ring, r: Ring, t: Ring)
    ensures Parabola(s, r, t, ONE) == Add(s, Add(r, t))
  {
    MulOne(t);
    MulOne(Add(r, t));
  }

  lemma DoubleX(t: Ring)
    ensures var tx := Mul(t, X1); MulX(Add(tx, tx)) == Add(Mul(t, X2), Mul(t, X2))
  {
    var tx := Mul(t, X1);
    MulXIsMul(Add(tx, tx));
    Galois.Distribute(tx, tx, X1);
    MulXIsMul(tx);
    MulXIsMul(t);
  }

  lemma ParabolasTable(s: Ring, r: Ring, t: Ring, z2: Ring, z4: Ring)
    requires z2 == EXCEPTIONAL_SEQUENCE[2] && z4 == EXCEPTIONAL_SEQUENCE[4]
    ensures var y := Parabolas(s, r, t);
      && y[0] == Parabola(s, r, t, EXCEPTIONAL_SEQUENCE[1])
      && y[1] == Parabola(s, r, t, z2) && y[2] == Parabola(s, r, t, Add(z2, ONE))
      && y[3] == Parabola(s, r, t, z4) && y[4] == Parabola(s, r, t, Add(z4, ONE))
  {
    NextPoint(2);
    NextPoint(4);
  }

  /** Shares 2 and 3. */
  lemma ParabolasAtX(s: Ring, r: Ring, t: Ring, z: Ring)
    requires z == X1
    ensures var tx := MulX(t); var y2 := Add(s, MulX(Add(r, tx)));
      y2 == Parabola(s, r, t, z) && Add(Add(y2, Add(r, t)), Add(tx, tx)) == Parabola(s, r, t, Add(z, ONE))
  {
    MulXIsMul(t);
    MulXIsMul(Add(r, Mul(t, z)));
    ParabolaShift(s, r, t, z);
  }

  /** Shares 4 and 5. */
  lemma ParabolasAtXX(s: Ring, r: Ring, t: Ring, z: Ring)
    requires z == X2
    ensures var tx := MulX(t); var y4 := Add(s, MulX(MulX(Add(r, MulX(tx)))));
      y4 == Parabola(s, r, t, z) && Add(Add(y4, Add(r, t)), MulX(Add(tx, tx))) == Parabola(s, r, t, Add(z, ONE))
  {
    MulXIsMul(t);
    MulXIsMul(Add(r, Mul(t, z)));
    ParabolaShift(s, r, t, z);
    DoubleX(t);
  }

  lemma FirstParabola(s: Ring, r: Ring, t: Ring)
    ensures Encode5Mat(s, r, t)[0] == Parabolas(s, r, t)[0]
  {
    PointTable();
    ParabolaAtOne(s, r, t);
  }

  /** The shares of the circuit in full. */
  lemma CircuitTable(s: Ring, r: Ring, t: Ring, tx: Ring, y2: Ring, y4: Ring)
    requires tx == MulX(t) && y2 == Add(s, MulX(Add(r, tx))) && y4 == Add(s, MulX(MulX(Add(r, MulX(tx)))))
    ensures var e := Encode5Mat(s, r, t);
      && e[1] == y2 && e[2] == Add(Add(y2, Add(r, t)), Add(tx, tx))
      && e[3] == y4 && e[4] == Add(Add(y4, Add(r, t)), MulX(Add(tx, tx)))
  {
  }

  lemma ParabolasTwoThree(s: Ring, r: Ring, t: Ring, z2: Ring, z4: Ring)
    requires z2 == X1 == EXCEPTIONAL_SEQUENCE[2] && z4 == EXCEPTIONAL_SEQUENCE[4]
    ensures Encode5Mat(s, r, t)[1] == Parabolas(s, r, t)[1] && Encode5Mat(s, r, t)[2] == Parabolas(s, r, t)[2]
  {
    var tx := MulX(t);
    CircuitTable(s, r, t, tx, Add(s, MulX(Add(r, tx))), Add(s, MulX(MulX(Add(r, MulX(tx))))));
    ParabolasTable(s, r, t, z2, z4);
    ParabolasAtX(s, r, t, z2);
  }

  lemma ParabolasFourFive(s: Ring, r: Ring, t: Ring, z2: Ring, z4: Ring)
    requires z2 == EXCEPTIONAL_SEQUENCE[2] && z4 == X2 == EXCEPTIONAL_SEQUENCE[4]
    ensures Encode5Mat(s, r, t)[3] == Parabolas(s, r, t)[3] && Encode5Mat(s, r, t)[4] == Parabolas(s, r, t)[4]
  {
    var tx := MulX(t);
    CircuitTable(s, r, t, tx, Add(s, MulX(Add(r, tx))), Add(s, MulX(MulX(Add(r, MulX(tx))))));
    ParabolasTable(s, r, t, z2, z4);
    ParabolasAtXX(s, r, t, z4);
  }

  lemma FiveEqual(x: seq<Ring>, y: seq<Ring>)
    requires |x| == |y| == 5 && x[0] == y[0] && x[1] == y[1] && x[2] == y[2] && x[3] == y[3] && x[4] == y[4]
    ensures x == y
  {
  }

  /** The circuit deals the same shares as Horner's rule. */
  lemma Encode5MatIsParabolas(s: Ring, r: Ring, t: Ring)
    ensures Encode5Mat(s, r, t) == Parabolas(s, r, t)
  {
    PointTable();
    FirstParabola(s, r, t);
    ParabolasTwoThree(s, r, t, EXCEPTIONAL_SEQUENCE[2], EXCEPTIONAL_SEQUENCE[4]);
    ParabolasFourFive(s, r, t, EXCEPTIONAL_SEQUENCE[2], EXCEPTIONAL_SEQUENCE[4]);
    FiveEqual(Encode5Mat(s, r, t), Parabolas(s, r, t));
  }

  // ----- reconstruction --------------------------------------------------------------------------------------

  /** The secret a set of weighted shares combines to. */
  function Combined(shares: seq<ShamirShare>, n: nat): (r: Ring)
    requires 1 <= n <= 15 && |shares| == n && Interpolation.ValidIds(shares, n)
  {
    Interpolation.SumShares(GALOIS, shares, Interpolation.Weights(GALOIS, Points(n)), n)
  }

  method Reconstruct(shares: seq<ShamirShare>, n: nat) returns (r: Ring)
    requires 1 <= n <= 15 && |shares| == n && Interpolation.ValidIds(shares, n)
    ensures r == Combined(shares, n)
  {
    var w := LagrangePolysAtZero(n);
    r := Interpolation.Total(GALOIS, shares, w);
  }

  function ShareProducts(a: seq<Ring>, b: seq<Ring>): (y: seq<Ring>)
    requires |a| == |b|
    ensures |y| == |a| && forall i :: 0 <= i < |a| ==> y[i] == Mul(a[i], b[i])
  {
    seq(|a|, i requires 0 <= i < |a| => Mul(a[i], b[i]))
  }

  /** Pointwise products of two sharings combine to the product of the secrets whenever the degrees
      add up to less than the number of shares. */
  lemma ProductOfSharings(shares: seq<ShamirShare>, a: seq<Ring>, b: seq<Ring>, p: seq<Ring>, q: seq<Ring>, n: nat)
    requires 1 <= n <= 15 && p != [] && q != [] && |p| + |q| - 1 <= n == |a| == |b|
    requires Interpolation.AreValues(GALOIS, Points(n), a, p) && Interpolation.AreValues(GALOIS, Points(n), b, q)
    requires Interpolation.AreShares(shares, ShareProducts(a, b))
    ensures Combined(shares, n) == Mul(p[0], q[0])
  {
    GaloisIsRing();
    PointsInterpolate(n);
    Interpolation.SumIsCombine(GALOIS, shares, ShareProducts(a, b), Points(n), Interpolation.Weights(GALOIS, Points(n)),
                               n);
    assert Interpolation.AreProducts(GALOIS, Points(n), ShareProducts(a, b), p, q);
    Interpolation.ProductReconstructs(GALOIS, Points(n), ShareProducts(a, b), p, q);
  }

  /** Three parties, degree one each. */
  lemma ProductOfThree(shares: seq<ShamirShare>, s: Ring, r: Ring, s': Ring, r': Ring)
    requires Interpolation.AreShares(shares, ShareProducts(Lines(s, r), Lines(s', r')))
    ensures Combined(shares, 3) == Mul(s, s')
  {
    LinesAreValues(s, r);
    LinesAreValues(s', r');
    ProductOfSharings(shares, Lines(s, r), Lines(s', r'), [s, r], [s', r'], 3);
  }

  /** Five parties, degree two each. */
  lemma ProductOfFive(shares: seq<ShamirShare>, s: Ring, r: Ring, t: Ring, s': Ring, r': Ring, t': Ring)
    requires Interpolation.AreShares(shares, ShareProducts(Parabolas(s, r, t), Parabolas(s', r', t')))
    ensures Combined(shares, 5) == Mul(s, s')
  {
    ParabolasAreValues(s, r, t);
    ParabolasAreValues(s', r', t');
    ProductOfSharings(shares, Parabolas(s, r, t), Parabolas(s', r', t'), [s, r, t], [s', r', t'], 5);
  }

  /** Any three of the five shares determine the secret. */
  lemma AnyThreeOfFive(ids: seq<nat>, z: seq<Ring>, y: seq<Ring>, s: Ring, r: Ring, t: Ring)
    requires |ids| == |z| == |y| == 3 && forall i, j :: 0 <= i < 3 && 0 <= j < 3 && i != j ==> ids[i] != ids[j]
    requires forall i :: 0 <= i < 3 ==> 1 <= ids[i] <= 5 && z[i] == EXCEPTIONAL_SEQUENCE[ids[i]]
    requires forall i :: 0 <= i < 3 ==> y[i] == Parabolas(s, r, t)[ids[i] - 1]
    ensures Interpolation.Combine(GALOIS, z, y, 3) == s
  {
    GaloisIsRing();
    SelectionsInterpolate(ids, z);
    SelectedValues(ids, z, y, s, r, t);
    Interpolation.Reconstructs(GALOIS, z, y, [s, r, t]);
  }

  lemma SelectedValues(ids: seq<nat>, z: seq<Ring>, y: seq<Ring>, s: Ring, r: Ring, t: Ring)
    requires |ids| == |z| == |y| == 3
    requires forall i :: 0 <= i < 3 ==> 1 <= ids[i] <= 5 && z[i] == EXCEPTIONAL_SEQUENCE[ids[i]]
    requires forall i :: 0 <= i < 3 ==> y[i] == Parabolas(s, r, t)[ids[i] - 1]
    ensures Interpolation.AreValues(GALOIS, z, y, [s, r, t])
  {
    forall i | 0 <= i < 3
      ensures y[i] == Interpolation.Eval(GALOIS, [s, r, t], z[i])
    {
      ParabolaIsEval(s, r, t, z[i]);
    }
  }
}
