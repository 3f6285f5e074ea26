/** Interpolation at zero over any commutative ring, at points whose differences are units. */
module Interpolation {

  datatype Ops<!T> = Ops(add: (T, T) -> T, neg: T -> T, mul: (T, T) -> T, inv: T -> T, unit: T -> bool, zero: T, one: T)

  function Sub<T>(R: Ops<T>, a: T, b: T): (r: T) {
    R.add(a, R.neg(b))
  }

  /** Names the elements a law is wanted for. */
  predicate At<T>(a: T, b: T, c: T) {
    true
  }

  ghost predicate RingLaws<T>(R: Ops<T>, a: T, b: T, c: T) {
    && R.add(a, b) == R.add(b, a) && R.add(R.add(a, b), c) == R.add(a, R.add(b, c))
    && R.add(a, R.zero) == a && R.add(a, R.neg(a)) == R.zero
    && R.mul(a, b) == R.mul(b, a) && R.mul(R.mul(a, b), c) == R.mul(a, R.mul(b, c)) && R.mul(a, R.one) == a
    && R.mul(a, R.add(b, c)) == R.add(R.mul(a, b), R.mul(a, c))
    && (R.unit(a) ==> R.mul(R.inv(a), a) == R.one)
  }

  ghost predicate IsRing<T(!new)>(R: Ops<T>) {
    forall a: T, b: T, c: T {:trigger At(a, b, c)} :: RingLaws(R, a, b, c)
  }

  lemma Laws<T(!new)>(R: Ops<T>, a: T, b: T, c: T)
    requires IsRing(R)
    ensures RingLaws(R, a, b, c)
  {
    assert At(a, b, c);
  }

  // ----- consequences -------------------------------------------------------------------------

  lemma AddCancels<T(!new)>(R: Ops<T>, a: T, b: T, c: T)
    requires IsRing(R) && R.add(a, c) == R.add(b, c)
    ensures a == b
  {
    Laws(R, a, c, R.neg(c));
    Laws(R, b, c, R.neg(c));
    Laws(R, c, c, c);
  }

  lemma MulZero<T(!new)>(R: Ops<T>, a: T)
    requires IsRing(R)
    ensures R.mul(a, R.zero) == R.zero && R.mul(R.zero, a) == R.zero
  {
    var p := R.mul(a, R.zero);
    Laws(R, a, R.zero, R.zero);
    Laws(R, R.zero, p, p);
    Laws(R, p, R.zero, p);
    AddCancels(R, p, R.zero, p);
  }

  lemma MulNeg<T(!new)>(R: Ops<T>, a: T, b: T)
    requires IsRing(R)
    ensures R.mul(a, R.neg(b)) == R.neg(R.mul(a, b)) && R.mul(R.neg(b), a) == R.neg(R.mul(a, b))
  {
    var p, q := R.mul(a, R.neg(b)), R.mul(a, b);
    Laws(R, a, R.neg(b), b);
    Laws(R, b, R.neg(b), b);
    MulZero(R, a);
    Laws(R, q, R.neg(q), q);
    Laws(R, R.neg(q), q, q);
    AddCancels(R, p, R.neg(q), q);
  }

  lemma MulSub<T(!new)>(R: Ops<T>, a: T, b: T, c: T)
    requires IsRing(R)
    ensures R.mul(a, Sub(R, b, c)) == Sub(R, R.mul(a, b), R.mul(a, c))
    ensures R.mul(Sub(R, b, c), a) == Sub(R, R.mul(a, b), R.mul(a, c))
  {
    Laws(R, a, b, R.neg(c));
    MulNeg(R, a, c);
    Laws(R, a, Sub(R, b, c), a);
  }

  lemma SubSelf<T(!new)>(R: Ops<T>, a: T, b: T)
    requires IsRing(R)
    ensures Sub(R, a, a) == R.zero && (Sub(R, a, b) == R.zero ==> a == b)
    ensures R.add(Sub(R, a, b), b) == a && Sub(R, R.add(a, b), b) == a
  {
    Laws(R, a, R.neg(b), b);
    Laws(R, a, b, R.neg(b));
    Laws(R, b, R.neg(b), b);
    Laws(R, b, R.zero, b);
    Laws(R, R.zero, b, b);
  }

  lemma AddSwap<T(!new)>(R: Ops<T>, a: T, b: T, c: T, d: T)
    requires IsRing(R)
    ensures R.add(R.add(a, b), R.add(c, d)) == R.add(R.add(a, c), R.add(b, d))
  {
    Laws(R, a, b, R.add(c, d));
    Laws(R, b, c, d);
    Laws(R, c, b, d);
    Laws(R, a, c, R.add(b, d));
  }

  lemma NegAdd<T(!new)>(R: Ops<T>, a: T, b: T)
    requires IsRing(R)
    ensures R.neg(R.add(a, b)) == R.add(R.neg(a), R.neg(b))
  {
    var s, n := R.add(a, b), R.add(R.neg(a), R.neg(b));
    AddSwap(R, R.neg(a), R.neg(b), a, b);
    Laws(R, a, R.neg(a), a);
    Laws(R, b, R.neg(b), b);
    Laws(R, R.neg(a), a, a);
    Laws(R, R.neg(b), b, b);
    Laws(R, R.zero, R.zero, R.zero);
    Laws(R, s, R.neg(s), s);
    Laws(R, R.neg(s), s, s);
    AddCancels(R, R.neg(s), n, s);
  }

  lemma SubSwap<T(!new)>(R: Ops<T>, a: T, b: T, c: T, d: T)
    requires IsRing(R)
    ensures Sub(R, R.add(a, b), R.add(c, d)) == R.add(Sub(R, a, c), Sub(R, b, d))
  {
    NegAdd(R, c, d);
    AddSwap(R, a, b, R.neg(c), R.neg(d));
  }

  lemma MulSwap<T(!new)>(R: Ops<T>, a: T, b: T, c: T)
    requires IsRing(R)
    ensures R.mul(R.mul(a, b), c) == R.mul(R.mul(a, c), b) && R.mul(a, R.mul(b, c)) == R.mul(b, R.mul(a, c))
  {
    Laws(R, a, b, c);
    Laws(R, a, c, b);
    Laws(R, b, c, a);
    Laws(R, b, a, c);
  }

  // ----- weights --------------------------------------------------------------------------------

  ghost predicate UnitDifferences<T>(R: Ops<T>, z: seq<T>) {
    forall i, j :: 0 <= i < |z| && 0 <= j < |z| && i != j ==> R.unit(Sub(R, z[i], z[j]))
  }

  /** The factor point zj contributes to the weight of point zi. */
  function Factor<T>(R: Ops<T>, w: T, zi: T, zj: T): (r: T) {
    R.mul(R.mul(w, R.neg(zj)), R.inv(Sub(R, zi, zj)))
  }

  /** The weight of point i, with the factors of the first n points. */
  function Weight<T>(R: Ops<T>, z: seq<T>, i: nat, n: nat): (r: T)
    requires i < |z| && n <= |z|
  {
    if n == 0 then R.one
    else if n - 1 == i then Weight(R, z, i, n - 1)
    else Factor(R, Weight(R, z, i, n - 1), z[i], z[n - 1])
  }

  function Power<T>(R: Ops<T>, x: T, d: nat): (r: T) {
    if d == 0 then R.one else R.mul(x, Power(R, x, d - 1))
  }

  /** The sum of weight * point^d over the first m points. */
  function Moment<T>(R: Ops<T>, z: seq<T>, d: nat, m: nat): (r: T)
    requires m <= |z|
  {
    if m == 0 then R.zero
    else R.add(Moment(R, z, d, m - 1), R.mul(Weight(R, z, m - 1, |z|), Power(R, z[m - 1], d)))
  }

  lemma {:induction false} WeightPrefix<T>(R: Ops<T>, z: seq<T>, i: nat, n: nat, k: nat)
    requires i < k <= |z| && n <= k
    ensures Weight(R, z[..k], i, n) == Weight(R, z, i, n)
  {
    if n > 0 {
      WeightPrefix(R, z, i, n - 1, k);
    }
  }

  lemma FactorSwap<T(!new)>(R: Ops<T>, w: T, x: T, a: T, b: T)
    requires IsRing(R)
    ensures Factor(R, Factor(R, w, x, a), x, b) == Factor(R, Factor(R, w, x, b), x, a)
  {
    var p, q, r, s := R.neg(a), R.inv(Sub(R, x, a)), R.neg(b), R.inv(Sub(R, x, b));
    Laws(R, w, p, q);
    Laws(R, R.mul(w, R.mul(p, q)), r, s);
    MulSwap(R, w, R.mul(p, q), R.mul(r, s));
    Laws(R, w, r, s);
    Laws(R, R.mul(w, R.mul(r, s)), p, q);
  }

  lemma WeightNext<T>(R: Ops<T>, z: seq<T>, i: nat, n: nat, w: T)
    requires i < |z| && n < |z| && w == Weight(R, z, i, n)
    ensures Weight(R, z, i, n + 1) == if n == i then w else Factor(R, w, z[i], z[n])
  {
  }

  /** The weights without the first point, times that point's factor. */
  lemma {:induction false} WeightSuffix<T(!new)>(R: Ops<T>, z: seq<T>, y: seq<T>, i: nat, n: nat)
    requires IsRing(R) && 1 <= i < |z| && 1 <= n <= |z| && IsTail(y, z)
    ensures Weight(R, z, i, n) == Factor(R, Weight(R, y, i - 1, n - 1), z[i], z[0])
  {
    if n == 1 {
      assert Weight(R, y, i - 1, n - 1) == R.one;
      WeightNext(R, z, i, 0, R.one);
    } else {
      var k := n - 1;
      WeightSuffix(R, z, y, i, k);
      SuffixStep(R, z, y, i, k, Weight(R, y, i - 1, k - 1));
    }
  }

  lemma SuffixStep<T(!new)>(R: Ops<T>, z: seq<T>, y: seq<T>, i: nat, n: nat, v: T)
    requires IsRing(R) && 1 <= i < |z| && 1 <= n < |z| && IsTail(y, z)
    requires v == Weight(R, y, i - 1, n - 1) && Weight(R, z, i, n) == Factor(R, v, z[i], z[0])
    ensures Weight(R, z, i, n + 1) == Factor(R, Weight(R, y, i - 1, n), z[i], z[0])
  {
    var x, a, b := z[i], z[0], z[n];
    assert y[i - 1] == x && y[n - 1] == b;
    WeightNext(R, z, i, n, Factor(R, v, x, a));
    WeightNext(R, y, i - 1, n - 1, v);
    SuffixValues(R, v, x, a, b, n == i, Weight(R, z, i, n + 1), Weight(R, y, i - 1, n));
  }

  lemma SuffixValues<T(!new)>(R: Ops<T>, v: T, x: T, a: T, b: T, same: bool, w: T, u: T)
    requires IsRing(R) && w == (if same then Factor(R, v, x, a) else Factor(R, Factor(R, v, x, a), x, b))
    requires u == if same then v else Factor(R, v, x, b)
    ensures w == Factor(R, u, x, a)
  {
    if !same {
      FactorSwap(R, v, x, a, b);
    }
  }

  // ----- removing one point --------------------------------------------------------------------------

  /** a - zk * b = -zk * c: the sum a without point zk is c. */
  ghost predicate Removed<T>(R: Ops<T>, a: T, b: T, c: T, zk: T) {
    Sub(R, a, R.mul(zk, b)) == R.mul(R.neg(zk), c)
  }

  /** One term: w * x^(d+1) - zk * (w * x^d), where w = v * (-zk) / (x - zk). */
  lemma RemoveTerm<T(!new)>(R: Ops<T>, v: T, w: T, x: T, zk: T, p: T)
    requires IsRing(R) && R.unit(Sub(R, x, zk)) && w == Factor(R, v, x, zk)
    ensures Removed(R, R.mul(w, R.mul(x, p)), R.mul(w, p), R.mul(v, p), zk)
  {
    var u, d := R.mul(v, R.neg(zk)), Sub(R, x, zk);
    PullOut(R, w, x, zk, p);
    Laws(R, d, d, d);
    Laws(R, u, R.inv(d), d);
    Laws(R, u, u, u);
    Laws(R, v, R.neg(zk), p);
    Laws(R, R.neg(zk), v, p);
  }

  lemma PullOut<T(!new)>(R: Ops<T>, w: T, x: T, zk: T, p: T)
    requires IsRing(R)
    ensures Sub(R, R.mul(w, R.mul(x, p)), R.mul(zk, R.mul(w, p))) == R.mul(R.mul(w, Sub(R, x, zk)), p)
  {
    Laws(R, w, x, p);
    MulSwap(R, zk, w, p);
    Laws(R, w, zk, p);
    MulSub(R, p, R.mul(w, x), R.mul(w, zk));
    Laws(R, p, R.mul(w, x), p);
    Laws(R, p, R.mul(w, zk), p);
    MulSub(R, w, x, zk);
  }

  /** The removed point's own term vanishes. */
  lemma OwnTerm<T(!new)>(R: Ops<T>, w: T, z: T, p: T)
    requires IsRing(R)
    ensures Removed(R, R.mul(w, R.mul(z, p)), R.mul(w, p), R.zero, z)
  {
    MulSwap(R, w, z, p);
    SubSelf(R, R.mul(z, R.mul(w, p)), R.zero);
    MulZero(R, R.neg(z));
  }

  lemma RemoveSum<T(!new)>(R: Ops<T>, a: T, b: T, c: T, a': T, b': T, c': T, zk: T)
    requires IsRing(R) && Removed(R, a, b, c, zk) && Removed(R, a', b', c', zk)
    ensures Removed(R, R.add(a, a'), R.add(b, b'), R.add(c, c'), zk)
  {
    Laws(R, zk, b, b');
    SubSwap(R, a, a', R.mul(zk, b), R.mul(zk, b'));
    Laws(R, R.neg(zk), c, c');
  }

  lemma RemoveNothing<T(!new)>(R: Ops<T>, zk: T)
    requires IsRing(R)
    ensures Removed(R, R.zero, R.zero, R.zero, zk)
  {
    MulZero(R, zk);
    MulZero(R, R.neg(zk));
    SubSelf(R, R.zero, R.zero);
  }

  lemma {:induction false} RemoveLastUpTo<T(!new)>(R: Ops<T>, z: seq<T>, d: nat, m: nat)
    requires IsRing(R) && UnitDifferences(R, z) && m < |z|
    ensures var n := |z| - 1; Removed(R, Moment(R, z, d + 1, m), Moment(R, z, d, m), Moment(R, z[..n], d, m), z[n])
  {
    var n := |z| - 1;
    if m == 0 {
      RemoveNothing(R, z[n]);
    } else {
      var i := m - 1;
      RemoveLastUpTo(R, z, d, i);
      var x, p, w, v := z[i], Power(R, z[i], d), Weight(R, z, i, |z|), Weight(R, z, i, n);
      WeightPrefix(R, z, i, n, n);
      RemoveTerm(R, v, w, x, z[n], p);
      RemoveSum(R, Moment(R, z, d + 1, i), Moment(R, z, d, i), Moment(R, z[..n], d, i),
                R.mul(w, R.mul(x, p)), R.mul(w, p), R.mul(v, p), z[n]);
    }
  }

  lemma MomentNext<T>(R: Ops<T>, z: seq<T>, d: nat, i: nat, w: T, x: T, p: T)
    requires i < |z| && w == Weight(R, z, i, |z|) && x == z[i] && p == Power(R, x, d)
    ensures Moment(R, z, d, i + 1) == R.add(Moment(R, z, d, i), R.mul(w, p))
  {
  }

  ghost predicate IsTail<T>(y: seq<T>, z: seq<T>) {
    |y| + 1 == |z| && forall i :: 0 <= i < |y| ==> y[i] == z[i + 1]
  }

  lemma FirstStep<T(!new)>(R: Ops<T>, z: seq<T>, y: seq<T>, d: nat, i: nat)
    requires IsRing(R) && UnitDifferences(R, z) && 1 <= i < |z| && IsTail(y, z)
    requires Removed(R, Moment(R, z, d + 1, i), Moment(R, z, d, i), Moment(R, y, d, i - 1), z[0])
    ensures Removed(R, Moment(R, z, d + 1, i + 1), Moment(R, z, d, i + 1), Moment(R, y, d, i), z[0])
  {
    var x, p, w, v := z[i], Power(R, z[i], d), Weight(R, z, i, |z|), Weight(R, y, i - 1, |y|);
    WeightSuffix(R, z, y, i, |z|);
    MomentNext(R, z, d + 1, i, w, x, R.mul(x, p));
    MomentNext(R, z, d, i, w, x, p);
    MomentNext(R, y, d, i - 1, v, x, p);
    RemoveTerm(R, v, w, x, z[0], p);
    RemoveSum(R, Moment(R, z, d + 1, i), Moment(R, z, d, i), Moment(R, y, d, i - 1),
              R.mul(w, R.mul(x, p)), R.mul(w, p), R.mul(v, p), z[0]);
  }

  lemma FirstOnly<T(!new)>(R: Ops<T>, z: seq<T>, y: seq<T>, d: nat)
    requires IsRing(R) && IsTail(y, z)
    ensures Removed(R, Moment(R, z, d + 1, 1), Moment(R, z, d, 1), Moment(R, y, d, 0), z[0])
  {
    var x, p, w := z[0], Power(R, z[0], d), Weight(R, z, 0, |z|);
    MomentNext(R, z, d + 1, 0, w, x, R.mul(x, p));
    MomentNext(R, z, d, 0, w, x, p);
    OwnTerm(R, w, x, p);
    RemoveNothing(R, x);
    RemoveSum(R, R.zero, R.zero, R.zero, R.mul(w, R.mul(x, p)), R.mul(w, p), R.zero, x);
    Laws(R, R.zero, R.zero, R.zero);
  }

  lemma {:induction false} RemoveFirstUpTo<T(!new)>(R: Ops<T>, z: seq<T>, y: seq<T>, d: nat, m: nat)
    requires IsRing(R) && UnitDifferences(R, z) && 1 <= m <= |z| && IsTail(y, z)
    ensures Removed(R, Moment(R, z, d + 1, m), Moment(R, z, d, m), Moment(R, y, d, m - 1), z[0])
  {
    if m == 1 {
      FirstOnly(R, z, y, d);
    } else {
      RemoveFirstUpTo(R, z, y, d, m - 1);
      FirstStep(R, z, y, d, m - 1);
    }
  }

  /** a = z * (b - c) */
  lemma Solve<T(!new)>(R: Ops<T>, a: T, b: T, c: T, z: T)
    requires IsRing(R) && Removed(R, a, b, c, z)
    ensures a == R.mul(z, Sub(R, b, c))
  {
    SubSelf(R, a, R.mul(z, b));
    MulNeg(R, c, z);
    Laws(R, c, z, z);
    Laws(R, R.neg(R.mul(z, c)), R.mul(z, b), z);
    MulSub(R, z, b, c);
    Laws(R, R.neg(z), c, c);
  }

  lemma RemoveLast<T(!new)>(R: Ops<T>, z: seq<T>, d: nat)
    requires IsRing(R) && UnitDifferences(R, z) && |z| >= 1
    ensures var n := |z| - 1;
      Moment(R, z, d + 1, |z|) == R.mul(z[n], Sub(R, Moment(R, z, d, |z|), Moment(R, z[..n], d, n)))
  {
    var n := |z| - 1;
    RemoveLastUpTo(R, z, d, n);
    var w, p, c := Weight(R, z, n, |z|), Power(R, z[n], d), Moment(R, z[..n], d, n);
    OwnTerm(R, w, z[n], p);
    RemoveSum(R, Moment(R, z, d + 1, n), Moment(R, z, d, n), c, R.mul(w, R.mul(z[n], p)), R.mul(w, p), R.zero, z[n]);
    Laws(R, c, c, c);
    Solve(R, Moment(R, z, d + 1, |z|), Moment(R, z, d, |z|), c, z[n]);
  }

  lemma RemoveFirst<T(!new)>(R: Ops<T>, z: seq<T>, d: nat)
    requires IsRing(R) && UnitDifferences(R, z) && |z| >= 1
    ensures Moment(R, z, d + 1, |z|) == R.mul(z[0], Sub(R, Moment(R, z, d, |z|), Moment(R, z[1..], d, |z| - 1)))
  {
    RemoveFirstUpTo(R, z, z[1..], d, |z|);
    Solve(R, Moment(R, z, d + 1, |z|), Moment(R, z, d, |z|), Moment(R, z[1..], d, |z| - 1), z[0]);
  }

  // ----- the weights interpolate -------------------------------------------------------------------------

  lemma CancelUnit<T(!new)>(R: Ops<T>, u: T, v: T, c: T)
    requires IsRing(R) && R.unit(Sub(R, u, v)) && R.mul(u, c) == R.mul(v, c)
    ensures c == R.zero
  {
    var d := Sub(R, u, v);
    MulSub(R, c, u, v);
    Laws(R, c, u, c);
    Laws(R, c, v, c);
    SubSelf(R, R.mul(u, c), c);
    Laws(R, d, c, c);
    Laws(R, R.inv(d), d, c);
    MulZero(R, R.inv(d));
    Laws(R, c, R.one, c);
  }

  ghost function MomentValue<T>(R: Ops<T>, d: nat): (r: T) {
    if d == 0 then R.one else R.zero
  }

  ghost predicate IsMoment<T>(R: Ops<T>, z: seq<T>, d: nat) {
    Moment(R, z, d, |z|) == MomentValue(R, d)
  }

  /** The weights send z^0 to one and z^d to zero for every other d below the number of points. */
  lemma {:induction false} Moments<T(!new)>(R: Ops<T>, z: seq<T>, d: nat)
    requires IsRing(R) && UnitDifferences(R, z) && d < |z|
    ensures IsMoment(R, z, d)
    decreases |z|, d
  {
    if d == 0 {
      if |z| == 1 {
        SingleMoment(R, z);
      } else {
        ZerothMoment(R, z);
      }
    } else {
      var y, e := z[..|z| - 1], d - 1;
      Moments(R, z, e);
      UnitParts(R, z);
      Moments(R, y, e);
      HigherMoment(R, z, y, e);
      assert e + 1 == d;
    }
  }

  lemma HigherMoment<T(!new)>(R: Ops<T>, z: seq<T>, y: seq<T>, d: nat)
    requires IsRing(R) && UnitDifferences(R, z) && |z| >= 1 && y == z[..|z| - 1]
    requires IsMoment(R, z, d) && IsMoment(R, y, d)
    ensures IsMoment(R, z, d + 1)
  {
    NextMoment(R, z, y, d, MomentValue(R, d));
  }

  lemma NextMoment<T(!new)>(R: Ops<T>, z: seq<T>, y: seq<T>, d: nat, c: T)
    requires IsRing(R) && UnitDifferences(R, z) && |z| >= 1 && y == z[..|z| - 1]
    requires Moment(R, z, d, |z|) == c && Moment(R, y, d, |y|) == c
    ensures Moment(R, z, d + 1, |z|) == R.zero
  {
    RemoveLast(R, z, d);
    SubSelf(R, c, c);
    MulZero(R, z[|z| - 1]);
  }

  lemma UnitParts<T>(R: Ops<T>, z: seq<T>)
    requires UnitDifferences(R, z) && |z| >= 1
    ensures UnitDifferences(R, z[..|z| - 1]) && UnitDifferences(R, z[1..])
  {
  }

  lemma SingleMoment<T(!new)>(R: Ops<T>, z: seq<T>)
    requires IsRing(R) && |z| == 1
    ensures IsMoment(R, z, 0)
  {
    assert Weight(R, z, 0, 1) == Weight(R, z, 0, 0) == R.one;
    assert Moment(R, z, 0, 1) == R.add(Moment(R, z, 0, 0), R.mul(R.one, R.one));
    Laws(R, R.one, R.zero, R.one);
    Laws(R, R.zero, R.one, R.one);
  }

  lemma {:induction false} ZerothMoment<T(!new)>(R: Ops<T>, z: seq<T>)
    requires IsRing(R) && UnitDifferences(R, z) && |z| >= 2
    ensures IsMoment(R, z, 0)
    decreases |z|, 0, 0
  {
    var n := |z| - 1;
    UnitParts(R, z);
    Moments(R, z[..n], 0);
    Moments(R, z[1..], 0);
    RemoveLast(R, z, 0);
    RemoveFirst(R, z, 0);
    CancelUnit(R, z[0], z[n], Sub(R, Moment(R, z, 0, |z|), R.one));
    SubSelf(R, Moment(R, z, 0, |z|), R.one);
  }

  // ----- polynomials ------------------------------------------------------------------------------------------

  /** Value at x of the polynomial with these coefficients, constant first. */
  function Eval<T>(R: Ops<T>, c: seq<T>, x: T): (r: T) {
    if c == [] then R.zero else R.add(c[0], R.mul(x, Eval(R, c[1..], x)))
  }

  /** The weighted sum of x^d * c(x) over the first m points. */
  function WeightedSum<T>(R: Ops<T>, z: seq<T>, c: seq<T>, d: nat, m: nat): (r: T)
    requires m <= |z|
  {
    if m == 0 then R.zero
    else R.add(WeightedSum(R, z, c, d, m - 1),
               R.mul(Weight(R, z, m - 1, |z|), R.mul(Power(R, z[m - 1], d), Eval(R, c, z[m - 1]))))
  }

  lemma SplitTerm<T(!new)>(R: Ops<T>, w: T, p: T, c: T, x: T, e: T)
    requires IsRing(R)
    ensures R.mul(w, R.mul(p, R.add(c, R.mul(x, e)))) == R.add(R.mul(c, R.mul(w, p)), R.mul(w, R.mul(R.mul(x, p), e)))
  {
    Laws(R, p, c, R.mul(x, e));
    Laws(R, w, R.mul(p, c), R.mul(p, R.mul(x, e)));
    Laws(R, w, p, c);
    Laws(R, R.mul(w, p), c, c);
    Laws(R, p, x, e);
  }

  lemma PeelTerm<T(!new)>(R: Ops<T>, sum: T, moment: T, rest: T, c: T, w: T, p: T, x: T, e: T)
    requires IsRing(R) && sum == R.add(R.mul(c, moment), rest)
    ensures R.add(sum, R.mul(w, R.mul(p, R.add(c, R.mul(x, e)))))
         == R.add(R.mul(c, R.add(moment, R.mul(w, p))), R.add(rest, R.mul(w, R.mul(R.mul(x, p), e))))
  {
    SplitTerm(R, w, p, c, x, e);
    AddSwap(R, R.mul(c, moment), rest, R.mul(c, R.mul(w, p)), R.mul(w, R.mul(R.mul(x, p), e)));
    Laws(R, c, moment, R.mul(w, p));
  }

  lemma SumNext<T>(R: Ops<T>, z: seq<T>, c: seq<T>, d: nat, i: nat, w: T, p: T, e: T)
    requires i < |z| && w == Weight(R, z, i, |z|) && p == Power(R, z[i], d) && e == Eval(R, c, z[i])
    ensures WeightedSum(R, z, c, d, i + 1) == R.add(WeightedSum(R, z, c, d, i), R.mul(w, R.mul(p, e)))
  {
  }

  lemma {:induction false} PeelConstant<T(!new)>(R: Ops<T>, z: seq<T>, c: seq<T>, tail: seq<T>, d: nat, m: nat)
    requires IsRing(R) && m <= |z| && c != [] && tail == c[1..]
    ensures WeightedSum(R, z, c, d, m) == R.add(R.mul(c[0], Moment(R, z, d, m)), WeightedSum(R, z, tail, d + 1, m))
  {
    if m == 0 {
      MulZero(R, c[0]);
      Laws(R, R.zero, R.zero, R.zero);
    } else {
      var i := m - 1;
      PeelConstant(R, z, c, tail, d, i);
      PeelStep(R, z, c, tail, d, i);
    }
  }

  lemma PeelStep<T(!new)>(R: Ops<T>, z: seq<T>, c: seq<T>, tail: seq<T>, d: nat, i: nat)
    requires IsRing(R) && i < |z| && c != [] && tail == c[1..]
    requires WeightedSum(R, z, c, d, i) == R.add(R.mul(c[0], Moment(R, z, d, i)), WeightedSum(R, z, tail, d + 1, i))
    ensures WeightedSum(R, z, c, d, i + 1)
         == R.add(R.mul(c[0], Moment(R, z, d, i + 1)), WeightedSum(R, z, tail, d + 1, i + 1))
  {
    var w, p, x, e := Weight(R, z, i, |z|), Power(R, z[i], d), z[i], Eval(R, tail, z[i]);
    SumNext(R, z, c, d, i, w, p, R.add(c[0], R.mul(x, e)));
    SumNext(R, z, tail, d + 1, i, w, R.mul(x, p), e);
    MomentNext(R, z, d, i, w, x, p);
    PeelTerm(R, WeightedSum(R, z, c, d, i), Moment(R, z, d, i), WeightedSum(R, z, tail, d + 1, i), c[0], w, p, x, e);
  }

  lemma {:induction false} EmptySum<T(!new)>(R: Ops<T>, z: seq<T>, d: nat, m: nat)
    requires IsRing(R) && m <= |z|
    ensures WeightedSum(R, z, [], d, m) == R.zero
  {
    if m > 0 {
      EmptySum(R, z, d, m - 1);
      MulZero(R, Power(R, z[m - 1], d));
      MulZero(R, Weight(R, z, m - 1, |z|));
      Laws(R, R.zero, R.zero, R.zero);
    }
  }

  /** A polynomial of degree below the number of points is recovered at zero; multiples of z vanish. */
  lemma {:induction false} Interpolates<T(!new)>(R: Ops<T>, z: seq<T>, c: seq<T>, d: nat)
    requires IsRing(R) && UnitDifferences(R, z) && d + |c| <= |z|
    ensures WeightedSum(R, z, c, d, |z|) == if d == 0 && c != [] then c[0] else R.zero
    decreases |c|
  {
    if c == [] {
      EmptySum(R, z, d, |z|);
    } else {
      PeelConstant(R, z, c, c[1..], d, |z|);
      Interpolates(R, z, c[1..], d + 1);
      Moments(R, z, d);
      Laws(R, c[0], R.one, c[0]);
      MulZero(R, c[0]);
      Laws(R, R.zero, R.zero, R.zero);
    }
  }

  function PolyScale<T>(R: Ops<T>, s: T, q: seq<T>): (r: seq<T>)
    ensures |r| == |q|
  {
    if q == [] then [] else [R.mul(s, q[0])] + PolyScale(R, s, q[1..])
  }

  function PolyAdd<T>(R: Ops<T>, p: seq<T>, q: seq<T>): (r: seq<T>)
    ensures |r| == if |p| >= |q| then |p| else |q|
  {
    if p == [] then q else if q == [] then p else [R.add(p[0], q[0])] + PolyAdd(R, p[1..], q[1..])
  }

  function PolyMul<T>(R: Ops<T>, p: seq<T>, q: seq<T>): (r: seq<T>)
    ensures p != [] && q != [] ==> |r| == |p| + |q| - 1
    ensures p == [] ==> r == []
  {
    if p == [] then [] else PolyAdd(R, PolyScale(R, p[0], q), [R.zero] + PolyMul(R, p[1..], q))
  }

  lemma {:induction false} EvalScale<T(!new)>(R: Ops<T>, s: T, q: seq<T>, x: T)
    requires IsRing(R)
    ensures Eval(R, PolyScale(R, s, q), x) == R.mul(s, Eval(R, q, x))
  {
    if q == [] {
      MulZero(R, s);
    } else {
      EvalScale(R, s, q[1..], x);
      var e := Eval(R, q[1..], x);
      Laws(R, s, q[0], R.mul(x, e));
      MulSwap(R, x, s, e);
      assert PolyScale(R, s, q)[1..] == PolyScale(R, s, q[1..]);
    }
  }

  lemma {:induction false} EvalAdd<T(!new)>(R: Ops<T>, p: seq<T>, q: seq<T>, x: T)
    requires IsRing(R)
    ensures Eval(R, PolyAdd(R, p, q), x) == R.add(Eval(R, p, x), Eval(R, q, x))
  {
    if p == [] {
      Laws(R, R.zero, Eval(R, q, x), x);
      Laws(R, Eval(R, q, x), x, x);
    } else if q == [] {
      Laws(R, Eval(R, p, x), x, x);
    } else {
      EvalAdd(R, p[1..], q[1..], x);
      var e, f := Eval(R, p[1..], x), Eval(R, q[1..], x);
      Laws(R, x, e, f);
      AddSwap(R, p[0], q[0], R.mul(x, e), R.mul(x, f));
      assert PolyAdd(R, p, q)[1..] == PolyAdd(R, p[1..], q[1..]);
    }
  }

  /** Values multiply as polynomials do. */
  lemma {:induction false} EvalMul<T(!new)>(R: Ops<T>, p: seq<T>, q: seq<T>, x: T)
    requires IsRing(R)
    ensures Eval(R, PolyMul(R, p, q), x) == R.mul(Eval(R, p, x), Eval(R, q, x))
  {
    var f := Eval(R, q, x);
    if p == [] {
      MulZero(R, f);
    } else {
      EvalMul(R, p[1..], q, x);
      var e := Eval(R, p[1..], x);
      var low, high := PolyScale(R, p[0], q), [R.zero] + PolyMul(R, p[1..], q);
      EvalAdd(R, low, high, x);
      EvalScale(R, p[0], q, x);
      assert high[1..] == PolyMul(R, p[1..], q);
      HornerProduct(R, p[0], x, e, f);
    }
  }

  lemma HornerProduct<T(!new)>(R: Ops<T>, a: T, x: T, e: T, f: T)
    requires IsRing(R)
    ensures R.add(R.mul(a, f), R.add(R.zero, R.mul(x, R.mul(e, f)))) == R.mul(R.add(a, R.mul(x, e)), f)
  {
    var t := R.mul(x, R.mul(e, f));
    Laws(R, R.zero, t, t);
    Laws(R, t, R.zero, t);
    Laws(R, x, e, f);
    Laws(R, f, a, R.mul(x, e));
    Laws(R, a, f, f);
    Laws(R, R.mul(x, e), f, f);
    Laws(R, R.add(a, R.mul(x, e)), f, f);
  }

  lemma ConstantOfProduct<T(!new)>(R: Ops<T>, p: seq<T>, q: seq<T>)
    requires IsRing(R) && p != [] && q != []
    ensures PolyMul(R, p, q)[0] == R.mul(p[0], q[0])
  {
    Laws(R, R.mul(p[0], q[0]), R.zero, R.zero);
  }

  /** The weighted sum of the values y at the points. */
  function Combine<T>(R: Ops<T>, z: seq<T>, y: seq<T>, m: nat): (r: T)
    requires m <= |z| && m <= |y|
  {
    if m == 0 then R.zero else R.add(Combine(R, z, y, m - 1), R.mul(y[m - 1], Weight(R, z, m - 1, |z|)))
  }

  /** y holds the values of the polynomial c at the points. */
  ghost predicate AreValues<T>(R: Ops<T>, z: seq<T>, y: seq<T>, c: seq<T>) {
    |z| == |y| && forall i :: 0 <= i < |z| ==> y[i] == Eval(R, c, z[i])
  }

  lemma {:induction false} CombineIsSum<T(!new)>(R: Ops<T>, z: seq<T>, y: seq<T>, c: seq<T>, m: nat)
    requires IsRing(R) && m <= |z| && AreValues(R, z, y, c)
    ensures Combine(R, z, y, m) == WeightedSum(R, z, c, 0, m)
  {
    if m > 0 {
      CombineIsSum(R, z, y, c, m - 1);
      var w, e := Weight(R, z, m - 1, |z|), Eval(R, c, z[m - 1]);
      Laws(R, e, R.one, e);
      Laws(R, e, w, e);
      Laws(R, R.one, e, e);
    }
  }

  /** Values of a polynomial of degree below the number of points give back its constant. */
  lemma Reconstructs<T(!new)>(R: Ops<T>, z: seq<T>, y: seq<T>, c: seq<T>)
    requires IsRing(R) && UnitDifferences(R, z) && 1 <= |c| <= |z| && AreValues(R, z, y, c)
    ensures Combine(R, z, y, |z|) == c[0]
  {
    CombineIsSum(R, z, y, c, |z|);
    Interpolates(R, z, c, 0);
  }

  ghost predicate AreProducts<T>(R: Ops<T>, z: seq<T>, y: seq<T>, p: seq<T>, q: seq<T>) {
    |z| == |y| && forall i :: 0 <= i < |z| ==> y[i] == R.mul(Eval(R, p, z[i]), Eval(R, q, z[i]))
  }

  lemma ProductValues<T(!new)>(R: Ops<T>, z: seq<T>, y: seq<T>, p: seq<T>, q: seq<T>, c: seq<T>)
    requires IsRing(R) && AreProducts(R, z, y, p, q) && c == PolyMul(R, p, q)
    ensures AreValues(R, z, y, c)
  {
    forall i | 0 <= i < |z|
      ensures y[i] == Eval(R, c, z[i])
    {
      EvalMul(R, p, q, z[i]);
    }
  }

  /** Products of values of two polynomials give back the product of the constants, as long as the
      degrees add up to less than the number of points. */
  lemma ProductReconstructs<T(!new)>(R: Ops<T>, z: seq<T>, y: seq<T>, p: seq<T>, q: seq<T>)
    requires IsRing(R) && UnitDifferences(R, z) && p != [] && q != [] && |p| + |q| - 1 <= |z|
    requires AreProducts(R, z, y, p, q)
    ensures Combine(R, z, y, |z|) == R.mul(p[0], q[0])
  {
    var c := PolyMul(R, p, q);
    ConstantOfProduct(R, p, q);
    ProductValues(R, z, y, p, q, c);
    Reconstructs(R, z, y, c);
  }

  // ----- computing with the weights ---------------------------------------------------------------------------

  function Weights<T>(R: Ops<T>, z: seq<T>): (w: seq<T>)
    ensures |w| == |z| && forall i :: 0 <= i < |z| ==> w[i] == Weight(R, z, i, |z|)
  {
    seq(|z|, i requires 0 <= i < |z| => Weight(R, z, i, |z|))
  }

  /** The inner loop: the weight of one point. */
  method LagrangeWeight<T>(R: Ops<T>, z: seq<T>, i: nat) returns (res: T)
    requires i < |z|
    ensures res == Weight(R, z, i, |z|)
  {
    res := R.one;
    for j := 0 to |z|
      invariant res == Weight(R, z, i, j)
    {
      if j != i {
        res := R.mul(res, R.neg(z[j]));
        res := R.mul(res, R.inv(Sub(R, z[i], z[j])));
      }
    }
  }

  method LagrangeWeights<T>(R: Ops<T>, z: seq<T>) returns (res: seq<T>)
    ensures res == Weights(R, z)
  {
    res := [];
    for i := 0 to |z|
      invariant |res| == i && forall k :: 0 <= k < i ==> res[k] == Weight(R, z, k, |z|)
    {
      var w := LagrangeWeight(R, z, i);
      res := res + [w];
    }
  }

  /** A value tagged with the one-based number of its point. */
  datatype Share<T> = Share(id: nat, y: T)

  predicate ValidIds<T>(shares: seq<Share<T>>, n: nat) {
    forall i :: 0 <= i < |shares| ==> 1 <= shares[i].id <= n
  }

  /** The weighted sum of the first m shares, each with the weight of its own id. */
  function SumShares<T>(R: Ops<T>, shares: seq<Share<T>>, w: seq<T>, m: nat): (r: T)
    requires 1 <= m <= |shares| && ValidIds(shares, |w|)
  {
    var term := R.mul(shares[m - 1].y, w[shares[m - 1].id - 1]);
    if m == 1 then term else R.add(SumShares(R, shares, w, m - 1), term)
  }

  method Total<T>(R: Ops<T>, shares: seq<Share<T>>, w: seq<T>) returns (r: T)
    requires |shares| >= 1 && ValidIds(shares, |w|)
    ensures r == SumShares(R, shares, w, |shares|)
  {
    r := R.mul(shares[0].y, w[shares[0].id - 1]);
    for m := 1 to |shares|
      invariant r == SumShares(R, shares, w, m)
    {
      r := R.add(r, R.mul(shares[m].y, w[shares[m].id - 1]));
    }
  }

  /** The shares of these values, in the order of the points. */
  ghost predicate AreShares<T>(shares: seq<Share<T>>, y: seq<T>) {
    |shares| == |y| && forall i :: 0 <= i < |y| ==> shares[i] == Share(i + 1, y[i])
  }

  ghost predicate AreWeights<T>(R: Ops<T>, z: seq<T>, w: seq<T>) {
    |w| == |z| && forall i :: 0 <= i < |z| ==> w[i] == Weight(R, z, i, |z|)
  }

  lemma NextTerm<T>(R: Ops<T>, shares: seq<Share<T>>, y: seq<T>, z: seq<T>, w: seq<T>, i: nat)
    requires i < |z| == |y| && AreShares(shares, y) && AreWeights(R, z, w)
    ensures R.mul(shares[i].y, w[shares[i].id - 1]) == R.mul(y[i], Weight(R, z, i, |z|))
  {
  }

  lemma FirstSum<T(!new)>(R: Ops<T>, shares: seq<Share<T>>, y: seq<T>, z: seq<T>, w: seq<T>)
    requires IsRing(R) && 1 <= |z| == |y| && AreShares(shares, y) && AreWeights(R, z, w)
    ensures SumShares(R, shares, w, 1) == Combine(R, z, y, 1)
  {
    var term := R.mul(y[0], Weight(R, z, 0, |z|));
    NextTerm(R, shares, y, z, w, 0);
    assert Combine(R, z, y, 1) == R.add(Combine(R, z, y, 0), term);
    Laws(R, R.zero, term, term);
    Laws(R, term, term, term);
  }

  lemma NextSum<T>(R: Ops<T>, shares: seq<Share<T>>, y: seq<T>, z: seq<T>, w: seq<T>, m: nat)
    requires 1 <= m < |z| == |y| && AreShares(shares, y) && AreWeights(R, z, w)
    requires SumShares(R, shares, w, m) == Combine(R, z, y, m)
    ensures SumShares(R, shares, w, m + 1) == Combine(R, z, y, m + 1)
  {
    NextTerm(R, shares, y, z, w, m);
  }

  lemma {:induction false} SumIsCombine<T(!new)>(R: Ops<T>, shares: seq<Share<T>>, y: seq<T>, z: seq<T>, w: seq<T>,
                                                 m: nat)
    requires IsRing(R) && 1 <= m <= |z| == |y| && AreShares(shares, y) && AreWeights(R, z, w)
    ensures SumShares(R, shares, w, m) == Combine(R, z, y, m)
  {
    if m == 1 {
      FirstSum(R, shares, y, z, w);
    } else {
      var k := m - 1;
      SumIsCombine(R, shares, y, z, w, k);
      NextSum(R, shares, y, z, w, k);
      assert k + 1 == m;
    }
  }
}
