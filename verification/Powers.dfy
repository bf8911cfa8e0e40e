/**
 * Integer powers of octonions. Exponentiation by squaring brackets a power differently from the
 * plain left-to-right product, so it is correct only because all powers of one octonion lie in
 * the plane spanned by 1 and that octonion, and products within that plane associate.
 */
module Powers {

  import opened Octonions
  import opened Alternativity
  import opened Division

  /** The left-to-right product of n copies of x. */
  function Power(x: Oct, n: nat): Oct {
    if n == 0 then ONE else Mul(Power(x, n - 1), x)
  }

  function IntPower(x: Oct, n: int): Oct
    requires n >= 0 || x != ZERO
  {
    if n >= 0 then Power(x, n) else Power(Inverse(x), -n)
  }

  lemma PowerOne(x: Oct)
    ensures Power(x, 1) == x
  {
    hide Mul;
    MulOne(x);
    assert Power(x, 0) == ONE;
  }

  // ----- the plane spanned by 1 and x -----

  function Combination(j: real, k: real, x: Oct): Oct {
    Add(Scale(j, ONE), Scale(k, x))
  }

  ghost predicate InSpan(x: Oct, v: Oct) {
    exists j, k :: v == Combination(j, k, x)
  }

  lemma CombinationTimes(j: real, k: real, x: Oct, y: Oct)
    ensures Mul(Combination(j, k, x), y) == Add(Scale(j, y), Scale(k, Mul(x, y)))
  {
    hide Mul, Scale;
    AddTimes(Scale(j, ONE), Scale(k, x), y);
    ScalarTimes(j, y);
    ScaleTimes(k, x, y);
  }

  /** Two members of the plane associate with any third octonion whatever. */
  lemma SpanAssociates(x: Oct, v: Oct, w: Oct, y: Oct)
    requires InSpan(x, v) && InSpan(x, w)
    ensures Mul(Mul(v, w), y) == Mul(v, Mul(w, y))
  {
    hide Mul, Scale;
    var j, k :| v == Combination(j, k, x);
    var l, m :| w == Combination(l, m, x);
    CombinationTimes(j, k, x, w);
    CombinationTimes(j, k, x, Mul(w, y));
    AddTimes(Scale(j, w), Scale(k, Mul(x, w)), y);
    ScaleTimes(j, w, y);
    ScaleTimes(k, Mul(x, w), y);
    // it remains to see that (x w) y == x (w y)
    MulOverAdd(x, Scale(l, ONE), Scale(m, x));
    TimesScale(l, x, ONE);
    MulOne(x);
    TimesScale(m, x, x);
    AddTimes(Scale(l, x), Scale(m, Mul(x, x)), y);
    ScaleTimes(l, x, y);
    ScaleTimes(m, Mul(x, x), y);
    CombinationTimes(l, m, x, y);
    MulOverAdd(x, Scale(l, y), Scale(m, Mul(x, y)));
    TimesScale(l, x, y);
    TimesScale(m, x, Mul(x, y));
    LeftAlternative(x, y);
  }

  lemma OneInSpan(x: Oct)
    ensures InSpan(x, ONE)
  {
    hide Scale;
    ScaleOne(ONE);
    ScaleOne(x);
    assert ONE == Combination(1.0, 0.0, x);
  }

  lemma SpanClosed(x: Oct, v: Oct)
    requires InSpan(x, v)
    ensures InSpan(x, Mul(v, x))
  {
    hide Mul, Scale, Norm;
    var j, k :| v == Combination(j, k, x);
    var t, n := 2.0 * x.a, Norm(x);
    CombinationTimes(j, k, x, x);
    Square(x);
    ScaleOverSum(k, Scale(t, x), Scale(n, ONE));
    ScaleScale(k, t, k * t, x);
    ScaleScale(k, n, k * n, ONE);
    SumOfScales(j, k * t, x);
    SumOfScales(0.0, k * n, ONE);
    assert Mul(v, x) == Combination(-(k * n), j + k * t, x);
  }

  lemma SpanTransitive(x: Oct, y: Oct, v: Oct)
    requires InSpan(x, y) && InSpan(y, v)
    ensures InSpan(x, v)
  {
    hide Scale;
    var j, k :| y == Combination(j, k, x);
    var l, m :| v == Combination(l, m, y);
    var mj, mk := m * j, m * k;
    ScaleOverSum(m, Scale(j, ONE), Scale(k, x));
    ScaleScale(m, j, mj, ONE);
    ScaleScale(m, k, mk, x);
    SumOfScales(l, mj, ONE);
    assert v == Combination(l + mj, mk, x);
  }

  lemma {:induction false} PowerInSpan(x: Oct, n: nat)
    ensures InSpan(x, Power(x, n))
  {
    hide Mul, Combination;
    if n == 0 {
      OneInSpan(x);
    } else {
      PowerInSpan(x, n - 1);
      SpanClosed(x, Power(x, n - 1));
    }
  }

  lemma InverseInSpan(x: Oct)
    requires x != ZERO
    ensures InSpan(x, Inverse(x))
  {
    hide Mul, Scale, Norm;
    NormIsPositive(x);
    var i, t := 1.0 / Norm(x), 2.0 * x.a;
    ConjIsReflection(x);
    MulOne(Conj(x));
    ScaleOverSum(i, Scale(t, ONE), x);
    ScaleScale(i, t, i * t, ONE);
    SumOfScales(0.0, i, x);
    assert Inverse(x) == Combination(i * t, -i, x);
  }

  lemma IntPowerInSpan(x: Oct, n: int)
    requires x != ZERO
    ensures InSpan(x, IntPower(x, n))
  {
    hide Mul, Combination, Inverse;
    if n >= 0 {
      PowerInSpan(x, n);
    } else {
      PowerInSpan(Inverse(x), -n);
      InverseInSpan(x);
      SpanTransitive(x, Inverse(x), Power(Inverse(x), -n));
    }
  }

  // ----- laws of exponents -----

  lemma {:induction false} PowerOfSum(x: Oct, m: nat, n: nat)
    ensures Power(x, m + n) == Mul(Power(x, m), Power(x, n))
  {
    hide Mul, Combination;
    if n == 0 {
      MulOne(Power(x, m));
    } else {
      PowerOfSum(x, m, n - 1);
      PowerInSpan(x, m);
      PowerInSpan(x, n - 1);
      SpanAssociates(x, Power(x, m), Power(x, n - 1), x);
    }
  }

  /** Going up by one multiplies by x, on either side of zero. */
  lemma IntPowerUp(x: Oct, n: int)
    requires x != ZERO
    ensures IntPower(x, n + 1) == Mul(IntPower(x, n), x)
  {
    hide Mul, Inverse, Div;
    if n < 0 {
      var i := Inverse(x);
      assert Power(i, -n) == Mul(Power(i, -n - 1), i);
      DivIsMulByInverse(Power(i, -n - 1), x);
      DivisionSolves(Power(i, -n - 1), x, Power(i, -n));
    }
  }

  lemma IntPowerDown(x: Oct, n: int)
    requires x != ZERO
    ensures IntPower(x, n - 1) == Mul(IntPower(x, n), Inverse(x))
  {
    hide Mul, Inverse, Div;
    IntPowerUp(x, n - 1);
    DivisionSolves(IntPower(x, n), x, IntPower(x, n - 1));
    DivIsMulByInverse(IntPower(x, n), x);
  }

  lemma {:induction false} IntPowerOfSum(x: Oct, m: int, n: int)
    requires x != ZERO
    ensures IntPower(x, m + n) == Mul(IntPower(x, m), IntPower(x, n))
    decreases if n < 0 then -n else n
  {
    hide Mul, Inverse, Combination;
    if n == 0 {
      MulOne(IntPower(x, m));
    } else if n > 0 {
      IntPowerOfSum(x, m, n - 1);
      IntPowerUp(x, m + n - 1);
      IntPowerUp(x, n - 1);
      IntPowerInSpan(x, m);
      IntPowerInSpan(x, n - 1);
      SpanAssociates(x, IntPower(x, m), IntPower(x, n - 1), x);
    } else {
      IntPowerOfSum(x, m, n + 1);
      IntPowerDown(x, m + n + 1);
      IntPowerDown(x, n + 1);
      IntPowerInSpan(x, m);
      IntPowerInSpan(x, n + 1);
      SpanAssociates(x, IntPower(x, m), IntPower(x, n + 1), Inverse(x));
    }
  }

  // ----- powers and the norm -----

  function RealPower(v: real, n: nat): real {
    if n == 0 then 1.0 else RealPower(v, n - 1) * v
  }

  function RealIntPower(v: real, n: int): real
    requires n >= 0 || v != 0.0
  {
    if n >= 0 then RealPower(v, n) else RealPower(1.0 / v, -n)
  }

  lemma {:induction false} NormOfPower(x: Oct, n: nat)
    ensures Norm(Power(x, n)) == RealPower(Norm(x), n)
  {
    hide Mul, Norm;
    if n == 0 {
      NormIsSumOfSquares(ONE);
    } else {
      NormOfPower(x, n - 1);
      NormOfMul(Power(x, n - 1), x);
    }
  }

  lemma NormOfInverse(x: Oct)
    requires x != ZERO
    ensures Norm(x) != 0.0 && Norm(Inverse(x)) == 1.0 / Norm(x)
  {
    hide Mul, Norm, Div;
    NormIsPositive(x);
    DivThenMul(ONE, x);
    NormOfMul(Inverse(x), x);
    NormIsSumOfSquares(ONE);
    var u, n := Norm(Inverse(x)), Norm(x);
    assert u * n == 1.0;
  }

  lemma NormOfIntPower(x: Oct, n: int)
    requires n >= 0 || x != ZERO
    ensures n < 0 ==> Norm(x) != 0.0
    ensures Norm(IntPower(x, n)) == RealIntPower(Norm(x), n)
  {
    hide Mul, Norm, Inverse;
    if n >= 0 {
      NormOfPower(x, n);
    } else {
      NormOfInverse(x);
      NormOfPower(Inverse(x), -n);
    }
  }
}
