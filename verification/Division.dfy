/** Right division of octonions: the textbook quotient and the formulas the source evaluates. */
module Division {

  import opened Octonions
  import H = Quaternions

  /** x times the inverse of y. */
  function Div(x: Oct, y: Oct): Oct
    requires y != ZERO
  {
    NormIsPositive(y);
    Scale(1.0 / Norm(y), Mul(x, Conj(y)))
  }

  function Inverse(y: Oct): Oct
    requires y != ZERO
  {
    Div(ONE, y)
  }

  lemma MulThenDiv(x: Oct, y: Oct)
    requires y != ZERO
    ensures Div(Mul(x, y), y) == x
  {
    hide Mul, Scale, Norm;
    NormIsPositive(y);
    var n := Norm(y);
    MulTimesConj(x, y);
    ScaleScale(1.0 / n, n, 1.0, x);
    ScaleOne(x);
  }

  lemma DivThenMul(x: Oct, y: Oct)
    requires y != ZERO
    ensures Mul(Div(x, y), y) == x
  {
    hide Mul, Scale, Norm;
    NormIsPositive(y);
    var n := Norm(y);
    ScaleTimes(1.0 / n, Mul(x, Conj(y)), y);
    MulTimesConj(x, Conj(y));
    ConjInvolutive(y);
    NormOfConj(y);
    ScaleScale(1.0 / n, n, 1.0, x);
    ScaleOne(x);
  }

  /** x / y is the one and only solution z of z y = x. */
  lemma DivisionSolves(x: Oct, y: Oct, z: Oct)
    requires y != ZERO
    ensures Mul(z, y) == x <==> z == Div(x, y)
  {
    hide Mul, Div;
    MulThenDiv(z, y);
    DivThenMul(x, y);
  }

  lemma DivIsMulByInverse(x: Oct, y: Oct)
    requires y != ZERO
    ensures Div(x, y) == Mul(x, Inverse(y))
  {
    hide Mul, Scale, Norm;
    NormIsPositive(y);
    MulOne(Conj(y));
    TimesScale(1.0 / Norm(y), x, Conj(y));
  }

  /** Any expression equal to the norm of y may serve as the denominator. */
  lemma DivByDenominator(x: Oct, y: Oct, n: real)
    requires y != ZERO && n == Norm(y)
    ensures n != 0.0 && Scale(1.0 / n, Mul(x, Conj(y))) == Div(x, y)
  {
    hide Mul, Scale, Norm;
    NormIsPositive(y);
  }

  // ----- the numerators of the division formulas -----

  /** The eight sums that dividing by an octonion evaluates before it divides by the denominator. */
  function Numerators(x: Oct, r: Oct): Oct {
    Oct(x.a * r.a + x.b * r.b + x.c * r.c + x.d * r.d + x.e * r.e + x.f * r.f + x.g * r.g + x.h * r.h,
        -x.a * r.b + x.b * r.a - x.c * r.d + x.d * r.c - x.e * r.f + x.f * r.e + x.g * r.h - x.h * r.g,
        -x.a * r.c + x.b * r.d + x.c * r.a - x.d * r.b - x.e * r.g - x.f * r.h + x.g * r.e + x.h * r.f,
        -x.a * r.d - x.b * r.c + x.c * r.b + x.d * r.a - x.e * r.h + x.f * r.g - x.g * r.f + x.h * r.e,
        -x.a * r.e + x.b * r.f + x.c * r.g + x.d * r.h + x.e * r.a - x.f * r.b - x.g * r.c - x.h * r.d,
        -x.a * r.f - x.b * r.e + x.c * r.h - x.d * r.g + x.e * r.b + x.f * r.a + x.g * r.d - x.h * r.c,
        -x.a * r.g - x.b * r.h - x.c * r.e + x.d * r.f + x.e * r.c - x.f * r.d + x.g * r.a + x.h * r.b,
        -x.a * r.h + x.b * r.g - x.c * r.f - x.d * r.e + x.e * r.d + x.f * r.c - x.g * r.b + x.h * r.a)
  }

  lemma NumeratorsFirstQuarter(x: Oct, r: Oct)
    ensures Numerators(x, r).a == H.Add(H.Mul(H1(x), H.Conj(H1(r))), H.Mul(H.Conj(H2(r)), H2(x))).a
    ensures Numerators(x, r).b == H.Add(H.Mul(H1(x), H.Conj(H1(r))), H.Mul(H.Conj(H2(r)), H2(x))).b
  {
  }

  lemma NumeratorsSecondQuarter(x: Oct, r: Oct)
    ensures Numerators(x, r).c == H.Add(H.Mul(H1(x), H.Conj(H1(r))), H.Mul(H.Conj(H2(r)), H2(x))).c
    ensures Numerators(x, r).d == H.Add(H.Mul(H1(x), H.Conj(H1(r))), H.Mul(H.Conj(H2(r)), H2(x))).d
  {
  }

  lemma NumeratorsFirstHalf(x: Oct, r: Oct)
    ensures H1(Numerators(x, r)) == H.Add(H.Mul(H1(x), H.Conj(H1(r))), H.Mul(H.Conj(H2(r)), H2(x)))
  {
    hide Numerators, H.Mul;
    NumeratorsFirstQuarter(x, r);
    NumeratorsSecondQuarter(x, r);
  }

  lemma NumeratorsThirdQuarter(x: Oct, r: Oct)
    ensures Numerators(x, r).e == H.Sub(H.Mul(H2(x), H1(r)), H.Mul(H2(r), H1(x))).a
    ensures Numerators(x, r).f == H.Sub(H.Mul(H2(x), H1(r)), H.Mul(H2(r), H1(x))).b
  {
  }

  lemma NumeratorsFourthQuarter(x: Oct, r: Oct)
    ensures Numerators(x, r).g == H.Sub(H.Mul(H2(x), H1(r)), H.Mul(H2(r), H1(x))).c
    ensures Numerators(x, r).h == H.Sub(H.Mul(H2(x), H1(r)), H.Mul(H2(r), H1(x))).d
  {
  }

  lemma NumeratorsSecondHalf(x: Oct, r: Oct)
    ensures H2(Numerators(x, r)) == H.Sub(H.Mul(H2(x), H1(r)), H.Mul(H2(r), H1(x)))
  {
    hide Numerators, H.Mul;
    NumeratorsThirdQuarter(x, r);
    NumeratorsFourthQuarter(x, r);
  }

  lemma NumeratorsAreProduct(x: Oct, r: Oct)
    ensures Numerators(x, r) == Mul(x, Conj(r))
  {
    hide Mul, Numerators, H.Mul;
    NumeratorsFirstHalf(x, r);
    NumeratorsSecondHalf(x, r);
    MulByHalves(x, Conj(r));
    var r1, r2 := H1(r), H2(r);
    assert H1(Conj(r)) == H.Conj(r1) && H2(Conj(r)) == H.Neg(r2);
    assert H.Conj(H.Conj(r1)) == r1 && H.Conj(H.Neg(r2)) == H.Neg(H.Conj(r2));
    H.NegTimes(H.Conj(r2), H2(x));
    H.NegTimes(r2, H1(x));
  }

  /** The eight sums that dividing by a quaternion evaluates. */
  function QuaternionNumerators(x: Oct, r: H.Quat): Oct {
    Oct(x.a * r.a + x.b * r.b + x.c * r.c + x.d * r.d,
        -x.a * r.b + x.b * r.a - x.c * r.d + x.d * r.c,
        -x.a * r.c + x.b * r.d + x.c * r.a - x.d * r.b,
        -x.a * r.d - x.b * r.c + x.c * r.b + x.d * r.a,
        x.e * r.a - x.f * r.b - x.g * r.c - x.h * r.d,
        x.e * r.b + x.f * r.a + x.g * r.d - x.h * r.c,
        x.e * r.c - x.f * r.d + x.g * r.a + x.h * r.b,
        x.e * r.d + x.f * r.c - x.g * r.b + x.h * r.a)
  }

  lemma QuaternionNumeratorsFirstQuarter(x: Oct, r: H.Quat)
    ensures QuaternionNumerators(x, r).a == H.Mul(H1(x), H.Conj(r)).a
    ensures QuaternionNumerators(x, r).b == H.Mul(H1(x), H.Conj(r)).b
  {
  }

  lemma QuaternionNumeratorsSecondQuarter(x: Oct, r: H.Quat)
    ensures QuaternionNumerators(x, r).c == H.Mul(H1(x), H.Conj(r)).c
    ensures QuaternionNumerators(x, r).d == H.Mul(H1(x), H.Conj(r)).d
  {
  }

  lemma QuaternionNumeratorsFirstHalf(x: Oct, r: H.Quat)
    ensures H1(QuaternionNumerators(x, r)) == H.Mul(H1(x), H.Conj(r))
  {
    hide QuaternionNumerators, H.Mul;
    QuaternionNumeratorsFirstQuarter(x, r);
    QuaternionNumeratorsSecondQuarter(x, r);
  }

  lemma QuaternionNumeratorsThirdQuarter(x: Oct, r: H.Quat)
    ensures QuaternionNumerators(x, r).e == H.Mul(H2(x), r).a
    ensures QuaternionNumerators(x, r).f == H.Mul(H2(x), r).b
  {
  }

  lemma QuaternionNumeratorsFourthQuarter(x: Oct, r: H.Quat)
    ensures QuaternionNumerators(x, r).g == H.Mul(H2(x), r).c
    ensures QuaternionNumerators(x, r).h == H.Mul(H2(x), r).d
  {
  }

  lemma QuaternionNumeratorsSecondHalf(x: Oct, r: H.Quat)
    ensures H2(QuaternionNumerators(x, r)) == H.Mul(H2(x), r)
  {
    hide QuaternionNumerators, H.Mul;
    QuaternionNumeratorsThirdQuarter(x, r);
    QuaternionNumeratorsFourthQuarter(x, r);
  }

  lemma QuaternionNumeratorsAreProduct(x: Oct, r: H.Quat)
    ensures QuaternionNumerators(x, r) == Mul(x, Conj(OfQuat(r)))
  {
    hide Mul, QuaternionNumerators, H.Mul;
    QuaternionNumeratorsFirstHalf(x, r);
    QuaternionNumeratorsSecondHalf(x, r);
    var y := Conj(OfQuat(r));
    MulByHalves(x, y);
    EmbeddedConj(r);
    ZeroTimes(H2(x));
    ZeroTimes(H1(x));
  }

  lemma EmbeddedConj(r: H.Quat)
    ensures H1(Conj(OfQuat(r))) == H.Conj(r) && H2(Conj(OfQuat(r))) == H.ZERO
    ensures H.Conj(H.ZERO) == H.ZERO && H.Conj(H.Conj(r)) == r
  {
  }

  // ----- overflow protection -----

  /**
   * Multiplying the divisor by any nonzero k beforehand, and the numerators by k over the norm of
   * the scaled divisor afterwards, does not change the quotient.
   */
  lemma ScaledDivision(k: real, x: Oct, y: Oct)
    requires y != ZERO && k != 0.0
    ensures Scale(k, y) != ZERO && Norm(Scale(k, y)) != 0.0
    ensures Scale(k / Norm(Scale(k, y)), Mul(x, Conj(Scale(k, y)))) == Div(x, y)
  {
    hide Mul, Scale, Norm;
    var z, n := Scale(k, y), Norm(y);
    ScaleScale(1.0 / k, k, 1.0, y);
    ScaleOne(y);
    ScaleOne(ZERO);
    if z == ZERO {
      ScaleScale(1.0 / k, 0.0, 0.0, ZERO);
    }
    NormIsPositive(y);
    NormIsPositive(z);
    ConjOfScale(k, y);
    TimesScale(k, x, Conj(y));
    NormOfScale(k, y);
    Rescaling(k, n, Norm(z));
    ScaleScale(k / Norm(z), k, 1.0 / n, Mul(x, Conj(y)));
  }

  lemma NormOfScale(k: real, x: Oct)
    ensures Norm(Scale(k, x)) == k * k * Norm(x)
  {
    hide Mul, Norm, Scale;
    NormOfMul(Scale(k, ONE), x);
    ScalarTimes(k, x);
    NormOfScalar(k);
  }

  lemma NormOfScalar(k: real)
    ensures Norm(Scale(k, ONE)) == k * k
  {
  }

  lemma Rescaling(k: real, n: real, m: real)
    requires n != 0.0 && m != 0.0 && m == k * k * n
    ensures k / m * k == 1.0 / n
  {
    var u, v := k / m, 1.0 / n;
    assert u * m == k && v * n == 1.0;
    assert (u * k) * m == k * k;
    assert v * m == k * k * (v * n);
  }
}
