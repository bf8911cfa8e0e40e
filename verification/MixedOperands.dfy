/**
 * The octonion operators whose right operand is a quaternion, a complex number or a scalar, as
 * the source evaluates them. Some read the wrong component or have a wrong sign; for those the
 * lemmas say exactly on which operands they still agree with octonion arithmetic.
 */
module MixedOperands {

  import opened Octonions
  import opened Division
  import C = ComplexNumbers
  import H = Quaternions
  import RealArithmetic

  // ----- multiplication by a quaternion -----

  function QuaternionProduct(x: Oct, ar: real, br: real, cr: real, dr: real): Oct {
    Oct(x.a * ar - x.b * br - x.c * cr - x.d * dr,
        x.a * br + x.b * ar + x.c * dr - x.d * cr,
        x.a * cr - x.b * dr + x.c * ar + x.d * br,
        x.a * dr + x.b * cr - x.c * br + x.d * ar,
        x.e * ar + x.f * br + x.g * cr + x.h * dr,
        -x.e * br + x.f * ar - x.g * dr + x.h * cr,
        -x.e * cr + x.f * dr + x.g * ar - x.h * br,
        -x.e * dr - x.f * cr + x.g * br + x.h * ar)
  }

  lemma QuaternionProductFirstQuarter(x: Oct, r: H.Quat)
    ensures QuaternionProduct(x, r.a, r.b, r.c, r.d).a == H.Mul(H1(x), r).a
    ensures QuaternionProduct(x, r.a, r.b, r.c, r.d).b == H.Mul(H1(x), r).b
  {
  }

  lemma QuaternionProductSecondQuarter(x: Oct, r: H.Quat)
    ensures QuaternionProduct(x, r.a, r.b, r.c, r.d).c == H.Mul(H1(x), r).c
    ensures QuaternionProduct(x, r.a, r.b, r.c, r.d).d == H.Mul(H1(x), r).d
  {
  }

  lemma QuaternionProductFirstHalf(x: Oct, r: H.Quat)
    ensures H1(QuaternionProduct(x, r.a, r.b, r.c, r.d)) == H.Mul(H1(x), r)
  {
    hide QuaternionProduct, H.Mul;
    QuaternionProductFirstQuarter(x, r);
    QuaternionProductSecondQuarter(x, r);
  }

  lemma QuaternionProductThirdQuarter(x: Oct, r: H.Quat)
    ensures QuaternionProduct(x, r.a, r.b, r.c, r.d).e == H.Mul(H2(x), H.Conj(r)).a
    ensures QuaternionProduct(x, r.a, r.b, r.c, r.d).f == H.Mul(H2(x), H.Conj(r)).b
  {
  }

  lemma QuaternionProductFourthQuarter(x: Oct, r: H.Quat)
    ensures QuaternionProduct(x, r.a, r.b, r.c, r.d).g == H.Mul(H2(x), H.Conj(r)).c
    ensures QuaternionProduct(x, r.a, r.b, r.c, r.d).h == H.Mul(H2(x), H.Conj(r)).d
  {
  }

  lemma QuaternionProductSecondHalf(x: Oct, r: H.Quat)
    ensures H2(QuaternionProduct(x, r.a, r.b, r.c, r.d)) == H.Mul(H2(x), H.Conj(r))
  {
    hide QuaternionProduct, H.Mul;
    QuaternionProductThirdQuarter(x, r);
    QuaternionProductFourthQuarter(x, r);
  }

  lemma QuaternionProductIsProduct(x: Oct, r: H.Quat)
    ensures QuaternionProduct(x, r.a, r.b, r.c, r.d) == Mul(x, OfQuat(r))
  {
    hide Mul, QuaternionProduct, H.Mul;
    QuaternionProductFirstHalf(x, r);
    QuaternionProductSecondHalf(x, r);
    MulByHalves(x, OfQuat(r));
    EmbeddedHalves(r);
    ZeroTimes(H1(x));
    ZeroTimes(H2(x));
  }

  lemma EmbeddedHalves(r: H.Quat)
    ensures H1(OfQuat(r)) == r && H2(OfQuat(r)) == H.ZERO && H.Conj(H.ZERO) == H.ZERO
  {
  }

  /** The operand the source sees: its second component takes the place of the third and fourth. */
  function AsRead(r: H.Quat): H.Quat {
    H.Quat(r.a, r.b, r.b, r.b)
  }

  /** The generic `*=` by a quaternion. */
  function MulByQuaternion(x: Oct, r: H.Quat): Oct {
    QuaternionProduct(x, r.a, r.b, r.b, r.b)
  }

  /** It multiplies by another quaternion, which has the second component in the last three places. */
  lemma MulByQuaternionValue(x: Oct, r: H.Quat)
    ensures MulByQuaternion(x, r) == Mul(x, OfQuat(H.Quat(r.a, r.b, r.b, r.b)))
  {
    hide Mul, QuaternionProduct;
    QuaternionProductIsProduct(x, AsRead(r));
  }

  lemma MulByQuaternionAgrees(x: Oct, r: H.Quat)
    ensures MulByQuaternion(x, r) == Mul(x, OfQuat(r)) <==> x == ZERO || (r.c == r.b && r.d == r.b)
  {
    hide Mul, QuaternionProduct;
    QuaternionProductIsProduct(x, AsRead(r));
    ProductsAgree(x, OfQuat(AsRead(r)), OfQuat(r));
  }

  lemma MulByQuaternionCanFail()
    ensures MulByQuaternion(ONE, H.Quat(0.0, 0.0, 1.0, 0.0)) != Mul(ONE, OfQuat(H.Quat(0.0, 0.0, 1.0, 0.0)))
  {
    hide Mul, MulByQuaternion;
    MulByQuaternionAgrees(ONE, H.Quat(0.0, 0.0, 1.0, 0.0));
  }

  lemma ProductsAgree(x: Oct, y: Oct, z: Oct)
    ensures Mul(x, y) == Mul(x, z) <==> x == ZERO || y == z
  {
    hide Mul;
    MulOverSub(x, y, z);
    if Mul(x, y) == Mul(x, z) {
      NoZeroDivisors(x, Sub(y, z));
    }
    ZeroTimesAny(y);
    ZeroTimesAny(z);
  }

  lemma ZeroTimesAny(x: Oct)
    ensures Mul(ZERO, x) == ZERO
  {
    hide Mul;
    SubTimes(ONE, ONE, x);
    assert Sub(ONE, ONE) == ZERO;
  }

  // ----- division by a quaternion -----

  function SumOfSquares(ar: real, br: real, cr: real, dr: real): real {
    ar * ar + br * br + cr * cr + dr * dr
  }

  /** The denominator of the generic `/=` by a quaternion vanishes on some nonzero divisors. */
  lemma DenominatorVanishes(r: H.Quat)
    ensures SumOfSquares(r.a, r.b, r.b, r.b) == 0.0 <==> r.a == 0.0 && r.b == 0.0
  {
    RealArithmetic.SquareSign(r.a, r.a * r.a);
    RealArithmetic.SquareSign(r.b, r.b * r.b);
  }

  /** What a division yields; where the source divides by zero there is no quotient. */
  datatype Quotient = Quotient(value: Oct) | Undefined

  /** The generic `/=` by a quaternion. */
  function DivByQuaternion(x: Oct, r: H.Quat): Quotient {
    var denominator := SumOfSquares(r.a, r.b, r.b, r.b);
    if denominator == 0.0 then Undefined
    else Quotient(Scale(1.0 / denominator, QuaternionNumerators(x, AsRead(r))))
  }

  lemma DivByQuaternionIsDiv(x: Oct, r: H.Quat)
    requires r.a != 0.0 || r.b != 0.0
    ensures DivByQuaternion(x, r) == Quotient(Div(x, OfQuat(AsRead(r))))
  {
    hide Mul, Scale, Norm, QuaternionNumerators;
    DenominatorVanishes(r);
    QuaternionNumeratorsAreProduct(x, AsRead(r));
    NormOfOfQuat(AsRead(r));
    DivByDenominator(x, OfQuat(AsRead(r)), SumOfSquares(r.a, r.b, r.b, r.b));
  }

  lemma NormOfOfQuat(r: H.Quat)
    ensures Norm(OfQuat(r)) == SumOfSquares(r.a, r.b, r.c, r.d)
  {
    hide Norm;
    NormIsSumOfSquares(OfQuat(r));
    assert 0.0 * 0.0 == 0.0;
  }

  /** For every nonzero divisor: the quotient is right exactly on these operands. */
  lemma DivByQuaternionAgrees(x: Oct, r: H.Quat)
    requires r != H.ZERO
    ensures OfQuat(r) != ZERO
    ensures DivByQuaternion(x, r) == Quotient(Div(x, OfQuat(r)))
       <==> (r.a != 0.0 || r.b != 0.0) && (x == ZERO || (r.c == r.b && r.d == r.b))
  {
    hide Mul, Div, SumOfSquares;
    assert H1(OfQuat(r)) == r && H1(ZERO) == H.ZERO;
    DenominatorVanishes(r);
    if r.a != 0.0 || r.b != 0.0 {
      ReadQuotientAgrees(x, r);
    }
  }

  /** The same where the denominator does not vanish. */
  lemma ReadQuotientAgrees(x: Oct, r: H.Quat)
    requires r.a != 0.0 || r.b != 0.0
    ensures DivByQuaternion(x, r) == Quotient(Div(x, OfQuat(r))) <==> x == ZERO || (r.c == r.b && r.d == r.b)
  {
    hide Mul, Div, DivByQuaternion;
    var y, z := OfQuat(AsRead(r)), OfQuat(r);
    DivByQuaternionIsDiv(x, r);
    DivIsMulByInverse(x, y);
    DivIsMulByInverse(x, z);
    ProductsAgree(x, Inverse(y), Inverse(z));
    DivThenMul(ONE, y);
    DivThenMul(ONE, z);
    ZeroTimesAny(y);
    if Inverse(y) == Inverse(z) {
      ProductsAgree(Inverse(y), y, z);
    }
  }

  /** It divides by another quaternion, if that is not zero. */
  lemma DivByQuaternionValue(x: Oct, r: H.Quat)
    ensures r.a == 0.0 && r.b == 0.0 ==> DivByQuaternion(x, r) == Undefined
    ensures r.a != 0.0 || r.b != 0.0 ==>
              var y := OfQuat(H.Quat(r.a, r.b, r.b, r.b)); y != ZERO && DivByQuaternion(x, r) == Quotient(Div(x, y))
  {
    hide Div, DivByQuaternion;
    NoDenominator(x, r);
    assert H1(OfQuat(AsRead(r))) == AsRead(r) && H1(ZERO) == H.ZERO;
    if r.a != 0.0 || r.b != 0.0 {
      DivByQuaternionIsDiv(x, r);
    }
  }

  lemma DivByQuaternionCanFail()
    ensures OfQuat(H.Quat(1.0, 0.0, 1.0, 0.0)) != ZERO
    ensures DivByQuaternion(ONE, H.Quat(1.0, 0.0, 1.0, 0.0)) != Quotient(Div(ONE, OfQuat(H.Quat(1.0, 0.0, 1.0, 0.0))))
    ensures DivByQuaternion(ZERO, H.Quat(0.0, 0.0, 1.0, 0.0)) == Undefined
  {
    hide Div, DivByQuaternion;
    DivByQuaternionAgrees(ONE, H.Quat(1.0, 0.0, 1.0, 0.0));
    NoDenominator(ZERO, H.Quat(0.0, 0.0, 1.0, 0.0));
  }

  lemma NoDenominator(x: Oct, r: H.Quat)
    ensures DivByQuaternion(x, r) == Undefined <==> r.a == 0.0 && r.b == 0.0
  {
    hide SumOfSquares;
    DenominatorVanishes(r);
  }

  // ----- division by a complex number -----

  function OfComplex(z: C.Complex): Oct {
    Oct(z.re, z.im, 0.0, 0.0, 0.0, 0.0, 0.0, 0.0)
  }

  lemma ComplexDenominator(z: C.Complex)
    ensures SumOfSquares(z.re, z.im, 0.0, 0.0) == 0.0 <==> z.re == 0.0 && z.im == 0.0
  {
    RealArithmetic.SquareSign(z.re, z.re * z.re);
    RealArithmetic.SquareSign(z.im, z.im * z.im);
  }

  /** The eight sums of the generic `/=` by a complex number. */
  function ComplexSums(x: Oct, z: C.Complex): Oct {
    Oct(x.a * z.re - x.b * z.im,
        -x.a * z.im + x.b * z.re,
        x.c * z.re - x.d * z.im,
        x.c * z.im + x.d * z.re,
        x.e * z.re - x.f * z.im,
        x.e * z.im + x.f * z.re,
        x.g * z.re + x.h * z.im,
        x.g * z.im + x.h * z.re)
  }

  function DivByComplex(x: Oct, z: C.Complex): Oct
    requires z.re != 0.0 || z.im != 0.0
  {
    ComplexDenominator(z);
    Scale(1.0 / SumOfSquares(z.re, z.im, 0.0, 0.0), ComplexSums(x, z))
  }

  /** Where the source's sums differ from the right ones. */
  lemma ComplexSumsDiffer(x: Oct, z: C.Complex)
    ensures var right := QuaternionNumerators(x, H.Quat(z.re, z.im, 0.0, 0.0));
            Sub(right, ComplexSums(x, z)) == Oct(2.0 * x.b * z.im, 0.0, 0.0, 0.0, 0.0, 0.0, 0.0, -2.0 * x.g * z.im)
  {
  }

  lemma DivByComplexAgrees(x: Oct, z: C.Complex)
    requires z.re != 0.0 || z.im != 0.0
    ensures DivByComplex(x, z) == Div(x, OfComplex(z)) <==> z.im == 0.0 || (x.b == 0.0 && x.g == 0.0)
  {
    hide Mul, Norm, Scale, QuaternionNumerators, ComplexSums;
    var r := H.Quat(z.re, z.im, 0.0, 0.0);
    var right := QuaternionNumerators(x, r);
    var n := SumOfSquares(z.re, z.im, 0.0, 0.0);
    ComplexDenominator(z);
    assert OfQuat(r) == OfComplex(z);
    QuaternionNumeratorsAreProduct(x, r);
    NormOfOfQuat(r);
    DivByDenominator(x, OfQuat(r), n);
    ComplexSumsDiffer(x, z);
    ScaleScale(n, 1.0 / n, 1.0, right);
    ScaleScale(n, 1.0 / n, 1.0, ComplexSums(x, z));
    ScaleOne(right);
    ScaleOne(ComplexSums(x, z));
    ProductVanishes(x.b, z.im);
    ProductVanishes(x.g, z.im);
    if right == ComplexSums(x, z) {
      assert Sub(right, ComplexSums(x, z)) == ZERO;
    }
  }

  /** Two components are off, by twice a product that should have had the other sign. */
  lemma DivByComplexValue(x: Oct, z: C.Complex)
    requires z.re != 0.0 || z.im != 0.0
    ensures OfComplex(z) != ZERO && SumOfSquares(z.re, z.im, 0.0, 0.0) != 0.0
    ensures var n, off := SumOfSquares(z.re, z.im, 0.0, 0.0),
                          Oct(2.0 * x.b * z.im, 0.0, 0.0, 0.0, 0.0, 0.0, 0.0, -2.0 * x.g * z.im);
            DivByComplex(x, z) == Sub(Div(x, OfComplex(z)), Scale(1.0 / n, off))
  {
    hide Mul, Norm, Scale, QuaternionNumerators, ComplexSums, SumOfSquares;
    var r := H.Quat(z.re, z.im, 0.0, 0.0);
    var right := QuaternionNumerators(x, r);
    var n := SumOfSquares(z.re, z.im, 0.0, 0.0);
    var off := Oct(2.0 * x.b * z.im, 0.0, 0.0, 0.0, 0.0, 0.0, 0.0, -2.0 * x.g * z.im);
    ComplexDenominator(z);
    assert OfQuat(r) == OfComplex(z);
    QuaternionNumeratorsAreProduct(x, r);
    NormOfOfQuat(r);
    DivByDenominator(x, OfQuat(r), n);
    ComplexSumsDiffer(x, z);
    DifferenceTaken(right, ComplexSums(x, z), off);
    ScaleOverSum(1.0 / n, right, off);
  }

  lemma DifferenceTaken(x: Oct, y: Oct, z: Oct)
    requires Sub(x, y) == z
    ensures y == Sub(x, z)
  {
  }

  lemma DivByComplexCanFail()
    ensures DivByComplex(OfComplex(C.Complex(0.0, 1.0)), C.Complex(0.0, 1.0))
         != Div(OfComplex(C.Complex(0.0, 1.0)), OfComplex(C.Complex(0.0, 1.0)))
  {
    hide Div, DivByComplex;
    DivByComplexAgrees(OfComplex(C.Complex(0.0, 1.0)), C.Complex(0.0, 1.0));
  }

  lemma ProductVanishes(v: real, w: real)
    ensures v * w == 0.0 <==> v == 0.0 || w == 0.0
  {
  }

  // ----- division by a scalar -----

  /** The `/=` by a scalar of the float, double and long double octonions. */
  function DivByScalar(x: Oct, k: real): Oct
    requires k != 0.0
  {
    Oct(x.a / k, x.b / k, x.c / k, x.d / k, x.e, x.f, x.g, x.h)
  }

  lemma DivByScalarAgrees(x: Oct, k: real)
    requires k != 0.0
    ensures Scale(k, ONE) != ZERO
    ensures DivByScalar(x, k) == Div(x, Scale(k, ONE)) <==> k == 1.0 || H2(x) == H.ZERO
  {
    hide Mul, Div;
    var q := DivByScalar(x, k);
    DivisionSolves(x, Scale(k, ONE), q);
    ScalarTimes(k, q);
    TimesQuotient(k, x.a);
    TimesQuotient(k, x.b);
    TimesQuotient(k, x.c);
    TimesQuotient(k, x.d);
    ProductFixed(k, x.e);
    ProductFixed(k, x.f);
    ProductFixed(k, x.g);
    ProductFixed(k, x.h);
  }

  /** The first half is divided, and the second half is as it was. */
  lemma DivByScalarValue(x: Oct, k: real)
    requires k != 0.0
    ensures Scale(k, ONE) != ZERO
    ensures H1(DivByScalar(x, k)) == H1(Div(x, Scale(k, ONE))) && H2(DivByScalar(x, k)) == H2(x)
  {
    hide Mul, Div;
    var right := Oct(x.a / k, x.b / k, x.c / k, x.d / k, x.e / k, x.f / k, x.g / k, x.h / k);
    DivisionSolves(x, Scale(k, ONE), right);
    ScalarTimes(k, right);
    TimesQuotients(k, x);
  }

  lemma TimesQuotients(k: real, x: Oct)
    requires k != 0.0
    ensures Scale(k, Oct(x.a / k, x.b / k, x.c / k, x.d / k, x.e / k, x.f / k, x.g / k, x.h / k)) == x
  {
    TimesQuotient(k, x.a);
    TimesQuotient(k, x.b);
    TimesQuotient(k, x.c);
    TimesQuotient(k, x.d);
    TimesQuotient(k, x.e);
    TimesQuotient(k, x.f);
    TimesQuotient(k, x.g);
    TimesQuotient(k, x.h);
  }

  lemma DivByScalarCanFail()
    ensures Scale(2.0, ONE) != ZERO
    ensures DivByScalar(OfHalves(H.ZERO, H.ONE), 2.0) != Div(OfHalves(H.ZERO, H.ONE), Scale(2.0, ONE))
  {
    hide Div, DivByScalar, Scale;
    DivByScalarAgrees(OfHalves(H.ZERO, H.ONE), 2.0);
    assert H2(OfHalves(H.ZERO, H.ONE)) == H.ONE;
  }

  lemma TimesQuotient(k: real, v: real)
    requires k != 0.0
    ensures k * (v / k) == v
  {
  }

  lemma ProductFixed(k: real, v: real)
    ensures k * v == v <==> k == 1.0 || v == 0.0
  {
    ProductVanishes(k - 1.0, v);
  }
}
