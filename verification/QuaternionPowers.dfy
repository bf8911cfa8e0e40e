/**
 * Division and powers of quaternions. A quaternion is an octonion whose second half is zero, so
 * the laws of `quaternion.hpp` follow from those of the octonions.
 */
module QuaternionPowers {

  import opened Quaternions
  import O = Octonions
  import D = Division
  import P = Powers

  lemma OfQuatInjective(x: Quat, y: Quat)
    ensures O.OfQuat(x) == O.OfQuat(y) <==> x == y
    ensures O.OfQuat(x) == O.ZERO <==> x == ZERO
    ensures O.OfQuat(ONE) == O.ONE
  {
    assert O.H1(O.OfQuat(x)) == x && O.H1(O.OfQuat(y)) == y && O.H1(O.ZERO) == ZERO;
  }

  lemma NormIsNonzero(y: Quat)
    ensures Norm(y) != 0.0 <==> y != ZERO
  {
    hide Norm, O.Norm;
    O.NormIsPositive(O.OfQuat(y));
    O.OfQuatIsHomomorphism(0.0, y, y);
    OfQuatInjective(y, y);
  }

  /** x times the inverse of y. */
  function Div(x: Quat, y: Quat): Quat
    requires y != ZERO
  {
    NormIsNonzero(y);
    Scale(1.0 / Norm(y), Mul(x, Conj(y)))
  }

  function Inverse(y: Quat): Quat
    requires y != ZERO
  {
    Div(ONE, y)
  }

  /** Any expression equal to the norm of y may serve as the denominator. */
  lemma DivByDenominator(x: Quat, y: Quat, n: real)
    requires y != ZERO && n == Norm(y)
    ensures n != 0.0
    ensures var t := Mul(x, Conj(y)); Quat(t.a / n, t.b / n, t.c / n, t.d / n) == Div(x, y)
  {
    hide Mul, Norm;
    NormIsNonzero(y);
  }

  /** The four sums that dividing by a quaternion evaluates before it divides by the denominator. */
  function Numerators(x: Quat, r: Quat): Quat {
    Quat(x.a * r.a + x.b * r.b + x.c * r.c + x.d * r.d,
         -x.a * r.b + x.b * r.a - x.c * r.d + x.d * r.c,
         -x.a * r.c + x.b * r.d + x.c * r.a - x.d * r.b,
         -x.a * r.d - x.b * r.c + x.c * r.b + x.d * r.a)
  }

  lemma NumeratorsAreProduct(x: Quat, r: Quat)
    ensures Numerators(x, r) == Mul(x, Conj(r))
  {
  }

  lemma NormIsSumOfSquares(x: Quat)
    ensures Norm(x) == x.a * x.a + x.b * x.b + x.c * x.c + x.d * x.d
  {
  }

  lemma OfQuatOfDiv(x: Quat, y: Quat)
    requires y != ZERO
    ensures O.OfQuat(y) != O.ZERO
    ensures O.OfQuat(Div(x, y)) == D.Div(O.OfQuat(x), O.OfQuat(y))
  {
    hide Mul, Norm, Scale, O.Mul, O.Norm, O.Scale, O.OfQuat;
    NormIsNonzero(y);
    O.OfQuatIsHomomorphism(1.0 / Norm(y), Mul(x, Conj(y)), y);
    O.OfQuatIsHomomorphism(0.0, x, Conj(y));
    O.OfQuatIsHomomorphism(0.0, y, y);
    OfQuatInjective(y, y);
  }

  /** x / y is the one and only solution z of z y = x. */
  lemma DivisionSolves(x: Quat, y: Quat, z: Quat)
    requires y != ZERO
    ensures Mul(z, y) == x <==> z == Div(x, y)
  {
    hide Mul, Div, D.Div, O.Mul, O.OfQuat;
    OfQuatOfDiv(x, y);
    D.DivisionSolves(O.OfQuat(x), O.OfQuat(y), O.OfQuat(z));
    O.OfQuatIsHomomorphism(0.0, z, y);
    OfQuatInjective(Mul(z, y), x);
    OfQuatInjective(z, Div(x, y));
  }

  // ----- powers -----

  /** The left-to-right product of n copies of x. */
  function Power(x: Quat, n: nat): Quat {
    if n == 0 then ONE else Mul(Power(x, n - 1), x)
  }

  function IntPower(x: Quat, n: int): Quat
    requires n >= 0 || x != ZERO
  {
    if n >= 0 then Power(x, n) else Power(Inverse(x), -n)
  }

  lemma {:induction false} OfQuatOfPower(x: Quat, n: nat)
    ensures O.OfQuat(Power(x, n)) == P.Power(O.OfQuat(x), n)
  {
    hide Mul, O.Mul, O.OfQuat;
    if n == 0 {
      OfQuatInjective(x, x);
    } else {
      OfQuatOfPower(x, n - 1);
      O.OfQuatIsHomomorphism(0.0, Power(x, n - 1), x);
    }
  }

  lemma OfQuatOfIntPower(x: Quat, n: int)
    requires n >= 0 || x != ZERO
    ensures n < 0 ==> O.OfQuat(x) != O.ZERO
    ensures O.OfQuat(IntPower(x, n)) == P.IntPower(O.OfQuat(x), n)
  {
    hide Mul, Div, O.Mul, O.OfQuat, D.Div;
    if n >= 0 {
      OfQuatOfPower(x, n);
    } else {
      OfQuatInjective(x, x);
      OfQuatOfDiv(ONE, x);
      OfQuatOfPower(Inverse(x), -n);
    }
  }

  lemma PowerOne(x: Quat)
    ensures Power(x, 1) == x
  {
    hide Mul;
    assert Power(x, 0) == ONE == Scale(1.0, ONE) && Scale(1.0, x) == x;
    ScalarTimes(1.0, x);
  }

  lemma PowerOfSum(x: Quat, m: nat, n: nat)
    ensures Power(x, m + n) == Mul(Power(x, m), Power(x, n))
  {
    hide Mul, O.Mul, O.OfQuat, P.Power;
    OfQuatOfPower(x, m);
    OfQuatOfPower(x, n);
    OfQuatOfPower(x, m + n);
    P.PowerOfSum(O.OfQuat(x), m, n);
    O.OfQuatIsHomomorphism(0.0, Power(x, m), Power(x, n));
    OfQuatInjective(Power(x, m + n), Mul(Power(x, m), Power(x, n)));
  }

  lemma IntPowerOfSum(x: Quat, m: int, n: int)
    requires x != ZERO
    ensures IntPower(x, m + n) == Mul(IntPower(x, m), IntPower(x, n))
  {
    hide Mul, IntPower, O.Mul, O.OfQuat, P.IntPower;
    OfQuatInjective(x, x);
    OfQuatOfIntPower(x, m);
    OfQuatOfIntPower(x, n);
    OfQuatOfIntPower(x, m + n);
    P.IntPowerOfSum(O.OfQuat(x), m, n);
    O.OfQuatIsHomomorphism(0.0, IntPower(x, m), IntPower(x, n));
    OfQuatInjective(IntPower(x, m + n), Mul(IntPower(x, m), IntPower(x, n)));
  }

  lemma NormOfIntPower(x: Quat, n: int)
    requires n >= 0 || x != ZERO
    ensures n < 0 ==> Norm(x) != 0.0
    ensures Norm(IntPower(x, n)) == P.RealIntPower(Norm(x), n)
  {
    hide Norm, IntPower, O.Norm, O.OfQuat, P.IntPower;
    OfQuatInjective(x, x);
    OfQuatOfIntPower(x, n);
    P.NormOfIntPower(O.OfQuat(x), n);
    O.OfQuatIsHomomorphism(0.0, x, x);
    O.OfQuatIsHomomorphism(0.0, IntPower(x, n), x);
  }
}
