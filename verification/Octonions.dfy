/**
 * The octonions of `octonion.hpp` over exact reals.
 *
 * The product is written component by component, as in the source, and shown to be the
 * Cayley-Dickson doubling of the quaternion product. The product of octonions is neither
 * commutative nor associative, so every law below is reduced to laws of quaternions first.
 */
module Octonions {

  import H = Quaternions
  import RealArithmetic

  datatype Oct = Oct(a: real, b: real, c: real, d: real, e: real, f: real, g: real, h: real)

  const ZERO := Oct(0.0, 0.0, 0.0, 0.0, 0.0, 0.0, 0.0, 0.0)
  const ONE := Oct(1.0, 0.0, 0.0, 0.0, 0.0, 0.0, 0.0, 0.0)

  function Add(x: Oct, y: Oct): Oct {
    Oct(x.a + y.a, x.b + y.b, x.c + y.c, x.d + y.d, x.e + y.e, x.f + y.f, x.g + y.g, x.h + y.h)
  }

  function Sub(x: Oct, y: Oct): Oct {
    Oct(x.a - y.a, x.b - y.b, x.c - y.c, x.d - y.d, x.e - y.e, x.f - y.f, x.g - y.g, x.h - y.h)
  }

  function Scale(k: real, x: Oct): Oct {
    Oct(k * x.a, k * x.b, k * x.c, k * x.d, k * x.e, k * x.f, k * x.g, k * x.h)
  }

  function Conj(x: Oct): Oct {
    Oct(x.a, -x.b, -x.c, -x.d, -x.e, -x.f, -x.g, -x.h)
  }

  function Mul(x: Oct, y: Oct): Oct {
    Oct(x.a * y.a - x.b * y.b - x.c * y.c - x.d * y.d - x.e * y.e - x.f * y.f - x.g * y.g - x.h * y.h,
        x.a * y.b + x.b * y.a + x.c * y.d - x.d * y.c + x.e * y.f - x.f * y.e - x.g * y.h + x.h * y.g,
        x.a * y.c - x.b * y.d + x.c * y.a + x.d * y.b + x.e * y.g + x.f * y.h - x.g * y.e - x.h * y.f,
        x.a * y.d + x.b * y.c - x.c * y.b + x.d * y.a + x.e * y.h - x.f * y.g + x.g * y.f - x.h * y.e,
        x.a * y.e - x.b * y.f - x.c * y.g - x.d * y.h + x.e * y.a + x.f * y.b + x.g * y.c + x.h * y.d,
        x.a * y.f + x.b * y.e - x.c * y.h + x.d * y.g - x.e * y.b + x.f * y.a - x.g * y.d + x.h * y.c,
        x.a * y.g + x.b * y.h + x.c * y.e - x.d * y.f - x.e * y.c + x.f * y.d + x.g * y.a - x.h * y.b,
        x.a * y.h - x.b * y.g + x.c * y.f + x.d * y.e - x.e * y.d - x.f * y.c + x.g * y.b + x.h * y.a)
  }

  /** The Cayley norm: the real part of x times its conjugate. */
  function Norm(x: Oct): real {
    Mul(x, Conj(x)).a
  }

  // ----- halves -----

  function H1(x: Oct): H.Quat {
    H.Quat(x.a, x.b, x.c, x.d)
  }

  function H2(x: Oct): H.Quat {
    H.Quat(x.e, x.f, x.g, x.h)
  }

  function OfHalves(p: H.Quat, q: H.Quat): Oct {
    Oct(p.a, p.b, p.c, p.d, q.a, q.b, q.c, q.d)
  }

  /** A quaternion seen as an octonion. */
  function OfQuat(p: H.Quat): Oct {
    OfHalves(p, H.ZERO)
  }

  /** The halves of a product according to the doubling formula. */
  function FirstHalf(x: Oct, y: Oct): H.Quat {
    H.Sub(H.Mul(H1(x), H1(y)), H.Mul(H.Conj(H2(y)), H2(x)))
  }

  function SecondHalf(x: Oct, y: Oct): H.Quat {
    H.Add(H.Mul(H2(y), H1(x)), H.Mul(H2(x), H.Conj(H1(y))))
  }

  lemma MulFirstQuarter(x: Oct, y: Oct)
    ensures Mul(x, y).a == FirstHalf(x, y).a && Mul(x, y).b == FirstHalf(x, y).b
  {
  }

  lemma MulSecondQuarter(x: Oct, y: Oct)
    ensures Mul(x, y).c == FirstHalf(x, y).c && Mul(x, y).d == FirstHalf(x, y).d
  {
  }

  lemma MulThirdQuarter(x: Oct, y: Oct)
    ensures Mul(x, y).e == SecondHalf(x, y).a && Mul(x, y).f == SecondHalf(x, y).b
  {
  }

  lemma MulFourthQuarter(x: Oct, y: Oct)
    ensures Mul(x, y).g == SecondHalf(x, y).c && Mul(x, y).h == SecondHalf(x, y).d
  {
  }

  /** The eight-component product is the Cayley-Dickson doubling of the quaternion product. */
  lemma MulByHalves(x: Oct, y: Oct)
    ensures H1(Mul(x, y)) == H.Sub(H.Mul(H1(x), H1(y)), H.Mul(H.Conj(H2(y)), H2(x)))
    ensures H2(Mul(x, y)) == H.Add(H.Mul(H2(y), H1(x)), H.Mul(H2(x), H.Conj(H1(y))))
  {
    hide Mul, H.Mul;
    MulFirstQuarter(x, y);
    MulSecondQuarter(x, y);
    MulThirdQuarter(x, y);
    MulFourthQuarter(x, y);
  }

  lemma ScaleByHalves(k: real, x: Oct)
    ensures H1(Scale(k, x)) == H.Scale(k, H1(x)) && H2(Scale(k, x)) == H.Scale(k, H2(x))
  {
  }

  lemma NormByHalves(x: Oct)
    ensures Norm(x) == H.Norm(H1(x)) + H.Norm(H2(x))
  {
  }

  /** On quaternions the octonion operations are the quaternion operations. */
  lemma OfQuatIsHomomorphism(k: real, p: H.Quat, q: H.Quat)
    ensures OfQuat(H.Mul(p, q)) == Mul(OfQuat(p), OfQuat(q))
    ensures OfQuat(H.Scale(k, p)) == Scale(k, OfQuat(p))
    ensures OfQuat(H.Conj(p)) == Conj(OfQuat(p))
    ensures H.Norm(p) == Norm(OfQuat(p))
  {
    hide Mul, Norm, Scale, H.Mul, H.Norm, H.Scale;
    var x, y := OfQuat(p), OfQuat(q);
    assert H1(x) == p && H2(x) == H.ZERO && H1(y) == q && H2(y) == H.ZERO;
    assert H.Conj(H.ZERO) == H.ZERO;
    MulByHalves(x, y);
    ZeroTimes(p);
    ZeroTimes(H.Conj(q));
    ZeroTimes(H.ZERO);
    ScaleByHalves(k, x);
    ScaleZero(k);
    NormByHalves(x);
    H.NormOfMul(H.ZERO, H.ZERO);
    NormOfZero();
  }

  lemma ZeroTimes(p: H.Quat)
    ensures H.Mul(H.ZERO, p) == H.ZERO == H.Mul(p, H.ZERO)
  {
  }

  lemma ScaleZero(k: real)
    ensures H.Scale(k, H.ZERO) == H.ZERO
  {
  }

  lemma NormOfZero()
    ensures H.Norm(H.ZERO) == 0.0
  {
  }

  // ----- multiplication is bilinear, conjugation reverses it -----

  lemma MulOverAdd(x: Oct, y: Oct, z: Oct)
    ensures Mul(x, Add(y, z)) == Add(Mul(x, y), Mul(x, z))
  {
    hide Mul, H.Mul;
    var p, q, r, s, t, u := H1(x), H2(x), H1(y), H2(y), H1(z), H2(z);
    MulByHalves(x, Add(y, z));
    MulByHalves(x, y);
    MulByHalves(x, z);
    H.MulOverAdd(p, r, t);
    H.AddTimes(H.Conj(s), H.Conj(u), q);
    H.AddTimes(s, u, p);
    H.MulOverAdd(q, H.Conj(r), H.Conj(t));
    assert H1(Add(y, z)) == H.Add(r, t) && H2(Add(y, z)) == H.Add(s, u);
    assert H.Conj(H.Add(s, u)) == H.Add(H.Conj(s), H.Conj(u));
    assert H.Conj(H.Add(r, t)) == H.Add(H.Conj(r), H.Conj(t));
  }

  lemma ConjOfMul(x: Oct, y: Oct)
    ensures Conj(Mul(x, y)) == Mul(Conj(y), Conj(x))
  {
    hide Mul, H.Mul;
    var p, q, r, s := H1(x), H2(x), H1(y), H2(y);
    MulByHalves(x, y);
    MulByHalves(Conj(y), Conj(x));
    assert H1(Conj(x)) == H.Conj(p) && H2(Conj(x)) == H.Neg(q);
    assert H1(Conj(y)) == H.Conj(r) && H2(Conj(y)) == H.Neg(s);
    H.ConjOfMul(p, r);
    H.ConjOfMul(H.Conj(s), q);
    H.NegTimes(H.Conj(q), H.Neg(s));
    H.NegTimes(H.Conj(q), s);
    H.NegTimes(q, H.Conj(r));
    H.NegTimes(s, p);
    assert H.Conj(H.Neg(q)) == H.Neg(H.Conj(q));
    assert H.Conj(H.Conj(s)) == s && H.Conj(H.Conj(p)) == p;
  }

  lemma ConjInvolutive(x: Oct)
    ensures Conj(Conj(x)) == x
  {
  }

  lemma AddTimes(x: Oct, y: Oct, z: Oct)
    ensures Mul(Add(x, y), z) == Add(Mul(x, z), Mul(y, z))
  {
    hide Mul;
    MulOverAdd(Conj(z), Conj(x), Conj(y));
    ConjOfMul(Add(x, y), z);
    ConjOfMul(x, z);
    ConjOfMul(y, z);
    assert Conj(Add(x, y)) == Add(Conj(x), Conj(y));
  }

  lemma SubTimes(x: Oct, y: Oct, z: Oct)
    ensures Mul(Sub(x, y), z) == Sub(Mul(x, z), Mul(y, z))
  {
    hide Mul;
    AddTimes(Sub(x, y), y, z);
    assert Add(Sub(x, y), y) == x;
  }

  lemma MulOverSub(x: Oct, y: Oct, z: Oct)
    ensures Mul(x, Sub(y, z)) == Sub(Mul(x, y), Mul(x, z))
  {
    hide Mul;
    MulOverAdd(x, Sub(y, z), z);
    assert Add(Sub(y, z), z) == y;
  }

  // ----- scalars -----

  lemma ScaleTimes(k: real, x: Oct, y: Oct)
    ensures Mul(Scale(k, x), y) == Scale(k, Mul(x, y))
  {
    hide Mul, Scale, H.Mul, H.Scale, H.Add, H.Sub;
    var p, q, r, s := H1(x), H2(x), H1(y), H2(y);
    MulByHalves(x, y);
    MulByHalves(Scale(k, x), y);
    ScaleByHalves(k, x);
    ScaleByHalves(k, Mul(x, y));
    H.ScaleTimes(k, p, r);
    H.TimesScale(k, H.Conj(s), q);
    H.ScaleOverSum(k, H.Mul(p, r), H.Mul(H.Conj(s), q));
    H.TimesScale(k, s, p);
    H.ScaleTimes(k, q, H.Conj(r));
    H.ScaleOverSum(k, H.Mul(s, p), H.Mul(q, H.Conj(r)));
  }

  lemma ConjOfScale(k: real, x: Oct)
    ensures Conj(Scale(k, x)) == Scale(k, Conj(x))
  {
    hide Scale, H.Scale;
    ScaleByHalves(k, x);
    ScaleByHalves(k, Conj(x));
    H.ConjOfScale(k, H1(x));
    assert H1(Conj(x)) == H.Conj(H1(x)) && H2(Conj(x)) == H.Neg(H2(x));
    NegOfScale(k, H2(x));
  }

  lemma NegOfScale(k: real, p: H.Quat)
    ensures H.Neg(H.Scale(k, p)) == H.Scale(k, H.Neg(p)) == H.Scale(-k, p)
  {
  }

  lemma TimesScale(k: real, x: Oct, y: Oct)
    ensures Mul(x, Scale(k, y)) == Scale(k, Mul(x, y))
  {
    hide Mul, Scale;
    ScaleTimes(k, Conj(y), Conj(x));
    ConjOfMul(x, Scale(k, y));
    ConjOfMul(x, y);
    ConjOfScale(k, y);
    ConjOfScale(k, Mul(x, y));
    ConjInvolutive(Mul(x, Scale(k, y)));
  }

  lemma MulOne(x: Oct)
    ensures Mul(x, ONE) == x == Mul(ONE, x)
  {
  }

  lemma ScalarTimes(k: real, x: Oct)
    ensures Mul(Scale(k, ONE), x) == Scale(k, x) == Mul(x, Scale(k, ONE))
  {
    hide Mul, Scale;
    ScaleTimes(k, ONE, x);
    TimesScale(k, x, ONE);
    MulOne(x);
  }

  lemma ScaleOne(x: Oct)
    ensures Scale(1.0, x) == x && Scale(0.0, x) == ZERO
  {
  }

  lemma ScaleScale(j: real, k: real, l: real, x: Oct)
    requires j * k == l
    ensures Scale(j, Scale(k, x)) == Scale(l, x)
  {
    hide Scale, H.Scale;
    ScaleByHalves(k, x);
    ScaleByHalves(l, x);
    ScaleByHalves(j, Scale(k, x));
    H.ScaleScale(j, k, l, H1(x));
    H.ScaleScale(j, k, l, H2(x));
  }

  lemma ScaleOverSum(k: real, x: Oct, y: Oct)
    ensures Scale(k, Add(x, y)) == Add(Scale(k, x), Scale(k, y))
    ensures Scale(k, Sub(x, y)) == Sub(Scale(k, x), Scale(k, y))
  {
    hide Scale, H.Scale;
    ScaleByHalves(k, x);
    ScaleByHalves(k, y);
    ScaleByHalves(k, Add(x, y));
    ScaleByHalves(k, Sub(x, y));
    H.ScaleOverSum(k, H1(x), H1(y));
    H.ScaleOverSum(k, H2(x), H2(y));
    assert H1(Add(x, y)) == H.Add(H1(x), H1(y)) && H2(Add(x, y)) == H.Add(H2(x), H2(y));
    assert H1(Sub(x, y)) == H.Sub(H1(x), H1(y)) && H2(Sub(x, y)) == H.Sub(H2(x), H2(y));
  }

  lemma SumOfScales(j: real, k: real, x: Oct)
    ensures Scale(j + k, x) == Add(Scale(j, x), Scale(k, x))
    ensures Scale(-k, x) == Sub(ZERO, Scale(k, x))
  {
    hide Scale, H.Scale;
    ScaleByHalves(j, x);
    ScaleByHalves(k, x);
    ScaleByHalves(j + k, x);
    ScaleByHalves(-k, x);
    H.SumOfScales(j, k, H1(x));
    H.SumOfScales(j, k, H2(x));
    NegOfScale(k, H1(x));
    NegOfScale(k, H2(x));
  }

  // ----- the norm -----

  lemma NormOfConj(x: Oct)
    ensures Norm(Conj(x)) == Norm(x)
  {
    hide Norm, H.Norm;
    NormByHalves(x);
    NormByHalves(Conj(x));
    assert H1(Conj(x)) == H.Conj(H1(x)) && H2(Conj(x)) == H.Neg(H2(x));
    H.NormOfConj(H1(x));
    NormOfNeg(H2(x));
  }

  lemma NormOfNeg(p: H.Quat)
    ensures H.Norm(H.Neg(p)) == H.Norm(p)
  {
  }

  /** Multiplying on the left by x and then by its conjugate scales by the norm of x. */
  lemma ConjTimesMul(x: Oct, y: Oct)
    ensures Mul(Conj(x), Mul(x, y)) == Scale(Norm(x), y)
  {
    hide Mul, Norm, Scale, H.Mul, H.Norm, H.Scale;
    var p, q, r, s := H1(x), H2(x), H1(y), H2(y);
    var p', q', r', s' := H.Conj(p), H.Conj(q), H.Conj(r), H.Conj(s);
    var z := Mul(x, y);
    MulByHalves(x, y);
    MulByHalves(Conj(x), z);
    NormByHalves(x);
    ScaleByHalves(Norm(x), y);
    assert H1(Conj(x)) == p' && H2(Conj(x)) == H.Neg(q);
    // p'(pr - s'q) + (p's' + rq')q, in which the terms p's'q cancel
    assert H1(Mul(Conj(x), z)) == H.Scale(Norm(x), r) by {
      H.MulOverSub(p', H.Mul(p, r), H.Mul(s', q));
      H.ConjOfMul(s, p);
      H.ConjOfMul(q, r');
      assert H.Conj(H2(z)) == H.Add(H.Mul(p', s'), H.Mul(r, q'));
      H.NegTimes(H.Conj(H2(z)), q);
      H.AddTimes(H.Mul(p', s'), H.Mul(r, q'), q);
      H.MulAssociates(p', s', q);
      H.MulAssociates(p', p, r);
      H.MulAssociates(r, q', q);
      H.MulConj(p);
      H.MulConj(q);
      H.ScalarTimes(H.Norm(p), r);
      H.ScalarTimes(H.Norm(q), r);
      H.SumOfScales(H.Norm(p), H.Norm(q), r);
    }
    // (sp + qr')p' - q(r'p' - q's), in which the terms qr'p' cancel
    assert H2(Mul(Conj(x), z)) == H.Scale(Norm(x), s) by {
      H.AddTimes(H.Mul(s, p), H.Mul(q, r'), p');
      H.ConjOfMul(p, r);
      H.ConjOfMul(s', q);
      assert H.Conj(H1(z)) == H.Sub(H.Mul(r', p'), H.Mul(q', s));
      H.NegTimes(q, H.Conj(H1(z)));
      H.MulOverSub(q, H.Mul(r', p'), H.Mul(q', s));
      H.MulAssociates(q, r', p');
      H.MulAssociates(s, p, p');
      H.MulAssociates(q, q', s);
      H.MulConj(p);
      H.MulConj(q);
      H.ScalarTimes(H.Norm(p), s);
      H.ScalarTimes(H.Norm(q), s);
      H.SumOfScales(H.Norm(p), H.Norm(q), s);
    }
  }

  lemma MulTimesConj(x: Oct, y: Oct)
    ensures Mul(Mul(x, y), Conj(y)) == Scale(Norm(y), x)
  {
    hide Mul, Norm, Scale;
    ConjTimesMul(Conj(y), Conj(x));
    ConjOfMul(x, y);
    ConjOfMul(Mul(x, y), Conj(y));
    ConjOfScale(Norm(y), x);
    NormOfConj(y);
    ConjInvolutive(Mul(Mul(x, y), Conj(y)));
  }

  /** The eight-square identity. */
  lemma NormOfMul(x: Oct, y: Oct)
    ensures Norm(Mul(x, y)) == Norm(x) * Norm(y)
  {
    hide Mul, Norm, Scale, H.Mul, H.Norm, H.Scale;
    var p, q, r, s := H1(x), H2(x), H1(y), H2(y);
    var p', q', r', s' := H.Conj(p), H.Conj(q), H.Conj(r), H.Conj(s);
    MulByHalves(x, y);
    NormByHalves(x);
    NormByHalves(y);
    NormByHalves(Mul(x, y));
    H.NormOfSub(H.Mul(p, r), H.Mul(s', q));
    H.NormOfAdd(H.Mul(s, p), H.Mul(q, r'));
    H.NormOfMul(p, r);
    H.NormOfMul(s', q);
    H.NormOfMul(s, p);
    H.NormOfMul(q, r');
    H.NormOfConj(s);
    H.NormOfConj(r);
    // the two cross terms are the real parts of ((pr)q')s and s((pr)q')
    assert H.Mul(H.Mul(p, r), H.Conj(H.Mul(s', q))).a == H.Mul(H.Mul(s, p), H.Conj(H.Mul(q, r'))).a by {
      H.ConjOfMul(s', q);
      H.ConjOfMul(q, r');
      H.MulAssociates(H.Mul(p, r), q', s);
      H.RealOfMul(H.Mul(H.Mul(p, r), q'), s);
      H.MulAssociates(s, p, H.Mul(r, q'));
      H.MulAssociates(p, r, q');
    }
  }

  lemma NormIsSumOfSquares(x: Oct)
    ensures Norm(x) == x.a * x.a + x.b * x.b + x.c * x.c + x.d * x.d
                     + x.e * x.e + x.f * x.f + x.g * x.g + x.h * x.h
  {
  }

  lemma NormIsPositive(x: Oct)
    ensures Norm(x) >= 0.0
    ensures Norm(x) == 0.0 <==> x == ZERO
  {
    hide Norm;
    NormIsSumOfSquares(x);
    RealArithmetic.SquareSign(x.a, x.a * x.a);
    RealArithmetic.SquareSign(x.b, x.b * x.b);
    RealArithmetic.SquareSign(x.c, x.c * x.c);
    RealArithmetic.SquareSign(x.d, x.d * x.d);
    RealArithmetic.SquareSign(x.e, x.e * x.e);
    RealArithmetic.SquareSign(x.f, x.f * x.f);
    RealArithmetic.SquareSign(x.g, x.g * x.g);
    RealArithmetic.SquareSign(x.h, x.h * x.h);
  }

  /** There are no zero divisors. */
  lemma NoZeroDivisors(x: Oct, y: Oct)
    requires Mul(x, y) == ZERO
    ensures x == ZERO || y == ZERO
  {
    hide Mul, Norm;
    NormOfMul(x, y);
    NormIsPositive(x);
    NormIsPositive(y);
    NormIsPositive(ZERO);
  }
}
