/**
 * The quaternions of `quaternion.hpp` over exact reals.
 *
 * Multiplication is written component by component, as in the source. Every law about it is
 * derived from the fact that its two complex halves are given by the Cayley-Dickson doubling
 * formula: once that is known, `Mul` is hidden and the remaining reasoning is linear.
 */
module Quaternions {

  import C = ComplexNumbers
  import RealArithmetic

  datatype Quat = Quat(a: real, b: real, c: real, d: real)

  const ZERO := Quat(0.0, 0.0, 0.0, 0.0)
  const ONE := Quat(1.0, 0.0, 0.0, 0.0)

  function Add(x: Quat, y: Quat): Quat {
    Quat(x.a + y.a, x.b + y.b, x.c + y.c, x.d + y.d)
  }

  function Sub(x: Quat, y: Quat): Quat {
    Quat(x.a - y.a, x.b - y.b, x.c - y.c, x.d - y.d)
  }

  function Neg(x: Quat): Quat {
    Quat(-x.a, -x.b, -x.c, -x.d)
  }

  function Scale(k: real, x: Quat): Quat {
    Quat(k * x.a, k * x.b, k * x.c, k * x.d)
  }

  function Conj(x: Quat): Quat {
    Quat(x.a, -x.b, -x.c, -x.d)
  }

  function Mul(x: Quat, y: Quat): Quat {
    Quat(x.a * y.a - x.b * y.b - x.c * y.c - x.d * y.d,
         x.a * y.b + x.b * y.a + x.c * y.d - x.d * y.c,
         x.a * y.c - x.b * y.d + x.c * y.a + x.d * y.b,
         x.a * y.d + x.b * y.c - x.c * y.b + x.d * y.a)
  }

  /** The Cayley norm: the real part of x times its conjugate. */
  function Norm(x: Quat): real {
    Mul(x, Conj(x)).a
  }

  // ----- halves -----

  function C1(x: Quat): C.Complex {
    C.Complex(x.a, x.b)
  }

  function C2(x: Quat): C.Complex {
    C.Complex(x.c, x.d)
  }

  lemma MulFirstHalf(x: Quat, y: Quat)
    ensures C1(Mul(x, y)) == C.Sub(C.Mul(C1(x), C1(y)), C.Mul(C.Conj(C2(y)), C2(x)))
  {
  }

  lemma MulSecondHalf(x: Quat, y: Quat)
    ensures C2(Mul(x, y)) == C.Add(C.Mul(C2(y), C1(x)), C.Mul(C2(x), C.Conj(C1(y))))
  {
  }

  lemma MulByHalves(x: Quat, y: Quat)
    ensures C1(Mul(x, y)) == C.Sub(C.Mul(C1(x), C1(y)), C.Mul(C.Conj(C2(y)), C2(x)))
    ensures C2(Mul(x, y)) == C.Add(C.Mul(C2(y), C1(x)), C.Mul(C2(x), C.Conj(C1(y))))
  {
    hide Mul, C.Mul;
    MulFirstHalf(x, y);
    MulSecondHalf(x, y);
  }

  lemma ScaleByHalves(k: real, x: Quat)
    ensures C1(Scale(k, x)) == C.Scale(k, C1(x)) && C2(Scale(k, x)) == C.Scale(k, C2(x))
  {
  }

  // ----- multiplication is bilinear and associative, conjugation reverses it -----

  lemma MulOverAdd(x: Quat, y: Quat, z: Quat)
    ensures Mul(x, Add(y, z)) == Add(Mul(x, y), Mul(x, z))
  {
    hide Mul, C.Mul;
    var p, q, r, s, t, u := C1(x), C2(x), C1(y), C2(y), C1(z), C2(z);
    MulByHalves(x, Add(y, z));
    MulByHalves(x, y);
    MulByHalves(x, z);
    C.MulOverAdd(p, r, t);
    C.AddTimes(C.Conj(s), C.Conj(u), q);
    C.AddTimes(s, u, p);
    C.MulOverAdd(q, C.Conj(r), C.Conj(t));
    assert C1(Add(y, z)) == C.Add(r, t) && C2(Add(y, z)) == C.Add(s, u);
    assert C.Conj(C.Add(s, u)) == C.Add(C.Conj(s), C.Conj(u));
    assert C.Conj(C.Add(r, t)) == C.Add(C.Conj(r), C.Conj(t));
  }

  lemma ConjOfMul(x: Quat, y: Quat)
    ensures Conj(Mul(x, y)) == Mul(Conj(y), Conj(x))
  {
    hide Mul, C.Mul;
    var p, q, r, s := C1(x), C2(x), C1(y), C2(y);
    MulByHalves(x, y);
    MulByHalves(Conj(y), Conj(x));
    assert C1(Conj(x)) == C.Conj(p) && C2(Conj(x)) == C.Neg(q);
    assert C1(Conj(y)) == C.Conj(r) && C2(Conj(y)) == C.Neg(s);
    C.ConjOfSum(p, r, C.Conj(s), q);
    C.MulCommutes(C.Conj(p), C.Conj(r));
    C.NegTimes(C.Conj(q), C.Neg(s));
    C.NegTimes(C.Conj(q), s);
    C.MulCommutes(C.Conj(q), s);
    C.NegTimes(q, C.Conj(r));
    C.NegTimes(s, p);
    assert C.Conj(C.Neg(q)) == C.Neg(C.Conj(q));
    assert C.Conj(C.Conj(s)) == s && C.Conj(C.Conj(p)) == p;
  }

  lemma AddTimes(x: Quat, y: Quat, z: Quat)
    ensures Mul(Add(x, y), z) == Add(Mul(x, z), Mul(y, z))
  {
    hide Mul;
    MulOverAdd(Conj(z), Conj(x), Conj(y));
    ConjOfMul(Add(x, y), z);
    ConjOfMul(x, z);
    ConjOfMul(y, z);
    assert Conj(Add(x, y)) == Add(Conj(x), Conj(y));
  }

  lemma SubTimes(x: Quat, y: Quat, z: Quat)
    ensures Mul(Sub(x, y), z) == Sub(Mul(x, z), Mul(y, z))
  {
    hide Mul;
    AddTimes(Sub(x, y), y, z);
    assert Add(Sub(x, y), y) == x;
  }

  lemma MulOverSub(x: Quat, y: Quat, z: Quat)
    ensures Mul(x, Sub(y, z)) == Sub(Mul(x, y), Mul(x, z))
  {
    hide Mul;
    MulOverAdd(x, Sub(y, z), z);
    assert Add(Sub(y, z), z) == y;
  }

  /** With x = (p, q), y = (r, s), z = (t, u), both sides expand to the same eight products. */
  lemma MulAssociates(x: Quat, y: Quat, z: Quat)
    ensures Mul(Mul(x, y), z) == Mul(x, Mul(y, z))
  {
    hide Mul, C.Mul;
    var p, q, r, s, t, u := C1(x), C2(x), C1(y), C2(y), C1(z), C2(z);
    var r', s', t', u' := C.Conj(r), C.Conj(s), C.Conj(t), C.Conj(u);
    MulByHalves(x, y);
    MulByHalves(y, z);
    assert C1(Mul(Mul(x, y), z)) == C1(Mul(x, Mul(y, z))) by {
      MulFirstHalf(Mul(x, y), z);
      MulFirstHalf(x, Mul(y, z));
      C.SubTimes(C.Mul(p, r), C.Mul(s', q), t);
      C.MulOverAdd(u', C.Mul(s, p), C.Mul(q, r'));
      C.MulOverSub(p, C.Mul(r, t), C.Mul(u', s));
      C.ConjOfSum(u, r, s, t');
      C.AddTimes(C.Mul(u', r'), C.Mul(s', t), q);
      C.MulReorders(p, r, t);
      C.MulReorders(s', q, t);
      C.MulReorders(u', s, p);
      C.MulReorders(u', r', q);
      C.MulCommutes(r', q);
    }
    assert C2(Mul(Mul(x, y), z)) == C2(Mul(x, Mul(y, z))) by {
      MulSecondHalf(Mul(x, y), z);
      MulSecondHalf(x, Mul(y, z));
      C.MulOverSub(u, C.Mul(p, r), C.Mul(s', q));
      C.AddTimes(C.Mul(s, p), C.Mul(q, r'), t');
      C.AddTimes(C.Mul(u, r), C.Mul(s, t'), p);
      C.ConjOfSum(r, t, u', s);
      C.MulOverSub(q, C.Mul(r', t'), C.Mul(u, s'));
      C.MulReorders(u, r, p);
      C.MulCommutes(r, p);
      C.MulReorders(u, s', q);
      C.MulReorders(s, p, t');
      C.MulReorders(q, r', t');
    }
  }

  // ----- scalars -----

  lemma ScaleTimes(k: real, x: Quat, y: Quat)
    ensures Mul(Scale(k, x), y) == Scale(k, Mul(x, y))
  {
    hide Mul, Scale, C.Mul, C.Scale, C.Add, C.Sub;
    var p, q, r, s := C1(x), C2(x), C1(y), C2(y);
    MulByHalves(x, y);
    MulByHalves(Scale(k, x), y);
    ScaleByHalves(k, x);
    ScaleByHalves(k, Mul(x, y));
    C.ScaleTimes(k, p, r);
    C.ScaleTimes(k, q, C.Conj(s));
    C.MulCommutes(q, C.Conj(s));
    C.MulCommutes(C.Scale(k, q), C.Conj(s));
    C.ScaleOverSum(k, C.Mul(p, r), C.Mul(C.Conj(s), q));
    C.ScaleTimes(k, p, s);
    C.MulCommutes(p, s);
    C.MulCommutes(C.Scale(k, p), s);
    C.ScaleTimes(k, q, C.Conj(r));
    C.ScaleOverSum(k, C.Mul(s, p), C.Mul(q, C.Conj(r)));
  }

  lemma ConjOfScale(k: real, x: Quat)
    ensures Conj(Scale(k, x)) == Scale(k, Conj(x))
  {
  }

  lemma TimesScale(k: real, x: Quat, y: Quat)
    ensures Mul(x, Scale(k, y)) == Scale(k, Mul(x, y))
  {
    hide Mul, Scale;
    ScaleTimes(k, Conj(y), Conj(x));
    ConjOfMul(x, Scale(k, y));
    ConjOfMul(x, y);
    ConjOfScale(k, y);
    ConjOfScale(k, Mul(x, y));
    assert Conj(Conj(Mul(x, Scale(k, y)))) == Mul(x, Scale(k, y));
  }

  lemma ScalarTimes(k: real, x: Quat)
    ensures Mul(Scale(k, ONE), x) == Scale(k, x) == Mul(x, Scale(k, ONE))
  {
  }

  lemma NegTimes(x: Quat, y: Quat)
    ensures Mul(Neg(x), y) == Neg(Mul(x, y)) == Mul(x, Neg(y))
  {
    hide Mul;
    SubTimes(ZERO, x, y);
    MulOverSub(x, ZERO, y);
    ScalarTimes(0.0, x);
    ScalarTimes(0.0, y);
    assert Neg(x) == Sub(ZERO, x) && Neg(y) == Sub(ZERO, y) && Scale(0.0, ONE) == ZERO;
  }

  lemma ScaleOverSum(k: real, x: Quat, y: Quat)
    ensures Scale(k, Add(x, y)) == Add(Scale(k, x), Scale(k, y))
    ensures Scale(k, Sub(x, y)) == Sub(Scale(k, x), Scale(k, y))
  {
    hide Scale, C.Scale;
    var p, q, r, s := C1(x), C2(x), C1(y), C2(y);
    ScaleByHalves(k, x);
    ScaleByHalves(k, y);
    ScaleByHalves(k, Add(x, y));
    ScaleByHalves(k, Sub(x, y));
    C.ScaleOverSum(k, p, r);
    C.ScaleOverSum(k, q, s);
    assert C1(Add(x, y)) == C.Add(p, r) && C2(Add(x, y)) == C.Add(q, s);
    assert C1(Sub(x, y)) == C.Sub(p, r) && C2(Sub(x, y)) == C.Sub(q, s);
  }

  lemma SumOfScales(j: real, k: real, x: Quat)
    ensures Scale(j + k, x) == Add(Scale(j, x), Scale(k, x))
  {
  }

  lemma ScaleScale(j: real, k: real, l: real, x: Quat)
    requires j * k == l
    ensures Scale(j, Scale(k, x)) == Scale(l, x)
  {
    var y := Scale(k, x);
    RealArithmetic.ProductAssociates(j, k, l, x.a, y.a);
    RealArithmetic.ProductAssociates(j, k, l, x.b, y.b);
    RealArithmetic.ProductAssociates(j, k, l, x.c, y.c);
    RealArithmetic.ProductAssociates(j, k, l, x.d, y.d);
  }

  // ----- the norm -----

  lemma MulConj(x: Quat)
    ensures Mul(x, Conj(x)) == Scale(Norm(x), ONE) == Mul(Conj(x), x)
  {
  }

  lemma RealOfMul(x: Quat, y: Quat)
    ensures Mul(x, y).a == Mul(y, x).a
  {
  }

  lemma NormOfConj(x: Quat)
    ensures Norm(Conj(x)) == Norm(x)
  {
  }

  lemma NormOfAdd(x: Quat, y: Quat)
    ensures Norm(Add(x, y)) == Norm(x) + Norm(y) + 2.0 * Mul(x, Conj(y)).a
  {
    hide Mul;
    assert Conj(Add(x, y)) == Add(Conj(x), Conj(y));
    MulOverAdd(Add(x, y), Conj(x), Conj(y));
    AddTimes(x, y, Conj(x));
    AddTimes(x, y, Conj(y));
    ConjOfMul(x, Conj(y));
    assert Conj(Conj(y)) == y;
  }

  lemma NormOfSub(x: Quat, y: Quat)
    ensures Norm(Sub(x, y)) == Norm(x) + Norm(y) - 2.0 * Mul(x, Conj(y)).a
  {
    hide Mul;
    assert Conj(Sub(x, y)) == Sub(Conj(x), Conj(y));
    MulOverSub(Sub(x, y), Conj(x), Conj(y));
    SubTimes(x, y, Conj(x));
    SubTimes(x, y, Conj(y));
    ConjOfMul(x, Conj(y));
    assert Conj(Conj(y)) == y;
  }

  /** The four-square identity. */
  lemma NormOfMul(x: Quat, y: Quat)
    ensures Norm(Mul(x, y)) == Norm(x) * Norm(y)
  {
    hide Mul, Norm;
    var z := Mul(x, y);
    ConjOfMul(x, y);
    MulAssociates(x, y, Mul(Conj(y), Conj(x)));
    MulAssociates(y, Conj(y), Conj(x));
    MulConj(y);
    ScalarTimes(Norm(y), Conj(x));
    TimesScale(Norm(y), x, Conj(x));
    MulConj(x);
    MulConj(z);
    assert Scale(Norm(z), ONE).a == Scale(Norm(y), Scale(Norm(x), ONE)).a;
  }
}
