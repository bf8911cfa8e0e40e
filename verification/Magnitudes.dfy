/**
 * `abs`: the square root of the Cayley norm, evaluated after scaling by the largest component so
 * that no square overflows. The square root is a parameter.
 */
module Magnitudes {

  import O = Octonions
  import H = Quaternions
  import D = Division
  import K = OctonionObjects
  import R = RealArithmetic
  import V = Valarrays

  /** r is the square root of v. */
  predicate IsRoot(r: real, v: real) {
    r >= 0.0 && r * r == v
  }

  ghost predicate IsSqrt(sqrt: real -> real) {
    forall v :: v >= 0.0 ==> IsRoot(sqrt(v), v)
  }

  function Max(v: real, w: real): real {
    if v < w then w else v
  }

  /** `sup`: the largest absolute value of a component */
  function Sup(q: H.Quat): (m: real)
    ensures forall i :: 0 <= i < 4 ==> V.Abs(K.QuaternionComponents(q)[i]) <= m
    ensures exists i :: 0 <= i < 4 && V.Abs(K.QuaternionComponents(q)[i]) == m
    ensures m == 0.0 <==> q == H.ZERO
  {
    var s := K.QuaternionComponents(q);
    var m := Max(Max(V.Abs(q.a), V.Abs(q.b)), Max(V.Abs(q.c), V.Abs(q.d)));
    assert m == V.Abs(s[0]) || m == V.Abs(s[1]) || m == V.Abs(s[2]) || m == V.Abs(s[3]);
    m
  }

  method AbsQuaternion(q: H.Quat, sqrt: real -> real) returns (r: real)
    requires IsSqrt(sqrt)
    ensures IsRoot(r, O.Norm(O.OfQuat(q)))
  {
    hide O.Norm, O.Scale, H.Scale, IsRoot, Sup, V.Abs;
    var maxim := Sup(q);
    if maxim == 0.0 {
      ZeroNorm();
      RootOfZero();
      return maxim;
    }
    QuaternionNotZero(q, maxim);
    var mixam := 1.0 / maxim;
    var a, b, c, d := q.a * mixam, q.b * mixam, q.c * mixam, q.d * mixam;
    ScaledSquares(mixam, q, a, b, c, d);
    a := a * a;
    b := b * b;
    c := c * c;
    d := d * d;
    var sum := a + b + c + d;
    r := maxim * sqrt(sum);
    ScaledBack(sqrt, maxim, mixam, O.OfQuat(q), sum, r);
  }

  lemma QuaternionNotZero(q: H.Quat, maxim: real)
    requires maxim == Sup(q) && maxim != 0.0
    ensures maxim > 0.0
  {
    K.QuaternionMaximIsPositive(q, maxim);
  }

  lemma ScaledSquares(k: real, q: H.Quat, a: real, b: real, c: real, d: real)
    requires a == q.a * k && b == q.b * k && c == q.c * k && d == q.d * k
    ensures a * a + b * b + c * c + d * d == O.Norm(O.Scale(k, O.OfQuat(q)))
  {
    hide O.Norm, O.Scale;
    assert H.Quat(a, b, c, d) == H.Scale(k, q);
    K.EmbeddedScale(k, q);
    NormOfEmbedded(H.Quat(a, b, c, d));
  }

  lemma NormOfEmbedded(q: H.Quat)
    ensures O.Norm(O.OfQuat(q)) == q.a * q.a + q.b * q.b + q.c * q.c + q.d * q.d
  {
    hide O.Norm;
    O.NormIsSumOfSquares(O.OfQuat(q));
    assert 0.0 * 0.0 == 0.0;
  }

  lemma RootOfZero()
    ensures IsRoot(0.0, 0.0)
  {
  }

  lemma ZeroNorm()
    ensures O.Norm(O.ZERO) == 0.0 && O.OfQuat(H.ZERO) == O.ZERO
  {
    hide O.Norm;
    O.NormIsPositive(O.ZERO);
  }

  method AbsOctonion(o: O.Oct, sqrt: real -> real) returns (r: real)
    requires IsSqrt(sqrt)
    ensures IsRoot(r, O.Norm(o))
  {
    hide O.Norm, O.Scale, V.Sum, V.Squared, V.Scaled, V.Abs, IsRoot;
    var temp := new real[][o.a, o.b, o.c, o.d, o.e, o.f, o.g, o.h];
    assert temp[..] == K.Components(o);
    var maxim := V.AbsMax(temp);
    if maxim == 0.0 {
      OctonionNotZero(o, maxim);
      ZeroNorm();
      RootOfZero();
      return maxim;
    }
    OctonionNotZero(o, maxim);
    var mixam := 1.0 / maxim;
    V.MulScalar(temp, mixam);
    K.ScaledComponents(mixam, o);
    V.MulSelf(temp);
    K.SumOfSquaredComponents(O.Scale(mixam, o));
    var sum := V.SumOf(temp);
    r := maxim * sqrt(sum);
    ScaledBack(sqrt, maxim, mixam, o, sum, r);
  }

  lemma OctonionNotZero(o: O.Oct, maxim: real)
    requires forall i :: 0 <= i < 8 ==> V.Abs(K.Components(o)[i]) <= maxim
    requires exists i :: 0 <= i < 8 && V.Abs(K.Components(o)[i]) == maxim
    ensures if maxim == 0.0 then o == O.ZERO else maxim > 0.0
  {
    if o != O.ZERO {
      K.MaximIsPositive(o, maxim);
    }
  }

  /** Scaling before and after taking the root gives the root of the norm. */
  lemma ScaledBack(sqrt: real -> real, k: real, l: real, o: O.Oct, sum: real, r: real)
    requires IsSqrt(sqrt) && k > 0.0 && l == 1.0 / k
    requires sum == O.Norm(O.Scale(l, o)) && r == k * sqrt(sum)
    ensures IsRoot(r, O.Norm(o))
  {
    hide O.Norm, O.Scale, IsRoot;
    O.ScaleScale(k, l, 1.0, o);
    O.ScaleOne(o);
    O.NormIsPositive(O.Scale(l, o));
    D.NormOfScale(k, O.Scale(l, o));
    RootOfScaled(k, sqrt(sum), sum, r, O.Norm(o));
  }

  lemma RootOfScaled(k: real, q: real, u: real, r: real, v: real)
    requires k > 0.0 && IsRoot(q, u) && r == k * q && v == k * k * u
    ensures IsRoot(r, v)
  {
    assert r * r == k * k * (q * q);
  }

  // ----- laws -----

  lemma SquareGrows(r: real, u: real)
    requires 0.0 <= r < u
    ensures r * r < u * u
  {
    R.ProductOfPositives(u - r, u + r, (u - r) * (u + r));
    assert u * u == r * r + (u - r) * (u + r);
  }

  /** The root of v is the greatest number whose square is at most v. */
  lemma RootIsGreatest(r: real, u: real, v: real)
    requires IsRoot(r, v) && u >= 0.0 && u * u <= v
    ensures u <= r
  {
    if u > r {
      SquareGrows(r, u);
    }
  }

  /** The magnitude of a product is the product of the magnitudes. */
  lemma MagnitudeOfMul(x: O.Oct, y: O.Oct, u: real, v: real, w: real)
    requires IsRoot(u, O.Norm(x)) && IsRoot(v, O.Norm(y))
    ensures IsRoot(w, O.Norm(O.Mul(x, y))) <==> w == u * v
  {
    hide O.Norm, O.Mul;
    O.NormOfMul(x, y);
    assert u * v * (u * v) == u * u * (v * v);
    if IsRoot(w, O.Norm(O.Mul(x, y))) {
      RootIsGreatest(w, u * v, O.Norm(O.Mul(x, y)));
      RootIsGreatest(u * v, w, O.Norm(O.Mul(x, y)));
    }
  }

  lemma NormOfAdd(x: O.Oct, y: O.Oct)
    ensures O.Norm(O.Add(x, y)) == O.Norm(x) + O.Norm(y) + 2.0 * O.Mul(x, O.Conj(y)).a
  {
    hide O.Norm, O.Mul, H.Mul, H.Norm;
    var p, q, r, s := O.H1(x), O.H2(x), O.H1(y), O.H2(y);
    O.NormByHalves(x);
    O.NormByHalves(y);
    O.NormByHalves(O.Add(x, y));
    assert O.H1(O.Add(x, y)) == H.Add(p, r) && O.H2(O.Add(x, y)) == H.Add(q, s);
    H.NormOfAdd(p, r);
    H.NormOfAdd(q, s);
    O.MulByHalves(x, O.Conj(y));
    assert O.H1(O.Conj(y)) == H.Conj(r) && O.H2(O.Conj(y)) == H.Neg(s);
    assert H.Conj(H.Neg(s)) == H.Neg(H.Conj(s));
    H.NegTimes(H.Conj(s), q);
    H.RealOfMul(H.Conj(s), q);
  }

  lemma RealPartIsBounded(x: O.Oct)
    ensures x.a * x.a <= O.Norm(x)
  {
    hide O.Norm;
    O.NormIsSumOfSquares(x);
    R.SquareSign(x.b, x.b * x.b);
    R.SquareSign(x.c, x.c * x.c);
    R.SquareSign(x.d, x.d * x.d);
    R.SquareSign(x.e, x.e * x.e);
    R.SquareSign(x.f, x.f * x.f);
    R.SquareSign(x.g, x.g * x.g);
    R.SquareSign(x.h, x.h * x.h);
  }

  /** The real part of x times the conjugate of y is at most the product of the magnitudes. */
  lemma CauchySchwarz(x: O.Oct, y: O.Oct, u: real, v: real)
    requires IsRoot(u, O.Norm(x)) && IsRoot(v, O.Norm(y))
    ensures O.Mul(x, O.Conj(y)).a <= u * v
  {
    hide O.Norm, O.Mul;
    var z := O.Mul(x, O.Conj(y));
    O.NormOfMul(x, O.Conj(y));
    O.NormOfConj(y);
    RealPartIsBounded(z);
    MagnitudeOfMul(x, O.Conj(y), u, v, u * v);
    if z.a >= 0.0 {
      RootIsGreatest(u * v, z.a, O.Norm(z));
    }
  }

  lemma TriangleInequality(x: O.Oct, y: O.Oct, u: real, v: real, w: real)
    requires IsRoot(u, O.Norm(x)) && IsRoot(v, O.Norm(y)) && IsRoot(w, O.Norm(O.Add(x, y)))
    ensures w <= u + v
  {
    hide O.Norm, O.Mul;
    NormOfAdd(x, y);
    CauchySchwarz(x, y, u, v);
    var s := (u + v) * (u + v);
    assert s == u * u + v * v + 2.0 * (u * v);
    RootIsGreatest(u + v, w, s);
  }
}
