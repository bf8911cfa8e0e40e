/**
 * The `octonion` class, whose operators update its eight components in place, and `pow`. The
 * operand of an operator may be the very object it updates, as in `result *= result`.
 */
module OctonionObjects {

  import C = ComplexNumbers
  import D = Division
  import H = Quaternions
  import M = MixedOperands
  import O = Octonions
  import P = Powers
  import V = Valarrays

  class Octonion {
    var a: real
    var b: real
    var c: real
    var d: real
    var e: real
    var f: real
    var g: real
    var h: real

    function Value(): O.Oct
      reads this
    {
      O.Oct(a, b, c, d, e, f, g, h)
    }

    constructor (a: real, b: real, c: real, d: real, e: real, f: real, g: real, h: real)
      ensures Value() == O.Oct(a, b, c, d, e, f, g, h)
    {
      this.a, this.b, this.c, this.d, this.e, this.f, this.g, this.h := a, b, c, d, e, f, g, h;
    }

    constructor Copy(o: Octonion)
      ensures Value() == o.Value()
    {
      a, b, c, d, e, f, g, h := o.a, o.b, o.c, o.d, o.e, o.f, o.g, o.h;
    }

    method Assign(t: O.Oct)
      modifies this
      ensures Value() == t
    {
      a := t.a;
      b := t.b;
      c := t.c;
      d := t.d;
      e := t.e;
      f := t.f;
      g := t.g;
      h := t.h;
    }

    /** `*=` by an octonion */
    method MulAssign(rhs: Octonion)
      modifies this
      ensures Value() == O.Mul(old(Value()), old(rhs.Value()))
    {
      hide O.Mul;
      Assign(O.Mul(Value(), rhs.Value()));
    }

    /** `*=` by a quaternion, which takes three of its four components from the second one */
    method MulAssignQuaternion(rhs: H.Quat)
      modifies this
      ensures Value() == M.MulByQuaternion(old(Value()), rhs)
      ensures Value() == O.Mul(old(Value()), O.OfQuat(H.Quat(rhs.a, rhs.b, rhs.b, rhs.b)))
      ensures Value() == O.Mul(old(Value()), O.OfQuat(rhs))
         <==> old(Value()) == O.ZERO || (rhs.c == rhs.b && rhs.d == rhs.b)
    {
      hide M.QuaternionProduct, O.Mul;
      var ar := rhs.a;
      var br := rhs.b;
      var cr := rhs.b;
      var dr := rhs.b;
      M.MulByQuaternionAgrees(Value(), rhs);
      M.MulByQuaternionValue(Value(), rhs);
      Assign(M.QuaternionProduct(Value(), ar, br, cr, dr));
    }

    /** The generic `/=` by an octonion */
    method DivAssign(rhs: Octonion)
      requires rhs.Value() != O.ZERO
      modifies this
      ensures Value() == D.Div(old(Value()), old(rhs.Value()))
    {
      hide O.Mul, O.Norm, D.Numerators;
      var x, r := Value(), rhs.Value();
      var denominator := r.a * r.a + r.b * r.b + r.c * r.c + r.d * r.d
                       + r.e * r.e + r.f * r.f + r.g * r.g + r.h * r.h;
      O.NormIsSumOfSquares(r);
      D.DivByDenominator(x, r, denominator);
      D.NumeratorsAreProduct(x, r);
      var t := D.Numerators(x, r);
      Quotients(denominator, t);
      Assign(O.Oct(t.a / denominator, t.b / denominator, t.c / denominator, t.d / denominator,
                   t.e / denominator, t.f / denominator, t.g / denominator, t.h / denominator));
    }

    /**
     * The generic `/=` by a quaternion, with the same misread components. Where the source divides
     * by zero there is no quotient: the result is false, and the object keeps its value.
     */
    method DivAssignQuaternion(rhs: H.Quat) returns (defined: bool)
      modifies this
      ensures defined <==> rhs.a != 0.0 || rhs.b != 0.0
      ensures if defined then M.DivByQuaternion(old(Value()), rhs) == M.Quotient(Value())
              else M.DivByQuaternion(old(Value()), rhs) == M.Undefined && Value() == old(Value())
      ensures rhs != H.ZERO ==> O.OfQuat(rhs) != O.ZERO
      ensures rhs != H.ZERO ==>
                ((defined && Value() == D.Div(old(Value()), O.OfQuat(rhs)))
                 <==>
                 ((rhs.a != 0.0 || rhs.b != 0.0) && (old(Value()) == O.ZERO || (rhs.c == rhs.b && rhs.d == rhs.b))))
    {
      hide D.QuaternionNumerators, D.Div, M.SumOfSquares;
      var ar := rhs.a;
      var br := rhs.b;
      var cr := rhs.b;
      var dr := rhs.b;
      var denominator := M.SumOfSquares(ar, br, cr, dr);
      M.DenominatorVanishes(rhs);
      if rhs != H.ZERO {
        M.DivByQuaternionAgrees(Value(), rhs);
      }
      if denominator == 0.0 {
        return false;
      }
      defined := true;
      var t := D.QuaternionNumerators(Value(), H.Quat(ar, br, cr, dr));
      Quotients(denominator, t);
      Assign(O.Oct(t.a / denominator, t.b / denominator, t.c / denominator, t.d / denominator,
                   t.e / denominator, t.f / denominator, t.g / denominator, t.h / denominator));
    }

    /** The generic `/=` by a complex number, two of whose sums have a wrong sign */
    method DivAssignComplex(rhs: C.Complex)
      requires rhs.re != 0.0 || rhs.im != 0.0
      modifies this
      ensures Value() == M.DivByComplex(old(Value()), rhs)
      ensures Value() == D.Div(old(Value()), M.OfComplex(rhs))
         <==> rhs.im == 0.0 || (old(b) == 0.0 && old(g) == 0.0)
    {
      hide M.ComplexSums, D.Div;
      var denominator := M.SumOfSquares(rhs.re, rhs.im, 0.0, 0.0);
      M.ComplexDenominator(rhs);
      M.DivByComplexAgrees(Value(), rhs);
      var t := M.ComplexSums(Value(), rhs);
      Quotients(denominator, t);
      Assign(O.Oct(t.a / denominator, t.b / denominator, t.c / denominator, t.d / denominator,
                   t.e / denominator, t.f / denominator, t.g / denominator, t.h / denominator));
    }

    /** The `/=` by a scalar of the float, double and long double octonions, which stops half way */
    method DivAssignScalar(rhs: real)
      requires rhs != 0.0
      modifies this
      ensures Value() == M.DivByScalar(old(Value()), rhs)
      ensures a == old(a) / rhs && b == old(b) / rhs && c == old(c) / rhs && d == old(d) / rhs
      ensures e == old(e) && f == old(f) && g == old(g) && h == old(h)
      ensures O.Scale(rhs, O.ONE) != O.ZERO
      ensures Value() == D.Div(old(Value()), O.Scale(rhs, O.ONE))
         <==> rhs == 1.0 || old(e) == old(f) == old(g) == old(h) == 0.0
    {
      hide D.Div, O.Scale;
      M.DivByScalarAgrees(Value(), rhs);
      a := a / rhs;
      b := b / rhs;
      c := c / rhs;
      d := d / rhs;
    }

    /** The `/=` by a quaternion of the float, double and long double octonions */
    method DivAssignQuaternionScaled(rhs: H.Quat)
      requires rhs != H.ZERO
      modifies this
      ensures O.OfQuat(rhs) != O.ZERO
      ensures Value() == D.Div(old(Value()), O.OfQuat(rhs))
    {
      hide O.Mul, O.Norm, O.Scale, H.Scale, D.QuaternionNumerators, D.Div, V.Scaled, V.Squared, V.Sum;
      assert O.H1(O.OfQuat(rhs)) == rhs && O.H1(O.ZERO) == H.ZERO;
      var x := Value();
      var tr := new real[][rhs.a, rhs.b, rhs.c, rhs.d];
      assert tr[..] == QuaternionComponents(rhs);
      var maxim := V.AbsMax(tr);
      QuaternionMaximIsPositive(rhs, maxim);
      var mixam := 1.0 / maxim;
      V.MulScalar(tr, mixam);
      ScaledQuaternionComponents(mixam, rhs);
      ghost var y := H.Scale(mixam, rhs);
      assert tr[..] == QuaternionComponents(y);
      var t := D.QuaternionNumerators(x, H.Quat(tr[0], tr[1], tr[2], tr[3]));
      V.MulSelf(tr);
      SumOfSquaredQuaternionComponents(y);
      D.QuaternionNumeratorsAreProduct(x, y);
      EmbeddedScale(mixam, rhs);
      D.ScaledDivision(mixam, x, O.OfQuat(rhs));
      var tt := new real[][t.a, t.b, t.c, t.d, t.e, t.f, t.g, t.h];
      assert tt[..] == Components(t);
      var sum := V.SumOf(tr);
      V.MulScalar(tt, mixam / sum);
      ScaledComponents(mixam / sum, t);
      Assign(OfComponents(tt[..]));
    }

    /** The `/=` by an octonion of the float, double and long double octonions */
    method DivAssignScaled(rhs: Octonion)
      requires rhs.Value() != O.ZERO
      modifies this
      ensures Value() == D.Div(old(Value()), old(rhs.Value()))
    {
      hide O.Mul, O.Norm, O.Scale, D.Numerators, D.Div, V.Scaled, V.Squared, V.Sum;
      var x, r := Value(), rhs.Value();
      var tr := new real[][r.a, r.b, r.c, r.d, r.e, r.f, r.g, r.h];
      assert tr[..] == Components(r);
      var maxim := V.AbsMax(tr);
      MaximIsPositive(r, maxim);
      var mixam := 1.0 / maxim;
      V.MulScalar(tr, mixam);
      ScaledComponents(mixam, r);
      ghost var y := O.Scale(mixam, r);
      assert tr[..] == Components(y);
      var t := D.Numerators(x, OfComponents(tr[..]));
      V.MulSelf(tr);
      SumOfSquaredComponents(y);
      D.NumeratorsAreProduct(x, y);
      D.ScaledDivision(mixam, x, r);
      var tt := new real[][t.a, t.b, t.c, t.d, t.e, t.f, t.g, t.h];
      assert tt[..] == Components(t);
      var sum := V.SumOf(tr);
      V.MulScalar(tt, mixam / sum);
      ScaledComponents(mixam / sum, t);
      Assign(OfComponents(tt[..]));
    }
  }

  function QuaternionComponents(r: H.Quat): seq<real> {
    [r.a, r.b, r.c, r.d]
  }

  lemma ScaledQuaternionComponents(k: real, r: H.Quat)
    ensures V.Scaled(QuaternionComponents(r), k) == QuaternionComponents(H.Scale(k, r))
  {
    var s, t := V.Scaled(QuaternionComponents(r), k), QuaternionComponents(H.Scale(k, r));
    assert forall i :: 0 <= i < 4 ==> s[i] == t[i];
  }

  lemma SumOfSquaredQuaternionComponents(r: H.Quat)
    ensures V.Sum(V.Squared(QuaternionComponents(r))) == O.Norm(O.OfQuat(r))
  {
    hide V.Sum, O.Norm;
    V.SumOfFour(V.Squared(QuaternionComponents(r)));
    M.NormOfOfQuat(r);
  }

  lemma QuaternionMaximIsPositive(r: H.Quat, maxim: real)
    requires r != H.ZERO
    requires forall i :: 0 <= i < 4 ==> V.Abs(QuaternionComponents(r)[i]) <= maxim
    ensures maxim > 0.0
  {
    var s := QuaternionComponents(r);
    assert V.Abs(s[0]) <= maxim && V.Abs(s[1]) <= maxim && V.Abs(s[2]) <= maxim && V.Abs(s[3]) <= maxim;
  }

  lemma EmbeddedScale(k: real, r: H.Quat)
    ensures O.OfQuat(H.Scale(k, r)) == O.Scale(k, O.OfQuat(r))
  {
    O.OfQuatIsHomomorphism(k, r, r);
  }

  function Components(x: O.Oct): seq<real> {
    [x.a, x.b, x.c, x.d, x.e, x.f, x.g, x.h]
  }

  function OfComponents(s: seq<real>): O.Oct
    requires |s| == 8
  {
    O.Oct(s[0], s[1], s[2], s[3], s[4], s[5], s[6], s[7])
  }

  lemma ScaledComponents(k: real, x: O.Oct)
    ensures V.Scaled(Components(x), k) == Components(O.Scale(k, x))
  {
    hide O.Scale;
    var s, t := V.Scaled(Components(x), k), Components(O.Scale(k, x));
    ScaleCommutes(k, x);
    assert forall i :: 0 <= i < 8 ==> s[i] == t[i];
  }

  lemma ScaleCommutes(k: real, x: O.Oct)
    ensures O.Scale(k, x) == O.Oct(x.a * k, x.b * k, x.c * k, x.d * k, x.e * k, x.f * k, x.g * k, x.h * k)
  {
  }

  lemma SumOfSquaredComponents(x: O.Oct)
    ensures V.Sum(V.Squared(Components(x))) == O.Norm(x)
  {
    hide V.Sum, O.Norm;
    V.SumOfEight(V.Squared(Components(x)));
    O.NormIsSumOfSquares(x);
  }

  lemma MaximIsPositive(x: O.Oct, maxim: real)
    requires x != O.ZERO
    requires forall i :: 0 <= i < 8 ==> V.Abs(Components(x)[i]) <= maxim
    ensures maxim > 0.0
  {
    var s := Components(x);
    assert V.Abs(s[0]) <= maxim && V.Abs(s[1]) <= maxim && V.Abs(s[2]) <= maxim && V.Abs(s[3]) <= maxim;
    assert V.Abs(s[4]) <= maxim && V.Abs(s[5]) <= maxim && V.Abs(s[6]) <= maxim && V.Abs(s[7]) <= maxim;
  }

  lemma Quotients(n: real, x: O.Oct)
    requires n != 0.0
    ensures O.Scale(1.0 / n, x) == O.Oct(x.a / n, x.b / n, x.c / n, x.d / n, x.e / n, x.f / n, x.g / n, x.h / n)
  {
    hide O.Scale, H.Scale;
    O.ScaleByHalves(1.0 / n, x);
    QuaternionQuotients(n, O.H1(x));
    QuaternionQuotients(n, O.H2(x));
  }

  lemma QuaternionQuotients(n: real, p: H.Quat)
    requires n != 0.0
    ensures H.Scale(1.0 / n, p) == H.Quat(p.a / n, p.b / n, p.c / n, p.d / n)
  {
  }

  method Pow(o: Octonion, n: int) returns (result: Octonion)
    requires n < 0 ==> o.Value() != O.ZERO
    ensures fresh(result) && result.Value() == P.IntPower(o.Value(), n)
    decreases n < 0, if n < 0 then -n else n
  {
    hide O.Mul, D.Div;
    if n > 1 {
      var m := n / 2;
      result := Pow(o, m);
      P.PowerOfSum(o.Value(), m, m);
      result.MulAssign(result);
      if n != m + m {
        result.MulAssign(o);
      }
    } else if n == 1 {
      P.PowerOne(o.Value());
      result := new Octonion.Copy(o);
    } else if n == 0 {
      result := new Octonion(1.0, 0.0, 0.0, 0.0, 0.0, 0.0, 0.0, 0.0);
    } else {
      var inverse := new Octonion(1.0, 0.0, 0.0, 0.0, 0.0, 0.0, 0.0, 0.0);
      inverse.DivAssign(o);
      result := Pow(inverse, -n);
    }
  }
}
