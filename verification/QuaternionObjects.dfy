/**
 * The `quaternion` class, whose operators build their result aside and swap it in, and `pow`.
 * The operand of an operator may be the very object it updates, as in `result *= result`.
 */
module QuaternionObjects {

  import H = Quaternions
  import Q = QuaternionPowers

  class Quaternion {
    var a: real
    var b: real
    var c: real
    var d: real

    function Value(): H.Quat
      reads this
    {
      H.Quat(a, b, c, d)
    }

    constructor (a: real, b: real, c: real, d: real)
      ensures Value() == H.Quat(a, b, c, d)
    {
      this.a, this.b, this.c, this.d := a, b, c, d;
    }

    constructor Copy(q: Quaternion)
      ensures Value() == q.Value()
    {
      a, b, c, d := q.a, q.b, q.c, q.d;
    }

    method Assign(t: H.Quat)
      modifies this
      ensures Value() == t
    {
      a := t.a;
      b := t.b;
      c := t.c;
      d := t.d;
    }

    method Swap(o: Quaternion)
      modifies this, o
      ensures Value() == old(o.Value()) && o.Value() == old(Value())
    {
      a, o.a := o.a, a;
      b, o.b := o.b, b;
      c, o.c := o.c, c;
      d, o.d := o.d, d;
    }

    method MulAssign(rhs: Quaternion)
      modifies this
      ensures Value() == H.Mul(old(Value()), old(rhs.Value()))
    {
      hide H.Mul;
      var t := H.Mul(Value(), rhs.Value());
      var result := new Quaternion(t.a, t.b, t.c, t.d);
      Swap(result);
    }

    method DivAssign(rhs: Quaternion)
      requires rhs.Value() != H.ZERO
      modifies this
      ensures Value() == Q.Div(old(Value()), old(rhs.Value()))
    {
      hide H.Mul, H.Norm, Q.Numerators;
      var x, r := Value(), rhs.Value();
      var denominator := r.a * r.a + r.b * r.b + r.c * r.c + r.d * r.d;
      Q.NormIsSumOfSquares(r);
      Q.DivByDenominator(x, r, denominator);
      Q.NumeratorsAreProduct(x, r);
      var t := Q.Numerators(x, r);
      var result := new Quaternion(t.a / denominator, t.b / denominator, t.c / denominator, t.d / denominator);
      Swap(result);
    }
  }

  method Pow(q: Quaternion, n: int) returns (result: Quaternion)
    requires n < 0 ==> q.Value() != H.ZERO
    ensures fresh(result) && result.Value() == Q.IntPower(q.Value(), n)
    decreases n < 0, if n < 0 then -n else n
  {
    hide H.Mul, Q.Div;
    if n > 1 {
      var m := n / 2;
      result := Pow(q, m);
      Q.PowerOfSum(q.Value(), m, m);
      result.MulAssign(result);
      if n != m + m {
        result.MulAssign(q);
      }
    } else if n == 1 {
      Q.PowerOne(q.Value());
      result := new Quaternion.Copy(q);
    } else if n == 0 {
      result := new Quaternion(1.0, 0.0, 0.0, 0.0);
    } else {
      var inverse := new Quaternion(1.0, 0.0, 0.0, 0.0);
      inverse.DivAssign(q);
      result := Pow(inverse, -n);
    }
  }
}
