/** Exact complex numbers. A quaternion is an ordered pair of them. */
module ComplexNumbers {

  datatype Complex = Complex(re: real, im: real)

  function Add(x: Complex, y: Complex): Complex {
    Complex(x.re + y.re, x.im + y.im)
  }

  function Sub(x: Complex, y: Complex): Complex {
    Complex(x.re - y.re, x.im - y.im)
  }

  function Neg(x: Complex): Complex {
    Complex(-x.re, -x.im)
  }

  function Scale(k: real, x: Complex): Complex {
    Complex(k * x.re, k * x.im)
  }

  function Conj(x: Complex): Complex {
    Complex(x.re, -x.im)
  }

  function Mul(x: Complex, y: Complex): Complex {
    Complex(x.re * y.re - x.im * y.im, x.re * y.im + x.im * y.re)
  }

  lemma MulCommutes(x: Complex, y: Complex)
    ensures Mul(x, y) == Mul(y, x)
  {
  }

  lemma MulAssociates(x: Complex, y: Complex, z: Complex)
    ensures Mul(Mul(x, y), z) == Mul(x, Mul(y, z))
  {
  }

  /** The bracketings and orders in which quaternion multiplication meets a product of three. */
  lemma MulReorders(x: Complex, y: Complex, z: Complex)
    ensures Mul(Mul(x, y), z) == Mul(Mul(x, z), y) == Mul(z, Mul(x, y)) == Mul(x, Mul(y, z))
  {
    hide Mul;
    MulAssociates(x, y, z);
    MulAssociates(x, z, y);
    MulCommutes(y, z);
    MulCommutes(Mul(x, y), z);
  }

  lemma MulOverAdd(x: Complex, y: Complex, z: Complex)
    ensures Mul(x, Add(y, z)) == Add(Mul(x, y), Mul(x, z))
  {
  }

  lemma MulOverSub(x: Complex, y: Complex, z: Complex)
    ensures Mul(x, Sub(y, z)) == Sub(Mul(x, y), Mul(x, z))
  {
  }

  lemma AddTimes(x: Complex, y: Complex, z: Complex)
    ensures Mul(Add(x, y), z) == Add(Mul(x, z), Mul(y, z))
  {
    hide Mul;
    MulOverAdd(z, x, y);
    MulCommutes(z, x);
    MulCommutes(z, y);
    MulCommutes(z, Add(x, y));
  }

  lemma SubTimes(x: Complex, y: Complex, z: Complex)
    ensures Mul(Sub(x, y), z) == Sub(Mul(x, z), Mul(y, z))
  {
    hide Mul;
    MulOverSub(z, x, y);
    MulCommutes(z, x);
    MulCommutes(z, y);
    MulCommutes(z, Sub(x, y));
  }

  lemma NegTimes(x: Complex, y: Complex)
    ensures Mul(Neg(x), y) == Neg(Mul(x, y)) == Mul(x, Neg(y))
  {
  }

  lemma ScaleTimes(k: real, x: Complex, y: Complex)
    ensures Mul(Scale(k, x), y) == Scale(k, Mul(x, y))
  {
  }

  lemma ScaleOverSum(k: real, x: Complex, y: Complex)
    ensures Scale(k, Add(x, y)) == Add(Scale(k, x), Scale(k, y))
    ensures Scale(k, Sub(x, y)) == Sub(Scale(k, x), Scale(k, y))
  {
  }

  lemma ConjOfMul(x: Complex, y: Complex)
    ensures Conj(Mul(x, y)) == Mul(Conj(x), Conj(y))
  {
  }

  lemma ConjOfSum(w: Complex, x: Complex, y: Complex, z: Complex)
    ensures Conj(Add(Mul(w, x), Mul(y, z))) == Add(Mul(Conj(w), Conj(x)), Mul(Conj(y), Conj(z)))
    ensures Conj(Sub(Mul(w, x), Mul(y, z))) == Sub(Mul(Conj(w), Conj(x)), Mul(Conj(y), Conj(z)))
  {
    hide Mul;
    ConjOfMul(w, x);
    ConjOfMul(y, z);
  }
}
