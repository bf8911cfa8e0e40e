/**
 * Octonion multiplication is not associative. These lemmas say how far it is from being so:
 * the associator alternates, and the Moufang identities hold.
 */
module Alternativity {

  import opened Octonions

  /** How much the two bracketings of x y z differ. */
  function Associator(x: Oct, y: Oct, z: Oct): Oct {
    Sub(Mul(Mul(x, y), z), Mul(x, Mul(y, z)))
  }

  lemma ConjIsReflection(x: Oct)
    ensures Conj(x) == Sub(Scale(2.0 * x.a, ONE), x)
  {
  }

  /** Every octonion satisfies a quadratic equation with real coefficients. */
  lemma Square(x: Oct)
    ensures Mul(x, x) == Sub(Scale(2.0 * x.a, x), Scale(Norm(x), ONE))
  {
    hide Mul, Norm, Scale;
    ConjIsReflection(x);
    SubTimes(Scale(2.0 * x.a, ONE), x, x);
    ScalarTimes(2.0 * x.a, x);
    ConjTimesMul(x, ONE);
    MulOne(x);
  }

  lemma LeftAlternative(x: Oct, y: Oct)
    ensures Mul(Mul(x, x), y) == Mul(x, Mul(x, y))
  {
    hide Mul, Norm, Scale;
    var t := 2.0 * x.a;
    Square(x);
    SubTimes(Scale(t, x), Scale(Norm(x), ONE), y);
    ScaleTimes(t, x, y);
    ScalarTimes(Norm(x), y);
    ConjTimesMul(x, y);
    ConjIsReflection(x);
    SubTimes(Scale(t, ONE), x, Mul(x, y));
    ScalarTimes(t, Mul(x, y));
  }

  lemma RightAlternative(x: Oct, y: Oct)
    ensures Mul(Mul(y, x), x) == Mul(y, Mul(x, x))
  {
    hide Mul;
    LeftAlternative(Conj(x), Conj(y));
    ConjOfMul(x, x);
    ConjOfMul(y, x);
    ConjOfMul(Mul(y, x), x);
    ConjOfMul(y, Mul(x, x));
    ConjInvolutive(Mul(Mul(y, x), x));
    ConjInvolutive(Mul(y, Mul(x, x)));
  }

  /** The left alternative law at x + y, with its values at x and at y taken away. */
  lemma SwapLeft(x: Oct, y: Oct, z: Oct)
    ensures Add(Mul(Mul(x, y), z), Mul(Mul(y, x), z)) == Add(Mul(x, Mul(y, z)), Mul(y, Mul(x, z)))
  {
    hide Mul;
    var w := Add(x, y);
    LeftAlternative(w, z);
    LeftAlternative(x, z);
    LeftAlternative(y, z);
    AddTimes(x, y, w);
    MulOverAdd(x, x, y);
    MulOverAdd(y, x, y);
    AddTimes(Mul(x, w), Mul(y, w), z);
    AddTimes(Mul(x, x), Mul(x, y), z);
    AddTimes(Mul(y, x), Mul(y, y), z);
    AddTimes(x, y, z);
    AddTimes(x, y, Mul(w, z));
    MulOverAdd(x, Mul(x, z), Mul(y, z));
    MulOverAdd(y, Mul(x, z), Mul(y, z));
  }

  /** The same for the right alternative law. */
  lemma SwapRight(x: Oct, y: Oct, z: Oct)
    ensures Add(Mul(Mul(z, x), y), Mul(Mul(z, y), x)) == Add(Mul(z, Mul(x, y)), Mul(z, Mul(y, x)))
  {
    hide Mul;
    var w := Add(x, y);
    RightAlternative(w, z);
    RightAlternative(x, z);
    RightAlternative(y, z);
    MulOverAdd(z, x, y);
    AddTimes(Mul(z, x), Mul(z, y), w);
    MulOverAdd(Mul(z, x), x, y);
    MulOverAdd(Mul(z, y), x, y);
    AddTimes(x, y, w);
    MulOverAdd(x, x, y);
    MulOverAdd(y, x, y);
    MulOverAdd(z, Mul(x, w), Mul(y, w));
    MulOverAdd(z, Mul(x, x), Mul(x, y));
    MulOverAdd(z, Mul(y, x), Mul(y, y));
  }

  /** Exchanging two neighbouring operands negates the associator. */
  lemma AssociatorAlternates(x: Oct, y: Oct, z: Oct)
    ensures Add(Associator(x, y, z), Associator(y, x, z)) == ZERO
    ensures Add(Associator(x, y, z), Associator(x, z, y)) == ZERO
  {
    hide Mul;
    SwapLeft(x, y, z);
    SwapRight(y, z, x);
  }

  lemma Flexible(x: Oct, y: Oct)
    ensures Mul(Mul(x, y), x) == Mul(x, Mul(y, x))
  {
    hide Mul;
    AssociatorAlternates(x, y, x);
    LeftAlternative(x, y);
  }

  lemma LeftMoufang(x: Oct, y: Oct, z: Oct)
    ensures Mul(Mul(Mul(x, y), x), z) == Mul(x, Mul(y, Mul(x, z)))
  {
    hide Mul;
    AssociatorAlternates(Mul(x, y), x, z);
    AssociatorAlternates(x, y, Mul(x, z));
    AssociatorAlternates(x, Mul(x, x), y);
    AssociatorAlternates(Mul(x, x), y, z);
    AssociatorAlternates(x, y, z);
    LeftAlternative(x, y);
    LeftAlternative(x, z);
    LeftAlternative(x, Mul(y, z));
    LeftAlternative(x, Mul(z, y));
    LeftAlternative(x, Mul(x, z));
    MulOverAdd(x, Mul(Mul(x, y), z), Mul(Mul(x, z), y));
    MulOverAdd(x, Mul(x, Mul(y, z)), Mul(x, Mul(z, y)));
    SwapRight(y, z, x);
  }

  lemma MiddleMoufang(x: Oct, y: Oct, z: Oct)
    ensures Mul(Mul(x, y), Mul(z, x)) == Mul(Mul(x, Mul(y, z)), x)
  {
    hide Mul;
    AssociatorAlternates(x, y, Mul(z, x));
    AssociatorAlternates(y, z, x);
    AssociatorAlternates(z, y, x);
    AssociatorAlternates(z, x, y);
    LeftMoufang(x, z, y);
    Flexible(x, z);
    Flexible(x, Mul(y, z));
    MulOverSub(x, Mul(Mul(z, x), y), Mul(z, Mul(x, y)));
    MulOverSub(x, Mul(Mul(y, z), x), Mul(y, Mul(z, x)));
  }
}
