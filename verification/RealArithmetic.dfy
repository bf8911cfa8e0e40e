/** Facts about products of reals that the solver needs spelled out. */
module RealArithmetic {

  lemma ProductAssociates(j: real, k: real, l: real, v: real, w: real)
    requires j * k == l && k * v == w
    ensures j * w == l * v
  {
    var m := j * k;
    assert m * v == j * (k * v);
  }

  lemma ProductOfPositives(x: real, y: real, p: real)
    requires x > 0.0 && y > 0.0 && p == x * y
    ensures p > 0.0
  {
  }

  lemma SquareSign(x: real, s: real)
    requires s == x * x
    ensures s >= 0.0
    ensures s == 0.0 ==> x == 0.0
  {
    if x > 0.0 {
      ProductOfPositives(x, x, s);
    } else if x < 0.0 {
      ProductOfPositives(-x, -x, s);
    }
  }
}
