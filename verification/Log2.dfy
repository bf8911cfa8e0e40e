/** Powers of two and the floor of the base-two logarithm. */
module Log2 {

  function Pow2(k: nat): (p: nat)
    ensures p >= 1
  {
    if k == 0 then 1 else 2 * Pow2(k - 1)
  }

  function Log2Floor(n: nat): nat
    requires n > 0
  {
    if n == 1 then 0 else 1 + Log2Floor(n / 2)
  }

  lemma {:induction false} Log2Bounds(n: nat)
    requires n > 0
    ensures Pow2(Log2Floor(n)) <= n < Pow2(Log2Floor(n) + 1)
  {
    if n > 1 {
      Log2Bounds(n / 2);
    }
  }

  lemma {:induction false} Pow2Monotone(j: nat, k: nat)
    requires j <= k
    ensures Pow2(j) <= Pow2(k)
    decreases k
  {
    if j < k {
      Pow2Monotone(j, k - 1);
    }
  }

  lemma Log2AtLeast(n: nat, k: nat)
    requires n > 0
    ensures Log2Floor(n) >= k <==> n >= Pow2(k)
  {
    Log2Bounds(n);
    if Log2Floor(n) >= k {
      Pow2Monotone(k, Log2Floor(n));
    } else {
      Pow2Monotone(Log2Floor(n) + 1, k);
    }
  }

  lemma {:induction false} Pow2Exceeds(k: nat)
    ensures k < Pow2(k)
  {
    if k > 0 {
      Pow2Exceeds(k - 1);
    }
  }

  lemma {:induction false} Pow2OfSum(j: nat, k: nat)
    ensures Pow2(j + k) == Pow2(j) * Pow2(k)
  {
    if k > 0 {
      Pow2OfSum(j, k - 1);
    }
  }

  lemma Pow2OfFour()
    ensures Pow2(4) == 16
  {
    Pow2Unrolls(0);
  }

  lemma Pow2OfSixtyFour()
    ensures Pow2(64) == 0x1_0000_0000_0000_0000
  {
    hide Pow2;
    Pow2OfFour();
    Pow2OfSum(4, 4);
    Pow2OfSum(8, 8);
    Pow2OfSum(16, 16);
    Pow2OfSum(32, 32);
  }

  lemma Pow2Unrolls(k: nat)
    ensures Pow2(k + 3) == 8 * Pow2(k) && Pow2(k + 4) == 16 * Pow2(k)
  {
    assert Pow2(k + 1) == 2 * Pow2(k);
    assert Pow2(k + 2) == 4 * Pow2(k);
  }
}
