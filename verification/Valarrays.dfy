/** The element-wise operations on `valarray` that overflow-protected division uses. */
module Valarrays {

  function Abs(v: real): (r: real)
    ensures r >= 0.0 && (r == v || r == -v)
  {
    if v < 0.0 then -v else v
  }

  function Sum(s: seq<real>): real {
    if s == [] then 0.0 else Sum(s[..|s| - 1]) + s[|s| - 1]
  }

  /** `(abs(v).max)()` */
  method AbsMax(v: array<real>) returns (m: real)
    requires v.Length > 0
    ensures forall i :: 0 <= i < v.Length ==> Abs(v[i]) <= m
    ensures exists i :: 0 <= i < v.Length && Abs(v[i]) == m
  {
    m := Abs(v[0]);
    var i := 1;
    while i < v.Length
      invariant 1 <= i <= v.Length
      invariant forall j :: 0 <= j < i ==> Abs(v[j]) <= m
      invariant exists j :: 0 <= j < i && Abs(v[j]) == m
    {
      if m < Abs(v[i]) {
        m := Abs(v[i]);
      }
      i := i + 1;
    }
  }

  function Scaled(s: seq<real>, k: real): seq<real> {
    seq(|s|, i requires 0 <= i < |s| => s[i] * k)
  }

  function Squared(s: seq<real>): seq<real> {
    seq(|s|, i requires 0 <= i < |s| => s[i] * s[i])
  }

  /** `v *= k` for a scalar k */
  method MulScalar(v: array<real>, k: real)
    modifies v
    ensures v[..] == Scaled(old(v[..]), k)
  {
    ghost var s := v[..];
    var i := 0;
    while i < v.Length
      invariant 0 <= i <= v.Length
      invariant forall j :: 0 <= j < i ==> v[j] == s[j] * k
      invariant forall j :: i <= j < v.Length ==> v[j] == s[j]
    {
      v[i] := v[i] * k;
      i := i + 1;
    }
    assert forall j :: 0 <= j < |s| ==> v[..][j] == Scaled(s, k)[j];
  }

  /** `v *= v` */
  method MulSelf(v: array<real>)
    modifies v
    ensures v[..] == Squared(old(v[..]))
  {
    ghost var s := v[..];
    var i := 0;
    while i < v.Length
      invariant 0 <= i <= v.Length
      invariant forall j :: 0 <= j < i ==> v[j] == s[j] * s[j]
      invariant forall j :: i <= j < v.Length ==> v[j] == s[j]
    {
      v[i] := v[i] * v[i];
      i := i + 1;
    }
    assert forall j :: 0 <= j < |s| ==> v[..][j] == Squared(s)[j];
  }

  /** `v.sum()` */
  method SumOf(v: array<real>) returns (s: real)
    ensures s == Sum(v[..])
  {
    s := 0.0;
    var i := 0;
    while i < v.Length
      invariant 0 <= i <= v.Length
      invariant s == Sum(v[..i])
    {
      assert v[..i + 1][..i] == v[..i];
      s := s + v[i];
      i := i + 1;
    }
    assert v[..v.Length] == v[..];
  }

  lemma SumOfOneMore(s: seq<real>, n: nat)
    requires n < |s|
    ensures Sum(s[..n + 1]) == Sum(s[..n]) + s[n]
  {
    assert s[..n + 1][..n] == s[..n];
  }

  lemma SumOfFour(s: seq<real>)
    requires |s| == 4
    ensures Sum(s) == s[0] + s[1] + s[2] + s[3]
  {
    hide Sum;
    SumOfNone(s[..0]);
    SumOfOneMore(s, 0);
    SumOfOneMore(s, 1);
    SumOfOneMore(s, 2);
    SumOfOneMore(s, 3);
    assert s[..4] == s;
  }

  lemma SumOfNone(s: seq<real>)
    requires s == []
    ensures Sum(s) == 0.0
  {
  }

  lemma SumOfEight(s: seq<real>)
    requires |s| == 8
    ensures Sum(s) == s[0] + s[1] + s[2] + s[3] + s[4] + s[5] + s[6] + s[7]
  {
    hide Sum;
    SumOfFour(s[..4]);
    SumOfOneMore(s, 4);
    SumOfOneMore(s, 5);
    SumOfOneMore(s, 6);
    SumOfOneMore(s, 7);
    assert s[..8] == s;
  }
}
