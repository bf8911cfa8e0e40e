/**
 * Input as a sequence of lexemes: parentheses, commas, numbers and other characters.
 *
 * Extracting a character from the front of a number takes the whole lexeme here; the readers
 * either put such a character back at once or fail.
 */
module Lexemes {

  import C = ComplexNumbers

  datatype Lexeme = LParen | RParen | Comma | Number(value: real) | Other(ch: char)

  /** charT() */
  const NO_CHAR := Other('\0')

  /** A `basic_istream` reduced to what is left to read and its eofbit and failbit. */
  class LexemeStream {
    var rest: seq<Lexeme>
    var eof: bool
    var fail: bool

    predicate Good()
      reads this
    {
      !eof && !fail
    }

    constructor (input: seq<Lexeme>)
      ensures Good() && rest == input
    {
      rest, eof, fail := input, false, false;
    }

    method SetFail()
      modifies this
      ensures fail && rest == old(rest) && eof == old(eof)
    {
      fail := true;
    }

    /** `is >> ch`, where ch holds was before and keeps it if there is nothing to extract */
    method GetChar(was: Lexeme) returns (ch: Lexeme)
      modifies this
      ensures if !old(Good()) then fail && ch == was && eof == old(eof) && rest == old(rest)
              else if old(rest) == [] then eof && fail && ch == was && rest == []
              else Good() && ch == old(rest)[0] && rest == old(rest)[1..]
    {
      ch := was;
      if !Good() {
        fail := true;
      } else if rest == [] {
        eof, fail := true, true;
      } else {
        ch, rest := rest[0], rest[1..];
      }
    }

    /** `is.putback(ch)` */
    method Putback(ch: Lexeme)
      requires Good()
      modifies this
      ensures Good() && rest == [ch] + old(rest)
    {
      rest := [ch] + rest;
    }

    /** `is >> a` for a real a: reaching the end of the input while reading digits sets eofbit. */
    method GetNumber() returns (v: real)
      requires Good()
      modifies this
      ensures if old(rest) != [] && old(rest)[0].Number?
              then !fail && v == old(rest)[0].value && rest == old(rest)[1..] && (eof <==> rest == [])
              else fail && rest == old(rest)
    {
      v := 0.0;
      if rest == [] {
        eof, fail := true, true;
      } else if rest[0].Number? {
        v, rest := rest[0].value, rest[1..];
        eof := rest == [];
      } else {
        fail := true;
      }
    }

    /** `is >> z` for a complex z, in the forms u, (u) and (u,v) of the C++ standard */
    method GetComplex() returns (z: C.Complex)
      requires Good()
      modifies this
      ensures match ParseComplex(old(rest))
              case NoComplex => fail
              case ComplexRead(v, bare, remaining) =>
                !fail && z == v && rest == remaining && (eof <==> bare && remaining == [])
    {
      z := C.Complex(0.0, 0.0);
      var ch := GetChar(NO_CHAR);
      if !Good() { return; }
      if ch != LParen {
        Putback(ch);
        assert rest == old(rest);
        var u := GetNumber();
        z := C.Complex(u, 0.0);
        return;
      }
      var u := GetNumber();
      if !Good() { SetFail(); return; }
      ch := GetChar(ch);
      if !Good() { return; }
      if ch == RParen {
        z := C.Complex(u, 0.0);
      } else if ch == Comma {
        var v := GetNumber();
        if !Good() { SetFail(); return; }
        ch := GetChar(ch);
        if !Good() { return; }
        if ch == RParen {
          z := C.Complex(u, v);
        } else {
          SetFail();
        }
      } else {
        SetFail();
      }
    }
  }

  datatype ComplexOutcome =
    | NoComplex
    | ComplexRead(z: C.Complex, bare: bool, remaining: seq<Lexeme>)

  function ParseComplex(s: seq<Lexeme>): ComplexOutcome {
    if 1 <= |s| && s[0].Number? then
      ComplexRead(C.Complex(s[0].value, 0.0), true, s[1..])
    else if 3 <= |s| && s[0] == LParen && s[1].Number? && s[2] == RParen then
      ComplexRead(C.Complex(s[1].value, 0.0), false, s[3..])
    else if 5 <= |s| && s[0] == LParen && s[1].Number? && s[2] == Comma && s[3].Number? && s[4] == RParen then
      ComplexRead(C.Complex(s[1].value, s[3].value), false, s[5..])
    else
      NoComplex
  }

  /** A way of writing a complex number. */
  datatype ComplexShape = Plain(re: real) | Single(re: real) | Pair(re: real, im: real) {

    function Lexemes(): seq<Lexeme> {
      match this
      case Plain(u) => [Number(u)]
      case Single(u) => [LParen, Number(u), RParen]
      case Pair(u, v) => [LParen, Number(u), Comma, Number(v), RParen]
    }

    function Meaning(): C.Complex {
      match this
      case Plain(u) => C.Complex(u, 0.0)
      case Single(u) => C.Complex(u, 0.0)
      case Pair(u, v) => C.Complex(u, v)
    }

    /** The real and the imaginary part it spells out. */
    function Flat(): seq<real> {
      match this
      case Plain(u) => [u, 0.0]
      case Single(u) => [u, 0.0]
      case Pair(u, v) => [u, v]
    }

    lemma MeaningIsFlat()
      ensures Flat() == [Meaning().re, Meaning().im]
    {
    }
  }

  /** xs, and then zeros. */
  function Padded(xs: seq<real>, n: nat): (r: seq<real>)
    requires |xs| <= n
    ensures |r| == n && xs <= r && forall i :: |xs| <= i < n ==> r[i] == 0.0
  {
    xs + seq(n - |xs|, _ => 0.0)
  }

  /** The shape, if any, with which s starts. */
  function ShapeOf(s: seq<Lexeme>): ComplexShape
    requires ParseComplex(s).ComplexRead?
  {
    if s[0].Number? then Plain(s[0].value)
    else if s[2] == RParen then Single(s[1].value)
    else Pair(s[1].value, s[3].value)
  }

  lemma ComplexIsShape(s: seq<Lexeme>)
    requires ParseComplex(s).ComplexRead?
    ensures var sh, p := ShapeOf(s), ParseComplex(s);
            s == sh.Lexemes() + p.remaining && p.z == sh.Meaning() && p.bare == sh.Plain?
  {
  }

  lemma ShapeIsComplex(sh: ComplexShape, rest: seq<Lexeme>)
    ensures ParseComplex(sh.Lexemes() + rest) == ComplexRead(sh.Meaning(), sh.Plain?, rest)
  {
    assert (sh.Lexemes() + rest)[|sh.Lexemes()|..] == rest;
  }

  /** What an extraction does: store a value, leave it untouched at the end of the input, or fail. */
  datatype Outcome<T> =
    | Accepted(value: T, remaining: seq<Lexeme>)
    | Ended
    | Failed

  lemma ConcatAssociates(s: seq<Lexeme>, t: seq<Lexeme>, u: seq<Lexeme>)
    ensures s + (t + u) == s + t + u
  {
  }

  // ----- several values, one after the other -----

  /** vs have been read before. */
  function Prepend<T>(vs: seq<T>, p: Outcome<seq<T>>): Outcome<seq<T>> {
    if p.Accepted? then Accepted(vs + p.value, p.remaining) else p
  }

  lemma PrependNothing<T>(vs: seq<T>, p: Outcome<seq<T>>, s: seq<Lexeme>)
    ensures Prepend([], p) == p && Prepend(vs, Accepted([], s)) == Accepted(vs, s)
  {
    assert vs + [] == vs;
    assert p.Accepted? ==> [] + p.value == p.value;
  }

  lemma PrependTwice<T>(vs: seq<T>, v: T, p: Outcome<seq<T>>)
    ensures Prepend(vs, Prepend([v], p)) == Prepend(vs + [v], p)
  {
    if p.Accepted? {
      assert vs + ([v] + p.value) == vs + [v] + p.value;
    }
  }

  // ----- comma-separated numbers -----

  /** The numbers xs, each after a comma. */
  function Tail(xs: seq<real>): seq<Lexeme> {
    if xs == [] then [] else [Comma, Number(xs[0])] + Tail(xs[1..])
  }

  datatype ListOutcome =
    | Closed(xs: seq<real>, remaining: seq<Lexeme>)
    | Nested(xs: seq<real>, remaining: seq<Lexeme>)
    | ListEnded
    | ListFailed

  /**
   * The numbers xs have been read and s follows the last of them. At most limit numbers are
   * taken, and an inner parenthesis is looked for after fewer than nesting of them.
   */
  function ParseList(xs: seq<real>, s: seq<Lexeme>, limit: nat, nesting: nat): ListOutcome
    decreases |s|
  {
    if s == [] then ListEnded
    else if s[0] == RParen then Closed(xs, s[1..])
    else if s[0] == Comma && |xs| < limit && |s| > 1 then
      var t := s[1..];
      if t[0] == LParen && |xs| < nesting then Nested(xs, t)
      else if t[0].Number? then ParseList(xs + [t[0].value], t[1..], limit, nesting)
      else ListFailed
    else ListFailed
  }

  lemma ParseListStep(xs: seq<real>, y: real, s: seq<Lexeme>, limit: nat, nesting: nat)
    requires |xs| < limit
    ensures ParseList(xs, [Comma, Number(y)] + s, limit, nesting) == ParseList(xs + [y], s, limit, nesting)
  {
    var t := [Comma, Number(y)] + s;
    assert t[1..] == [Number(y)] + s && t[1..][1..] == s;
  }

  lemma TailUnrolls(x: real, xs: seq<real>)
    ensures Tail([x] + xs) == [Comma, Number(x)] + Tail(xs)
    ensures Tail([]) == []
  {
    assert ([x] + xs)[1..] == xs;
  }

  lemma TailThen(ys: seq<real>, s: seq<Lexeme>)
    ensures Tail(ys) + s == if ys == [] then s else [Comma, Number(ys[0])] + (Tail(ys[1..]) + s)
  {
    if ys != [] {
      ConcatAssociates([Comma, Number(ys[0])], Tail(ys[1..]), s);
    }
  }

  lemma {:induction false} ParseListTail(xs: seq<real>, ys: seq<real>, s: seq<Lexeme>, limit: nat, nesting: nat)
    requires |xs| + |ys| <= limit
    ensures ParseList(xs, Tail(ys) + s, limit, nesting) == ParseList(xs + ys, s, limit, nesting)
    decreases |ys|
  {
    hide ParseList, Tail;
    TailThen(ys, s);
    if ys == [] {
      assert xs + ys == xs;
    } else {
      ParseListStep(xs, ys[0], Tail(ys[1..]) + s, limit, nesting);
      ParseListTail(xs + [ys[0]], ys[1..], s, limit, nesting);
      assert xs + [ys[0]] + ys[1..] == xs + ys;
    }
  }

  /** What is left after the last of the numbers. */
  function LeftBy(p: ListOutcome): seq<Lexeme> {
    match p
    case Closed(_, remaining) => [RParen] + remaining
    case Nested(_, remaining) => [Comma] + remaining
    case ListEnded => []
    case ListFailed => []
  }

  /** Nested and Closed lists hold xs, and an inner parenthesis has come early enough. */
  predicate Holds(p: ListOutcome, xs: seq<real>, nesting: nat) {
    match p
    case Closed(zs, _) => zs == xs
    case Nested(zs, remaining) => zs == xs && |zs| < nesting && remaining != [] && remaining[0] == LParen
    case ListEnded => true
    case ListFailed => false
  }

  /** The numbers ys that ParseList takes from s. */
  lemma {:induction false} ParseListShape(xs: seq<real>, s: seq<Lexeme>, limit: nat, nesting: nat)
    returns (ys: seq<real>)
    requires !ParseList(xs, s, limit, nesting).ListFailed?
    requires |xs| <= limit
    ensures |xs| + |ys| <= limit
    ensures Holds(ParseList(xs, s, limit, nesting), xs + ys, nesting)
    ensures s == Tail(ys) + LeftBy(ParseList(xs, s, limit, nesting))
    decreases |s|
  {
    hide ParseList, Tail, LeftBy, Holds;
    ParseListEnds(xs, s, limit, nesting);
    if |s| > 1 && s[0] == Comma && s[1].Number? {
      var x, t := s[1].value, s[2..];
      assert s == [Comma, Number(x)] + t;
      ParseListStep(xs, x, t, limit, nesting);
      var zs := ParseListShape(xs + [x], t, limit, nesting);
      ys := [x] + zs;
      assert xs + ys == xs + [x] + zs;
      TailGrows(x, zs, t, LeftBy(ParseList(xs, s, limit, nesting)));
    } else {
      ys := [];
      TailThen(ys, s);
      assert xs + ys == xs;
    }
  }

  lemma TailGrows(x: real, ys: seq<real>, s: seq<Lexeme>, end: seq<Lexeme>)
    requires s == Tail(ys) + end
    ensures [Comma, Number(x)] + s == Tail([x] + ys) + end
  {
    assert ([x] + ys)[1..] == ys;
    TailThen([x] + ys, end);
  }

  /** Where no number follows a comma, the list is over. */
  lemma ParseListEnds(xs: seq<real>, s: seq<Lexeme>, limit: nat, nesting: nat)
    requires !ParseList(xs, s, limit, nesting).ListFailed?
    ensures |s| > 1 && s[0] == Comma && s[1].Number? ==> |xs| < limit
    ensures !(|s| > 1 && s[0] == Comma && s[1].Number?) ==>
              var p := ParseList(xs, s, limit, nesting); Holds(p, xs, nesting) && s == LeftBy(p)
  {
  }
}
