/** Reading accepts exactly the formats, and does not fail on exactly these and their stumps. */
module OctonionGrammar {

  import opened Lexemes
  import opened OctonionFormats
  import C = ComplexNumbers
  import H = Quaternions
  import O = Octonions
  import Q = QuaternionIO

  // ----- complex numbers and quaternions -----

  /** What reads as a complex number in parentheses reads as a quaternion as well. */
  lemma ComplexIsQuaternion(s: seq<Lexeme>)
    requires s != [] && s[0] == LParen && ParseComplex(s).ComplexRead?
    ensures Q.Parse(s) == Lexemes.Accepted(OfComplex(ParseComplex(s).z), ParseComplex(s).remaining)
  {
    var a, t := s[1].value, s[1..][1..];
    assert s == [LParen, Number(a)] + t;
    Q.ParseFirstNumber(a, t);
    if t[0] == Comma {
      var b, w := t[1].value, t[1..][1..];
      assert t == [Comma, Number(b)] + w;
      ParseListStep([a], b, w, 4, 2);
      assert [a] + [b] == [a, b];
    }
  }

  lemma LongIsNotComplex(p: Q.Shape, s: seq<Lexeme>)
    requires Long(p)
    ensures ParseComplex(p.Lexemes() + s).NoComplex?
    ensures (p.Lexemes() + s)[0] == LParen
  {
    match p
    case Reals(xs) =>
      assert Tail(xs[1..]) == [Comma, Number(xs[1])] + Tail(xs[1..][1..]);
      assert xs[1..][1..] == xs[2..];
    case RealComplex(_, _) =>
    case OneComplex(_) =>
    case TwoComplex(_, _) =>
  }

  /** A quaternion at the start of an input that does not read as a complex number is long. */
  lemma ShapeIsLong(p: Q.Shape, s: seq<Lexeme>)
    requires p.Valid() && !p.Bare? && ParseComplex(p.Lexemes() + s).NoComplex?
    ensures Long(p)
  {
    if p.Reals? && |p.xs| <= 2 {
      ShortIsComplex(p, s);
    }
  }

  lemma ShortIsComplex(p: Q.Shape, s: seq<Lexeme>)
    requires p.Valid() && p.Reals? && |p.xs| <= 2
    ensures ParseComplex(p.Lexemes() + s).ComplexRead?
  {
    var u := if |p.xs| == 1 then Single(p.xs[0]) else Pair(p.xs[0], p.xs[1]);
    assert |p.xs| == 2 ==> Tail(p.xs[1..]) == [Comma, Number(p.xs[1])];
    assert p.Lexemes() == u.Lexemes();
    ShapeIsComplex(u, s);
  }

  // ----- inputs that are spelled out -----

  lemma {:induction false} MoreThen(us: seq<ComplexShape>, end: seq<Lexeme>, rest: seq<Lexeme>)
    ensures More(us, end) + rest == More(us, end + rest)
  {
    if us != [] {
      MoreThen(us[1..], end, rest);
      ConcatAssociates(us[0].Lexemes(), More(us[1..], end), rest);
      ConcatAssociates([Comma], us[0].Lexemes() + More(us[1..], end), rest);
    }
  }

  lemma SpelledThen(us: seq<ComplexShape>, end: seq<Lexeme>, rest: seq<Lexeme>)
    requires us != []
    ensures [LParen] + Spelled(us, end) + rest == [LParen] + Spelled(us, end + rest)
  {
    MoreThen(us[1..], end, rest);
    ConcatAssociates(us[0].Lexemes(), More(us[1..], end), rest);
    ConcatAssociates([LParen], Spelled(us, end), rest);
  }

  lemma SpelledUnrolls(us: seq<ComplexShape>, k: nat, end: seq<Lexeme>)
    requires k < |us|
    ensures Spelled(us[k..], end)
         == us[k].Lexemes() + if k + 1 == |us| then end else [Comma] + Spelled(us[k + 1..], end)
  {
    hide ComplexShape.Lexemes;
    assert us[k..][1..] == us[k + 1..];
    if k + 1 < |us| {
      assert us[k + 1..][0] == us[k + 1];
    }
  }

  lemma SpelledStart(us: seq<ComplexShape>, k: nat, end: seq<Lexeme>)
    requires k < |us|
    ensures Spelled(us[k..], end) != []
    ensures Spelled(us[k..], end)[0] == LParen <==> !us[k].Plain?
  {
  }

  lemma NumbersThen(xs: seq<real>, end: seq<Lexeme>, rest: seq<Lexeme>)
    requires xs != []
    ensures [LParen] + Numbers(xs, end) + rest == [LParen] + Numbers(xs, end + rest)
  {
    hide Tail;
    ConcatAssociates(Tail(xs[1..]), end, rest);
    ConcatAssociates([Number(xs[0])], Tail(xs[1..]) + end, rest);
    ConcatAssociates([LParen], Numbers(xs, end), rest);
  }

  // ----- complex numbers, and whatever comes after them -----

  /** The input ends, or a closing parenthesis comes next. */
  predicate Closes(end: seq<Lexeme>) {
    end == [] || end[0] == RParen
  }

  /** What reading does once it has seen us and end is left. */
  function Completed(us: seq<ComplexShape>, end: seq<Lexeme>): Reading
    requires 1 <= |us| <= 4
  {
    if end == [] then if us[|us| - 1].Plain? then Stopped else Failure
    else Success(OfShapes(us), end[1..])
  }

  lemma FourthOutcome(us: seq<ComplexShape>, end: seq<Lexeme>)
    requires |us| == 4 && Closes(end)
    ensures AfterFourth(us[0].Meaning(), us[1].Meaning(), us[2].Meaning(), ParseComplex(Spelled(us[3..], end)))
         == Completed(us, end)
  {
    hide Spelled, ParseComplex, ComplexShape.Lexemes;
    SpelledUnrolls(us, 3, end);
    ShapeIsComplex(us[3], end);
  }

  lemma ThirdOutcome(us: seq<ComplexShape>, end: seq<Lexeme>)
    requires 3 <= |us| <= 4 && Closes(end)
    ensures AfterThird(us[0].Meaning(), us[1].Meaning(), ParseComplex(Spelled(us[2..], end))) == Completed(us, end)
  {
    hide Spelled, ParseComplex, ComplexShape.Lexemes, AfterFourth;
    SpelledUnrolls(us, 2, end);
    if |us| == 3 {
      ShapeIsComplex(us[2], end);
    } else {
      ShapeIsComplex(us[2], [Comma] + Spelled(us[3..], end));
      DropFirst(Comma, Spelled(us[3..], end));
      FourthOutcome(us, end);
    }
  }

  lemma DropFirst(x: Lexeme, s: seq<Lexeme>)
    ensures ([x] + s)[1..] == s && [x] + s != [] && ([x] + s)[0] == x
  {
  }

  lemma SecondOutcome(us: seq<ComplexShape>, end: seq<Lexeme>)
    requires 2 <= |us| <= 4 && Closes(end)
    ensures AfterSecond(us[0].Meaning(), ParseComplex(Spelled(us[1..], end))) == Completed(us, end)
  {
    hide Spelled, ParseComplex, ComplexShape.Lexemes, AfterThird;
    SpelledUnrolls(us, 1, end);
    if |us| == 2 {
      ShapeIsComplex(us[1], end);
    } else {
      ShapeIsComplex(us[1], [Comma] + Spelled(us[2..], end));
      DropFirst(Comma, Spelled(us[2..], end));
      ThirdOutcome(us, end);
    }
  }

  lemma ParenthesisedOutcome(us: seq<ComplexShape>, end: seq<Lexeme>)
    requires Readable(us) && !us[0].Plain? && Closes(end)
    ensures ParseFirst(Spelled(us, end)) == Completed(us, end)
  {
    hide Spelled, ParseComplex, ComplexShape.Lexemes, AfterSecond, Q.Parse;
    assert us[0..] == us;
    SpelledUnrolls(us, 0, end);
    var t := if |us| == 1 then end else [Comma] + Spelled(us[1..], end);
    ShapeIsComplex(us[0], t);
    SingleIsClosed(us[0], t);
    if |us| > 1 {
      SpelledStart(us, 1, end);
      DropFirst(Comma, Spelled(us[1..], end));
      SecondOutcome(us, end);
      SpelledUnrolls(us, 1, end);
      ShapeIsComplex(us[1], if |us| == 2 then end else [Comma] + Spelled(us[2..], end));
    }
  }

  lemma SingleIsClosed(u: ComplexShape, s: seq<Lexeme>)
    requires !u.Plain?
    ensures |u.Lexemes() + s| > 2
    ensures (u.Lexemes() + s)[2] == RParen <==> u.Single?
  {
  }

  lemma ListNests(xs: seq<real>, s: seq<Lexeme>)
    requires s != [] && s[0] == LParen && |xs| < 4
    ensures ParseList(xs, [Comma] + s, 8, 4) == Nested(xs, s)
  {
    assert ([Comma] + s)[1..] == s;
  }

  /** The first item is a number, and a later one is in parentheses. */
  lemma PlainOutcome(us: seq<ComplexShape>, end: seq<Lexeme>)
    requires Readable(us) && us[0].Plain? && Closes(end)
    ensures ParseInside(Spelled(us, end)) == Completed(us, end)
  {
    hide Spelled, ParseComplex, ParseList, AfterSecond, AfterThird, AfterFourth, Q.Parse;
    assert us[0..] == us;
    SpelledUnrolls(us, 0, end);
    var a, s1 := us[0].re, Spelled(us[1..], end);
    DropFirst(Number(a), [Comma] + s1);
    SpelledStart(us, 1, end);
    if !us[1].Plain? {
      ListNests([a], s1);
      SecondOutcome(us, end);
      SpelledUnrolls(us, 1, end);
      ShapeIsComplex(us[1], if |us| == 2 then end else [Comma] + Spelled(us[2..], end));
    } else {
      var c, s2 := us[1].re, Spelled(us[2..], end);
      SpelledUnrolls(us, 1, end);
      assert [Comma] + s1 == [Comma, Number(c)] + ([Comma] + s2);
      ParseListStep([a], c, [Comma] + s2, 8, 4);
      assert [a] + [c] == [a, c];
      SpelledStart(us, 2, end);
      if !us[2].Plain? {
        ListNests([a, c], s2);
        ThirdOutcome(us, end);
      } else {
        var e, s3 := us[2].re, Spelled(us[3..], end);
        SpelledUnrolls(us, 2, end);
        assert [Comma] + s2 == [Comma, Number(e)] + ([Comma] + s3);
        ParseListStep([a, c], e, [Comma] + s3, 8, 4);
        assert [a, c] + [e] == [a, c, e];
        SpelledStart(us, 3, end);
        ListNests([a, c, e], s3);
        FourthOutcome(us, end);
      }
    }
  }

  lemma ComplexesOutcome(us: seq<ComplexShape>, end: seq<Lexeme>)
    requires Readable(us) && Closes(end)
    ensures Parse([LParen] + Spelled(us, end)) == Completed(us, end)
  {
    hide Spelled, ParseFirst;
    DropFirst(LParen, Spelled(us, end));
    assert us[0..] == us;
    SpelledStart(us, 0, end);
    if us[0].Plain? {
      PlainOutcome(us, end);
    } else {
      ParenthesisedOutcome(us, end);
    }
  }

  lemma RealsOutcome(xs: seq<real>, end: seq<Lexeme>)
    requires 1 <= |xs| <= 8 && Closes(end)
    ensures Parse([LParen] + Numbers(xs, end)) == if end == [] then Stopped else Success(OfReals(xs), end[1..])
  {
    hide Tail, ParseList, OfReals;
    var t := Tail(xs[1..]) + end;
    DropFirst(LParen, Numbers(xs, end));
    DropFirst(Number(xs[0]), t);
    ParseListTail([xs[0]], xs[1..], end, 8, 4);
    assert [xs[0]] + xs[1..] == xs;
    ListCloses(xs, end);
  }

  lemma ListCloses(xs: seq<real>, end: seq<Lexeme>)
    requires Closes(end)
    ensures ParseList(xs, end, 8, 4) == if end == [] then ListEnded else Closed(xs, end[1..])
  {
  }

  // ----- quaternions, and whatever comes after them -----

  lemma QuaternionStart(q: Q.Shape, s: seq<Lexeme>)
    requires q.Valid() && !q.Bare?
    ensures q.Body() != [] && q.Body()[0] == LParen
    ensures (q.Lexemes() + s)[0] == LParen
  {
  }

  lemma OneQuaternionOutcome(p: Q.Shape, end: seq<Lexeme>)
    requires Long(p) && end != [] && end[0] == RParen
    ensures Parse([LParen] + (p.Lexemes() + end)) == Success(O.OfQuat(p.Meaning()), end[1..])
  {
    hide Q.Parse, ParseComplex, Q.Shape.Lexemes;
    DropFirst(LParen, p.Lexemes() + end);
    LongIsNotComplex(p, end);
    Q.AcceptsShape(p, end);
  }

  lemma TwoQuaternionsOutcome(p: Q.Shape, q: Q.Shape, end: seq<Lexeme>)
    requires Long(p) && q.Valid() && end != [] && end[0] == RParen
    ensures Parse([LParen] + (p.Lexemes() + ([Comma] + (q.Lexemes() + end))))
         == Success(O.OfHalves(p.Meaning(), q.Meaning()), end[1..])
  {
    hide Q.Parse, ParseComplex, Q.Shape.Lexemes;
    var t := [Comma] + (q.Lexemes() + end);
    DropFirst(LParen, p.Lexemes() + t);
    DropFirst(Comma, q.Lexemes() + end);
    LongIsNotComplex(p, t);
    Q.AcceptsShape(p, t);
    Q.AcceptsShape(q, end);
  }

  /** A complex number, then something in parentheses. */
  lemma SecondIsReached(u: ComplexShape, s: seq<Lexeme>)
    requires s != [] && s[0] == LParen
    ensures Parse([LParen] + (u.Lexemes() + ([Comma] + s))) == ParseSecond(u.Meaning(), u.Single?, s)
  {
    hide ParseComplex, ParseSecond;
    var t := [Comma] + s;
    DropFirst(LParen, u.Lexemes() + t);
    DropFirst(Comma, s);
    if u.Plain? {
      DropFirst(Number(u.re), t);
      ListNests([u.re], s);
    } else {
      ShapeIsComplex(u, t);
      SingleIsClosed(u, t);
    }
  }

  lemma ComplexAndQuaternionOutcome(u: ComplexShape, q: Q.Shape, end: seq<Lexeme>)
    requires Long(q) && end != [] && end[0] == RParen
    ensures Parse([LParen] + (u.Lexemes() + ([Comma] + (q.Lexemes() + end))))
         == Success(O.OfHalves(OfComplex(u.Meaning()), q.Meaning()), end[1..])
  {
    hide Parse, Q.Parse, ParseComplex, ComplexShape.Lexemes, Q.Shape.Lexemes;
    QuaternionStart(q, end);
    SecondIsReached(u, q.Lexemes() + end);
    LongIsNotComplex(q, end);
    Q.AcceptsShape(q, end);
  }

  // ----- each format is accepted -----

  /** s starts with the shape; after a bare number something has to follow. */
  ghost predicate StartsWith(s: seq<Lexeme>, sh: Shape, rest: seq<Lexeme>) {
    sh.Valid() && s == sh.Lexemes() + rest && (sh.Bare? ==> rest != [])
  }

  /** Brackets moved, for any continuation of an input. */
  lemma LexemesThen(sh: Shape, rest: seq<Lexeme>)
    requires sh.Valid()
    ensures var end := [RParen] + rest;
            match sh
            case Bare(_) => true
            case Reals(xs) => [LParen] + Numbers(xs, end) == sh.Lexemes() + rest
            case Complexes(us) => [LParen] + Spelled(us, end) == sh.Lexemes() + rest
            case OneQuaternion(p) => [LParen] + (p.Lexemes() + end) == sh.Lexemes() + rest
            case ComplexAndQuaternion(u, q) =>
              [LParen] + (u.Lexemes() + ([Comma] + (q.Lexemes() + end))) == sh.Lexemes() + rest
            case TwoQuaternions(p, q) =>
              [LParen] + (p.Lexemes() + ([Comma] + (q.Lexemes() + end))) == sh.Lexemes() + rest
  {
    hide Numbers, Spelled, ComplexShape.Lexemes, Q.Shape.Lexemes;
    match sh
    case Bare(_) =>
    case Reals(xs) => NumbersThen(xs, [RParen], rest);
    case Complexes(us) => SpelledThen(us, [RParen], rest);
    case OneQuaternion(p) =>
      ConcatAssociates(p.Lexemes(), [RParen], rest);
      ConcatAssociates([LParen], p.Lexemes() + [RParen], rest);
    case ComplexAndQuaternion(u, q) => Regroup(u.Lexemes(), q.Lexemes(), rest);
    case TwoQuaternions(p, q) => Regroup(p.Lexemes(), q.Lexemes(), rest);
  }

  lemma Regroup(s: seq<Lexeme>, t: seq<Lexeme>, rest: seq<Lexeme>)
    ensures [LParen] + (s + ([Comma] + (t + ([RParen] + rest)))) == [LParen] + (s + ([Comma] + (t + [RParen]))) + rest
  {
    ConcatAssociates(t, [RParen], rest);
    ConcatAssociates([Comma], t + [RParen], rest);
    ConcatAssociates(s, [Comma] + (t + [RParen]), rest);
    ConcatAssociates([LParen], s + ([Comma] + (t + [RParen])), rest);
  }

  lemma AcceptsShape(sh: Shape, rest: seq<Lexeme>)
    requires sh.Valid() && (sh.Bare? ==> rest != [])
    ensures Parse(sh.Lexemes() + rest) == Success(sh.Meaning(), rest)
  {
    if sh.Bare? {
      DropFirst(Number(sh.a), rest);
    } else {
      hide Parse, OfReals, OfShapes, Numbers, Spelled, Shape.Lexemes;
      var end := [RParen] + rest;
      DropFirst(RParen, rest);
      LexemesThen(sh, rest);
      match sh
      case Reals(xs) => RealsOutcome(xs, end);
      case Complexes(us) => ComplexesOutcome(us, end);
      case OneQuaternion(p) => OneQuaternionOutcome(p, end);
      case ComplexAndQuaternion(u, q) => ComplexAndQuaternionOutcome(u, q, end);
      case TwoQuaternions(p, q) => TwoQuaternionsOutcome(p, q, end);
    }
  }

  // ----- each format may stop after a number -----

  lemma BodyEnds(q: Q.Shape)
    requires q.Valid() && q.EndsInNumber()
    ensures Q.Parse(q.Body()).Ended?
    ensures !q.Bare? ==> q.Body() != [] && q.Body()[0] == LParen && ParseComplex(q.Body()).NoComplex?
  {
    hide Q.Parse, ParseComplex, Q.Shape.Body;
    Q.EndsExactlyAfterNumbers(q.Body());
    if !q.Bare? {
      QuaternionStart(q, []);
      if ParseComplex(q.Body()).ComplexRead? {
        ComplexIsQuaternion(q.Body());
      }
    }
  }

  lemma StopsAfterShape(sh: Shape)
    requires sh.Open()
    ensures Parse(sh.Stump()).Stopped?
  {
    match sh
    case Bare(_) =>
    case Reals(xs) => RealsOutcome(xs, []);
    case Complexes(us) => ComplexesOutcome(us, []);
    case OneQuaternion(p) =>
      hide Q.Parse, ParseComplex, Q.Shape.Body;
      BodyEnds(p);
      DropFirst(LParen, p.Body());
    case ComplexAndQuaternion(u, q) =>
      hide Q.Parse, ParseComplex, Parse, Q.Shape.Body;
      BodyEnds(q);
      SecondIsReached(u, q.Body());
    case TwoQuaternions(p, q) =>
      hide Q.Parse, ParseComplex, Q.Shape.Body, Q.Shape.Lexemes;
      var t := [Comma] + q.Body();
      BodyEnds(q);
      DropFirst(LParen, p.Lexemes() + t);
      DropFirst(Comma, q.Body());
      LongIsNotComplex(p, t);
      Q.AcceptsShape(p, t);
  }

  // ----- nothing else is accepted, or stops -----

  /** sh is a format with which s starts, or which s is the stump of. */
  ghost predicate Fits(sh: Shape, s: seq<Lexeme>, r: Reading) {
    && (r.Success? ==> StartsWith(s, sh, r.remaining))
    && (r.Stopped? ==> sh.Open() && s == sh.Stump())
  }

  predicate Done(r: Reading) {
    r.Success? || r.Stopped?
  }

  function EndOf(r: Reading): seq<Lexeme> {
    if r.Success? then [RParen] + r.remaining else []
  }

  /** s spells out n complex numbers at most. */
  ghost predicate Spells(us: seq<ComplexShape>, n: nat, s: seq<Lexeme>, r: Reading) {
    && 1 <= |us| <= n
    && s == Spelled(us, EndOf(r))
    && (r.Stopped? ==> us[|us| - 1].Plain?)
  }

  lemma SpelledOne(u: ComplexShape, end: seq<Lexeme>)
    ensures Spelled([u], end) == u.Lexemes() + end
  {
  }

  lemma SpelledMore(u: ComplexShape, us: seq<ComplexShape>, end: seq<Lexeme>)
    requires us != []
    ensures Spelled([u] + us, end) == u.Lexemes() + ([Comma] + Spelled(us, end))
    ensures ([u] + us)[|us|] == us[|us| - 1]
  {
    assert ([u] + us)[1..] == us;
  }

  lemma ShapesOfFourth(u: C.Complex, v: C.Complex, x: C.Complex, s: seq<Lexeme>) returns (us: seq<ComplexShape>)
    requires Done(AfterFourth(u, v, x, ParseComplex(s)))
    ensures Spells(us, 1, s, AfterFourth(u, v, x, ParseComplex(s)))
  {
    hide ParseComplex, ComplexShape.Lexemes, Spelled;
    ComplexIsShape(s);
    us := [ShapeOf(s)];
    var t := ParseComplex(s).remaining;
    assert t != [] ==> t == [t[0]] + t[1..];
    SpelledOne(ShapeOf(s), t);
  }

  lemma ShapesOfThird(u: C.Complex, v: C.Complex, s: seq<Lexeme>) returns (us: seq<ComplexShape>)
    requires Done(AfterThird(u, v, ParseComplex(s)))
    ensures Spells(us, 2, s, AfterThird(u, v, ParseComplex(s)))
  {
    hide ParseComplex, ComplexShape.Lexemes, Spelled, AfterFourth;
    ComplexIsShape(s);
    us := [ShapeOf(s)];
    var t := ParseComplex(s).remaining;
    assert t != [] ==> t == [t[0]] + t[1..];
    if t == [] || t[0] == RParen {
      SpelledOne(ShapeOf(s), t);
    } else {
      var xs := ShapesOfFourth(u, v, ParseComplex(s).z, t[1..]);
      SpelledMore(ShapeOf(s), xs, EndOf(AfterThird(u, v, ParseComplex(s))));
      us := us + xs;
    }
  }

  lemma ShapesOfSecond(u: C.Complex, s: seq<Lexeme>) returns (us: seq<ComplexShape>)
    requires Done(AfterSecond(u, ParseComplex(s)))
    ensures Spells(us, 3, s, AfterSecond(u, ParseComplex(s)))
  {
    hide ParseComplex, ComplexShape.Lexemes, Spelled, AfterThird;
    ComplexIsShape(s);
    us := [ShapeOf(s)];
    var t := ParseComplex(s).remaining;
    assert t != [] ==> t == [t[0]] + t[1..];
    if t == [] || t[0] == RParen {
      SpelledOne(ShapeOf(s), t);
    } else {
      var xs := ShapesOfThird(u, ParseComplex(s).z, t[1..]);
      SpelledMore(ShapeOf(s), xs, EndOf(AfterSecond(u, ParseComplex(s))));
      us := us + xs;
    }
  }

  /** Complex numbers us before others, or none, that have been found. */
  lemma ComplexesFit(us: seq<ComplexShape>, s: seq<Lexeme>, r: Reading)
    requires Readable(us) && Done(r)
    requires s == [LParen] + Spelled(us, EndOf(r)) && (r.Stopped? ==> us[|us| - 1].Plain?)
    ensures Fits(Complexes(us), s, r)
  {
    hide Spelled, Readable;
    if r.Success? {
      LexemesThen(Complexes(us), r.remaining);
    }
  }

  lemma SecondShapes(u: ComplexShape, single: bool, s: seq<Lexeme>) returns (sh: Shape)
    requires s != [] && s[0] == LParen && Done(ParseSecond(u.Meaning(), single, s))
    ensures Fits(sh, [LParen] + (u.Lexemes() + ([Comma] + s)), ParseSecond(u.Meaning(), single, s))
  {
    var r := ParseSecond(u.Meaning(), single, s);
    hide ParseComplex, ComplexShape.Lexemes, Spelled, AfterSecond, Q.Parse, Fits;
    if ParseComplex(s).ComplexRead? {
      var vs := ShapesOfSecond(u.Meaning(), s);
      SpelledStart(vs, 0, EndOf(r));
      assert vs[0..] == vs;
      SpelledMore(u, vs, EndOf(r));
      sh := Complexes([u] + vs);
      SecondNotPlain(u, vs);
      ComplexesFit([u] + vs, [LParen] + (u.Lexemes() + ([Comma] + s)), r);
    } else {
      hide ParseSecond;
      sh := QuaternionAfterComplex(u, single, s);
    }
  }

  lemma SecondNotPlain(u: ComplexShape, vs: seq<ComplexShape>)
    requires 1 <= |vs| <= 3 && !vs[0].Plain?
    ensures Readable([u] + vs)
  {
    assert ([u] + vs)[1] == vs[0];
  }

  lemma QuaternionAfterComplex(u: ComplexShape, single: bool, s: seq<Lexeme>) returns (sh: Shape)
    requires s != [] && s[0] == LParen && Done(ParseSecond(u.Meaning(), single, s)) && ParseComplex(s).NoComplex?
    ensures Fits(sh, [LParen] + (u.Lexemes() + ([Comma] + s)), ParseSecond(u.Meaning(), single, s))
  {
    hide ParseComplex, ComplexShape.Lexemes, Q.Parse, Q.Shape.Lexemes, Q.Shape.Body, Q.Shape.EndsInNumber;
    var r := ParseSecond(u.Meaning(), single, s);
    var q := Q.ShapeOfInput(s);
    NotBare(q, s);
    sh := ComplexAndQuaternion(u, q);
    if r.Success? {
      var t := Q.Parse(s).remaining;
      ShapeIsLong(q, t);
      assert t == [RParen] + r.remaining;
      LexemesThen(sh, r.remaining);
    }
  }

  lemma NotBare(q: Q.Shape, s: seq<Lexeme>)
    requires s != [] && s[0] == LParen && q.Valid()
    requires s == q.Body() || exists rest :: s == q.Lexemes() + rest
    ensures !q.Bare?
  {
  }

  lemma FirstShapes(s: seq<Lexeme>) returns (sh: Shape)
    requires s != [] && s[0] == LParen && Done(ParseFirst(s))
    ensures Fits(sh, [LParen] + s, ParseFirst(s))
  {
    hide ParseComplex, AfterFirst, AfterQuaternion, Q.Parse, Fits;
    if ParseComplex(s).ComplexRead? {
      sh := ShapeAfterComplex(s);
    } else {
      sh := ShapeAfterQuaternion(s);
    }
  }

  lemma ShapeAfterComplex(s: seq<Lexeme>) returns (sh: Shape)
    requires s != [] && s[0] == LParen && ParseComplex(s).ComplexRead? && Done(ParseFirst(s))
    ensures Fits(sh, [LParen] + s, ParseFirst(s))
  {
    hide ParseComplex, ComplexShape.Lexemes, Spelled, ParseSecond, AfterSecond, Q.Parse, Fits;
    var r, u, t := ParseFirst(s), ShapeOf(s), ParseComplex(s).remaining;
    ComplexIsShape(s);
    FormOf(s);
    assert t == [t[0]] + t[1..];
    if t[0] == RParen {
      SpelledOne(u, t);
      sh := Complexes([u]);
      assert ![u][0].Plain?;
      ComplexesFit([u], [LParen] + s, r);
    } else if t[1] == LParen {
      sh := SecondShapes(u, s[2] == RParen, t[1..]);
    } else {
      var vs := ShapesOfSecond(u.Meaning(), t[1..]);
      SpelledMore(u, vs, EndOf(r));
      assert ([u] + vs)[0] == u;
      sh := Complexes([u] + vs);
      ComplexesFit([u] + vs, [LParen] + s, r);
    }
  }

  lemma FormOf(s: seq<Lexeme>)
    requires s != [] && s[0] == LParen && ParseComplex(s).ComplexRead?
    ensures |s| > 2 && !ShapeOf(s).Plain? && (ShapeOf(s).Single? <==> s[2] == RParen)
  {
  }

  lemma ShapeAfterQuaternion(s: seq<Lexeme>) returns (sh: Shape)
    requires s != [] && s[0] == LParen && ParseComplex(s).NoComplex? && Done(ParseFirst(s))
    ensures Fits(sh, [LParen] + s, ParseFirst(s))
  {
    hide ParseComplex, Q.Parse, Q.Shape.Lexemes, Q.Shape.Body, Q.Shape.EndsInNumber, LastQuaternion;
    var r := ParseFirst(s);
    var p := Q.ShapeOfInput(s);
    NotBare(p, s);
    if Q.Parse(s).Ended? {
      sh := OneQuaternion(p);
    } else {
      var t := Q.Parse(s).remaining;
      ShapeIsLong(p, t);
      assert t == [t[0]] + t[1..];
      if t[0] == RParen {
        sh := OneQuaternion(p);
        LexemesThen(sh, r.remaining);
      } else {
        sh := LastShape(p, Q.Parse(s).value, t[1..]);
      }
    }
  }

  lemma LastShape(p: Q.Shape, v: H.Quat, s: seq<Lexeme>) returns (sh: Shape)
    requires Long(p) && Done(LastQuaternion(v, Q.Parse(s)))
    ensures Fits(sh, [LParen] + (p.Lexemes() + ([Comma] + s)), LastQuaternion(v, Q.Parse(s)))
  {
    hide Q.Parse, Q.Shape.Lexemes, Q.Shape.Body, Q.Shape.EndsInNumber;
    var r := LastQuaternion(v, Q.Parse(s));
    var q := Q.ShapeOfInput(s);
    sh := TwoQuaternions(p, q);
    if r.Success? {
      var t := Q.Parse(s).remaining;
      assert t == [RParen] + r.remaining;
      LexemesThen(sh, r.remaining);
    }
  }

  lemma ListShapes(a: real, s: seq<Lexeme>) returns (sh: Shape)
    requires Done(FinishList(ParseList([a], s, 8, 4)))
    ensures Fits(sh, [LParen] + ([Number(a)] + s), FinishList(ParseList([a], s, 8, 4)))
  {
    hide ParseList, Tail, ParseSecond, AfterThird, AfterFourth, ParseComplex, Fits;
    var p := ParseList([a], s, 8, 4);
    var r := FinishList(p);
    var ys := ParseListShape([a], s, 8, 4);
    if p.Nested? {
      sh := NestedShapes(a, ys, p.remaining);
    } else {
      sh := Reals([a] + ys);
      RealsFit(a, ys, r);
      assert Tail(ys) + [] == Tail(ys);
    }
  }

  lemma RealsFit(a: real, ys: seq<real>, r: Reading)
    requires |ys| <= 7 && Done(r)
    ensures Fits(Reals([a] + ys), [LParen] + ([Number(a)] + (Tail(ys) + EndOf(r))), r)
  {
    hide Tail;
    assert ([a] + ys)[1..] == ys;
    if r.Success? {
      LexemesThen(Reals([a] + ys), r.remaining);
    }
  }

  lemma NestedShapes(a: real, ys: seq<real>, s: seq<Lexeme>) returns (sh: Shape)
    requires |ys| <= 2 && s != [] && s[0] == LParen && Done(FinishList(Nested([a] + ys, s)))
    ensures Fits(sh, [LParen] + ([Number(a)] + (Tail(ys) + ([Comma] + s))), FinishList(Nested([a] + ys, s)))
  {
    hide ParseSecond, AfterThird, AfterFourth, ParseComplex, Spelled, Fits;
    var r := FinishList(Nested([a] + ys, s));
    var end := EndOf(r);
    if |ys| == 0 {
      assert Tail(ys) + ([Comma] + s) == [Comma] + s;
      sh := SecondShapes(Plain(a), false, s);
    } else {
      var us: seq<ComplexShape>;
      if |ys| == 1 {
        us := ShapesOfThird(OfReal(a), OfReal(ys[0]), s);
      } else {
        us := ShapesOfFourth(OfReal(a), OfReal(ys[0]), OfReal(ys[1]), s);
      }
      sh := Complexes(Plains(a, ys, us));
      SpelledStart(us, 0, end);
      assert us[0..] == us;
      PlainsSpelled(a, ys, us, end);
      PlainsReadable(a, ys, us);
      ComplexesFit(Plains(a, ys, us), [LParen] + ([Number(a)] + (Tail(ys) + ([Comma] + s))), r);
    }
  }

  /** Numbers before complex numbers. */
  function Plains(a: real, ys: seq<real>, us: seq<ComplexShape>): seq<ComplexShape>
    requires 1 <= |ys| <= 2
  {
    [Plain(a)] + (if |ys| == 1 then [Plain(ys[0])] + us else [Plain(ys[0])] + ([Plain(ys[1])] + us))
  }

  lemma PlainsReadable(a: real, ys: seq<real>, us: seq<ComplexShape>)
    requires 1 <= |ys| <= 2 && 1 <= |us| && |us| + |ys| <= 3 && !us[0].Plain?
    ensures Readable(Plains(a, ys, us))
    ensures Plains(a, ys, us)[|Plains(a, ys, us)| - 1] == us[|us| - 1]
  {
    assert Plains(a, ys, us)[1 + |ys|] == us[0];
  }

  lemma PlainsSpelled(a: real, ys: seq<real>, us: seq<ComplexShape>, end: seq<Lexeme>)
    requires 1 <= |ys| <= 2 && us != []
    ensures Spelled(Plains(a, ys, us), end) == [Number(a)] + (Tail(ys) + ([Comma] + Spelled(us, end)))
  {
    hide Spelled, Tail;
    var s := [Comma] + Spelled(us, end);
    CommaThen([], s);
    CommaThen(ys, s);
    if |ys| == 1 {
      SpelledMore(Plain(ys[0]), us, end);
      SpelledMore(Plain(a), [Plain(ys[0])] + us, end);
      assert ys[1..] == [];
    } else {
      CommaThen(ys[1..], s);
      SpelledMore(Plain(ys[1]), us, end);
      SpelledMore(Plain(ys[0]), [Plain(ys[1])] + us, end);
      SpelledMore(Plain(a), [Plain(ys[0])] + ([Plain(ys[1])] + us), end);
      assert ys[1..][1..] == [];
    }
  }

  lemma CommaThen(ys: seq<real>, s: seq<Lexeme>)
    ensures Tail(ys) + s == if ys == [] then s else [Comma] + ([Number(ys[0])] + (Tail(ys[1..]) + s))
  {
    TailThen(ys, s);
    if ys != [] {
      ConcatAssociates([Comma], [Number(ys[0])], Tail(ys[1..]) + s);
    }
  }

  /** The format of which an input that did not fail is an instance. */
  lemma ShapeOfInput(s: seq<Lexeme>) returns (sh: Shape)
    requires Done(Parse(s))
    ensures Fits(sh, s, Parse(s))
  {
    if s[0].Number? {
      sh := Bare(s[0].value);
    } else {
      hide ParseFirst, FinishList, ParseList, Fits;
      var t := s[1..];
      assert s == [LParen] + t;
      if t[0] == LParen {
        sh := FirstShapes(t);
      } else {
        assert t == [Number(t[0].value)] + t[1..];
        sh := ListShapes(t[0].value, t[1..]);
      }
    }
  }

  lemma AcceptsExactlyTheShapes(s: seq<Lexeme>, o: O.Oct, rest: seq<Lexeme>)
    ensures Parse(s) == Success(o, rest) <==> exists sh :: StartsWith(s, sh, rest) && sh.Meaning() == o
  {
    hide Parse, Shape.Meaning;
    if Parse(s) == Success(o, rest) {
      var sh := ShapeOfInput(s);
      AcceptsShape(sh, rest);
    }
    forall sh | StartsWith(s, sh, rest)
      ensures Parse(s) == Success(sh.Meaning(), rest)
    {
      AcceptsShape(sh, rest);
    }
  }

  /** Reading stores nothing and does not fail exactly on the stumps of these formats. */
  lemma StopsExactlyAfterNumbers(s: seq<Lexeme>)
    ensures Parse(s).Stopped? <==> exists sh: Shape :: sh.Open() && s == sh.Stump()
  {
    hide Parse, Shape.Open, Shape.Stump;
    if Parse(s).Stopped? {
      var sh := ShapeOfInput(s);
    }
    forall sh: Shape | sh.Open() && s == sh.Stump()
      ensures Parse(s).Stopped?
    {
      StopsAfterShape(sh);
    }
  }

  // ----- failures that store -----

  /** "((a),(e,y)" with y in parentheses, and then nothing. */
  function Unfinished(a: real, e: real, y: ComplexShape): seq<Lexeme> {
    [LParen] + (Single(a).Lexemes() + ([Comma] + ([LParen, Number(e), Comma] + y.Lexemes() + [RParen])))
  }

  lemma UnguardedShape(e: real, y: ComplexShape)
    requires !y.Plain?
    ensures var s := [LParen, Number(e), Comma] + y.Lexemes() + [RParen];
            && Unguarded(s) && ParseComplex(s).NoComplex?
            && Q.Parse(s) == Lexemes.Accepted(H.Quat(e, 0.0, y.Meaning().re, y.Meaning().im), [])
  {
    var q := Q.RealComplex(e, y);
    var s := [LParen, Number(e), Comma] + y.Lexemes() + [RParen];
    hide Q.Parse, ParseComplex;
    assert s + [] == s && q.Lexemes() == s;
    Q.AcceptsShape(q, []);
    LongIsNotComplex(q, []);
  }

  lemma ShapeOfUnguarded(s: seq<Lexeme>) returns (y: ComplexShape)
    requires Unguarded(s)
    ensures !y.Plain? && s == [LParen, Number(s[1].value), Comma] + y.Lexemes() + [RParen]
  {
    var a, t := s[1].value, s[2..];
    assert s == [LParen, Number(a)] + t;
    Q.ParseFirstNumber(a, t);
    hide ParseComplex;
    y := ShapeOf(t[1..]);
    ComplexIsShape(t[1..]);
    var w := ParseComplex(t[1..]).remaining;
    assert w == [w[0]] + w[1..];
    assert s == [LParen, Number(a), Comma] + t[1..];
  }

  /** Failing leaves the target as it was except on exactly these inputs, where it gets this value. */
  lemma StoresAndFailsExactlyUnfinished(s: seq<Lexeme>, o: O.Oct)
    ensures Parse(s) == StoredAndFailed(o)
       <==> exists a, e, y: ComplexShape :: !y.Plain? && s == Unfinished(a, e, y)
              && o == OfComplexes(OfReal(a), ZERO, OfReal(e), y.Meaning())
  {
    if Parse(s) == StoredAndFailed(o) {
      var a, e, y := ShapeOfStored(s);
      StoresUnfinished(a, e, y);
    }
    forall a, e, y: ComplexShape | !y.Plain? && s == Unfinished(a, e, y)
      ensures Parse(s) == StoredAndFailed(OfComplexes(OfReal(a), ZERO, OfReal(e), y.Meaning()))
    {
      StoresUnfinished(a, e, y);
    }
  }

  lemma StoresUnfinished(a: real, e: real, y: ComplexShape)
    requires !y.Plain?
    ensures Parse(Unfinished(a, e, y)) == StoredAndFailed(OfComplexes(OfReal(a), ZERO, OfReal(e), y.Meaning()))
  {
    hide Parse, Q.Parse, ParseComplex, Unguarded;
    UnguardedShape(e, y);
    SecondIsReached(Single(a), [LParen, Number(e), Comma] + y.Lexemes() + [RParen]);
  }

  lemma ShapeOfStored(s: seq<Lexeme>) returns (a: real, e: real, y: ComplexShape)
    requires Parse(s).StoredAndFailed?
    ensures !y.Plain? && s == Unfinished(a, e, y)
  {
    hide ParseComplex, ComplexShape.Lexemes, AfterSecond, AfterThird, AfterFourth, Q.Parse, LastQuaternion;
    var t := s[1..];
    assert s == [LParen] + t;
    var u, w := ShapeOf(t), ParseComplex(t).remaining;
    ComplexIsShape(t);
    FormOf(t);
    y := ShapeOfUnguarded(w[1..]);
    a, e := u.re, w[2].value;
    assert w == [Comma] + w[1..];
  }

  lemma FailureCanStore()
    ensures Parse([LParen, LParen, Number(1.0), RParen, Comma,
                   LParen, Number(2.0), Comma, LParen, Number(3.0), RParen, RParen])
         == StoredAndFailed(O.Oct(1.0, 0.0, 0.0, 0.0, 2.0, 0.0, 3.0, 0.0))
  {
    hide Parse;
    StoresUnfinished(1.0, 2.0, Single(3.0));
    assert Unfinished(1.0, 2.0, Single(3.0))
        == [LParen, LParen, Number(1.0), RParen, Comma,
            LParen, Number(2.0), Comma, LParen, Number(3.0), RParen, RParen];
  }

  // ----- a format that one might expect -----

  /** A plain number is accepted after "((a),", but never after "((a,b),". */
  lemma PlainAfterPairFails(u: ComplexShape, c: real, s: seq<Lexeme>)
    requires u.Pair?
    ensures Parse([LParen] + (u.Lexemes() + ([Comma] + ([Number(c)] + s)))) == Failure
  {
    hide ParseComplex;
    var t := [Comma] + ([Number(c)] + s);
    DropFirst(LParen, u.Lexemes() + t);
    DropFirst(Comma, [Number(c)] + s);
    ShapeIsComplex(u, t);
    SingleIsClosed(u, t);
  }
}
