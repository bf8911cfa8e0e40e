/** Printing and reading quaternions. */
module QuaternionIO {

  import opened Lexemes
  import H = Quaternions
  import QuaternionObjects

  /** `operator <<` */
  function Print(q: H.Quat): seq<Lexeme> {
    [LParen, Number(q.a), Comma, Number(q.b), Comma, Number(q.c), Comma, Number(q.d), RParen]
  }

  // ----- the documented formats -----

  /**
   * A way of writing a quaternion: a number; one to four numbers in parentheses; or one or two
   * complex numbers in parentheses, the first of which may be a plain number.
   */
  datatype Shape =
    | Bare(a: real)
    | Reals(xs: seq<real>)
    | RealComplex(a: real, v: ComplexShape)
    | OneComplex(u: ComplexShape)
    | TwoComplex(u: ComplexShape, v: ComplexShape)
  {
    predicate Valid() {
      match this
      case Bare(_) => true
      case Reals(xs) => 1 <= |xs| <= 4
      case RealComplex(_, v) => !v.Plain?
      case OneComplex(u) => !u.Plain?
      case TwoComplex(u, _) => !u.Plain?
    }

    /** The lexemes before the closing parenthesis, if there is one. */
    function Body(): seq<Lexeme>
      requires Valid()
    {
      match this
      case Bare(a) => [Number(a)]
      case Reals(xs) => [LParen, Number(xs[0])] + Tail(xs[1..])
      case RealComplex(a, v) => [LParen, Number(a), Comma] + v.Lexemes()
      case OneComplex(u) => [LParen] + u.Lexemes()
      case TwoComplex(u, v) => [LParen] + (u.Lexemes() + ([Comma] + v.Lexemes()))
    }

    function Lexemes(): seq<Lexeme>
      requires Valid()
    {
      if Bare? then Body() else Body() + [RParen]
    }

    function Meaning(): H.Quat
      requires Valid()
    {
      match this
      case Bare(a) => H.Quat(a, 0.0, 0.0, 0.0)
      case Reals(xs) => OfReals(xs)
      case RealComplex(a, v) => H.Quat(a, 0.0, v.Meaning().re, v.Meaning().im)
      case OneComplex(u) => H.Quat(u.Meaning().re, u.Meaning().im, 0.0, 0.0)
      case TwoComplex(u, v) => H.Quat(u.Meaning().re, u.Meaning().im, v.Meaning().re, v.Meaning().im)
    }

    /** The body ends with a number that is not inside inner parentheses. */
    predicate EndsInNumber() {
      Bare? || Reals? || (TwoComplex? && v.Plain?)
    }
  }

  /** The components that a shape spells out, in order. */
  function Flat(sh: Shape): seq<real>
    requires sh.Valid()
  {
    match sh
    case Bare(a) => [a]
    case Reals(xs) => xs
    case RealComplex(a, v) => [a, 0.0] + v.Flat()
    case OneComplex(u) => u.Flat()
    case TwoComplex(u, v) => u.Flat() + v.Flat()
  }

  /** The meaning of a shape has these components, and then zeros. */
  lemma MeaningIsFlat(sh: Shape)
    requires sh.Valid()
    ensures |Flat(sh)| <= 4
    ensures var q := sh.Meaning(); [q.a, q.b, q.c, q.d] == Padded(Flat(sh), 4)
  {
    match sh
    case Bare(_) =>
    case Reals(_) =>
    case RealComplex(_, v) => v.MeaningIsFlat();
    case OneComplex(u) => u.MeaningIsFlat();
    case TwoComplex(u, v) =>
      u.MeaningIsFlat();
      v.MeaningIsFlat();
  }

  function OfReals(xs: seq<real>): H.Quat
    requires 1 <= |xs| <= 4
  {
    H.Quat(xs[0],
           if 1 < |xs| then xs[1] else 0.0,
           if 2 < |xs| then xs[2] else 0.0,
           if 3 < |xs| then xs[3] else 0.0)
  }

  /** a, (a), (a,b), (a,b,c) and (a,b,c,d) */
  lemma DocumentedReals(a: real, b: real, c: real, d: real)
    ensures Bare(a).Lexemes() == [Number(a)]
    ensures Reals([a]).Lexemes() == [LParen, Number(a), RParen]
    ensures Reals([a, b]).Lexemes() == [LParen, Number(a), Comma, Number(b), RParen]
    ensures Reals([a, b, c]).Lexemes() == [LParen, Number(a), Comma, Number(b), Comma, Number(c), RParen]
    ensures Reals([a, b, c, d]).Lexemes()
         == [LParen, Number(a), Comma, Number(b), Comma, Number(c), Comma, Number(d), RParen]
  {
    hide Tail;
    assert [a][1..] == [] && [a, b][1..] == [b] && [a, b, c][1..] == [b, c] && [a, b, c, d][1..] == [b, c, d];
    TailsWritten(b, c, d);
  }

  lemma TailsWritten(b: real, c: real, d: real)
    ensures Tail([]) == [] && Tail([b]) == [Comma, Number(b)]
    ensures Tail([b, c]) == [Comma, Number(b), Comma, Number(c)]
    ensures Tail([b, c, d]) == [Comma, Number(b), Comma, Number(c), Comma, Number(d)]
  {
    hide Tail;
    TailUnrolls(d, []);
    TailUnrolls(c, []);
    TailUnrolls(b, []);
    TailUnrolls(c, [d]);
    TailUnrolls(b, [c]);
    TailUnrolls(b, [c, d]);
    assert [b] + [] == [b] && [c] + [] == [c] && [d] + [] == [d];
    assert [b] + [c] == [b, c] && [c] + [d] == [c, d] && [b] + [c, d] == [b, c, d];
  }

  /** (a,(c)), (a,(c,d)) and ((a)) */
  lemma DocumentedNested(a: real, c: real, d: real)
    ensures RealComplex(a, Single(c)).Lexemes()
         == [LParen, Number(a), Comma, LParen, Number(c), RParen, RParen]
    ensures RealComplex(a, Pair(c, d)).Lexemes()
         == [LParen, Number(a), Comma, LParen, Number(c), Comma, Number(d), RParen, RParen]
    ensures OneComplex(Single(a)).Lexemes()
         == [LParen, LParen, Number(a), RParen, RParen]
  {
  }

  /** ((a),c), ((a),(c)) and ((a),(c,d)) */
  lemma DocumentedSingles(a: real, c: real, d: real)
    ensures TwoComplex(Single(a), Plain(c)).Lexemes()
         == [LParen, LParen, Number(a), RParen, Comma, Number(c), RParen]
    ensures TwoComplex(Single(a), Single(c)).Lexemes()
         == [LParen, LParen, Number(a), RParen, Comma, LParen, Number(c), RParen, RParen]
    ensures TwoComplex(Single(a), Pair(c, d)).Lexemes()
         == [LParen, LParen, Number(a), RParen, Comma, LParen, Number(c), Comma, Number(d), RParen, RParen]
  {
  }

  /** ((a,b)), ((a,b),c) and ((a,b),(c)) */
  lemma DocumentedPairs(a: real, b: real, c: real)
    ensures OneComplex(Pair(a, b)).Lexemes()
         == [LParen, LParen, Number(a), Comma, Number(b), RParen, RParen]
    ensures TwoComplex(Pair(a, b), Plain(c)).Lexemes()
         == [LParen, LParen, Number(a), Comma, Number(b), RParen, Comma, Number(c), RParen]
    ensures TwoComplex(Pair(a, b), Single(c)).Lexemes()
         == [LParen, LParen, Number(a), Comma, Number(b), RParen, Comma, LParen, Number(c), RParen, RParen]
  {
  }

  /** ((a,b),(c,d)) */
  lemma DocumentedTwoPairs(a: real, b: real, c: real, d: real)
    ensures TwoComplex(Pair(a, b), Pair(c, d)).Lexemes()
         == [LParen, LParen, Number(a), Comma, Number(b), RParen,
             Comma, LParen, Number(c), Comma, Number(d), RParen, RParen]
  {
  }

  // ----- what the reader does with an input -----

  function Parse(s: seq<Lexeme>): Outcome<H.Quat> {
    if s == [] then Failed
    else if s[0].Number? then
      if |s| == 1 then Ended else Accepted(H.Quat(s[0].value, 0.0, 0.0, 0.0), s[1..])
    else if s[0] == LParen && |s| > 1 then
      var t := s[1..];
      if t[0] == LParen then ParseComplexes(t)
      else if t[0].Number? then FinishList(ParseList([t[0].value], t[1..], 4, 2))
      else Failed
    else Failed
  }

  function ParseComplexes(s: seq<Lexeme>): Outcome<H.Quat> {
    match ParseComplex(s)
    case NoComplex => Failed
    case ComplexRead(u, _, t) =>
      if t == [] then Failed
      else if t[0] == RParen then Accepted(H.Quat(u.re, u.im, 0.0, 0.0), t[1..])
      else if t[0] == Comma then Close(u.re, u.im, ParseComplex(t[1..]))
      else Failed
  }

  function FinishList(p: ListOutcome): Outcome<H.Quat> {
    match p
    case Closed(xs, t) => if 1 <= |xs| <= 4 then Accepted(OfReals(xs), t) else Failed
    case Nested(xs, t) => if 1 <= |xs| then Close(xs[0], 0.0, ParseComplex(t)) else Failed
    case ListEnded => Ended
    case ListFailed => Failed
  }

  /** The last complex number has been looked for and the closing parenthesis is due. */
  function Close(a: real, b: real, p: ComplexOutcome): Outcome<H.Quat> {
    match p
    case NoComplex => Failed
    case ComplexRead(v, bare, t) =>
      if t == [] then if bare then Ended else Failed
      else if t[0] == RParen then Accepted(H.Quat(a, b, v.re, v.im), t[1..])
      else Failed
  }

  /** How a finished extraction leaves the stream and its target, which held q0 before. */
  predicate Finished(stream: LexemeStream, q: QuaternionObjects.Quaternion, q0: H.Quat, p: Outcome<H.Quat>)
    reads stream, q
  {
    match p
    case Accepted(v, remaining) => stream.Good() && q.Value() == v && stream.rest == remaining
    case Ended => stream.eof && !stream.fail && q.Value() == q0
    case Failed => stream.fail && q.Value() == q0
  }

  /** `operator >>` */
  method Read(stream: LexemeStream, q: QuaternionObjects.Quaternion)
    modifies stream, q
    ensures !old(stream.Good()) ==> stream.fail && q.Value() == old(q.Value())
    ensures old(stream.Good()) ==> Finished(stream, q, old(q.Value()), Parse(old(stream.rest)))
  {
    ghost var s0 := stream.rest;
    var ch := stream.GetChar(NO_CHAR);
    if !stream.Good() { return; }
    if ch == LParen {
      ghost var s1 := stream.rest;
      ch := stream.GetChar(ch);
      if !stream.Good() { return; }
      stream.Putback(ch);
      assert stream.rest == s1;
      if ch == LParen {
        ReadComplexes(stream, q);
      } else {
        var a := stream.GetNumber();
        if !stream.Good() { return; }
        ReadReals(stream, q, a);
      }
    } else {
      stream.Putback(ch);
      assert stream.rest == s0;
      var a := stream.GetNumber();
      if !stream.Good() { return; }
      q.Assign(H.Quat(a, 0.0, 0.0, 0.0));
    }
  }

  /** The branch of `operator >>` that has seen "((". */
  method ReadComplexes(stream: LexemeStream, q: QuaternionObjects.Quaternion)
    requires stream.Good() && stream.rest != [] && stream.rest[0] == LParen
    modifies stream, q
    ensures Finished(stream, q, old(q.Value()), ParseComplexes(old(stream.rest)))
  {
    var u := stream.GetComplex();
    var a, b := u.re, u.im;
    if !stream.Good() { return; }
    var ch := stream.GetChar(NO_CHAR);
    if !stream.Good() { return; }
    if ch == RParen {
      q.Assign(H.Quat(a, b, 0.0, 0.0));
    } else if ch == Comma {
      ReadLastComplex(stream, q, a, b);
    } else {
      stream.SetFail();
    }
  }

  /** A last complex number and the closing parenthesis. */
  method ReadLastComplex(stream: LexemeStream, q: QuaternionObjects.Quaternion, a: real, b: real)
    requires stream.Good()
    modifies stream, q
    ensures Finished(stream, q, old(q.Value()), Close(a, b, ParseComplex(old(stream.rest))))
  {
    var v := stream.GetComplex();
    var c, d := v.re, v.im;
    if !stream.Good() { return; }
    var ch := stream.GetChar(NO_CHAR);
    if !stream.Good() { return; }
    if ch == RParen {
      q.Assign(H.Quat(a, b, c, d));
    } else {
      stream.SetFail();
    }
  }

  /** The branch of `operator >>` that has read "(a". */
  method ReadReals(stream: LexemeStream, q: QuaternionObjects.Quaternion, a: real)
    requires stream.Good() && stream.rest != []
    modifies stream, q
    ensures Finished(stream, q, old(q.Value()), FinishList(ParseList([a], old(stream.rest), 4, 2)))
  {
    ghost var s0 := stream.rest;
    var ch := stream.GetChar(NO_CHAR);
    if !stream.Good() { return; }
    if ch == RParen {
      q.Assign(H.Quat(a, 0.0, 0.0, 0.0));
    } else if ch == Comma {
      ghost var s := stream.rest;
      ch := stream.GetChar(ch);
      if !stream.Good() { return; }
      stream.Putback(ch);
      assert stream.rest == s;
      if ch == LParen {
        ReadLastComplex(stream, q, a, 0.0);
      } else {
        var b := stream.GetNumber();
        assert [a] + [b] == [a, b];
        assert !stream.fail ==> ParseList([a], s0, 4, 2) == ParseList([a, b], stream.rest, 4, 2);
        if !stream.Good() { return; }
        ReadMoreReals(stream, q, a, b);
      }
    } else {
      stream.SetFail();
    }
  }

  /** The branch of `operator >>` that has read "(a,b". */
  method ReadMoreReals(stream: LexemeStream, q: QuaternionObjects.Quaternion, a: real, b: real)
    requires stream.Good() && stream.rest != []
    modifies stream, q
    ensures Finished(stream, q, old(q.Value()), FinishList(ParseList([a, b], old(stream.rest), 4, 2)))
  {
    ghost var s0 := stream.rest;
    var ch := stream.GetChar(NO_CHAR);
    if !stream.Good() { return; }
    if ch == RParen {
      q.Assign(H.Quat(a, b, 0.0, 0.0));
    } else if ch == Comma {
      var c := stream.GetNumber();
      assert [a, b] + [c] == [a, b, c];
      assert !stream.fail ==> ParseList([a, b], s0, 4, 2) == ParseList([a, b, c], stream.rest, 4, 2);
      if !stream.Good() { return; }
      ch := stream.GetChar(ch);
      if !stream.Good() { return; }
      if ch == RParen {
        q.Assign(H.Quat(a, b, c, 0.0));
      } else if ch == Comma {
        var d := stream.GetNumber();
        assert [a, b, c] + [d] == [a, b, c, d];
        assert !stream.fail ==> ParseList([a, b], s0, 4, 2) == ParseList([a, b, c, d], stream.rest, 4, 2);
        if !stream.Good() { return; }
        ch := stream.GetChar(ch);
        if !stream.Good() { return; }
        if ch == RParen {
          q.Assign(H.Quat(a, b, c, d));
        } else {
          stream.SetFail();
        }
      } else {
        stream.SetFail();
      }
    } else {
      stream.SetFail();
    }
  }

  // ----- the reader accepts exactly the documented formats -----

  /** s starts with the shape; after a bare number something has to follow. */
  ghost predicate StartsWith(s: seq<Lexeme>, sh: Shape, rest: seq<Lexeme>) {
    sh.Valid() && s == sh.Lexemes() + rest && (sh.Bare? ==> rest != [])
  }

  lemma AcceptsShape(sh: Shape, rest: seq<Lexeme>)
    requires sh.Valid() && (sh.Bare? ==> rest != [])
    ensures Parse(sh.Lexemes() + rest) == Accepted(sh.Meaning(), rest)
  {
    if sh.Bare? {
      assert (sh.Lexemes() + rest)[1..] == rest;
    } else {
      ParseBody(sh, [RParen] + rest);
      assert sh.Lexemes() + rest == sh.Body() + ([RParen] + rest);
      assert ([RParen] + rest)[1..] == rest;
    }
  }

  /** What is left to decide once the body of a parenthesised shape has been read. */
  function AfterBody(sh: Shape, s: seq<Lexeme>): Outcome<H.Quat>
    requires sh.Valid() && !sh.Bare?
  {
    match sh
    case Reals(xs) => FinishList(ParseList(xs, s, 4, 2))
    case RealComplex(a, v) => Close(a, 0.0, ComplexRead(v.Meaning(), v.Plain?, s))
    case OneComplex(u) =>
      if s == [] then Failed
      else if s[0] == RParen then Accepted(sh.Meaning(), s[1..])
      else if s[0] == Comma then Close(u.Meaning().re, u.Meaning().im, ParseComplex(s[1..]))
      else Failed
    case TwoComplex(u, v) => Close(u.Meaning().re, u.Meaning().im, ComplexRead(v.Meaning(), v.Plain?, s))
  }

  lemma ParseBody(sh: Shape, s: seq<Lexeme>)
    requires sh.Valid() && !sh.Bare?
    ensures Parse(sh.Body() + s) == AfterBody(sh, s)
  {
    match sh
    case Reals(xs) => ParseRealsBody(xs, s);
    case RealComplex(a, v) => ParseRealComplexBody(a, v, s);
    case OneComplex(u) =>
      assert (sh.Body() + s)[1..] == u.Lexemes() + s;
      ShapeIsComplex(u, s);
    case TwoComplex(u, v) => ParseTwoComplexBody(u, v, s);
  }

  lemma ParseRealsBody(xs: seq<real>, s: seq<Lexeme>)
    requires 1 <= |xs| <= 4
    ensures Parse([LParen, Number(xs[0])] + Tail(xs[1..]) + s) == FinishList(ParseList(xs, s, 4, 2))
  {
    hide FinishList, ParseList, Tail;
    var t := Tail(xs[1..]) + s;
    assert [LParen, Number(xs[0])] + Tail(xs[1..]) + s == [LParen, Number(xs[0])] + t;
    ParseFirstNumber(xs[0], t);
    ParseListTail([xs[0]], xs[1..], s, 4, 2);
    assert [xs[0]] + xs[1..] == xs;
  }

  lemma ParseFirstNumber(a: real, t: seq<Lexeme>)
    ensures Parse([LParen, Number(a)] + t) == FinishList(ParseList([a], t, 4, 2))
  {
    hide FinishList, ParseList;
    var input := [LParen, Number(a)] + t;
    assert input[1..] == [Number(a)] + t && input[1..][1..] == t;
  }

  lemma ParseRealComplexBody(a: real, v: ComplexShape, s: seq<Lexeme>)
    requires !v.Plain?
    ensures Parse([LParen, Number(a), Comma] + v.Lexemes() + s)
         == Close(a, 0.0, ComplexRead(v.Meaning(), v.Plain?, s))
  {
    hide Parse, Close, ParseComplex;
    var w := v.Lexemes() + s;
    var t := [Comma] + w;
    assert [LParen, Number(a), Comma] + v.Lexemes() + s == [LParen, Number(a)] + t;
    ParseFirstNumber(a, t);
    ShapeIsComplex(v, s);
    assert t[1..] == w;
  }

  lemma ParseTwoComplexBody(u: ComplexShape, v: ComplexShape, s: seq<Lexeme>)
    requires !u.Plain?
    ensures Parse([LParen] + (u.Lexemes() + ([Comma] + v.Lexemes())) + s)
         == Close(u.Meaning().re, u.Meaning().im, ComplexRead(v.Meaning(), v.Plain?, s))
  {
    hide Close, ParseComplex;
    var w := v.Lexemes() + s;
    var input := [LParen] + (u.Lexemes() + ([Comma] + v.Lexemes())) + s;
    assert input == [LParen] + (u.Lexemes() + ([Comma] + w));
    assert input[1..] == u.Lexemes() + ([Comma] + w);
    assert ([Comma] + w)[1..] == w;
    ShapeIsComplex(u, [Comma] + w);
    ShapeIsComplex(v, s);
  }

  /** sh is the shape of an input with outcome p: the whole of it up to the closing parenthesis. */
  ghost predicate Describes(sh: Shape, s: seq<Lexeme>, p: Outcome<H.Quat>) {
    && sh.Valid() && !sh.Bare?
    && (p.Accepted? ==> s == sh.Body() + ([RParen] + p.remaining))
    && (p.Ended? ==> sh.EndsInNumber() && s == sh.Body())
  }

  /** The shape with which an input that did not fail starts. */
  lemma ShapeOfInput(s: seq<Lexeme>) returns (sh: Shape)
    requires !Parse(s).Failed?
    ensures sh.Valid()
    ensures Parse(s).Accepted? ==> StartsWith(s, sh, Parse(s).remaining)
    ensures Parse(s).Ended? ==> sh.EndsInNumber() && s == sh.Body()
  {
    if s[0].Number? {
      sh := Bare(s[0].value);
    } else {
      hide Parse, Shape.Body;
      sh := ShapeOfParenthesised(s);
      if Parse(s).Accepted? {
        ConcatAssociates(sh.Body(), [RParen], Parse(s).remaining);
      }
    }
  }

  lemma ShapeOfParenthesised(s: seq<Lexeme>) returns (sh: Shape)
    requires !Parse(s).Failed? && !s[0].Number?
    ensures Describes(sh, s, Parse(s))
  {
    hide ParseComplexes, ParseList, FinishList, Describes;
    var t := s[1..];
    assert s == [LParen] + t;
    if t[0] == LParen {
      sh := ShapeOfComplexes(t);
    } else {
      sh := ShapeOfReals(t[0].value, t[1..]);
      assert s == [LParen, t[0]] + t[1..];
    }
  }

  /** Bodies with their brackets moved, for any continuation w. */
  lemma BodyThen(sh: Shape, w: seq<Lexeme>)
    requires sh.Valid()
    ensures match sh
            case Bare(_) => true
            case Reals(xs) => [LParen, Number(xs[0])] + (Tail(xs[1..]) + w) == sh.Body() + w
            case RealComplex(a, v) => [LParen, Number(a)] + ([Comma] + (v.Lexemes() + w)) == sh.Body() + w
            case OneComplex(u) => [LParen] + (u.Lexemes() + w) == sh.Body() + w
            case TwoComplex(u, v) => [LParen] + (u.Lexemes() + ([Comma] + (v.Lexemes() + w))) == sh.Body() + w
  {
    hide Tail, ComplexShape.Lexemes;
    match sh
    case Bare(_) =>
    case Reals(xs) =>
      ConcatAssociates([LParen, Number(xs[0])], Tail(xs[1..]), w);
    case RealComplex(a, v) =>
      ConcatAssociates([LParen, Number(a)], [Comma], v.Lexemes() + w);
      ConcatAssociates([LParen, Number(a), Comma], v.Lexemes(), w);
      assert [LParen, Number(a)] + [Comma] == [LParen, Number(a), Comma];
    case OneComplex(u) =>
      ConcatAssociates([LParen], u.Lexemes(), w);
    case TwoComplex(u, v) =>
      ConcatAssociates([Comma], v.Lexemes(), w);
      ConcatAssociates(u.Lexemes(), [Comma] + v.Lexemes(), w);
      ConcatAssociates([LParen], u.Lexemes() + ([Comma] + v.Lexemes()), w);
  }

  lemma ShapeOfReals(a: real, s: seq<Lexeme>) returns (sh: Shape)
    requires !FinishList(ParseList([a], s, 4, 2)).Failed?
    ensures Describes(sh, [LParen, Number(a)] + s, FinishList(ParseList([a], s, 4, 2)))
  {
    hide ParseList, Tail, Shape.Body, ParseComplex, Close;
    var p := ParseList([a], s, 4, 2);
    var w := if FinishList(p).Accepted? then [RParen] + FinishList(p).remaining else [];
    var ys := ParseListShape([a], s, 4, 2);
    if p.Nested? {
      assert ys == [];
      NoTail();
      var v := ShapeOfLast(a, 0.0, p.remaining);
      sh := RealComplex(a, v);
    } else {
      sh := Reals([a] + ys);
      assert ([a] + ys)[1..] == ys;
      assert Tail(ys) + [] == Tail(ys);
    }
    BodyThen(sh, w);
    assert sh.Body() + [] == sh.Body();
  }

  lemma NoTail()
    ensures forall s :: Tail([]) + s == s
  {
  }

  lemma ShapeOfComplexes(s: seq<Lexeme>) returns (sh: Shape)
    requires s != [] && s[0] == LParen && !ParseComplexes(s).Failed?
    ensures Describes(sh, [LParen] + s, ParseComplexes(s))
  {
    hide ParseComplex, ComplexShape.Lexemes, Shape.Body, Close;
    var u, t := ShapeOf(s), ParseComplex(s).remaining;
    var p := ParseComplexes(s);
    var w := if p.Accepted? then [RParen] + p.remaining else [];
    ComplexIsShape(s);
    if t[0] == RParen {
      sh := OneComplex(u);
      assert t == w;
    } else {
      var v := ShapeOfLast(u.Meaning().re, u.Meaning().im, t[1..]);
      sh := TwoComplex(u, v);
      assert t == [Comma] + t[1..];
    }
    BodyThen(sh, w);
    assert sh.Body() + [] == sh.Body();
  }

  lemma ShapeOfLast(a: real, b: real, s: seq<Lexeme>) returns (v: ComplexShape)
    requires !Close(a, b, ParseComplex(s)).Failed?
    ensures var p := Close(a, b, ParseComplex(s));
            && (p.Accepted? ==> s == v.Lexemes() + ([RParen] + p.remaining))
            && (p.Ended? ==> v.Plain? && s == v.Lexemes() + [])
            && (s[0] == LParen ==> !v.Plain?)
  {
    hide ParseComplex;
    v := ShapeOf(s);
    ComplexIsShape(s);
    var t := ParseComplex(s).remaining;
    assert t != [] ==> t == [t[0]] + t[1..];
  }

  lemma AcceptsExactlyTheShapes(s: seq<Lexeme>, q: H.Quat, rest: seq<Lexeme>)
    ensures Parse(s) == Accepted(q, rest) <==> exists sh :: StartsWith(s, sh, rest) && sh.Meaning() == q
  {
    if Parse(s) == Accepted(q, rest) {
      var sh := ShapeOfInput(s);
      AcceptsShape(sh, rest);
    }
    forall sh | StartsWith(s, sh, rest)
      ensures Parse(s) == Accepted(sh.Meaning(), rest)
    {
      AcceptsShape(sh, rest);
    }
  }

  /**
   * The extraction neither stores a value nor reports failure exactly when the input stops right
   * after a number that could still have been continued or closed.
   */
  lemma EndsExactlyAfterNumbers(s: seq<Lexeme>)
    ensures Parse(s).Ended? <==> exists sh: Shape :: sh.Valid() && sh.EndsInNumber() && s == sh.Body()
  {
    if Parse(s).Ended? {
      var sh := ShapeOfInput(s);
    }
    forall sh: Shape | sh.Valid() && sh.EndsInNumber() && s == sh.Body()
      ensures Parse(s).Ended?
    {
      if !sh.Bare? {
        ParseBody(sh, []);
        assert sh.Body() + [] == sh.Body();
      }
    }
  }

  // ----- reading undoes printing -----

  /** Of all formats with the right meaning, the printed one is that of four numbers. */
  lemma PrintedShape(q: H.Quat)
    ensures Print(q) == Reals([q.a, q.b, q.c, q.d]).Lexemes()
    ensures Reals([q.a, q.b, q.c, q.d]).Meaning() == q
  {
    DocumentedReals(q.a, q.b, q.c, q.d);
  }

  lemma ReadUndoesPrint(q: H.Quat, rest: seq<Lexeme>)
    ensures Parse(Print(q) + rest) == Accepted(q, rest)
  {
    hide Parse, Print, Shape.Lexemes, Shape.Meaning;
    PrintedShape(q);
    AcceptsShape(Reals([q.a, q.b, q.c, q.d]), rest);
  }

  function PrintAll(qs: seq<H.Quat>): seq<Lexeme> {
    if qs == [] then [] else Print(qs[0]) + PrintAll(qs[1..])
  }

  /** What reading n quaternions one after the other does. */
  function ParseMany(s: seq<Lexeme>, n: nat): Outcome<seq<H.Quat>>
    decreases n
  {
    if n == 0 then Accepted([], s)
    else
      match Parse(s)
      case Accepted(q, t) => Prepend([q], ParseMany(t, n - 1))
      case Ended => Ended
      case Failed => Failed
  }

  lemma {:induction false} PrintedParses(qs: seq<H.Quat>, rest: seq<Lexeme>)
    ensures ParseMany(PrintAll(qs) + rest, |qs|) == Accepted(qs, rest)
  {
    if qs == [] {
      assert PrintAll(qs) + rest == rest;
    } else {
      hide Parse, Print;
      var t := PrintAll(qs[1..]) + rest;
      assert PrintAll(qs) + rest == Print(qs[0]) + t;
      ReadUndoesPrint(qs[0], t);
      PrintedParses(qs[1..], rest);
      assert [qs[0]] + qs[1..] == qs;
    }
  }

  /** Calls the reader n times; where the quaternions were printed back to back, it finds them. */
  method ReadMany(stream: LexemeStream, n: nat) returns (qs: seq<H.Quat>)
    requires stream.Good()
    modifies stream
    ensures stream.Good() ==> ParseMany(old(stream.rest), n) == Accepted(qs, stream.rest)
    ensures !stream.Good() ==> !ParseMany(old(stream.rest), n).Accepted?
    ensures forall printed, rest :: |printed| == n && old(stream.rest) == PrintAll(printed) + rest ==>
              stream.Good() && qs == printed && stream.rest == rest
  {
    hide Parse, PrintAll;
    ghost var s := stream.rest;
    qs := [];
    PrependNothing(qs, ParseMany(s, n), s);
    while |qs| < n && stream.Good()
      invariant |qs| <= n
      invariant stream.Good() ==> ParseMany(s, n) == Prepend(qs, ParseMany(stream.rest, n - |qs|))
      invariant !stream.Good() ==> !ParseMany(s, n).Accepted?
      decreases n - |qs|, stream.Good()
    {
      ghost var t := stream.rest;
      var q := new QuaternionObjects.Quaternion(0.0, 0.0, 0.0, 0.0);
      Read(stream, q);
      if stream.Good() {
        PrependTwice(qs, q.Value(), ParseMany(stream.rest, n - |qs| - 1));
        qs := qs + [q.Value()];
      }
    }
    PrependNothing(qs, ParseMany(s, n), stream.rest);
    forall printed, rest | |printed| == n && s == PrintAll(printed) + rest
      ensures stream.Good() && qs == printed && stream.rest == rest
    {
      PrintedParses(printed, rest);
    }
  }
}
