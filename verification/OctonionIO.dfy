/**
 * Printing and reading octonions. The source's reader spells out every format; here the branches
 * that it repeats after "(a,", "((a)," and "((a,b)," are methods of their own.
 */
module OctonionIO {

  import opened Lexemes
  import opened OctonionFormats
  import opened OctonionGrammar
  import C = ComplexNumbers
  import H = Quaternions
  import O = Octonions
  import OctonionObjects
  import Q = QuaternionIO
  import QuaternionObjects

  /** `operator <<` */
  function Print(o: O.Oct): seq<Lexeme> {
    [LParen, Number(o.a), Comma, Number(o.b), Comma, Number(o.c), Comma, Number(o.d), Comma,
     Number(o.e), Comma, Number(o.f), Comma, Number(o.g), Comma, Number(o.h), RParen]
  }

  /** How a finished extraction leaves the stream and its target, which held o0 before. */
  predicate Finished(stream: LexemeStream, o: OctonionObjects.Octonion, o0: O.Oct, r: Reading)
    reads stream, o
  {
    match r
    case Success(v, remaining) => stream.Good() && o.Value() == v && stream.rest == remaining
    case Stopped => stream.eof && !stream.fail && o.Value() == o0
    case Failure => stream.fail && o.Value() == o0
    case StoredAndFailed(v) => stream.fail && o.Value() == v
  }

  // ----- inputs of which the first numbers have been read -----

  /** What is to come of "((a" followed by s. */
  function FirstSingle(a: real, s: seq<Lexeme>): Reading {
    if s == [] then Stopped
    else if s[0] == RParen then AfterFirst(OfReal(a), true, s[1..])
    else if s[0] == Comma && |s| > 1 then
      if s[1] == LParen then AfterQuaternion(Q.Close(a, 0.0, ParseComplex(s[1..])))
      else if s[1].Number? then FirstPair(a, s[1].value, s[2..])
      else Failure
    else Failure
  }

  /** What is to come of "((a,b" followed by s. */
  function FirstPair(a: real, b: real, s: seq<Lexeme>): Reading {
    if s != [] && s[0] == RParen then AfterFirst(C.Complex(a, b), false, s[1..])
    else AfterQuaternion(Q.FinishList(ParseList([a, b], s, 4, 2)))
  }

  lemma FirstIsSingle(a: real, s: seq<Lexeme>)
    ensures ParseFirst([LParen, Number(a)] + s) == FirstSingle(a, s)
  {
    hide ParseComplex, AfterFirst, Q.Parse, Q.Close, ParseList, Q.FinishList;
    var t := [LParen, Number(a)] + s;
    NumberInParentheses(a, s);
    QuaternionOfNumber(a, s);
    assert |s| > 0 ==> t[2] == s[0];
    assert |s| > 2 ==> s[2..][1..] == s[3..];
  }

  /** What is to come of "(c" followed by s, in the second place. */
  function SecondSingle(u: C.Complex, single: bool, c: real, s: seq<Lexeme>): Reading {
    if s == [] then Stopped
    else if s[0] == RParen then AfterSecond(u, ComplexRead(OfReal(c), false, s[1..]))
    else if s[0] == Comma && |s| > 1 then
      if s[1] == LParen then SecondNested(u, single, c, s[1..])
      else if s[1].Number? then SecondPair(u, c, s[1].value, s[2..])
      else Failure
    else Failure
  }

  /** What is to come of "(c," followed by s, which begins with a parenthesis. */
  function SecondNested(u: C.Complex, single: bool, c: real, s: seq<Lexeme>): Reading {
    match ParseComplex(s)
    case NoComplex => Failure
    case ComplexRead(y, _, t) =>
      if t == [] || t[0] != RParen then Failure
      else if t == [RParen] then
        if single then StoredAndFailed(OfComplexes(u, ZERO, OfReal(c), y)) else Failure
      else if t[1] == RParen then Success(OfComplexes(u, ZERO, OfReal(c), y), t[2..])
      else Failure
  }

  /** What is to come of "(c,d" followed by s, in the second place. */
  function SecondPair(u: C.Complex, c: real, d: real, s: seq<Lexeme>): Reading {
    if s != [] && s[0] == RParen then AfterSecond(u, ComplexRead(C.Complex(c, d), false, s[1..]))
    else LastQuaternion(OfComplex(u), Q.FinishList(ParseList([c, d], s, 4, 2)))
  }

  lemma SecondIsSingle(u: C.Complex, single: bool, c: real, s: seq<Lexeme>)
    ensures ParseSecond(u, single, [LParen, Number(c)] + s) == SecondSingle(u, single, c, s)
  {
    hide ParseComplex, AfterSecond, Q.Parse, ParseList, Q.FinishList;
    var t := [LParen, Number(c)] + s;
    NumberInParentheses(c, s);
    QuaternionOfNumber(c, s);
    assert |s| > 1 ==> t[2] == s[0] && t[3] == s[1];
    if |s| > 1 && s[0] == Comma && s[1] == LParen {
      ComplexInParentheses(s[1..]);
    }
  }

  /** Whether a number in parentheses is a complex number. */
  lemma NumberInParentheses(c: real, s: seq<Lexeme>)
    ensures ParseComplex([LParen, Number(c)] + s)
         == if s != [] && s[0] == RParen then ComplexRead(OfReal(c), false, s[1..])
            else if |s| > 2 && s[0] == Comma && s[1].Number? && s[2] == RParen
            then ComplexRead(C.Complex(c, s[1].value), false, s[3..])
            else NoComplex
  {
    var t := [LParen, Number(c)] + s;
    assert |s| > 0 ==> t[2] == s[0] && t[3..] == s[1..];
    assert |s| > 2 ==> t[3] == s[1] && t[4] == s[2] && t[5..] == s[3..];
  }

  lemma ComplexInParentheses(s: seq<Lexeme>)
    requires s != [] && s[0] == LParen
    ensures ParseComplex(s).ComplexRead? ==> !ParseComplex(s).bare
  {
  }

  /** What a number in parentheses is the beginning of, if it is not a complex number. */
  lemma QuaternionOfNumber(c: real, s: seq<Lexeme>)
    ensures Q.Parse([LParen, Number(c)] + s)
         == if s == [] then Ended
            else if s[0] == RParen then Accepted(H.Quat(c, 0.0, 0.0, 0.0), s[1..])
            else if s[0] == Comma && |s| > 1 && s[1] == LParen then Q.Close(c, 0.0, ParseComplex(s[1..]))
            else if s[0] == Comma && |s| > 1 && s[1].Number?
            then Q.FinishList(ParseList([c, s[1].value], s[2..], 4, 2))
            else Lexemes.Failed
  {
    hide ParseComplex, Q.Parse;
    Q.ParseFirstNumber(c, s);
    assert |s| > 1 ==> s[1..][1..] == s[2..];
    assert |s| > 1 && s[1].Number? ==> [c] + [s[1].value] == [c, s[1].value];
  }

  // ----- the reader -----

  /** `operator >>` */
  method Read(stream: LexemeStream, o: OctonionObjects.Octonion)
    modifies stream, o
    ensures !old(stream.Good()) ==> stream.fail && o.Value() == old(o.Value())
    ensures old(stream.Good()) ==> Finished(stream, o, old(o.Value()), Parse(old(stream.rest)))
  {
    hide ParseFirst, FinishList, OfReals;
    ghost var s0 := stream.rest;
    var ch := stream.GetChar(NO_CHAR);
    if !stream.Good() { return; }
    if ch == LParen {
      ghost var s1 := stream.rest;
      ch := stream.GetChar(ch);
      if !stream.Good() { return; }
      if ch == LParen {
        assert s1 == [LParen] + stream.rest;
        ReadFirst(stream, o);
      } else {
        stream.Putback(ch);
        assert stream.rest == s1;
        var a := stream.GetNumber();
        if !stream.Good() { ListStops(a); return; }
        ReadList(stream, o, a);
      }
    } else {
      stream.Putback(ch);
      assert stream.rest == s0;
      var a := stream.GetNumber();
      if !stream.Good() { return; }
      o.Assign(OfReals([a]));
    }
  }

  lemma ListStops(a: real)
    ensures FinishList(ParseList([a], [], 8, 4)) == Stopped
  {
  }

  /** The branch of `operator >>` that has seen "((". */
  method ReadFirst(stream: LexemeStream, o: OctonionObjects.Octonion)
    requires stream.Good()
    modifies stream, o
    ensures Finished(stream, o, old(o.Value()), ParseFirst([LParen] + old(stream.rest)))
  {
    hide AfterQuaternion, Q.ParseComplexes, FirstSingle, AfterFirst;
    ghost var s := stream.rest;
    FirstIsNumber(s);
    FirstIsComplexes(s);
    var ch := stream.GetChar(LParen);
    if !stream.Good() { return; }
    stream.Putback(ch);
    assert stream.rest == s;
    if ch == LParen {
      ReadFirstComplexes(stream, o);
    } else {
      var a := stream.GetNumber();
      if !stream.Good() { return; }
      assert s == [Number(a)] + stream.rest;
      assert [LParen] + s == [LParen, Number(a)] + stream.rest;
      FirstIsSingle(a, stream.rest);
      ReadFirstSingle(stream, o, a);
    }
  }

  lemma FirstIsComplexes(s: seq<Lexeme>)
    ensures s != [] && s[0] == LParen ==>
              ParseFirst([LParen] + s) == AfterQuaternion(Q.ParseComplexes(s))
  {
    hide AfterQuaternion, Q.ParseComplexes;
    assert ([LParen] + s)[1..] == s;
  }

  lemma FirstIsNumber(s: seq<Lexeme>)
    ensures s == [] || (!s[0].Number? && s[0] != LParen) ==> ParseFirst([LParen] + s) == Failure
    ensures |s| == 1 && s[0].Number? ==> ParseFirst([LParen] + s) == Stopped
  {
    assert ([LParen] + s)[1..] == s;
    if |s| == 1 && s[0].Number? {
      FirstIsSingle(s[0].value, []);
      assert [LParen] + s == [LParen, Number(s[0].value)] + [];
    }
  }

  /** The branch that has seen "(((", of which the last is to be read again. */
  method ReadFirstComplexes(stream: LexemeStream, o: OctonionObjects.Octonion)
    requires stream.Good() && stream.rest != [] && stream.rest[0] == LParen
    modifies stream, o
    ensures Finished(stream, o, old(o.Value()), AfterQuaternion(Q.ParseComplexes(old(stream.rest))))
  {
    hide AfterQuaternion;
    AfterOutcomes();
    var u := stream.GetComplex();
    if !stream.Good() { return; }
    var ch := stream.GetChar(LParen);
    if !stream.Good() { return; }
    if ch == RParen {
      ReadAfterQuaternion(stream, o, H.Quat(u.re, u.im, 0.0, 0.0));
    } else if ch == Comma {
      ReadFirstNested(stream, o, u.re, u.im);
    } else {
      stream.SetFail();
    }
  }

  lemma AfterOutcomes()
    ensures AfterQuaternion(Lexemes.Ended) == Stopped && AfterQuaternion(Lexemes.Failed) == Failure
  {
  }

  /** The last complex number of a first quaternion, which began with a and b. */
  method ReadFirstNested(stream: LexemeStream, o: OctonionObjects.Octonion, a: real, b: real)
    requires stream.Good()
    modifies stream, o
    ensures Finished(stream, o, old(o.Value()), AfterQuaternion(Q.Close(a, b, ParseComplex(old(stream.rest)))))
  {
    hide AfterQuaternion;
    AfterOutcomes();
    var v := stream.GetComplex();
    if !stream.Good() { return; }
    var ch := stream.GetChar(NO_CHAR);
    if !stream.Good() { return; }
    if ch == RParen {
      ReadAfterQuaternion(stream, o, H.Quat(a, b, v.re, v.im));
    } else {
      stream.SetFail();
    }
  }

  /** What comes after a first quaternion p in parentheses. */
  method ReadAfterQuaternion(stream: LexemeStream, o: OctonionObjects.Octonion, p: H.Quat)
    requires stream.Good()
    modifies stream, o
    ensures Finished(stream, o, old(o.Value()), AfterQuaternion(Lexemes.Accepted(p, old(stream.rest))))
  {
    var ch := stream.GetChar(RParen);
    if !stream.Good() { return; }
    if ch == RParen {
      o.Assign(O.OfQuat(p));
    } else if ch == Comma {
      ReadLastQuaternion(stream, o, p);
    } else {
      stream.SetFail();
    }
  }

  /** A last quaternion and the closing parenthesis. */
  method ReadLastQuaternion(stream: LexemeStream, o: OctonionObjects.Octonion, p: H.Quat)
    requires stream.Good()
    modifies stream, o
    ensures Finished(stream, o, old(o.Value()), LastQuaternion(p, Q.Parse(old(stream.rest))))
  {
    hide Q.Parse;
    var q := new QuaternionObjects.Quaternion(0.0, 0.0, 0.0, 0.0);
    Q.Read(stream, q);
    if !stream.Good() { return; }
    var ch := stream.GetChar(NO_CHAR);
    if !stream.Good() { return; }
    if ch == RParen {
      o.Assign(O.OfHalves(p, q.Value()));
    } else {
      stream.SetFail();
    }
  }

  /** The branch that has read "((a". */
  method ReadFirstSingle(stream: LexemeStream, o: OctonionObjects.Octonion, a: real)
    requires stream.Good() && stream.rest != []
    modifies stream, o
    ensures Finished(stream, o, old(o.Value()), FirstSingle(a, old(stream.rest)))
  {
    hide AfterFirst, AfterQuaternion, Q.Close, FirstPair;
    ghost var s0 := stream.rest;
    var ch := stream.GetChar(NO_CHAR);
    if !stream.Good() { return; }
    if ch == RParen {
      ReadAfterFirst(stream, o, OfReal(a), true);
    } else if ch == Comma {
      ghost var s := stream.rest;
      ch := stream.GetChar(ch);
      if !stream.Good() { return; }
      stream.Putback(ch);
      assert stream.rest == s;
      if ch == LParen {
        ReadFirstNested(stream, o, a, 0.0);
      } else {
        var b := stream.GetNumber();
        assert !stream.fail ==> stream.rest == s0[2..];
        if !stream.Good() { PairStops(a, b); return; }
        ReadFirstPair(stream, o, a, b);
      }
    } else {
      stream.SetFail();
    }
  }

  lemma PairStops(a: real, b: real)
    ensures FirstPair(a, b, []) == Stopped
  {
  }

  /** The branch that has read "((a,b". */
  method ReadFirstPair(stream: LexemeStream, o: OctonionObjects.Octonion, a: real, b: real)
    requires stream.Good() && stream.rest != []
    modifies stream, o
    ensures Finished(stream, o, old(o.Value()), FirstPair(a, b, old(stream.rest)))
  {
    hide AfterFirst, AfterQuaternion;
    AfterOutcomes();
    ghost var s0 := stream.rest;
    var ch := stream.GetChar(NO_CHAR);
    if !stream.Good() { return; }
    if ch == RParen {
      ReadAfterFirst(stream, o, C.Complex(a, b), false);
    } else if ch == Comma {
      var c := stream.GetNumber();
      assert [a, b] + [c] == [a, b, c];
      assert !stream.fail ==> ParseList([a, b], s0, 4, 2) == ParseList([a, b, c], stream.rest, 4, 2);
      if !stream.Good() { return; }
      ch := stream.GetChar(ch);
      if !stream.Good() { return; }
      if ch == RParen {
        ReadAfterQuaternion(stream, o, H.Quat(a, b, c, 0.0));
      } else if ch == Comma {
        var d := stream.GetNumber();
        assert [a, b, c] + [d] == [a, b, c, d];
        assert !stream.fail ==> ParseList([a, b], s0, 4, 2) == ParseList([a, b, c, d], stream.rest, 4, 2);
        if !stream.Good() { return; }
        ch := stream.GetChar(ch);
        if !stream.Good() { return; }
        if ch == RParen {
          ReadAfterQuaternion(stream, o, H.Quat(a, b, c, d));
        } else {
          stream.SetFail();
        }
      } else {
        stream.SetFail();
      }
    } else {
      stream.SetFail();
    }
  }

  /** What comes after "((a)" and "((a,b)". */
  method ReadAfterFirst(stream: LexemeStream, o: OctonionObjects.Octonion, u: C.Complex, single: bool)
    requires stream.Good()
    modifies stream, o
    ensures Finished(stream, o, old(o.Value()), AfterFirst(u, single, old(stream.rest)))
  {
    hide ParseSecond, AfterSecond;
    ghost var s0 := stream.rest;
    var ch := stream.GetChar(RParen);
    if !stream.Good() { return; }
    if ch == RParen {
      o.Assign(OfComplexes(u, ZERO, ZERO, ZERO));
    } else if ch == Comma {
      ghost var s := stream.rest;
      ch := stream.GetChar(ch);
      if !stream.Good() { return; }
      if ch == LParen {
        assert s == [LParen] + stream.rest;
        ReadSecond(stream, o, u, single);
      } else if single {
        stream.Putback(ch);
        assert stream.rest == s == s0[1..];
        ReadPlainSecond(stream, o, u);
      } else {
        stream.SetFail();
      }
    } else {
      stream.SetFail();
    }
  }

  /** The branch for "((a),c". */
  method ReadPlainSecond(stream: LexemeStream, o: OctonionObjects.Octonion, u: C.Complex)
    requires stream.Good() && stream.rest != [] && stream.rest[0] != LParen
    modifies stream, o
    ensures Finished(stream, o, old(o.Value()), AfterSecond(u, ParseComplex(old(stream.rest))))
  {
    hide AfterSecond;
    ghost var s := stream.rest;
    AfterNoSecond(u, OfReal(0.0));
    var c := stream.GetNumber();
    if !stream.Good() { AfterNoSecond(u, OfReal(c)); return; }
    ReadAfterSecond(stream, o, u, OfReal(c), true);
  }

  lemma AfterNoSecond(u: C.Complex, v: C.Complex)
    ensures AfterSecond(u, NoComplex) == Failure && AfterSecond(u, ComplexRead(v, true, [])) == Stopped
  {
  }

  /** What comes after the second complex number. */
  method ReadAfterSecond(stream: LexemeStream, o: OctonionObjects.Octonion,
                         u: C.Complex, v: C.Complex, ghost bare: bool)
    requires stream.Good() && (bare ==> stream.rest != [])
    modifies stream, o
    ensures Finished(stream, o, old(o.Value()), AfterSecond(u, ComplexRead(v, bare, old(stream.rest))))
  {
    hide AfterThird;
    var ch := stream.GetChar(NO_CHAR);
    if !stream.Good() { return; }
    if ch == RParen {
      o.Assign(OfComplexes(u, v, ZERO, ZERO));
    } else if ch == Comma {
      ReadThird(stream, o, u, v);
    } else {
      stream.SetFail();
    }
  }

  /** The third complex number and what comes after it. */
  method ReadThird(stream: LexemeStream, o: OctonionObjects.Octonion, u: C.Complex, v: C.Complex)
    requires stream.Good()
    modifies stream, o
    ensures Finished(stream, o, old(o.Value()), AfterThird(u, v, ParseComplex(old(stream.rest))))
  {
    hide AfterFourth, ParseComplex;
    var x := stream.GetComplex();
    if !stream.Good() { return; }
    var ch := stream.GetChar(NO_CHAR);
    if !stream.Good() { return; }
    if ch == RParen {
      o.Assign(OfComplexes(u, v, x, ZERO));
    } else if ch == Comma {
      ReadFourth(stream, o, u, v, x);
    } else {
      stream.SetFail();
    }
  }

  /** The fourth complex number and the closing parenthesis. */
  method ReadFourth(stream: LexemeStream, o: OctonionObjects.Octonion, u: C.Complex, v: C.Complex, x: C.Complex)
    requires stream.Good()
    modifies stream, o
    ensures Finished(stream, o, old(o.Value()), AfterFourth(u, v, x, ParseComplex(old(stream.rest))))
  {
    hide ParseComplex;
    var y := stream.GetComplex();
    if !stream.Good() { return; }
    var ch := stream.GetChar(NO_CHAR);
    if !stream.Good() { return; }
    if ch == RParen {
      o.Assign(OfComplexes(u, v, x, y));
    } else {
      stream.SetFail();
    }
  }

  /**
   * The branch that has seen "(a,(", "((a),(" or "((a,b),(". After two parentheses both are put
   * back, for the quaternion reader to find.
   */
  method ReadSecond(stream: LexemeStream, o: OctonionObjects.Octonion, u: C.Complex, single: bool)
    requires stream.Good()
    modifies stream, o
    ensures Finished(stream, o, old(o.Value()), ParseSecond(u, single, [LParen] + old(stream.rest)))
  {
    hide LastQuaternion, Q.Parse, SecondSingle;
    ghost var s := stream.rest;
    SecondStart(u, single, s);
    var ch := stream.GetChar(LParen);
    if !stream.Good() { return; }
    if ch == LParen {
      stream.Putback(ch);
      stream.Putback(ch);
      assert stream.rest == [LParen] + s;
      ReadLastQuaternion(stream, o, OfComplex(u));
    } else {
      stream.Putback(ch);
      assert stream.rest == s;
      var c := stream.GetNumber();
      if !stream.Good() { return; }
      assert s == [Number(c)] + stream.rest;
      assert [LParen] + s == [LParen, Number(c)] + stream.rest;
      SecondIsSingle(u, single, c, stream.rest);
      ReadSecondSingle(stream, o, u, single, c);
    }
  }

  lemma SecondStart(u: C.Complex, single: bool, s: seq<Lexeme>)
    ensures var r := ParseSecond(u, single, [LParen] + s);
            if s != [] && s[0] == LParen then r == LastQuaternion(OfComplex(u), Q.Parse([LParen] + s))
            else if s != [] && s[0].Number? then |s| == 1 ==> r == Stopped
            else r == Failure
  {
    if |s| == 1 && s[0].Number? {
      SecondIsSingle(u, single, s[0].value, []);
      assert [LParen] + s == [LParen, Number(s[0].value)] + [];
    } else {
      assert ([LParen] + s)[1..] == s;
    }
  }

  /** The branch that has read "(c", in the second place. */
  method ReadSecondSingle(stream: LexemeStream, o: OctonionObjects.Octonion, u: C.Complex, single: bool, c: real)
    requires stream.Good() && stream.rest != []
    modifies stream, o
    ensures Finished(stream, o, old(o.Value()), SecondSingle(u, single, c, old(stream.rest)))
  {
    hide AfterSecond, SecondNested, SecondPair;
    ghost var s0 := stream.rest;
    var ch := stream.GetChar(NO_CHAR);
    if !stream.Good() { return; }
    if ch == RParen {
      ReadAfterSecond(stream, o, u, OfReal(c), false);
    } else if ch == Comma {
      ghost var s := stream.rest;
      ch := stream.GetChar(ch);
      if !stream.Good() { return; }
      stream.Putback(ch);
      assert stream.rest == s;
      if ch == LParen {
        ReadSecondNested(stream, o, u, single, c);
      } else {
        var d := stream.GetNumber();
        assert !stream.fail ==> stream.rest == s0[2..];
        if !stream.Good() { SecondPairStops(u, c, d); return; }
        ReadSecondPair(stream, o, u, c, d);
      }
    } else {
      stream.SetFail();
    }
  }

  lemma SecondPairStops(u: C.Complex, c: real, d: real)
    ensures SecondPair(u, c, d, []) == Stopped
  {
  }

  /** The branch for "(e,y)" in the second place. After "((a)," the stream is not tested between the parentheses. */
  method ReadSecondNested(stream: LexemeStream, o: OctonionObjects.Octonion, u: C.Complex, single: bool, e: real)
    requires stream.Good() && stream.rest != [] && stream.rest[0] == LParen
    modifies stream, o
    ensures Finished(stream, o, old(o.Value()), SecondNested(u, single, e, old(stream.rest)))
  {
    var y := stream.GetComplex();
    if !stream.Good() { return; }
    ghost var t := stream.rest;
    var ch := stream.GetChar(LParen);
    if !single && !stream.Good() { return; }
    if ch == RParen {
      ch := stream.GetChar(ch);
      if !single && !stream.Good() { return; }
      if ch == RParen {
        o.Assign(OfComplexes(u, ZERO, OfReal(e), y));
      } else {
        stream.SetFail();
      }
    } else {
      stream.SetFail();
    }
  }

  /** The branch that has read "(c,d", in the second place. */
  method ReadSecondPair(stream: LexemeStream, o: OctonionObjects.Octonion, u: C.Complex, c: real, d: real)
    requires stream.Good() && stream.rest != []
    modifies stream, o
    ensures Finished(stream, o, old(o.Value()), SecondPair(u, c, d, old(stream.rest)))
  {
    hide AfterSecond;
    ghost var s0 := stream.rest;
    var ch := stream.GetChar(NO_CHAR);
    if !stream.Good() { return; }
    if ch == RParen {
      ReadAfterSecond(stream, o, u, C.Complex(c, d), false);
    } else if ch == Comma {
      var g := stream.GetNumber();
      assert [c, d] + [g] == [c, d, g];
      assert !stream.fail ==> ParseList([c, d], s0, 4, 2) == ParseList([c, d, g], stream.rest, 4, 2);
      if !stream.Good() { return; }
      ch := stream.GetChar(ch);
      if !stream.Good() { return; }
      if ch == RParen {
        ReadLastParen(stream, o, OfComplex(u), H.Quat(c, d, g, 0.0));
      } else if ch == Comma {
        var h := stream.GetNumber();
        assert [c, d, g] + [h] == [c, d, g, h];
        assert !stream.fail ==> ParseList([c, d], s0, 4, 2) == ParseList([c, d, g, h], stream.rest, 4, 2);
        if !stream.Good() { return; }
        ch := stream.GetChar(ch);
        if !stream.Good() { return; }
        if ch == RParen {
          ReadLastParen(stream, o, OfComplex(u), H.Quat(c, d, g, h));
        } else {
          stream.SetFail();
        }
      } else {
        stream.SetFail();
      }
    } else {
      stream.SetFail();
    }
  }

  /** The closing parenthesis after a last quaternion q. */
  method ReadLastParen(stream: LexemeStream, o: OctonionObjects.Octonion, p: H.Quat, q: H.Quat)
    requires stream.Good()
    modifies stream, o
    ensures Finished(stream, o, old(o.Value()), LastQuaternion(p, Lexemes.Accepted(q, old(stream.rest))))
  {
    var ch := stream.GetChar(NO_CHAR);
    if !stream.Good() { return; }
    if ch == RParen {
      o.Assign(O.OfHalves(p, q));
    } else {
      stream.SetFail();
    }
  }

  /** The branch of `operator >>` that has read "(a". */
  method ReadList(stream: LexemeStream, o: OctonionObjects.Octonion, a: real)
    requires stream.Good() && stream.rest != []
    modifies stream, o
    ensures Finished(stream, o, old(o.Value()), FinishList(ParseList([a], old(stream.rest), 8, 4)))
  {
    hide ParseSecond;
    ghost var s0 := stream.rest;
    var ch := stream.GetChar(NO_CHAR);
    if !stream.Good() { return; }
    if ch == RParen {
      o.Assign(OfReals([a]));
    } else if ch == Comma {
      ghost var s := stream.rest;
      ch := stream.GetChar(ch);
      if !stream.Good() { return; }
      if ch == LParen {
        assert s == [LParen] + stream.rest;
        ReadSecond(stream, o, OfReal(a), false);
      } else {
        stream.Putback(ch);
        assert stream.rest == s;
        var b := stream.GetNumber();
        assert [a] + [b] == [a, b];
        assert !stream.fail ==> ParseList([a], s0, 8, 4) == ParseList([a, b], stream.rest, 8, 4);
        if !stream.Good() { return; }
        ReadListOfTwo(stream, o, a, b);
      }
    } else {
      stream.SetFail();
    }
  }

  /** The branch of `operator >>` that has read "(a,b". */
  method ReadListOfTwo(stream: LexemeStream, o: OctonionObjects.Octonion, a: real, b: real)
    requires stream.Good() && stream.rest != []
    modifies stream, o
    ensures Finished(stream, o, old(o.Value()), FinishList(ParseList([a, b], old(stream.rest), 8, 4)))
  {
    ghost var s0 := stream.rest;
    var ch := stream.GetChar(NO_CHAR);
    if !stream.Good() { return; }
    if ch == RParen {
      o.Assign(OfReals([a, b]));
    } else if ch == Comma {
      ghost var s := stream.rest;
      ch := stream.GetChar(ch);
      if !stream.Good() { return; }
      stream.Putback(ch);
      assert stream.rest == s;
      if ch == LParen {
        ReadThird(stream, o, OfReal(a), OfReal(b));
      } else {
        var c := stream.GetNumber();
        assert [a, b] + [c] == [a, b, c];
        assert !stream.fail ==> ParseList([a, b], s0, 8, 4) == ParseList([a, b, c], stream.rest, 8, 4);
        if !stream.Good() { return; }
        ReadListOfThree(stream, o, a, b, c);
      }
    } else {
      stream.SetFail();
    }
  }

  /** The branch of `operator >>` that has read "(a,b,c". */
  method ReadListOfThree(stream: LexemeStream, o: OctonionObjects.Octonion, a: real, b: real, c: real)
    requires stream.Good() && stream.rest != []
    modifies stream, o
    ensures Finished(stream, o, old(o.Value()), FinishList(ParseList([a, b, c], old(stream.rest), 8, 4)))
  {
    ghost var s0 := stream.rest;
    var ch := stream.GetChar(NO_CHAR);
    if !stream.Good() { return; }
    if ch == RParen {
      o.Assign(OfReals([a, b, c]));
    } else if ch == Comma {
      ghost var s := stream.rest;
      ch := stream.GetChar(ch);
      if !stream.Good() { return; }
      stream.Putback(ch);
      assert stream.rest == s;
      if ch == LParen {
        ReadFourth(stream, o, OfReal(a), OfReal(b), OfReal(c));
      } else {
        var d := stream.GetNumber();
        assert [a, b, c] + [d] == [a, b, c, d];
        assert !stream.fail ==> ParseList([a, b, c], s0, 8, 4) == ParseList([a, b, c, d], stream.rest, 8, 4);
        if !stream.Good() { return; }
        ReadListOfFour(stream, o, a, b, c, d);
      }
    } else {
      stream.SetFail();
    }
  }

  /** The branch of `operator >>` that has read "(a,b,c,d". */
  method ReadListOfFour(stream: LexemeStream, o: OctonionObjects.Octonion, a: real, b: real, c: real, d: real)
    requires stream.Good() && stream.rest != []
    modifies stream, o
    ensures Finished(stream, o, old(o.Value()), FinishList(ParseList([a, b, c, d], old(stream.rest), 8, 4)))
  {
    ghost var s0 := stream.rest;
    var ch := stream.GetChar(NO_CHAR);
    if !stream.Good() { return; }
    if ch == RParen {
      o.Assign(OfReals([a, b, c, d]));
    } else if ch == Comma {
      var e := stream.GetNumber();
      assert [a, b, c, d] + [e] == [a, b, c, d, e];
      assert !stream.fail ==> ParseList([a, b, c, d], s0, 8, 4) == ParseList([a, b, c, d, e], stream.rest, 8, 4);
      if !stream.Good() { return; }
      ch := stream.GetChar(ch);
      if !stream.Good() { return; }
      if ch == RParen {
        o.Assign(OfReals([a, b, c, d, e]));
      } else if ch == Comma {
        var f := stream.GetNumber();
        assert [a, b, c, d, e] + [f] == [a, b, c, d, e, f];
        assert !stream.fail ==> ParseList([a, b, c, d], s0, 8, 4) == ParseList([a, b, c, d, e, f], stream.rest, 8, 4);
        if !stream.Good() { return; }
        ReadListOfSix(stream, o, a, b, c, d, e, f);
      } else {
        stream.SetFail();
      }
    } else {
      stream.SetFail();
    }
  }

  /** The branch of `operator >>` that has read "(a,b,c,d,e,f". */
  method ReadListOfSix(stream: LexemeStream, o: OctonionObjects.Octonion,
                              a: real, b: real, c: real, d: real, e: real, f: real)
    requires stream.Good() && stream.rest != []
    modifies stream, o
    ensures Finished(stream, o, old(o.Value()), FinishList(ParseList([a, b, c, d, e, f], old(stream.rest), 8, 4)))
  {
    ghost var s0 := stream.rest;
    ghost var xs := [a, b, c, d, e, f];
    var ch := stream.GetChar(NO_CHAR);
    if !stream.Good() { return; }
    if ch == RParen {
      o.Assign(OfReals([a, b, c, d, e, f]));
    } else if ch == Comma {
      var g := stream.GetNumber();
      assert xs + [g] == [a, b, c, d, e, f, g];
      assert !stream.fail ==> ParseList(xs, s0, 8, 4) == ParseList([a, b, c, d, e, f, g], stream.rest, 8, 4);
      if !stream.Good() { return; }
      ch := stream.GetChar(ch);
      if !stream.Good() { return; }
      if ch == RParen {
        o.Assign(OfReals([a, b, c, d, e, f, g]));
      } else if ch == Comma {
        var h := stream.GetNumber();
        assert [a, b, c, d, e, f, g] + [h] == [a, b, c, d, e, f, g, h];
        assert !stream.fail ==> ParseList(xs, s0, 8, 4) == ParseList([a, b, c, d, e, f, g, h], stream.rest, 8, 4);
        if !stream.Good() { return; }
        ch := stream.GetChar(ch);
        if !stream.Good() { return; }
        if ch == RParen {
          o.Assign(OfReals([a, b, c, d, e, f, g, h]));
        } else {
          stream.SetFail();
        }
      } else {
        stream.SetFail();
      }
    } else {
      stream.SetFail();
    }
  }

  // ----- reading undoes printing -----

  lemma ReadUndoesPrint(o: O.Oct, rest: seq<Lexeme>)
    ensures Parse(Print(o) + rest) == Success(o, rest)
  {
    hide Parse, Print, OfReals;
    var xs := [o.a, o.b, o.c, o.d, o.e, o.f, o.g, o.h];
    PrintedShape(o);
    AcceptsShape(Reals(xs), rest);
    OfEight(o);
  }

  /** Of all formats with the right meaning, the printed one is that of eight numbers. */
  lemma PrintedShape(o: O.Oct)
    ensures Reals([o.a, o.b, o.c, o.d, o.e, o.f, o.g, o.h]).Lexemes() == Print(o)
  {
    hide Tail;
    TailOfSeven(o.b, o.c, o.d, o.e, o.f, o.g, o.h);
    assert [o.a, o.b, o.c, o.d, o.e, o.f, o.g, o.h][1..] == [o.b, o.c, o.d, o.e, o.f, o.g, o.h];
  }

  lemma TailOfSeven(b: real, c: real, d: real, e: real, f: real, g: real, h: real)
    ensures Tail([b, c, d, e, f, g, h])
         == [Comma, Number(b), Comma, Number(c), Comma, Number(d), Comma, Number(e),
             Comma, Number(f), Comma, Number(g), Comma, Number(h)]
  {
    hide Tail;
    var four := [e, f, g, h];
    TailOfFour(e, f, g, h);
    TailUnrolls(d, four);
    TailUnrolls(c, [d] + four);
    TailUnrolls(b, [c] + ([d] + four));
    assert [b, c, d, e, f, g, h] == [b] + ([c] + ([d] + four));
  }

  lemma OfEight(o: O.Oct)
    ensures OfReals([o.a, o.b, o.c, o.d, o.e, o.f, o.g, o.h]) == o
  {
  }

  lemma TailOfFour(e: real, f: real, g: real, h: real)
    ensures Tail([e, f, g, h]) == [Comma, Number(e), Comma, Number(f), Comma, Number(g), Comma, Number(h)]
  {
    TailUnrolls(h, []);
    TailUnrolls(g, [h]);
    TailUnrolls(f, [g, h]);
    TailUnrolls(e, [f, g, h]);
  }

  function PrintAll(os: seq<O.Oct>): seq<Lexeme> {
    if os == [] then [] else Print(os[0]) + PrintAll(os[1..])
  }

  /** What reading n octonions one after the other does. */
  function ParseMany(s: seq<Lexeme>, n: nat): Outcome<seq<O.Oct>>
    decreases n
  {
    if n == 0 then Accepted([], s)
    else
      match Parse(s)
      case Success(o, t) => Prepend([o], ParseMany(t, n - 1))
      case Stopped => Ended
      case Failure | StoredAndFailed(_) => Failed
  }

  lemma {:induction false} PrintedParses(os: seq<O.Oct>, rest: seq<Lexeme>)
    ensures ParseMany(PrintAll(os) + rest, |os|) == Accepted(os, rest)
  {
    if os == [] {
      assert PrintAll(os) + rest == rest;
    } else {
      hide Parse, Print;
      var t := PrintAll(os[1..]) + rest;
      assert PrintAll(os) + rest == Print(os[0]) + t;
      ReadUndoesPrint(os[0], t);
      PrintedParses(os[1..], rest);
      assert [os[0]] + os[1..] == os;
    }
  }

  /** Calls the reader n times; where the octonions were printed back to back, it finds them. */
  method ReadMany(stream: LexemeStream, n: nat) returns (os: seq<O.Oct>)
    requires stream.Good()
    modifies stream
    ensures stream.Good() ==> ParseMany(old(stream.rest), n) == Accepted(os, stream.rest)
    ensures !stream.Good() ==> !ParseMany(old(stream.rest), n).Accepted?
    ensures forall printed, rest :: |printed| == n && old(stream.rest) == PrintAll(printed) + rest ==>
              stream.Good() && os == printed && stream.rest == rest
  {
    hide Parse, PrintAll;
    ghost var s := stream.rest;
    os := [];
    PrependNothing(os, ParseMany(s, n), s);
    while |os| < n && stream.Good()
      invariant |os| <= n
      invariant stream.Good() ==> ParseMany(s, n) == Prepend(os, ParseMany(stream.rest, n - |os|))
      invariant !stream.Good() ==> !ParseMany(s, n).Accepted?
      decreases n - |os|, stream.Good()
    {
      ghost var t := stream.rest;
      var o := new OctonionObjects.Octonion(0.0, 0.0, 0.0, 0.0, 0.0, 0.0, 0.0, 0.0);
      Read(stream, o);
      if stream.Good() {
        PrependTwice(os, o.Value(), ParseMany(stream.rest, n - |os| - 1));
        os := os + [o.Value()];
      }
    }
    PrependNothing(os, ParseMany(s, n), stream.rest);
    forall printed, rest | |printed| == n && s == PrintAll(printed) + rest
      ensures stream.Good() && os == printed && stream.rest == rest
    {
      PrintedParses(printed, rest);
    }
  }
}
