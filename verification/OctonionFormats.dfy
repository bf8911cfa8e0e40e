/**
 * The formats in which octonions can be read, and what reading does with any input whatever.
 *
 * An octonion is a number, up to eight numbers, up to four complex numbers, or one or two
 * quaternions. What looks like a complex number is taken for one, not for a quaternion.
 */
module OctonionFormats {

  import opened Lexemes
  import C = ComplexNumbers
  import H = Quaternions
  import O = Octonions
  import Q = QuaternionIO

  // ----- formats -----

  /** A quaternion in parentheses that cannot be read as a complex number. */
  predicate Long(p: Q.Shape) {
    p.Valid() && !p.Bare? && (p.Reals? ==> |p.xs| > 2)
  }

  /**
   * Complex numbers of which not all are plain; a plain one must not follow a first one of the
   * form (a,b), for no such input is accepted.
   */
  predicate Readable(us: seq<ComplexShape>) {
    && 1 <= |us| <= 4
    && (exists i :: 0 <= i < |us| && !us[i].Plain?)
    && !(|us| > 1 && us[0].Pair? && us[1].Plain?)
  }

  datatype Shape =
    | Bare(a: real)
    | Reals(xs: seq<real>)
    | Complexes(us: seq<ComplexShape>)
    | OneQuaternion(p: Q.Shape)
    | ComplexAndQuaternion(u: ComplexShape, q: Q.Shape)
    | TwoQuaternions(p: Q.Shape, q: Q.Shape)
  {
    predicate Valid() {
      match this
      case Bare(_) => true
      case Reals(xs) => 1 <= |xs| <= 8
      case Complexes(us) => Readable(us)
      case OneQuaternion(p) => Long(p)
      case ComplexAndQuaternion(_, q) => Long(q)
      case TwoQuaternions(p, q) => Long(p) && q.Valid()
    }

    function Lexemes(): seq<Lexeme>
      requires Valid()
    {
      match this
      case Bare(a) => [Number(a)]
      case Reals(xs) => [LParen] + Numbers(xs, [RParen])
      case Complexes(us) => [LParen] + Spelled(us, [RParen])
      case OneQuaternion(p) => [LParen] + (p.Lexemes() + [RParen])
      case ComplexAndQuaternion(u, q) => [LParen] + (u.Lexemes() + ([Comma] + (q.Lexemes() + [RParen])))
      case TwoQuaternions(p, q) => [LParen] + (p.Lexemes() + ([Comma] + (q.Lexemes() + [RParen])))
    }

    function Meaning(): O.Oct
      requires Valid()
    {
      match this
      case Bare(a) => OfReals([a])
      case Reals(xs) => OfReals(xs)
      case Complexes(us) => OfShapes(us)
      case OneQuaternion(p) => O.OfQuat(p.Meaning())
      case ComplexAndQuaternion(u, q) => O.OfHalves(OfComplex(u.Meaning()), q.Meaning())
      case TwoQuaternions(p, q) => O.OfHalves(p.Meaning(), q.Meaning())
    }

    /** The input may stop after the last number, before any closing parenthesis. */
    predicate Open() {
      match this
      case Bare(_) => true
      case Reals(xs) => 1 <= |xs| <= 8
      case Complexes(us) => Readable(us) && us[|us| - 1].Plain?
      case OneQuaternion(p) => p.Valid() && !p.Bare? && p.EndsInNumber()
      case ComplexAndQuaternion(u, q) => q.Valid() && !q.Bare? && q.EndsInNumber()
      case TwoQuaternions(p, q) => Long(p) && q.Valid() && q.EndsInNumber()
    }

    /** What there is of it when it does. */
    function Stump(): seq<Lexeme>
      requires Open()
    {
      match this
      case Bare(a) => [Number(a)]
      case Reals(xs) => [LParen] + Numbers(xs, [])
      case Complexes(us) => [LParen] + Spelled(us, [])
      case OneQuaternion(p) => [LParen] + p.Body()
      case ComplexAndQuaternion(u, q) => [LParen] + (u.Lexemes() + ([Comma] + q.Body()))
      case TwoQuaternions(p, q) => [LParen] + (p.Lexemes() + ([Comma] + q.Body()))
    }
  }

  /** The components that a shape spells out, in order. */
  function Flat(sh: Shape): seq<real>
    requires sh.Valid()
  {
    match sh
    case Bare(a) => [a]
    case Reals(xs) => xs
    case Complexes(us) => FlatAll(us)
    case OneQuaternion(p) => FlatQuaternion(p)
    case ComplexAndQuaternion(u, q) => Padded(u.Flat(), 4) + FlatQuaternion(q)
    case TwoQuaternions(p, q) => FlatQuaternion(p) + FlatQuaternion(q)
  }

  function FlatQuaternion(p: Q.Shape): seq<real>
    requires p.Valid()
  {
    Q.MeaningIsFlat(p);
    Padded(Q.Flat(p), 4)
  }

  function FlatAll(us: seq<ComplexShape>): (r: seq<real>)
    ensures |r| == 2 * |us|
  {
    if us == [] then [] else us[0].Flat() + FlatAll(us[1..])
  }

  function Components(o: O.Oct): seq<real> {
    [o.a, o.b, o.c, o.d, o.e, o.f, o.g, o.h]
  }

  /** The meaning of a shape has these components, and then zeros. */
  lemma MeaningIsFlat(sh: Shape)
    requires sh.Valid()
    ensures |Flat(sh)| <= 8 && Components(sh.Meaning()) == Padded(Flat(sh), 8)
  {
    match sh
    case Bare(_) =>
    case Reals(_) =>
    case Complexes(us) => ComplexesAreFlat(us);
    case OneQuaternion(p) => Q.MeaningIsFlat(p);
    case ComplexAndQuaternion(u, q) =>
      u.MeaningIsFlat();
      Q.MeaningIsFlat(q);
    case TwoQuaternions(p, q) =>
      Q.MeaningIsFlat(p);
      Q.MeaningIsFlat(q);
  }

  lemma {:induction false} FlatAt(us: seq<ComplexShape>, i: nat)
    requires i < |us|
    ensures FlatAll(us)[2 * i] == us[i].Meaning().re && FlatAll(us)[2 * i + 1] == us[i].Meaning().im
  {
    us[0].MeaningIsFlat();
    if i > 0 {
      FlatAt(us[1..], i - 1);
    }
  }

  lemma ComplexesAreFlat(us: seq<ComplexShape>)
    requires 1 <= |us| <= 4
    ensures Components(OfShapes(us)) == Padded(FlatAll(us), 8)
  {
    hide FlatAll, Padded, ComplexShape.Meaning;
    var t := Padded(FlatAll(us), 8);
    forall i: nat | i < 4
      ensures t[2 * i] == (if i < |us| then us[i].Meaning() else ZERO).re
      ensures t[2 * i + 1] == (if i < |us| then us[i].Meaning() else ZERO).im
    {
      if i < |us| {
        FlatAt(us, i);
      }
    }
    assert t[2 * 0] == t[0] && t[2 * 1] == t[2] && t[2 * 2] == t[4] && t[2 * 3] == t[6];
  }

  /** The numbers xs with commas between them, and then end. */
  function Numbers(xs: seq<real>, end: seq<Lexeme>): seq<Lexeme>
    requires xs != []
  {
    [Number(xs[0])] + (Tail(xs[1..]) + end)
  }

  /** The complex numbers us with commas between them, and then end. */
  function Spelled(us: seq<ComplexShape>, end: seq<Lexeme>): seq<Lexeme>
    requires us != []
  {
    us[0].Lexemes() + More(us[1..], end)
  }

  /** The complex numbers us with commas before them, and then end. */
  function More(us: seq<ComplexShape>, end: seq<Lexeme>): seq<Lexeme> {
    if us == [] then end else [Comma] + (us[0].Lexemes() + More(us[1..], end))
  }

  function OfReals(xs: seq<real>): O.Oct
    requires 1 <= |xs| <= 8
  {
    var x := i => if 0 <= i < |xs| then xs[i] else 0.0;
    O.Oct(x(0), x(1), x(2), x(3), x(4), x(5), x(6), x(7))
  }

  const ZERO := C.Complex(0.0, 0.0)

  function OfComplex(u: C.Complex): H.Quat {
    H.Quat(u.re, u.im, 0.0, 0.0)
  }

  function OfComplexes(u: C.Complex, v: C.Complex, x: C.Complex, y: C.Complex): O.Oct {
    O.Oct(u.re, u.im, v.re, v.im, x.re, x.im, y.re, y.im)
  }

  function OfShapes(us: seq<ComplexShape>): O.Oct
    requires 1 <= |us| <= 4
  {
    OfComplexes(us[0].Meaning(),
                if 1 < |us| then us[1].Meaning() else ZERO,
                if 2 < |us| then us[2].Meaning() else ZERO,
                if 3 < |us| then us[3].Meaning() else ZERO)
  }

  // ----- what the reader does with an input -----

  /** StoredAndFailed is a failure after which the target has a new value nevertheless. */
  datatype Reading =
    | Success(value: O.Oct, remaining: seq<Lexeme>)
    | Stopped
    | Failure
    | StoredAndFailed(value: O.Oct)

  function Parse(s: seq<Lexeme>): Reading {
    if s == [] then Failure
    else if s[0].Number? then
      if |s| == 1 then Stopped else Success(OfReals([s[0].value]), s[1..])
    else if s[0] == LParen then ParseInside(s[1..])
    else Failure
  }

  function ParseInside(s: seq<Lexeme>): Reading {
    if s == [] then Failure
    else if s[0] == LParen then ParseFirst(s)
    else if s[0].Number? then FinishList(ParseList([s[0].value], s[1..], 8, 4))
    else Failure
  }

  /** The first item is in parentheses: a complex number, or else a quaternion. */
  function ParseFirst(s: seq<Lexeme>): Reading {
    match ParseComplex(s)
    case ComplexRead(u, _, t) => AfterFirst(u, |s| > 2 && s[2] == RParen, t)
    case NoComplex => AfterQuaternion(Q.Parse(s))
  }

  /** After a first complex number in parentheses; only if it is a single one a plain one may follow. */
  function AfterFirst(u: C.Complex, single: bool, s: seq<Lexeme>): Reading {
    if s == [] then Failure
    else if s[0] == RParen then Success(OfComplexes(u, ZERO, ZERO, ZERO), s[1..])
    else if s[0] == Comma && |s| > 1 then
      if s[1] == LParen then ParseSecond(u, single, s[1..])
      else if single then AfterSecond(u, ParseComplex(s[1..]))
      else Failure
    else Failure
  }

  /** The second item is in parentheses. */
  function ParseSecond(u: C.Complex, single: bool, s: seq<Lexeme>): (r: Reading)
    ensures r.StoredAndFailed? ==> single && Unguarded(s)
  {
    match ParseComplex(s)
    case ComplexRead(_, _, _) => AfterSecond(u, ParseComplex(s))
    case NoComplex =>
      if single && Unguarded(s) then StoredAndFailed(O.OfHalves(OfComplex(u), Q.Parse(s).value))
      else LastQuaternion(OfComplex(u), Q.Parse(s))
  }

  /**
   * All that is left is a quaternion (e,y), y in parentheses itself. After "((a)," the source does
   * not test the stream before it looks for the parenthesis that should follow, and finds the last
   * one again.
   */
  predicate Unguarded(s: seq<Lexeme>) {
    && |s| > 3 && s[0] == LParen && s[1].Number? && s[2] == Comma && s[3] == LParen
    && Q.Parse(s).Accepted? && Q.Parse(s).remaining == []
  }

  function AfterSecond(u: C.Complex, p: ComplexOutcome): (r: Reading)
    ensures !r.StoredAndFailed?
  {
    match p
    case NoComplex => Failure
    case ComplexRead(v, bare, s) =>
      if s == [] then if bare then Stopped else Failure
      else if s[0] == RParen then Success(OfComplexes(u, v, ZERO, ZERO), s[1..])
      else if s[0] == Comma then AfterThird(u, v, ParseComplex(s[1..]))
      else Failure
  }

  function AfterThird(u: C.Complex, v: C.Complex, p: ComplexOutcome): (r: Reading)
    ensures !r.StoredAndFailed?
  {
    match p
    case NoComplex => Failure
    case ComplexRead(x, bare, s) =>
      if s == [] then if bare then Stopped else Failure
      else if s[0] == RParen then Success(OfComplexes(u, v, x, ZERO), s[1..])
      else if s[0] == Comma then AfterFourth(u, v, x, ParseComplex(s[1..]))
      else Failure
  }

  function AfterFourth(u: C.Complex, v: C.Complex, x: C.Complex, p: ComplexOutcome): (r: Reading)
    ensures !r.StoredAndFailed?
  {
    match p
    case NoComplex => Failure
    case ComplexRead(y, bare, s) =>
      if s == [] then if bare then Stopped else Failure
      else if s[0] == RParen then Success(OfComplexes(u, v, x, y), s[1..])
      else Failure
  }

  function AfterQuaternion(r: Outcome<H.Quat>): (reading: Reading)
    ensures !reading.StoredAndFailed?
  {
    match r
    case Accepted(p, s) =>
      if s == [] then Failure
      else if s[0] == RParen then Success(O.OfQuat(p), s[1..])
      else if s[0] == Comma then LastQuaternion(p, Q.Parse(s[1..]))
      else Failure
    case Ended => Stopped
    case Failed => Failure
  }

  function LastQuaternion(p: H.Quat, r: Outcome<H.Quat>): (reading: Reading)
    ensures !reading.StoredAndFailed?
  {
    match r
    case Accepted(q, s) => if s != [] && s[0] == RParen then Success(O.OfHalves(p, q), s[1..]) else Failure
    case Ended => Stopped
    case Failed => Failure
  }

  /** The input begins with numbers, which stand for complex numbers if an inner parenthesis follows. */
  function FinishList(p: ListOutcome): Reading {
    match p
    case Closed(xs, s) => if 1 <= |xs| <= 8 then Success(OfReals(xs), s) else Failure
    case Nested(xs, s) =>
      if |xs| == 1 then ParseSecond(OfReal(xs[0]), false, s)
      else if |xs| == 2 then AfterThird(OfReal(xs[0]), OfReal(xs[1]), ParseComplex(s))
      else if |xs| == 3 then AfterFourth(OfReal(xs[0]), OfReal(xs[1]), OfReal(xs[2]), ParseComplex(s))
      else Failure
    case ListEnded => Stopped
    case ListFailed => Failure
  }

  function OfReal(a: real): C.Complex {
    C.Complex(a, 0.0)
  }
}
