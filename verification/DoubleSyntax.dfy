/** Which texts the floating-point parser takes, literals or not. */
module DoubleSyntax {
  import opened Common
  import opened DoubleParsers

  // What can be consumed: a literal, whose digits and sign may be missing, perhaps with a point before
  // its sign.
  datatype Shape = Shape(point: bool, l: Literal)

  const NOTHING: Shape := Shape(false, Literal(NoSign, [], None, None))

  function ShapeText(p: Shape): seq<Byte> {
    (if p.point then [DOT] else []) + Text(p.l)
  }

  /** No digit before the exponent. */
  predicate NoDigits(l: Literal) {
    l.whole == [] && (l.frac.None? || l.frac.value == [])
  }

  predicate IsShape(p: Shape) {
    && Digits(p.l.whole) && (p.l.frac.Some? ==> Digits(p.l.frac.value))
    && (p.point ==> p.l.sign != NoSign && p.l.frac.None?)
    && (p.l.exp.Some? ==> p.l.exp.value.letter in [BIG_E, SMALL_E] && Digits(p.l.exp.value.digits))
    && (p.l.exp.Some? ==> p.l.sign != NoSign || !NoDigits(p.l))
  }

  predicate IsLiteral(p: Shape) {
    !p.point && WellFormed(p.l)
  }

  /** The last character is a digit. */
  predicate EndsInDigit(p: Shape) {
    if p.l.exp.Some? then p.l.exp.value.digits != [] else
    if p.l.frac.Some? then p.l.frac.value != [] else p.l.whole != []
  }

  /** One more character. */
  function Grow(p: Shape, ch: Byte): Shape {
    var l := p.l;
    if l.exp.Some? then
      var e := l.exp.value;
      if IsDigit(ch) then p.(l := l.(exp := Some(e.(digits := e.digits + [ch]))))
      else p.(l := l.(exp := Some(e.(sign := if ch == PLUS then Plus else Minus))))
    else if IsDigit(ch) then
      if l.frac.Some? then p.(l := l.(frac := Some(l.frac.value + [ch]))) else p.(l := l.(whole := l.whole + [ch]))
    else if ch == DOT then p.(l := l.(frac := Some([])))
    else if ch == BIG_E || ch == SMALL_E then p.(l := l.(exp := Some(Exp(ch, NoSign, []))))
    else Shape(l.frac.Some?, l.(sign := if ch == PLUS then Plus else Minus, frac := None))
  }

  /** One character less, which is Last. */
  function Shrink(p: Shape): Shape {
    var l := p.l;
    if l.exp.Some? then
      var e := l.exp.value;
      if e.digits != [] then p.(l := l.(exp := Some(e.(digits := e.digits[..|e.digits| - 1])))) else
      if e.sign != NoSign then p.(l := l.(exp := Some(e.(sign := NoSign)))) else p.(l := l.(exp := None))
    else if l.frac.Some? then
      var digits := l.frac.value;
      p.(l := l.(frac := if digits == [] then None else Some(digits[..|digits| - 1])))
    else if l.whole != [] then p.(l := l.(whole := l.whole[..|l.whole| - 1]))
    else Shape(false, l.(sign := NoSign, frac := if p.point then Some([]) else None))
  }

  function SignByte(sign: Sign): Byte {
    if sign == Plus then PLUS else MINUS
  }

  function Last(p: Shape): Byte {
    var l := p.l;
    if l.exp.Some? then
      var e := l.exp.value;
      if e.digits != [] then e.digits[|e.digits| - 1] else if e.sign != NoSign then SignByte(e.sign) else e.letter
    else if l.frac.Some? then
      var digits := l.frac.value;
      if digits == [] then DOT else digits[|digits| - 1]
    else if l.whole != [] then l.whole[|l.whole| - 1]
    else SignByte(l.sign)
  }

  /** What the parser's state says of a shape. */
  ghost predicate Matches(st: Parse, p: Shape) {
    var l := p.l;
    && IsShape(p) && st.exception.None?
    && st.minus == (if l.sign != NoSign then l.sign else if NoDigits(l) then NoSign else Plus)
    && (st.afterComma > 0 <==> p.point || l.frac.Some?)
    && st.exponent == l.exp.Some?
    && (l.exp.Some? ==> (st.exponentMinus == NoSign <==> l.exp.value.sign == NoSign && l.exp.value.digits == []))
    && (l.exp.None? ==> st.exponentMinus == NoSign)
    && st.complete == EndsInDigit(p)
    && (NoDigits(l) ==> st.result == 0.0)
  }

  /** A sign may come: none has, nor a digit behind where it goes. */
  predicate Signable(p: Shape) {
    if p.l.exp.Some? then p.l.exp.value.sign == NoSign && p.l.exp.value.digits == []
    else p.l.sign == NoSign && NoDigits(p.l)
  }

  /** What can be taken next. */
  predicate Takes(p: Shape, ch: Byte) {
    || IsDigit(ch)
    || (ch in [PLUS, MINUS] && Signable(p))
    || (ch == DOT && !p.point && p.l.frac.None? && p.l.exp.None?)
    || (ch in [BIG_E, SMALL_E] && p.l.exp.None? && (p.l.sign != NoSign || !NoDigits(p.l)))
  }

  lemma AtEnd(a: seq<Byte>, b: seq<Byte>, c: seq<Byte>, d: seq<Byte>, e: seq<Byte>, ch: Byte)
    ensures a + (b + (c + (d + (e + [ch])))) == a + (b + (c + (d + e))) + [ch]
    ensures e == [] ==> a + (b + (c + ((d + [ch]) + e))) == a + (b + (c + (d + e))) + [ch]
    ensures d == e == [] ==> a + (b + ((c + [ch]) + (d + e))) == a + (b + (c + (d + e))) + [ch]
  {
  }

  lemma GrowsExponent(e: Exp, ch: Byte)
    requires IsDigit(ch) || (ch in [PLUS, MINUS] && e.sign == NoSign && e.digits == [])
    ensures ExpText(Some(if IsDigit(ch) then e.(digits := e.digits + [ch])
                         else e.(sign := if ch == PLUS then Plus else Minus))) == ExpText(Some(e)) + [ch]
  {
    var head := [e.letter] + SignText(e.sign);
    assert head + (e.digits + [ch]) == head + e.digits + [ch];
  }

  lemma GrowsSign(p: Shape, ch: Byte)
    requires IsShape(p) && p.l.exp.None? && Signable(p) && ch in [PLUS, MINUS]
    ensures ShapeText(Grow(p, ch)) == ShapeText(p) + [ch]
  {
    var point := if p.l.frac.Some? then [DOT] else [];
    hide Digits;
    assert ShapeText(p) == point;
    assert ShapeText(Grow(p, ch)) == point + [ch];
  }

  /** The text grows by the character taken. */
  lemma GrowText(p: Shape, ch: Byte)
    requires IsShape(p) && Takes(p, ch)
    ensures ShapeText(Grow(p, ch)) == ShapeText(p) + [ch]
  {
    var l := p.l;
    var a := if p.point then [DOT] else [];
    AtEnd(a, SignText(l.sign), l.whole, FracText(l.frac), ExpText(l.exp), ch);
    if l.exp.Some? {
      GrowsExponent(l.exp.value, ch);
      hide ExpText, SignText, FracText, Digits;
    } else if IsDigit(ch) {
      hide SignText, Digits;
      if l.frac.Some? {
        assert [DOT] + (l.frac.value + [ch]) == [DOT] + l.frac.value + [ch];
      }
    } else if ch == DOT {
      hide SignText, Digits;
      assert [] + [DOT] == [DOT] + [];
    } else if ch == BIG_E || ch == SMALL_E {
      assert ExpText(Some(Exp(ch, NoSign, []))) == [] + [ch];
      hide ExpText, SignText, FracText, Digits;
    } else {
      hide ShapeText, Grow, Digits, SignText, FracText, ExpText;
      GrowsSign(p, ch);
    }
  }

  lemma TakesOnly(st: Parse, p: Shape, ch: Byte)
    requires Matches(st, p)
    ensures Accept(st, ch).1 <==> Takes(p, ch)
  {
    hide Digits;
  }

  lemma GrowMatches(st: Parse, p: Shape, ch: Byte)
    requires Matches(st, p) && Takes(p, ch) && Accept(st, ch) == (Next(st, ch).0, true)
    ensures Matches(Next(st, ch).0, Grow(p, ch))
  {
    hide Accept;
    if p.l.exp.Some? {
    } else if IsDigit(ch) {
    } else {
      hide Digits;
    }
  }

  lemma AcceptIsNext(st: Parse, ch: Byte)
    requires Accept(st, ch).1
    ensures Accept(st, ch) == (Next(st, ch).0, true)
  {
  }

  /** A character is taken exactly when the shape allows it, and makes the next shape. */
  lemma TakesExactly(st: Parse, p: Shape, ch: Byte)
    requires Matches(st, p)
    ensures Accept(st, ch).1 <==> Takes(p, ch)
    ensures Takes(p, ch) ==> Matches(Accept(st, ch).0, Grow(p, ch))
  {
    hide Matches, Accept, Takes, Grow, Next;
    TakesOnly(st, p, ch);
    if Takes(p, ch) {
      AcceptIsNext(st, ch);
      GrowMatches(st, p, ch);
    }
  }

  /** What follows does not make what was consumed an error: at the end only an exponent without digits
      does; then a second point never does, a second sign of the exponent does, and any other character
      does just when it does not follow a digit. */
  predicate Clean(p: Shape, rest: seq<Byte>) {
    if rest == [] then p.l.exp.Some? ==> p.l.exp.value.digits != [] else
    if rest[0] == DOT && p.l.exp.None? then true else
    if rest[0] in [PLUS, MINUS] && p.l.exp.Some? then false else EndsInDigit(p)
  }

  /** No error but one of the range. */
  predicate NoSyntaxError(st: Parse) {
    st.exception.None? && (st.complete || !st.exponent)
  }

  lemma StopsClean(st: Parse, p: Shape, rest: seq<Byte>)
    requires Matches(st, p) && (rest == [] || !Takes(p, rest[0]))
    ensures NoSyntaxError(if rest == [] then st else Accept(st, rest[0]).0) <==> Clean(p, rest)
  {
  }

  /** The error of what is not clean. */
  function ErrorOf(p: Shape, rest: seq<Byte>): Error {
    if rest == [] then IncompleteExponent else
    if rest[0] in [PLUS, MINUS] && p.l.exp.Some? then ExponentSignAlreadySet
    else InvalidCharacter(rest[0], p.l.exp.Some?)
  }

  lemma StopsError(st: Parse, p: Shape, rest: seq<Byte>, limits: Limits)
    requires Matches(st, p) && (rest == [] || !Takes(p, rest[0])) && !Clean(p, rest)
    ensures Extract(if rest == [] then st else Accept(st, rest[0]).0, limits) == Err(ErrorOf(p, rest))
  {
    hide InRange, Digits;
  }

  // ----- every shape is taken

  lemma SnocFront(ds: seq<Byte>)
    requires ds != [] && Digits(ds)
    ensures ds[..|ds| - 1] + [ds[|ds| - 1]] == ds && Digits(ds[..|ds| - 1]) && IsDigit(ds[|ds| - 1])
  {
  }

  /** Every shape but the empty one has grown out of a smaller one. */
  lemma Shrinks(p: Shape)
    requires IsShape(p) && p != NOTHING
    ensures IsShape(Shrink(p)) && Takes(Shrink(p), Last(p)) && Grow(Shrink(p), Last(p)) == p
  {
    var l := p.l;
    if l.exp.Some? {
      if l.exp.value.digits != [] {
        SnocFront(l.exp.value.digits);
      }
    } else if l.frac.Some? {
      if l.frac.value != [] {
        SnocFront(l.frac.value);
      }
    } else if l.whole != [] {
      SnocFront(l.whole);
    }
    hide Digits;
  }

  lemma ShrinksText(p: Shape)
    requires IsShape(p) && p != NOTHING
    ensures IsShape(Shrink(p)) && ShapeText(p) == ShapeText(Shrink(p)) + [Last(p)]
  {
    hide IsShape, Takes, Grow, Shrink, Last, ShapeText;
    Shrinks(p);
    GrowText(Shrink(p), Last(p));
  }

  lemma NothingText()
    ensures ShapeText(NOTHING) == [] && IsShape(NOTHING) && Matches(START, NOTHING)
  {
  }

  lemma SnocsEqual(a: seq<Byte>, x: Byte, b: seq<Byte>, y: Byte)
    requires a + [x] == b + [y]
    ensures a == b && x == y
  {
    assert a == (a + [x])[..|a + [x]| - 1] && x == (a + [x])[|a + [x]| - 1];
  }

  /** A text has at most one shape. */
  lemma {:induction false} OneShape(p: Shape, q: Shape)
    requires IsShape(p) && IsShape(q) && ShapeText(p) == ShapeText(q)
    ensures p == q
    decreases |ShapeText(p)|
  {
    hide IsShape, ShapeText, Shrink, Last, Grow, Takes;
    NothingText();
    if p == NOTHING || q == NOTHING {
      if p != NOTHING {
        ShrinksText(p);
      }
      if q != NOTHING {
        ShrinksText(q);
      }
    } else {
      ShrinksText(p);
      ShrinksText(q);
      SnocsEqual(ShapeText(Shrink(p)), Last(p), ShapeText(Shrink(q)), Last(q));
      OneShape(Shrink(p), Shrink(q));
      Shrinks(p);
      Shrinks(q);
    }
  }

  /** The text of a shape is taken whole, whatever follows. */
  lemma {:induction false} TakenWhole(p: Shape, rest: seq<Byte>) returns (st: Parse)
    requires IsShape(p)
    ensures Matches(st, p) && Feed(START, ShapeText(p) + rest) == Feed(st, rest)
    decreases |ShapeText(p)|
  {
    hide IsShape, ShapeText, Shrink, Last, Grow, Takes, Matches, Feed, Accept;
    NothingText();
    if p == NOTHING {
      assert [] + rest == rest;
      st := START;
    } else {
      Shrinks(p);
      ShrinksText(p);
      var q, ch := Shrink(p), Last(p);
      var before := TakenWhole(q, [ch] + rest);
      assert ShapeText(p) + rest == ShapeText(q) + ([ch] + rest);
      TakesExactly(before, q, ch);
      FeedOne(before, ch, rest);
      st := Accept(before, ch).0;
    }
  }

  // ----- what is made of an input

  /** The input begins with the text of the shape, which its next character does not fit. */
  predicate Splits(s: seq<Byte>, p: Shape, rest: seq<Byte>) {
    IsShape(p) && s == ShapeText(p) + rest && (rest == [] || !Takes(p, rest[0]))
  }

  lemma GrowIsShape(p: Shape, ch: Byte)
    requires IsShape(p) && Takes(p, ch)
    ensures IsShape(Grow(p, ch))
  {
    if p.l.exp.None? && !IsDigit(ch) {
      hide Digits;
    }
  }

  lemma {:induction false} SplitsFrom(p: Shape, s: seq<Byte>) returns (q: Shape, rest: seq<Byte>)
    requires IsShape(p)
    ensures Splits(ShapeText(p) + s, q, rest)
    decreases |s|
  {
    hide IsShape, ShapeText, Takes, Grow;
    if s == [] || !Takes(p, s[0]) {
      q, rest := p, s;
    } else {
      GrowIsShape(p, s[0]);
      GrowText(p, s[0]);
      assert ShapeText(p) + s == ShapeText(p) + [s[0]] + s[1..];
      q, rest := SplitsFrom(Grow(p, s[0]), s[1..]);
    }
  }

  lemma RejectKeepsResult(st: Parse, ch: Byte)
    requires !Accept(st, ch).1
    ensures Accept(st, ch).0.result == st.result
  {
  }

  /** The end of a parse that has come to a shape. */
  lemma Stops(st: Parse, p: Shape, rest: seq<Byte>)
    requires Matches(st, p) && (rest == [] || !Takes(p, rest[0]))
    ensures var (end, left) := Feed(st, rest);
      && left == rest
      && (NoSyntaxError(end) <==> Clean(p, rest))
      && (NoDigits(p.l) ==> end.result == 0.0)
  {
    StopsClean(st, p, rest);
    if rest != [] {
      TakesExactly(st, p, rest[0]);
      RejectKeepsResult(st, rest[0]);
    }
    hide Accept, Takes, Clean, NoSyntaxError, IsShape;
  }

  lemma StopsAt(st: Parse, p: Shape, rest: seq<Byte>)
    requires Matches(st, p) && (rest == [] || !Takes(p, rest[0]))
    ensures Feed(st, rest).0 == if rest == [] then st else Accept(st, rest[0]).0
  {
    if rest != [] {
      TakesExactly(st, p, rest[0]);
    }
    hide Accept, Takes, Matches;
  }

  /** For every input: exactly the text of its shape is consumed, and the parser finds no error but one of
      the range exactly when what follows leaves it clean. */
  lemma ParsesExactly(s: seq<Byte>, p: Shape, rest: seq<Byte>)
    requires Splits(s, p, rest)
    ensures var (end, left) := Feed(START, s);
      && left == rest
      && (NoSyntaxError(end) <==> Clean(p, rest))
      && (NoDigits(p.l) ==> end.result == 0.0)
  {
    hide Feed, Takes, IsShape, ShapeText, Clean, NoSyntaxError, NoDigits, Matches;
    var st := TakenWhole(p, rest);
    Stops(st, p, rest);
  }

  /** No longer text at the front of the input has a shape. */
  lemma TakesLongest(s: seq<Byte>, p: Shape, rest: seq<Byte>, q: Shape, tail: seq<Byte>)
    requires Splits(s, p, rest)
    requires IsShape(q) && s == ShapeText(q) + tail
    ensures |ShapeText(q)| <= |ShapeText(p)|
  {
    hide Feed, Takes, IsShape, ShapeText, Clean, NoSyntaxError, NoDigits, Matches;
    ParsesExactly(s, p, rest);
    var st := TakenWhole(q, tail);
  }

  lemma SplitsOnce(s: seq<Byte>, p: Shape, rest: seq<Byte>, q: Shape, tail: seq<Byte>)
    requires Splits(s, p, rest) && Splits(s, q, tail)
    ensures q == p && tail == rest
  {
    hide Feed, Takes, IsShape, ShapeText, Clean, NoSyntaxError, NoDigits;
    ParsesExactly(s, p, rest);
    ParsesExactly(s, q, tail);
    assert ShapeText(p) == s[..|s| - |rest|] == ShapeText(q);
    OneShape(p, q);
  }

  /** Every input does so, in exactly one way. */
  lemma InputSplits(s: seq<Byte>) returns (p: Shape, rest: seq<Byte>)
    ensures Splits(s, p, rest)
    ensures forall q, tail :: Splits(s, q, tail) ==> q == p && tail == rest
  {
    hide IsShape, ShapeText, Takes, Splits;
    NothingText();
    assert [] + s == s;
    p, rest := SplitsFrom(NOTHING, s);
    forall q, tail | Splits(s, q, tail)
      ensures q == p && tail == rest
    {
      SplitsOnce(s, p, rest, q, tail);
    }
  }

  lemma LiteralOrNot(p: Shape, rest: seq<Byte>)
    requires IsShape(p) && Clean(p, rest)
    ensures IsLiteral(p) <==> !NoDigits(p.l) && !p.point
  {
  }

  lemma ReadAsZero(st: Parse, limits: Limits)
    requires NoSyntaxError(st) && st.result == 0.0 && limits.max >= 0.0
    ensures Extract(st, limits) == Ok(0.0)
  {
    ShiftedZero(0.0, Scale(st));
    hide Shifted, Scale;
  }

  lemma LiteralIsShape(l: Literal)
    requires WellFormed(l)
    ensures IsShape(Shape(false, l)) && ShapeText(Shape(false, l)) == Text(l)
  {
    hide Text, Digits;
    assert [] + Text(l) == Text(l);
  }

  /** It is a literal exactly when its text is the text of one. */
  lemma LiteralText(p: Shape)
    requires IsShape(p)
    ensures IsLiteral(p) <==> exists l :: WellFormed(l) && Text(l) == ShapeText(p)
  {
    hide Text, WellFormed, Digits;
    if IsLiteral(p) {
      assert [] + Text(p.l) == Text(p.l);
    }
    forall l | WellFormed(l) && Text(l) == ShapeText(p)
      ensures Shape(false, l) == p
    {
      LiteralIsShape(l);
      OneShape(Shape(false, l), p);
    }
  }

  /** An input whose shape is no literal is read without an error exactly when it is clean and has no
      digit before the exponent, or a point before its sign; without digits it is read as zero. */
  lemma AcceptsNoLiteral(s: seq<Byte>, p: Shape, rest: seq<Byte>, limits: Limits)
    requires Splits(s, p, rest) && limits.max >= 0.0
    ensures var end := Feed(START, s).0;
      && (NoSyntaxError(end) && !IsLiteral(p) <==> Clean(p, rest) && (NoDigits(p.l) || p.point))
      && (Clean(p, rest) && NoDigits(p.l) ==> Extract(end, limits) == Ok(0.0))
  {
    ParsesExactly(s, p, rest);
    hide Feed, ShapeText, Extract, Clean, IsShape, IsLiteral, NoDigits, NoSyntaxError, Takes;
    if Clean(p, rest) {
      LiteralOrNot(p, rest);
      if NoDigits(p.l) {
        ReadAsZero(Feed(START, s).0, limits);
      }
    }
  }

  // ----- the result for every input

  /** A point before the sign counts as one behind it. */
  function Meant(p: Shape): Literal {
    if p.point then p.l.(whole := [], frac := Some(p.l.whole)) else p.l
  }

  lemma PointEitherSide(sign: Sign, rest: seq<Byte>)
    requires sign != NoSign
    ensures Feed(START, [DOT] + (SignText(sign) + rest)) == Feed(START, SignText(sign) + ([DOT] + rest))
  {
    var pointed, signed := START.(afterComma := 1), START.(minus := sign);
    var both := START.(minus := sign, afterComma := 1);
    var ch := SignText(sign)[0];
    assert Accept(START, DOT) == (pointed, true) && Accept(pointed, ch) == (both, true);
    assert Accept(START, ch) == (signed, true) && Accept(signed, DOT) == (both, true);
    hide Feed, Accept;
    FeedOne(START, DOT, SignText(sign) + rest);
    FeedOne(pointed, ch, rest);
    FeedOne(START, ch, [DOT] + rest);
    FeedOne(signed, DOT, rest);
  }

  lemma MeantText(p: Shape, rest: seq<Byte>)
    requires IsShape(p) && p.point
    ensures ShapeText(p) + rest == [DOT] + (SignText(p.l.sign) + (p.l.whole + (ExpText(p.l.exp) + rest)))
    ensures Text(Meant(p)) + rest == SignText(p.l.sign) + ([DOT] + (p.l.whole + (ExpText(p.l.exp) + rest)))
  {
    hide SignText, ExpText, Digits;
    var a, w, e := SignText(p.l.sign), p.l.whole, ExpText(p.l.exp);
    assert ([DOT] + (a + (w + ([] + e)))) + rest == [DOT] + (a + (w + (e + rest)));
    assert (a + ([] + (([DOT] + w) + e))) + rest == a + ([DOT] + (w + (e + rest)));
  }

  lemma MeantFeeds(p: Shape, rest: seq<Byte>)
    requires IsShape(p)
    ensures Feed(START, ShapeText(p) + rest) == Feed(START, Text(Meant(p)) + rest)
  {
    if p.point {
      MeantText(p, rest);
      hide Feed, Text, ShapeText, SignText, ExpText;
      PointEitherSide(p.l.sign, p.l.whole + (ExpText(p.l.exp) + rest));
    } else {
      hide Feed, Text;
      assert [] + Text(p.l) == Text(p.l);
    }
  }

  lemma MeantLiteral(p: Shape, rest: seq<Byte>)
    requires IsShape(p) && Clean(p, rest) && !NoDigits(p.l) && (rest == [] || !Takes(p, rest[0]))
    ensures WellFormed(Meant(p)) && (rest == [] || !Continues(Meant(p), rest[0]))
  {
    assert Digits([]);
    hide Digits;
  }

  /** What reading an input gives that splits so: the error named, or zero, or what its digits denote. */
  function Result(p: Shape, rest: seq<Byte>, limits: Limits): DoubleParsers.Result {
    if !Clean(p, rest) then Err(ErrorOf(p, rest)) else
    if NoDigits(p.l) then Ok(0.0) else Expected(Meant(p), rest, limits)
  }

  /** And so it is for every input whatever. */
  lemma ReadsExactly(s: seq<Byte>, p: Shape, rest: seq<Byte>, limits: Limits)
    requires Splits(s, p, rest) && limits.max >= 0.0
    ensures Feed(START, s).1 == rest
    ensures Extract(Feed(START, s).0, limits) == Result(p, rest, limits)
  {
    hide Feed, Takes, IsShape, ShapeText, Clean, NoDigits, Matches, Extract, Expected, Text, Meant, WellFormed,
      Continues, ErrorOf, NoSyntaxError, IsLiteral;
    ParsesExactly(s, p, rest);
    if !Clean(p, rest) {
      var st := TakenWhole(p, rest);
      StopsAt(st, p, rest);
      StopsError(st, p, rest, limits);
    } else if NoDigits(p.l) {
      AcceptsNoLiteral(s, p, rest, limits);
    } else {
      MeantFeeds(p, rest);
      MeantLiteral(p, rest);
      ParsesLiteral(Meant(p), rest, limits);
    }
  }

  lemma HalfExtracted(half: Parse, limits: Limits)
    requires limits.max >= 1.0 && limits.denormMin <= 0.5
    requires half == Parse(5.0, Minus, 2, false, 0, NoSign, true, None)
    ensures Extract(half, limits) == Ok(-0.5)
  {
    assert Pow10(-1) == Pow10(0) / 10.0;
    assert Shifted(-5.0, -1) == -0.5;
  }

  lemma FeedAt(st: Parse, s: seq<Byte>, i: nat)
    requires i < |s| && Accept(st, s[i]).1
    ensures Feed(st, s[i..]) == Feed(Accept(st, s[i]).0, s[i + 1..])
  {
    assert s[i..][1..] == s[i + 1..];
  }

  lemma FeedThree(s: seq<Byte>, a: Parse, b: Parse, c: Parse, d: Parse)
    requires |s| == 3 && Accept(a, s[0]) == (b, true) && Accept(b, s[1]) == (c, true) && Accept(c, s[2]) == (d, true)
    ensures Feed(a, s) == Feed(d, [])
  {
    hide Feed, Accept;
    FeedAt(a, s, 0);
    FeedAt(b, s, 1);
    FeedAt(c, s, 2);
    assert s[0..] == s && s[3..] == [];
  }

  /** The characters ".-5" lead to a state worth -0.5. */
  lemma FeedHalf()
    ensures Feed(START, [DOT, MINUS, 53]).0 == Parse(5.0, Minus, 2, false, 0, NoSign, true, None)
  {
    var pointed, half := START.(afterComma := 1), Parse(5.0, Minus, 2, false, 0, NoSign, true, None);
    FeedThree([DOT, MINUS, 53], START, pointed, pointed.(minus := Minus), half);
    assert Feed(half, []) == (half, []);
    hide Feed;
  }

  lemma OddSplits()
    ensures Splits([], NOTHING, []) && Splits([PLUS], Shape(false, Literal(Plus, [], None, None)), [])
  {
    NothingText();
    assert [PLUS] == ShapeText(Shape(false, Literal(Plus, [], None, None)));
  }

  /** Such inputs: nothing at all and a sign alone, read as zero, and a point before the sign. */
  lemma OddInputs(limits: Limits)
    requires limits.max >= 1.0 && limits.denormMin <= 0.5
    ensures Extract(Feed(START, []).0, limits) == Ok(0.0)
    ensures Extract(Feed(START, [PLUS]).0, limits) == Ok(0.0)
    ensures Extract(Feed(START, [DOT, MINUS, 53]).0, limits) == Ok(-0.5)
  {
    hide Feed, Extract, Splits, Shifted;
    OddSplits();
    AcceptsNoLiteral([], NOTHING, [], limits);
    AcceptsNoLiteral([PLUS], Shape(false, Literal(Plus, [], None, None)), [], limits);
    FeedHalf();
    HalfExtracted(Parse(5.0, Minus, 2, false, 0, NoSign, true, None), limits);
  }
}
