/** Reading a floating-point number off a stream, a character at a time, over exact reals. */
module DoubleParsers {
  import opened Common
  import opened StreamBuffers

  datatype Sign = NoSign | Plus | Minus

  datatype Error =
    | InvalidCharacter(ch: Byte, inExponent: bool)
    | ExponentSignAlreadySet
    | IncompleteExponent
    | TooBig
    | TooSmall

  datatype Result = Ok(value: real) | Err(error: Error)

  // numeric_limits: the largest value, and the smallest positive one.
  datatype Limits = Limits(max: real, denormMin: real)

  const PLUS: Byte := 43
  const MINUS: Byte := 45
  const DOT: Byte := 46
  const BIG_E: Byte := 69
  const SMALL_E: Byte := 101

  // ----- the state of a parse

  // _double_state.
  datatype Parse = Parse(
    result: real,
    minus: Sign,
    afterComma: nat,
    exponent: bool,
    exponentNumber: int,
    exponentMinus: Sign,
    complete: bool,
    exception: Option<Error>)

  const START: Parse := Parse(0.0, NoSign, 0, false, 0, NoSign, false, None)

  /** The characters that may come next; any other one ends the number, with an error unless the number
      was complete. */
  predicate Allowed(st: Parse, ch: Byte) {
    || IsDigit(ch)
    || (ch in [PLUS, MINUS] && (st.minus == NoSign || st.exponent))
    || (ch == DOT && (st.minus == NoSign || !st.exponent))
    || (ch in [BIG_E, SMALL_E] && st.minus != NoSign && !st.exponent)
  }

  /** What an allowed character does, and whether it is part of the number after all. */
  function Next(st: Parse, ch: Byte): (Parse, bool) {
    if ch == PLUS || ch == MINUS then
      var sign := if ch == PLUS then Plus else Minus;
      if !st.exponent then (st.(complete := false, minus := sign), true) else
      if st.exponentMinus == NoSign then (st.(complete := false, exponentMinus := sign), true) else
      (st.(complete := false, exception := Some(ExponentSignAlreadySet)), false)
    else if ch == DOT then
      if st.afterComma > 0 then (st.(complete := false), false) else (st.(complete := false, afterComma := 1), true)
    else if ch == BIG_E || ch == SMALL_E then
      if st.exponent then (st.(complete := false), false)
      else (st.(complete := false, exponentNumber := 0, exponent := true), true)
    else if st.exponent then
      (st.(complete := true, exponentMinus := if st.exponentMinus == NoSign then Plus else st.exponentMinus,
           exponentNumber := st.exponentNumber * 10 + (ch - 48)), true)
    else
      (st.(complete := true, minus := if st.minus == NoSign then Plus else st.minus,
           result := st.result * 10.0 + (ch - 48) as real,
           afterComma := if st.afterComma > 0 then st.afterComma + 1 else 0), true)
  }

  function Accept(st: Parse, ch: Byte): (Parse, bool) {
    if Allowed(st, ch) then Next(st, ch) else
    (if st.complete then st else st.(exception := Some(InvalidCharacter(ch, st.minus != NoSign && st.exponent))), false)
  }

  /** The state after all the characters that belong to the number, and what follows them. */
  function Feed(st: Parse, s: seq<Byte>): (r: (Parse, seq<Byte>))
    ensures |r.1| <= |s| && r.1 == s[|s| - |r.1|..]
    decreases |s|
  {
    if s == [] then (st, []) else
    var (st', accepted) := Accept(st, s[0]);
    if accepted then Feed(st', s[1..]) else (st', s)
  }

  function Scale(st: Parse): int {
    (if st.exponentMinus == Minus then -st.exponentNumber else st.exponentNumber)
    - (if st.afterComma > 0 then st.afterComma - 1 else 0)
  }

  function Pow10(n: int): real
    decreases if n < 0 then -n else n
  {
    if n == 0 then 1.0 else if n > 0 then 10.0 * Pow10(n - 1) else Pow10(n + 1) / 10.0
  }

  /** r * 10^n. */
  function Shifted(r: real, n: int): real {
    r * Pow10(n)
  }

  /** r scaled by a power of ten; only growing can overflow and only shrinking can underflow. */
  function InRange(r: real, n: int, limits: Limits): Result {
    if n >= 0 then
      var v := Shifted(r, n);
      if v > limits.max || v < -limits.max then Err(TooBig) else Ok(v)
    else
      var v := Shifted(r, n);
      if r != 0.0 && -limits.denormMin < v < limits.denormMin then Err(TooSmall) else Ok(v)
  }

  /** _extract_result. */
  function Extract(st: Parse, limits: Limits): Result {
    if st.exception.Some? then Err(st.exception.value) else
    if !st.complete && st.exponent then Err(IncompleteExponent) else
    InRange(if st.minus == Minus then -st.result else st.result, Scale(st), limits)
  }

  function DropSpaces(s: seq<Byte>): seq<Byte> {
    if s != [] && IsSpace(s[0]) then DropSpaces(s[1..]) else s
  }

  // ----- powers of ten

  lemma {:induction false} Pow10Positive(n: int)
    ensures Pow10(n) > 0.0
    decreases if n < 0 then -n else n
  {
    if n > 0 {
      Pow10Positive(n - 1);
    } else if n < 0 {
      Pow10Positive(n + 1);
    }
  }

  lemma Pow10Step(n: int)
    ensures Pow10(n + 1) == 10.0 * Pow10(n) && Pow10(0) == 1.0
  {
  }

  lemma Shuffle(a: real, b: real)
    ensures a * (10.0 * b) == 10.0 * (a * b)
  {
  }

  lemma {:induction false} Pow10Add(m: int, n: int)
    ensures Pow10(m + n) == Pow10(m) * Pow10(n)
    decreases if n < 0 then -n else n
  {
    hide Pow10;
    if n == 0 {
      Pow10Step(0);
    } else {
      // The smaller of n and the number next to it that is closer to zero.
      var low := if n > 0 then n - 1 else n;
      Pow10Step(m + low);
      Pow10Step(low);
      Shuffle(Pow10(m), Pow10(low));
      Pow10Add(m, if n > 0 then n - 1 else n + 1);
    }
  }

  lemma Associate(a: real, b: real, c: real)
    ensures a * b * c == a * (b * c)
  {
  }

  lemma ShiftedTwice(r: real, m: int, n: int)
    ensures Shifted(Shifted(r, m), n) == Shifted(r, m + n)
  {
    Pow10Add(m, n);
    Associate(r, Pow10(m), Pow10(n));
  }

  lemma ShiftedByTen(r: real, n: int)
    ensures Shifted(r, n + 1) == 10.0 * Shifted(r, n)
    ensures Shifted(r, 0) == r
  {
    Pow10Step(n);
    Shuffle(r, Pow10(n));
    hide Pow10;
  }

  lemma Distribute(a: real, b: real, c: real)
    ensures (a + b) * c == a * c + b * c
  {
  }

  lemma ShiftedAdd(a: real, b: real, n: int)
    ensures Shifted(a + b, n) == Shifted(a, n) + Shifted(b, n)
    ensures Shifted(-a, n) == -Shifted(a, n)
  {
    Distribute(a, b, Pow10(n));
    Distribute(a, -a, Pow10(n));
  }

  lemma NonZero(a: real, b: real)
    requires b > 0.0
    ensures a * b == 0.0 <==> a == 0.0
  {
  }

  lemma ShiftedZero(r: real, n: int)
    ensures Shifted(r, n) == 0.0 <==> r == 0.0
  {
    Pow10Positive(n);
    NonZero(r, Pow10(n));
  }

  lemma DivideOut(r: real, d: real, m: real)
    requires d != 0.0 && m * d == 1.0
    ensures r / d == r * m
  {
    Associate(r, m, d);
  }

  /** Dividing by a power is shifting the other way. */
  lemma ShiftedDown(r: real, n: int)
    ensures Pow10(-n) != 0.0 && r / Pow10(-n) == Shifted(r, n)
  {
    Pow10Positive(-n);
    Pow10Add(n, -n);
    DivideOut(r, Pow10(-n), Pow10(n));
  }

  // ----- the methods

  /** The second half of _extract_result. */
  method Scaled(v: real, n: int, limits: Limits) returns (r: Result)
    ensures r == InRange(v, n, limits)
  {
    var result := v;
    if n >= 0 {
      result := result * Pow10(n);
      assert result == Shifted(v, n);
      if result > limits.max || result < -limits.max {
        return Err(TooBig);
      }
    } else {
      var isZero := result == 0.0;
      ShiftedDown(v, n);
      result := result / Pow10(-n);
      if !isZero && result > -limits.denormMin && result < limits.denormMin {
        return Err(TooSmall);
      }
    }
    r := Ok(result);
  }

  class DoubleState {
    var result: real
    var minus: Sign
    var afterComma: nat
    var exponent: bool
    var exponentNumber: int
    var exponentMinus: Sign
    var complete: bool
    var exception: Option<Error>

    function Value(): Parse
      reads this
    {
      Parse(result, minus, afterComma, exponent, exponentNumber, exponentMinus, complete, exception)
    }

    constructor ()
      ensures Value() == START
    {
      result, minus, afterComma, exponent := 0.0, NoSign, 0, false;
      exponentNumber, exponentMinus, complete, exception := 0, NoSign, false, None;
    }

    /** _accept_char. */
    method AcceptChar(ch: Byte) returns (accepted: bool)
      modifies this
      ensures (Value(), accepted) == Accept(old(Value()), ch)
    {
      if minus == NoSign {
        if !IsDigit(ch) && ch != DOT && ch != PLUS && ch != MINUS {
          if !complete {
            exception := Some(InvalidCharacter(ch, false));
          }
          return false;
        }
      } else {
        if !exponent && !IsDigit(ch) && ch != DOT && ch != BIG_E && ch != SMALL_E {
          if !complete {
            exception := Some(InvalidCharacter(ch, false));
          }
          return false;
        }
        if exponent && !IsDigit(ch) && ch != PLUS && ch != MINUS {
          if !complete {
            exception := Some(InvalidCharacter(ch, true));
          }
          return false;
        }
      }
      if ch == PLUS || ch == MINUS {
        accepted := AcceptSign(if ch == PLUS then Plus else Minus);
      } else if ch == DOT {
        complete := false;
        if afterComma > 0 {
          return false;
        }
        afterComma := 1;
        accepted := true;
      } else if ch == BIG_E || ch == SMALL_E {
        complete := false;
        if exponent {
          return false;
        }
        exponentNumber := 0;
        exponent := true;
        accepted := true;
      } else {
        AcceptDigit(ch - 48);
        accepted := true;
      }
    }

    method AcceptSign(sign: Sign) returns (accepted: bool)
      requires sign != NoSign
      modifies this
      ensures (Value(), accepted) == Next(old(Value()), if sign == Plus then PLUS else MINUS)
    {
      complete := false;
      if exponent {
        if exponentMinus != NoSign {
          exception := Some(ExponentSignAlreadySet);
          return false;
        }
        exponentMinus := sign;
      } else {
        minus := sign;
      }
      accepted := true;
    }

    method AcceptDigit(d: nat)
      requires d < 10
      modifies this
      ensures (Value(), true) == Next(old(Value()), d + 48)
    {
      complete := true;
      if !exponent {
        if minus == NoSign {
          minus := Plus;
        }
        result := result * 10.0;
        result := result + d as real;
        if afterComma > 0 {
          afterComma := afterComma + 1;
        }
      } else {
        if exponentMinus == NoSign {
          exponentMinus := Plus;
        }
        exponentNumber := exponentNumber * 10;
        exponentNumber := exponentNumber + d;
      }
    }

    /** _extract_result. */
    method ExtractResult(limits: Limits) returns (r: Result)
      modifies this
      ensures r == Extract(old(Value()), limits)
    {
      if exception.Some? {
        return Err(exception.value);
      }
      if !complete && exponent {
        return Err(IncompleteExponent);
      }
      var v := if minus == Minus then -result else result;
      if exponentMinus == Minus {
        exponentNumber := 0 - exponentNumber;
      }
      if afterComma > 0 {
        exponentNumber := exponentNumber - (afterComma - 1);
      }
      r := Scaled(v, exponentNumber, limits);
    }
  }

  /** update of _skip_whitespace, for a character that was only looked at; it is still there, so taking it
      never has to wait. */
  method UpdateSpace(source: Source, ch: Got) returns (more: bool)
    requires source.Valid() && Reads(source.Stream(), source.Stream(), ch, false)
    requires ch.Char? ==> source.q.unread != []
    modifies source
    ensures source.Valid() && DropSpaces(source.Stream()) == DropSpaces(old(source.Stream()))
    ensures more ==> |source.Stream()| < |old(source.Stream())|
    ensures !more ==> source.Stream() == DropSpaces(source.Stream())
  {
    more := ch.Char? && IsSpace(ch.value);
    if more {
      var _ := source.Sync1(true);
    }
  }

  /** One turn of the loop of _skip_whitespace. */
  method SpaceTurn(source: Source) returns (more: bool)
    requires source.Valid()
    modifies source
    ensures source.Valid() && DropSpaces(source.Stream()) == DropSpaces(old(source.Stream()))
    ensures more ==> |source.Stream()| < |old(source.Stream())|
    ensures !more ==> source.Stream() == DropSpaces(source.Stream())
  {
    while true
      invariant source.Valid() && DropSpaces(source.Stream()) == DropSpaces(old(source.Stream()))
      invariant |source.Stream()| <= |old(source.Stream())|
      decreases |source.Stream()|
    {
      var inAvail := source.InAvail();
      if inAvail == 0 {
        break;
      }
      var ch := source.Sync1(false);
      if ch == RequiresAsync {
        break;
      }
      more := UpdateSpace(source, ch);
      if !more {
        return;
      }
    }
    var ch := source.Async1(false);
    more := UpdateSpace(source, ch);
  }

  /** _skip_whitespace. */
  method SkipWhitespace(source: Source)
    requires source.Valid()
    modifies source
    ensures source.Valid() && source.Stream() == DropSpaces(old(source.Stream()))
  {
    var more := true;
    while more
      invariant source.Valid() && DropSpaces(source.Stream()) == DropSpaces(old(source.Stream()))
      invariant !more ==> source.Stream() == DropSpaces(source.Stream())
      decreases more, |source.Stream()|
    {
      more := SpaceTurn(source);
    }
  }

  /** _parse_input: peek at a character, and take it only if it belongs to the number. */
  method ParseDouble(source: Source, limits: Limits) returns (r: Result)
    requires source.Valid()
    modifies source
    ensures source.Valid()
    ensures var (st, rest) := Feed(START, DropSpaces(old(source.Stream())));
      r == Extract(st, limits) && source.Stream() == rest
  {
    var state := new DoubleState();
    SkipWhitespace(source);
    ghost var s := source.Stream();
    var more := true;
    while more
      invariant source.Valid()
      invariant more ==> Feed(state.Value(), source.Stream()) == Feed(START, s)
      invariant !more ==> (state.Value(), source.Stream()) == Feed(START, s)
      decreases more, |source.Stream()|
    {
      var ch := source.Async1(false);
      if ch == Eof {
        more := false;
      } else {
        more := state.AcceptChar(ch.value);
        if more {
          var _ := source.Async1(true);
        }
      }
    }
    r := state.ExtractResult(limits);
  }

  // ----- what a literal denotes

  predicate Digits(s: seq<Byte>) {
    forall i | 0 <= i < |s| :: IsDigit(s[i])
  }

  // [sign] digits [. digits] [e [sign] digits]
  datatype Exp = Exp(letter: Byte, sign: Sign, digits: seq<Byte>)

  datatype Literal = Literal(sign: Sign, whole: seq<Byte>, frac: Option<seq<Byte>>, exp: Option<Exp>)

  /** At least one digit before the exponent, and one in it. */
  predicate WellFormed(l: Literal) {
    && Digits(l.whole) && (l.frac.Some? ==> Digits(l.frac.value))
    && (l.whole != [] || (l.frac.Some? && l.frac.value != []))
    && (l.exp.Some? ==>
          l.exp.value.letter in [BIG_E, SMALL_E] && Digits(l.exp.value.digits) && l.exp.value.digits != [])
  }

  function SignText(s: Sign): seq<Byte> {
    match s
    case NoSign => []
    case Plus => [PLUS]
    case Minus => [MINUS]
  }

  function FracText(frac: Option<seq<Byte>>): seq<Byte> {
    if frac.Some? then [DOT] + frac.value else []
  }

  function ExpText(exp: Option<Exp>): seq<Byte> {
    if exp.Some? then [exp.value.letter] + SignText(exp.value.sign) + exp.value.digits else []
  }

  function Text(l: Literal): seq<Byte> {
    SignText(l.sign) + (l.whole + (FracText(l.frac) + ExpText(l.exp)))
  }

  /** The number that digits before the point stand for. */
  function Whole(s: seq<Byte>): int {
    if s == [] then 0 else Whole(s[..|s| - 1]) * 10 + (s[|s| - 1] as int - 48)
  }

  /** The number that digits after the point stand for. */
  function Fraction(s: seq<Byte>): real {
    if s == [] then 0.0 else ((s[0] as int - 48) as real + Fraction(s[1..])) / 10.0
  }

  function Magnitude(l: Literal): real {
    Whole(l.whole) as real + if l.frac.Some? then Fraction(l.frac.value) else 0.0
  }

  function Power(exp: Option<Exp>): int {
    if exp.None? then 0 else if exp.value.sign == Minus then -Whole(exp.value.digits) else Whole(exp.value.digits)
  }

  /** The number a literal stands for, in positional notation. */
  function Denotes(l: Literal): real {
    Shifted(if l.sign == Minus then -Magnitude(l) else Magnitude(l), Power(l.exp))
  }

  function FracLength(l: Literal): nat {
    if l.frac.Some? then |l.frac.value| else 0
  }

  /** Whether a character right after a literal would make it a longer one. */
  predicate Continues(l: Literal, ch: Byte) {
    || IsDigit(ch)
    || (l.exp.None? && (ch in [BIG_E, SMALL_E] || (ch == DOT && l.frac.None?)))
  }

  /** What parsing a literal is to give, by what follows it.  A sign right after an exponent is an error,
      and so is any character but a second point right after a point that ends the number. */
  function Expected(l: Literal, rest: seq<Byte>, limits: Limits): Result {
    var v, n := Denotes(l), Power(l.exp) - FracLength(l);
    if rest != [] && l.exp.Some? && rest[0] in [PLUS, MINUS] then Err(ExponentSignAlreadySet) else
    if rest != [] && l.exp.None? && l.frac == Some([]) && rest[0] != DOT then Err(InvalidCharacter(rest[0], false)) else
    if n >= 0 && (v > limits.max || v < -limits.max) then Err(TooBig) else
    if n < 0 && v != 0.0 && -limits.denormMin < v < limits.denormMin then Err(TooSmall) else Ok(v)
  }

  // ----- feeding a literal

  function AfterDigits(st: Parse, ds: seq<Byte>): Parse {
    if ds == [] then st else Next(AfterDigits(st, ds[..|ds| - 1]), ds[|ds| - 1]).0
  }

  lemma DigitAccepted(st: Parse, ch: Byte)
    requires IsDigit(ch)
    ensures Accept(st, ch) == (Next(st, ch).0, true)
  {
  }

  lemma FeedOne(st: Parse, ch: Byte, rest: seq<Byte>)
    requires Accept(st, ch).1
    ensures Feed(st, [ch] + rest) == Feed(Accept(st, ch).0, rest)
  {
    assert ([ch] + rest)[1..] == rest;
  }

  lemma {:induction false} FeedDigits(st: Parse, ds: seq<Byte>, rest: seq<Byte>)
    requires Digits(ds)
    ensures Feed(st, ds + rest) == Feed(AfterDigits(st, ds), rest)
    decreases |ds|
  {
    hide Feed, Accept, Next;
    if ds == [] {
      assert ds + rest == rest;
    } else {
      var front, last := ds[..|ds| - 1], ds[|ds| - 1];
      FeedDigits(st, front, [last] + rest);
      assert ds + rest == front + ([last] + rest);
      DigitAccepted(AfterDigits(st, front), last);
      FeedOne(AfterDigits(st, front), last, rest);
    }
  }

  /** The state after the digits of a mantissa. */
  function MantissaState(st: Parse, ds: seq<Byte>): Parse {
    if ds == [] then st else
    st.(complete := true, minus := if st.minus == NoSign then Plus else st.minus,
        result := Shifted(st.result, |ds|) + Whole(ds) as real,
        afterComma := if st.afterComma > 0 then st.afterComma + |ds| else 0)
  }

  lemma {:induction false} MantissaDigits(st: Parse, ds: seq<Byte>)
    requires Digits(ds) && !st.exponent
    ensures AfterDigits(st, ds) == MantissaState(st, ds)
  {
    hide Shifted;
    if ds != [] {
      var front, last := ds[..|ds| - 1], ds[|ds| - 1];
      MantissaDigits(st, front);
      ShiftedByTen(st.result, |front|);
    }
  }

  lemma {:induction false} ExponentDigits(st: Parse, ds: seq<Byte>)
    requires Digits(ds) && st.exponent && st.exponentNumber == 0
    ensures AfterDigits(st, ds) ==
            if ds == [] then st else
            st.(complete := true, exponentMinus := if st.exponentMinus == NoSign then Plus else st.exponentMinus,
                exponentNumber := Whole(ds))
  {
    if ds != [] {
      ExponentDigits(st, ds[..|ds| - 1]);
    }
  }

  /** The state after the sign, the digits, the point and the digits behind it. */
  function AfterMantissa(l: Literal): Parse {
    Parse(if l.frac.Some? then Shifted(Whole(l.whole) as real, |l.frac.value|) + Whole(l.frac.value) as real
          else Whole(l.whole) as real,
          if l.sign == NoSign then Plus else l.sign,
          if l.frac.Some? then 1 + |l.frac.value| else 0,
          false, 0, NoSign, l.frac != Some([]), None)
  }

  function AfterLiteral(l: Literal): Parse {
    if l.exp.None? then AfterMantissa(l) else
    AfterMantissa(l).(exponent := true, complete := true, exponentNumber := Whole(l.exp.value.digits),
      exponentMinus := if l.exp.value.sign == NoSign then Plus else l.exp.value.sign)
  }

  lemma FeedSign(sign: Sign, rest: seq<Byte>)
    ensures Feed(START, SignText(sign) + rest) == Feed(START.(minus := sign), rest)
  {
    if sign == NoSign {
      assert SignText(sign) + rest == rest;
    } else {
      FeedOne(START, SignText(sign)[0], rest);
    }
  }

  /** The state right after the digits before the point. */
  function AfterWhole(l: Literal): Parse {
    MantissaState(START.(minus := l.sign), l.whole)
  }

  function AfterPoint(l: Literal): Parse {
    AfterWhole(l).(complete := false, afterComma := 1)
  }

  lemma AfterMantissaIs(l: Literal)
    requires WellFormed(l)
    ensures AfterMantissa(l) == if l.frac.None? then AfterWhole(l) else MantissaState(AfterPoint(l), l.frac.value)
  {
    hide Shifted;
    ShiftedZero(0.0, |l.whole|);
    if l.frac.Some? {
      ShiftedByTen(AfterPoint(l).result, 0);
    }
  }

  lemma PointAccepted(l: Literal)
    requires WellFormed(l)
    ensures Accept(AfterWhole(l), DOT) == (AfterPoint(l), true)
  {
    hide Shifted, Whole;
  }

  lemma PointNotExponent(l: Literal)
    ensures !AfterPoint(l).exponent
  {
    hide Shifted, Whole;
  }

  lemma FeedFraction(l: Literal, rest: seq<Byte>)
    requires WellFormed(l)
    ensures Feed(AfterWhole(l), FracText(l.frac) + rest) == Feed(AfterMantissa(l), rest)
  {
    AfterMantissaIs(l);
    PointAccepted(l);
    hide Feed, Accept, MantissaState, AfterDigits, AfterMantissa;
    if l.frac.None? {
      assert FracText(l.frac) + rest == rest;
    } else {
      assert FracText(l.frac) + rest == [DOT] + (l.frac.value + rest);
      FeedOne(AfterWhole(l), DOT, l.frac.value + rest);
      FeedDigits(AfterPoint(l), l.frac.value, rest);
      PointNotExponent(l);
      MantissaDigits(AfterPoint(l), l.frac.value);
    }
  }

  /** The states on the way through the exponent. */
  lemma ExponentStates(l: Literal, e: Exp)
    requires WellFormed(l) && l.exp == Some(e)
    ensures var st := AfterMantissa(l);
      var begun := st.(complete := false, exponent := true);
      var signed := begun.(exponentMinus := e.sign);
      && Accept(st, e.letter) == (begun, true)
      && (e.sign != NoSign ==> Accept(begun, SignText(e.sign)[0]) == (signed, true))
      && AfterDigits(signed, e.digits) == AfterLiteral(l)
  {
    ExponentDigits(AfterMantissa(l).(complete := false, exponent := true, exponentMinus := e.sign), e.digits);
    hide Shifted, Whole, AfterDigits;
  }

  lemma FeedExponentSign(begun: Parse, sign: Sign, rest: seq<Byte>)
    requires begun.exponentMinus == NoSign
    requires sign != NoSign ==> Accept(begun, SignText(sign)[0]) == (begun.(exponentMinus := sign), true)
    ensures Feed(begun, SignText(sign) + rest) == Feed(begun.(exponentMinus := sign), rest)
  {
    hide Feed, Accept;
    if sign == NoSign {
      assert SignText(sign) + rest == rest;
    } else {
      FeedOne(begun, SignText(sign)[0], rest);
    }
  }

  lemma FeedExponent(l: Literal, rest: seq<Byte>)
    requires WellFormed(l)
    ensures Feed(AfterMantissa(l), ExpText(l.exp) + rest) == Feed(AfterLiteral(l), rest)
  {
    if l.exp.None? {
      assert ExpText(l.exp) + rest == rest;
    } else {
      var e, st := l.exp.value, AfterMantissa(l);
      var begun := st.(complete := false, exponent := true);
      ExponentStates(l, e);
      hide Feed, Accept, AfterDigits, AfterLiteral, AfterMantissa;
      assert ExpText(l.exp) + rest == [e.letter] + (SignText(e.sign) + (e.digits + rest));
      FeedOne(st, e.letter, SignText(e.sign) + (e.digits + rest));
      FeedExponentSign(begun, e.sign, e.digits + rest);
      FeedDigits(begun.(exponentMinus := e.sign), e.digits, rest);
    }
  }

  lemma TextSplits(l: Literal, rest: seq<Byte>)
    ensures Text(l) + rest == SignText(l.sign) + (l.whole + (FracText(l.frac) + (ExpText(l.exp) + rest)))
  {
    hide SignText, FracText, ExpText;
    var a, b, c, d := SignText(l.sign), l.whole, FracText(l.frac), ExpText(l.exp);
    assert (a + (b + (c + d))) + rest == a + (b + (c + (d + rest)));
  }

  lemma FeedLiteral(l: Literal, rest: seq<Byte>)
    requires WellFormed(l)
    ensures Feed(START, Text(l) + rest) == Feed(AfterLiteral(l), rest)
  {
    var e := ExpText(l.exp) + rest;
    var f := FracText(l.frac) + e;
    TextSplits(l, rest);
    hide Feed, AfterDigits, MantissaState, AfterMantissa, AfterLiteral, Text, SignText, FracText, ExpText;
    FeedSign(l.sign, l.whole + f);
    FeedDigits(START.(minus := l.sign), l.whole, f);
    MantissaDigits(START.(minus := l.sign), l.whole);
    FeedFraction(l, e);
    FeedExponent(l, rest);
  }

  // ----- what the digits add up to

  lemma {:induction false} WholeFront(d: Byte, s: seq<Byte>)
    ensures Whole([d] + s) as real == Shifted((d as int - 48) as real, |s|) + Whole(s) as real
  {
    hide Shifted;
    ShiftedByTen((d as int - 48) as real, |s| - 1);
    if s == [] {
      assert [d] + s == [d] && Whole([d][..0]) == 0;
      ShiftedByTen((d as int - 48) as real, 0);
    } else {
      var front := s[..|s| - 1];
      assert ([d] + s)[..|s|] == [d] + front;
      WholeFront(d, front);
    }
  }

  lemma ShiftedTenths(r: real, n: int)
    ensures Shifted(r / 10.0, n + 1) == Shifted(r, n)
  {
    ShiftedByTen(r / 10.0, n);
    Shuffle(r / 10.0, Pow10(n));
    Associate(10.0, r / 10.0, Pow10(n));
  }

  lemma {:induction false} FractionScaled(s: seq<Byte>)
    ensures Shifted(Fraction(s), |s|) == Whole(s) as real
  {
    hide Shifted;
    if s == [] {
      ShiftedByTen(0.0, 0);
    } else {
      var d, tail := (s[0] as int - 48) as real, s[1..];
      FractionScaled(tail);
      assert s == [s[0]] + tail;
      WholeFront(s[0], tail);
      ShiftedTenths(d + Fraction(tail), |tail|);
      ShiftedAdd(d, Fraction(tail), |tail|);
    }
  }

  /** The digits as one number, scaled by the exponent less the length of the fraction, are what the
      literal denotes. */
  lemma ScaledDenotes(l: Literal)
    requires WellFormed(l)
    ensures Shifted(AfterLiteral(l).result, Power(l.exp) - FracLength(l)) == Shifted(Magnitude(l), Power(l.exp))
  {
    hide Shifted, Whole, Fraction, Power;
    var f, e := FracLength(l), Power(l.exp);
    if l.frac.Some? {
      var w, x := Whole(l.whole) as real, Fraction(l.frac.value);
      FractionScaled(l.frac.value);
      ShiftedAdd(w, x, f);
      ShiftedTwice(w + x, f, e - f);
    }
  }

  lemma ScaleIs(l: Literal)
    requires WellFormed(l)
    ensures Scale(AfterLiteral(l)) == Power(l.exp) - FracLength(l)
  {
  }

  lemma DenotesSigned(l: Literal)
    requires WellFormed(l)
    ensures var r := if l.sign == Minus then -AfterLiteral(l).result else AfterLiteral(l).result;
      && Shifted(r, Power(l.exp) - FracLength(l)) == Denotes(l)
      && (r == 0.0 <==> Denotes(l) == 0.0)
  {
    hide Shifted, Power, AfterLiteral, Magnitude;
    var r := AfterLiteral(l).result;
    var n := Power(l.exp) - FracLength(l);
    ScaledDenotes(l);
    ShiftedAdd(r, r, n);
    ShiftedAdd(Magnitude(l), Magnitude(l), Power(l.exp));
    ShiftedZero(r, n);
  }

  /** The state in which a literal's parse ends. */
  predicate Turned(l: Literal, rest: seq<Byte>, st: Parse) {
    var end := AfterLiteral(l);
    st.(complete := end.complete, exception := None) == end &&
    if rest == [] then st == end else
    if l.exp.Some? then
      if rest[0] in [PLUS, MINUS] then st.exception == Some(ExponentSignAlreadySet) else st == end
    else if rest[0] == DOT then st.exception == None
    else st.exception == if l.frac == Some([]) then Some(InvalidCharacter(rest[0], false)) else None
  }

  /** A character that cannot continue a literal is turned down. */
  lemma RestRejected(l: Literal, rest: seq<Byte>)
    requires WellFormed(l) && rest != [] && !Continues(l, rest[0])
    ensures var (st, accepted) := Accept(AfterLiteral(l), rest[0]); !accepted && Turned(l, rest, st)
  {
    hide Shifted, Whole;
  }

  /** What follows a literal: nothing, or a character that is turned down and stays where it is. */
  lemma FeedRest(l: Literal, rest: seq<Byte>)
    requires WellFormed(l) && (rest == [] || !Continues(l, rest[0]))
    ensures var (st, left) := Feed(AfterLiteral(l), rest); left == rest && Turned(l, rest, st)
  {
    if rest == [] {
      hide Shifted, Whole, Accept;
    } else {
      RestRejected(l, rest);
      hide Shifted, Whole, Accept, Turned, AfterLiteral;
    }
  }

  lemma ExtractTurned(l: Literal, rest: seq<Byte>, st: Parse, limits: Limits)
    requires WellFormed(l) && (rest == [] || !Continues(l, rest[0])) && Turned(l, rest, st)
    ensures Extract(st, limits) == Expected(l, rest, limits)
  {
    DenotesSigned(l);
    ScaleIs(l);
    hide Shifted, Denotes, Whole, Power;
  }

  /** Every literal, followed by the end or by a character that cannot continue it, is read as the number
      it denotes, and what follows stays unread; the two cases where it is an error are named exactly. */
  lemma ParsesLiteral(l: Literal, rest: seq<Byte>, limits: Limits)
    requires WellFormed(l)
    requires rest == [] || !Continues(l, rest[0])
    ensures var (st, left) := Feed(START, Text(l) + rest);
      left == rest && Extract(st, limits) == Expected(l, rest, limits)
  {
    FeedLiteral(l, rest);
    FeedRest(l, rest);
    hide Feed, Turned, AfterLiteral, Text, Extract, Expected;
    ExtractTurned(l, rest, Feed(AfterLiteral(l), rest).0, limits);
  }

  /** So "5. " is an error, though "5." is not. */
  lemma RejectedBehindPoint(limits: Limits)
    ensures Extract(Feed(START, [53, DOT, 32]).0, limits) == Err(InvalidCharacter(32, false))
  {
    var l := Literal(NoSign, [53], Some([]), None);
    assert WellFormed(l) && !Continues(l, 32);
    assert Text(l) + [32] == [53, DOT, 32];
    hide Feed, Extract, Denotes, Text, WellFormed, Continues, Power;
    ParsesLiteral(l, [32], limits);
  }

  /** And "1e5+" is one, though "1e5" is not. */
  lemma RejectedBehindExponent(limits: Limits)
    ensures Extract(Feed(START, [49, SMALL_E, 53, PLUS]).0, limits) == Err(ExponentSignAlreadySet)
  {
    var l := Literal(NoSign, [49], None, Some(Exp(SMALL_E, NoSign, [53])));
    assert WellFormed(l) && !Continues(l, PLUS);
    assert Text(l) + [PLUS] == [49, SMALL_E, 53, PLUS];
    hide Feed, Extract, Denotes, Text, WellFormed, Continues, Power;
    ParsesLiteral(l, [PLUS], limits);
  }

  lemma FirstNotSpace(l: Literal)
    requires WellFormed(l)
    ensures Text(l) != [] && !IsSpace(Text(l)[0])
  {
  }

  /** White space before a literal makes no difference. */
  lemma {:induction false} SpacesDropped(spaces: seq<Byte>, l: Literal, rest: seq<Byte>)
    requires WellFormed(l) && forall i | 0 <= i < |spaces| :: IsSpace(spaces[i])
    ensures DropSpaces(spaces + Text(l) + rest) == Text(l) + rest
  {
    var s := spaces + Text(l) + rest;
    if spaces == [] {
      assert s == Text(l) + rest;
      FirstNotSpace(l);
    } else {
      assert s[1..] == spaces[1..] + Text(l) + rest;
      SpacesDropped(spaces[1..], l, rest);
    }
  }
}
