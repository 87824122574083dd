/** Printing an angle in degrees, minutes and seconds and reading it back, over exact reals. */
module DegreesMinutesSeconds {
  import opened Common
  import opened DoubleParsers

  const BLANK: Byte := 32
  const QUOTE: Byte := 39
  const DOUBLE_QUOTE: Byte := 34

  // The degree sign in UTF-8.
  const DEG_SIM: seq<Byte> := [0xC2, 0xB0]
  const NORTH: Byte := 78
  const SOUTH: Byte := 83
  const EAST: Byte := 69
  const WEST: Byte := 87

  function Abs(x: real): real {
    if x < 0.0 then -x else x
  }

  // ----- decimal text, as an output stream writes it

  function PrintNat(n: nat): seq<Byte> {
    if n < 10 then [48 + n] else PrintNat(n / 10) + [48 + n % 10]
  }

  /** fill('0') and width(w). */
  function Pad(w: nat, s: seq<Byte>): seq<Byte>
    decreases w - |s|
  {
    if |s| >= w then s else Pad(w, [48] + s)
  }

  function Tens(p: nat): nat {
    if p == 0 then 1 else 10 * Tens(p - 1)
  }

  /** nearbyint, and what fixed notation does to the last place: to the nearest, a tie to the even one. */
  function NearbyInt(x: real): int {
    var f := x.Floor;
    var d := x - f as real;
    if d < 0.5 || (d == 0.5 && f % 2 == 0) then f else f + 1
  }

  lemma {:induction false} TensPositive(p: nat)
    ensures Tens(p) > 0 && Tens(p) as real == Pow10(p)
  {
    if p > 0 {
      TensPositive(p - 1);
    }
  }

  function Pow10Nat(p: nat): (r: real)
    ensures r > 0.0
  {
    TensPositive(p);
    Tens(p) as real
  }

  lemma NonNegativeProduct(a: real, b: real)
    requires a >= 0.0 && b >= 0.0
    ensures a * b >= 0.0
  {
  }

  /** x as a whole number of units of 1/t. */
  function Units(x: real, t: real): nat
    requires x >= 0.0 && t > 0.0
  {
    NonNegativeProduct(x, t);
    NearbyInt(x * t)
  }

  function Quotient(k: nat, t: nat): nat
    requires t > 0
  {
    k / t
  }

  function Remainder(k: nat, t: nat): nat
    requires t > 0
  {
    k % t
  }

  function PrintUnits(k: nat, p: nat): seq<Byte> {
    TensPositive(p);
    if p == 0 then Pad(2, PrintNat(k))
    else Pad(p + 3, PrintNat(Quotient(k, Tens(p))) + ([DOT] + Pad(p, PrintNat(Remainder(k, Tens(p))))))
  }

  /** Fixed notation with p decimal places, zero-padded to two places before the point. */
  function PrintFixed(x: real, p: nat): seq<Byte>
    requires x >= 0.0
  {
    PrintUnits(Units(x, Pow10Nat(p)), p)
  }

  // ----- splitting an angle

  datatype Parts = Parts(deg: nat, min: nat, sec: real)

  /** Degrees, minutes and seconds, the seconds to the nearest 1/10000; 60 seconds carry into the minutes
      but 60 minutes stay. */
  function Split(mag: real): Parts
    requires mag >= 0.0
  {
    var deg := mag.Floor;
    var minutes := (mag - deg as real) * 60.0;
    var min := minutes.Floor;
    var sec := NearbyInt((minutes - min as real) * 600000.0) as real / 10000.0;
    if sec >= 60.0 then Parts(deg, min + 1, sec - 60.0) else Parts(deg, min, sec)
  }

  function Join(p: Parts): real {
    p.deg as real + (p.min as real + p.sec / 60.0) / 60.0
  }

  lemma NearestIsNear(x: real)
    ensures Abs(NearbyInt(x) as real - x) <= 0.5
    ensures x == x.Floor as real ==> NearbyInt(x) == x.Floor
    ensures Abs(NearbyInt(x) as real - x) == 0.5 ==> NearbyInt(x) % 2 == 0
  {
  }

  /** Splitting is off by half a unit of 1/10000 of a second at most. */
  lemma SplitAccurate(mag: real)
    requires mag >= 0.0
    ensures Abs(Join(Split(mag)) - mag) <= 0.00005 / 3600.0
    ensures Split(mag).min <= 60 && 0.0 <= Split(mag).sec < 60.0
  {
    var deg := mag.Floor;
    var minutes := (mag - deg as real) * 60.0;
    var frac := minutes - minutes.Floor as real;
    NearestIsNear(frac * 600000.0);
  }

  // ----- the texts

  function PrintParts(parts: Parts, p: nat): seq<Byte>
    requires parts.sec >= 0.0
  {
    PrintNat(parts.deg) + DEG_SIM + Pad(2, PrintNat(parts.min)) + [QUOTE] + PrintFixed(parts.sec, p) + [DOUBLE_QUOTE]
  }

  function Body(ang: real, p: nat): seq<Byte> {
    SplitAccurate(Abs(ang));
    PrintParts(Split(Abs(ang)), p)
  }

  datatype Form = Plain | Lat | Lon

  function Print(form: Form, ang: real, p: nat): seq<Byte> {
    match form
    case Plain => (if ang < 0.0 then [MINUS] else []) + Body(ang, p)
    case Lat => [BLANK] + Body(ang, p) + [BLANK, if ang < 0.0 then SOUTH else NORTH]
    case Lon => (if Abs(ang) < 100.0 then [48] else []) + Body(ang, p) + [BLANK, if ang < 0.0 then WEST else EAST]
  }

  method SplitAngle(mag: real) returns (parts: Parts)
    requires 0.0 <= mag < 2147483648.0
    ensures parts == Split(mag)
  {
    var deg: nat := mag.Floor;
    var frac := mag - deg as real;
    frac := frac * 60.0;
    var min: nat := frac.Floor;
    frac := frac - min as real;
    var sec := NearbyInt(frac * 600000.0) as real;
    sec := sec / 10000.0;
    if sec >= 60.0 {
      min := min + 1;
      sec := sec - 60.0;
    }
    parts := Parts(deg, min, sec);
  }

  method AppendParts(oss: seq<Byte>, parts: Parts, p: nat) returns (text: seq<Byte>)
    requires parts.sec >= 0.0
    ensures text == oss + PrintParts(parts, p)
  {
    hide PrintNat, PrintFixed, Pad;
    text := oss + PrintNat(parts.deg) + DEG_SIM;
    text := text + Pad(2, PrintNat(parts.min)) + [QUOTE];
    text := text + PrintFixed(parts.sec, p) + [DOUBLE_QUOTE];
  }

  method PrintPlain(ang: real, p: nat) returns (text: seq<Byte>)
    requires -2147483648.0 < ang < 2147483648.0
    ensures text == Print(Plain, ang, p)
  {
    var neg, a := false, ang;
    if a < 0.0 {
      neg := true;
      a := -a;
    }
    var parts := SplitAngle(a);
    SplitAccurate(a);
    hide Split, PrintParts;
    var oss := if neg then [MINUS] else [];
    text := AppendParts(oss, parts, p);
  }

  lemma {:induction false} PrintNatDigits(n: nat)
    ensures Digits(PrintNat(n)) && PrintNat(n) != [] && Whole(PrintNat(n)) == n
  {
    if n >= 10 {
      PrintNatDigits(n / 10);
      assert PrintNat(n)[..|PrintNat(n)| - 1] == PrintNat(n / 10);
    } else {
      assert PrintNat(n)[..0] == [];
    }
  }

  lemma BodyStartsWithDigit(ang: real, p: nat)
    ensures Body(ang, p) != [] && IsDigit(Body(ang, p)[0])
  {
    PrintNatDigits(Split(Abs(ang)).deg);
  }

  method PrintLat(ang: real, p: nat) returns (text: seq<Byte>)
    requires -2147483648.0 < ang < 2147483648.0
    ensures text == Print(Lat, ang, p)
  {
    text := PrintPlain(ang, p);
    BodyStartsWithDigit(ang, p);
    if text[0] == MINUS {
      text := text + [BLANK, SOUTH];
      text := text[1..];
    } else {
      text := text + [BLANK, NORTH];
    }
    text := [BLANK] + text;
  }

  method PrintLon(ang: real, p: nat) returns (text: seq<Byte>)
    requires -2147483648.0 < ang < 2147483648.0
    ensures text == Print(Lon, ang, p)
  {
    text := PrintPlain(ang, p);
    BodyStartsWithDigit(ang, p);
    if text[0] == MINUS {
      text := text + [BLANK, WEST];
      text := text[1..];
    } else {
      text := text + [BLANK, EAST];
    }
    if Abs(ang) < 100.0 {
      text := [48] + text;
    }
  }

  // ----- reading

  function BlankOut(s: seq<Byte>): (r: seq<Byte>)
    ensures |r| == |s|
    ensures forall i | 0 <= i < |s| :: r[i] == if IsDigit(s[i]) || s[i] == DOT then s[i] else BLANK
  {
    seq(|s|, i requires 0 <= i < |s| => if IsDigit(s[i]) || s[i] == DOT then s[i] else BLANK)
  }

  function SkipBlanks(s: seq<Byte>): seq<Byte> {
    if s != [] && s[0] == BLANK then SkipBlanks(s[1..]) else s
  }

  function LeadingDigits(s: seq<Byte>): (r: seq<Byte>)
    ensures |r| <= |s|
  {
    if s != [] && IsDigit(s[0]) then [s[0]] + LeadingDigits(s[1..]) else []
  }

  // The stream after an extraction: the value, what is left, and whether it still works.
  datatype Extraction = Extraction(value: real, rest: seq<Byte>, good: bool)

  /** The digits behind a point, if there is one. */
  function PointDigits(s: seq<Byte>): seq<Byte> {
    if s != [] && s[0] == DOT then LeadingDigits(s[1..]) else []
  }

  function PastPoint(s: seq<Byte>): seq<Byte> {
    if s != [] && s[0] == DOT then s[1..][|LeadingDigits(s[1..])|..] else s
  }

  function ExtractedAt(t: seq<Byte>, good: bool): Extraction {
    var whole := LeadingDigits(t);
    var frac := PointDigits(t[|whole|..]);
    var rest := PastPoint(t[|whole|..]);
    if !good || whole + frac == [] then Extraction(0.0, rest, false)
    else Extraction(Whole(whole) as real + Fraction(frac), rest, true)
  }

  /** Extracting a number from text of digits, points and blanks; 0 once the stream has failed. */
  function Extracted(s: seq<Byte>, good: bool): Extraction {
    ExtractedAt(SkipBlanks(s), good)
  }

  predicate Negative(s: seq<Byte>)
    requires s != []
  {
    s[|s| - 1] == WEST || s[|s| - 1] == SOUTH || s[0] == MINUS
  }

  function Read(s: seq<Byte>): real
    requires s != []
  {
    var deg := Extracted(BlankOut(s), true);
    var min := Extracted(deg.rest, deg.good);
    var sec := Extracted(min.rest, min.good);
    var ang := deg.value + (min.value + sec.value / 60.0) / 60.0;
    if Negative(s) then -ang else ang
  }

  method DecimalDegrees(dms: seq<Byte>) returns (ang: real)
    requires dms != []
    ensures ang == Read(dms)
  {
    var tmp := dms;
    var neg := false;
    if tmp[|tmp| - 1] == WEST || tmp[|tmp| - 1] == SOUTH || tmp[0] == MINUS {
      neg := true;
    }
    var i := 0;
    while i < |tmp|
      invariant 0 <= i <= |tmp| == |dms|
      invariant forall j | 0 <= j < i :: tmp[j] == BlankOut(dms)[j]
      invariant forall j | i <= j < |dms| :: tmp[j] == dms[j]
    {
      if !IsDigit(tmp[i]) && tmp[i] != DOT {
        tmp := tmp[i := BLANK];
      }
      i := i + 1;
    }
    assert tmp == BlankOut(dms);
    var deg := Extracted(tmp, true);
    var min := Extracted(deg.rest, deg.good);
    var sec := Extracted(min.rest, min.good);
    ang := deg.value + (min.value + sec.value / 60.0) / 60.0;
    if neg {
      ang := -ang;
    }
  }

  // ----- what the printed digits read as

  lemma {:induction false} PrintNatLength(n: nat, p: nat)
    requires n < Tens(p) && p > 0
    ensures |PrintNat(n)| <= p
  {
    if n >= 10 {
      PrintNatLength(n / 10, p - 1);
    }
  }

  lemma LeadingZero(s: seq<Byte>)
    ensures Whole([48] + s) == Whole(s)
  {
    WholeFront(48, s);
    ShiftedZero(0.0, |s|);
  }

  lemma {:induction false} PadKeeps(w: nat, s: seq<Byte>)
    requires Digits(s)
    ensures Digits(Pad(w, s)) && Whole(Pad(w, s)) == Whole(s) && |Pad(w, s)| == Max(w, |s|)
    decreases w - |s|
  {
    if |s| < w {
      LeadingZero(s);
      PadKeeps(w, [48] + s);
    }
  }

  /** Padding in front of a number with a point pads its digits. */
  lemma {:induction false} PadWithPoint(w: nat, a: seq<Byte>, b: seq<Byte>)
    requires Digits(a)
    ensures exists z: seq<Byte> :: Digits(z) && |z| >= |a| && Whole(z) == Whole(a) && Pad(w, a + b) == z + b
    decreases w - |a + b|
  {
    if |a + b| >= w {
      assert Pad(w, a + b) == a + b;
    } else {
      LeadingZero(a);
      assert [48] + (a + b) == ([48] + a) + b;
      PadWithPoint(w, [48] + a, b);
    }
  }

  /** The number that printing x to units of 1/t shows. */
  function Shown(x: real, t: real): real
    requires x >= 0.0 && t > 0.0
  {
    Units(x, t) as real / t
  }

  lemma NonNegativeQuotient(k: nat, t: real)
    requires t > 0.0
    ensures k as real / t >= 0.0
  {
  }

  lemma DivideBound(k: real, x: real, t: real)
    requires t > 0.0 && Abs(k - x * t) <= 0.5
    ensures Abs(k / t - x) <= 0.5 / t
  {
    var e := k / t - x;
    assert e * t == k - x * t;
    var h := 0.5 / t;
    assert h * t == 0.5;
    assert e > h ==> e * t > h * t;
    assert -e > h ==> -e * t > h * t;
  }

  lemma ShownIsNear(x: real, t: real)
    requires x >= 0.0 && t > 0.0
    ensures Abs(Shown(x, t) - x) <= 0.5 / t && Shown(x, t) >= 0.0
  {
    NearestIsNear(x * t);
    hide NearbyInt;
    DivideBound(Units(x, t) as real, x, t);
    NonNegativeQuotient(Units(x, t), t);
  }

  // ----- how wide the fields are

  lemma {:induction false} PadLength(w: nat, s: seq<Byte>)
    ensures |Pad(w, s)| == Max(w, |s|)
    decreases w - |s|
  {
    if |s| < w {
      PadLength(w, [48] + s);
    }
  }

  lemma RemainderLess(k: nat, t: nat)
    requires t > 0
    ensures Remainder(k, t) < t
  {
  }

  lemma QuotientBound(k: nat, t: nat, n: nat)
    requires t > 0 && k <= n * t
    ensures Quotient(k, t) <= n
  {
  }

  lemma TwoDigits(n: nat)
    requires n < 100
    ensures |PrintNat(n)| <= 2
  {
  }

  lemma TensZero()
    ensures Tens(0) == 1
  {
  }

  lemma UnitsWidth(k: nat, p: nat)
    requires k <= 60 * Tens(p)
    ensures |PrintUnits(k, p)| == if p == 0 then 2 else p + 3
  {
    TensPositive(p);
    hide Tens, PrintNat, Pad, Quotient, Remainder;
    if p == 0 {
      assert Tens(0) == 1 by {
        TensZero();
      }
      TwoDigits(k);
      PadLength(2, PrintNat(k));
    } else {
      var q, r := Quotient(k, Tens(p)), Remainder(k, Tens(p));
      QuotientBound(k, Tens(p), 60);
      TwoDigits(q);
      RemainderLess(k, Tens(p));
      PrintNatLength(r, p);
      PadLength(p, PrintNat(r));
      PadLength(p + 3, PrintNat(q) + ([DOT] + Pad(p, PrintNat(r))));
    }
  }

  lemma Distributes(a: real, b: real, c: real)
    ensures (a - b) * c == a * c - b * c
  {
  }

  lemma TimesBelow(x: real, t: nat)
    requires 0.0 <= x < 60.0 && t > 0
    ensures x * t as real <= (60 * t) as real
  {
    NonNegativeProduct(60.0 - x, t as real);
    Distributes(60.0, x, t as real);
  }

  lemma NearestBelow(x: real, n: int)
    requires x <= n as real
    ensures NearbyInt(x) <= n
  {
  }

  lemma UnitsBound(x: real, t: nat)
    requires 0.0 <= x < 60.0 && t > 0
    ensures Units(x, t as real) <= 60 * t
  {
    TimesBelow(x, t);
    NearestBelow(x * t as real, 60 * t);
    hide NearbyInt;
  }

  /** The minutes have two digits, and the seconds two before the point and p behind it. */
  lemma PrintedWidth(ang: real, p: nat)
    ensures Split(Abs(ang)).sec >= 0.0
    ensures |Body(ang, p)| ==
            |PrintNat(Split(Abs(ang)).deg)| + |DEG_SIM| + 2 + 1 + (if p == 0 then 2 else p + 3) + 1
  {
    SplitAccurate(Abs(ang));
    var parts := Split(Abs(ang));
    TensPositive(p);
    UnitsBound(parts.sec, Tens(p));
    UnitsWidth(Units(parts.sec, Pow10Nat(p)), p);
    TwoDigits(parts.min);
    PadLength(2, PrintNat(parts.min));
    hide Split, PrintNat, Pad, PrintUnits, Units, Tens, Abs;
  }

  // ----- what is printed reads back

  lemma {:induction false} LeadingDigitsOf(w: seq<Byte>, rest: seq<Byte>)
    requires Digits(w) && (rest == [] || !IsDigit(rest[0]))
    ensures LeadingDigits(w + rest) == w
  {
    if w == [] {
      assert w + rest == rest;
    } else {
      assert (w + rest)[1..] == w[1..] + rest;
      LeadingDigitsOf(w[1..], rest);
    }
  }

  lemma {:induction false} SkipBlanksOf(blanks: seq<Byte>, rest: seq<Byte>)
    requires forall i | 0 <= i < |blanks| :: blanks[i] == BLANK
    requires rest == [] || rest[0] != BLANK
    ensures SkipBlanks(blanks + rest) == rest
  {
    if blanks == [] {
      assert blanks + rest == rest;
    } else {
      assert (blanks + rest)[1..] == blanks[1..] + rest;
      SkipBlanksOf(blanks[1..], rest);
    }
  }

  // A number: digits, and perhaps a point and more digits, or no digits in front of it.
  datatype Numeral = Numeral(whole: seq<Byte>, frac: Option<seq<Byte>>)

  predicate IsNumeral(n: Numeral) {
    && Digits(n.whole) && (n.frac.Some? ==> Digits(n.frac.value))
    && (n.whole != [] || (n.frac.Some? && n.frac.value != []))
  }

  function NumeralText(n: Numeral): seq<Byte> {
    n.whole + FracText(n.frac)
  }

  function NumeralValue(n: Numeral): real {
    Whole(n.whole) as real + if n.frac.Some? then Fraction(n.frac.value) else 0.0
  }

  lemma NumeralSplits(n: Numeral, rest: seq<Byte>)
    requires IsNumeral(n) && (rest == [] || rest[0] == BLANK)
    ensures LeadingDigits(NumeralText(n) + rest) == n.whole
    ensures NumeralText(n) + rest == n.whole + (FracText(n.frac) + rest)
  {
    hide LeadingDigits;
    var after := FracText(n.frac) + rest;
    assert NumeralText(n) + rest == n.whole + after;
    LeadingDigitsOf(n.whole, after);
  }

  lemma PointDigitsOf(frac: Option<seq<Byte>>, rest: seq<Byte>)
    requires (frac.Some? ==> Digits(frac.value)) && (rest == [] || rest[0] == BLANK)
    ensures PointDigits(FracText(frac) + rest) == if frac.Some? then frac.value else []
    ensures PastPoint(FracText(frac) + rest) == rest
  {
    hide LeadingDigits;
    if frac.Some? {
      assert (FracText(frac) + rest)[1..] == frac.value + rest;
      LeadingDigitsOf(frac.value, rest);
    } else {
      assert FracText(frac) + rest == rest;
    }
  }

  lemma EmptyFraction()
    ensures Fraction([]) == 0.0
  {
  }

  lemma ReadsNumeralAt(n: Numeral, rest: seq<Byte>)
    requires IsNumeral(n) && (rest == [] || rest[0] == BLANK)
    ensures ExtractedAt(NumeralText(n) + rest, true) == Extraction(NumeralValue(n), rest, true)
  {
    var t := NumeralText(n) + rest;
    var after := FracText(n.frac) + rest;
    NumeralSplits(n, rest);
    PointDigitsOf(n.frac, rest);
    EmptyFraction();
    hide LeadingDigits, PointDigits, PastPoint, Whole, Fraction, FracText, NumeralText;
    assert t[|n.whole|..] == after;
  }

  lemma NumeralNotBlank(n: Numeral, rest: seq<Byte>)
    requires IsNumeral(n)
    ensures (NumeralText(n) + rest)[0] != BLANK
  {
    if n.whole == [] {
      assert (NumeralText(n) + rest)[0] == DOT;
    } else {
      assert (NumeralText(n) + rest)[0] == n.whole[0];
    }
  }

  /** Extracting skips the blanks, reads a number and leaves what follows it. */
  lemma ReadsNumeral(blanks: seq<Byte>, n: Numeral, rest: seq<Byte>)
    requires forall i | 0 <= i < |blanks| :: blanks[i] == BLANK
    requires IsNumeral(n) && (rest == [] || rest[0] == BLANK)
    ensures Extracted(blanks + (NumeralText(n) + rest), true) == Extraction(NumeralValue(n), rest, true)
  {
    NumeralNotBlank(n, rest);
    hide SkipBlanks, ExtractedAt, NumeralText, NumeralValue, IsNumeral;
    SkipBlanksOf(blanks, NumeralText(n) + rest);
    ReadsNumeralAt(n, rest);
  }

  lemma RealProduct(a: int, b: int)
    ensures (a * b) as real == a as real * b as real
  {
  }

  lemma Collect(q: real, f: real, u: real, k: real)
    requires u > 0.0 && k == q * u + f * u
    ensures q + f == k / u
  {
    assert (q + f) * u == k;
  }

  lemma DividesOut(k: nat, t: nat, f: real)
    requires t > 0 && f * t as real == Remainder(k, t) as real
    ensures Quotient(k, t) as real + f == k as real / t as real
  {
    var q, r, u := k / t, k % t, t as real;
    assert k == q * t + r;
    RealProduct(q, t);
    assert k as real == q as real * u + r as real;
    Collect(q as real, f, u, k as real);
  }

  lemma TensOfNothing()
    ensures Pow10Nat(0) == 1.0
  {
  }

  lemma WholeUnits(k: nat)
    ensures var n := Numeral(Pad(2, PrintNat(k)), None);
      IsNumeral(n) && NumeralText(n) == n.whole && NumeralValue(n) == k as real / Pow10Nat(0)
  {
    PrintNatDigits(k);
    PadKeeps(2, PrintNat(k));
    TensOfNothing();
    hide Whole, PrintNat, Pad, Pow10Nat;
    assert NumeralText(Numeral(Pad(2, PrintNat(k)), None)) == Pad(2, PrintNat(k)) + [];
  }

  /** What is printed for k units of the last of p places, and what it is worth. */
  lemma UnitsNumeral(k: nat, p: nat) returns (n: Numeral)
    ensures IsNumeral(n) && PrintUnits(k, p) == NumeralText(n)
    ensures NumeralValue(n) == k as real / Pow10Nat(p)
  {
    TensPositive(p);
    hide Whole, Fraction, PrintNat, Tens, Pad, Quotient, Remainder;
    if p == 0 {
      n := Numeral(Pad(2, PrintNat(k)), None);
      WholeUnits(k);
    } else {
      var t := Tens(p);
      var q, r := Quotient(k, t), Remainder(k, t);
      var frac := Pad(p, PrintNat(r));
      PrintNatDigits(q);
      PrintNatDigits(r);
      RemainderLess(k, t);
      PrintNatLength(r, p);
      PadKeeps(p, PrintNat(r));
      FractionScaled(frac);
      PadWithPoint(p + 3, PrintNat(q), [DOT] + frac);
      var z: seq<Byte> :| Digits(z) && |z| >= |PrintNat(q)| && Whole(z) == q &&
        Pad(p + 3, PrintNat(q) + ([DOT] + frac)) == z + ([DOT] + frac);
      n := Numeral(z, Some(frac));
      DividesOut(k, t, Fraction(frac));
    }
  }

  lemma BlankOutConcat(a: seq<Byte>, b: seq<Byte>)
    ensures BlankOut(a + b) == BlankOut(a) + BlankOut(b)
  {
  }

  lemma BlankOutNumeral(n: Numeral)
    requires IsNumeral(n)
    ensures BlankOut(NumeralText(n)) == NumeralText(n)
  {
  }

  predicate NoNumber(s: seq<Byte>) {
    forall i | 0 <= i < |s| :: !IsDigit(s[i]) && s[i] != DOT
  }

  /** Nothing that would go on with a number in front of it. */
  predicate EndsNumber(s: seq<Byte>) {
    s == [] || (!IsDigit(s[0]) && s[0] != DOT)
  }

  /** Extracting from the blanked text reads the next number. */
  lemma ExtractsNumber(before: seq<Byte>, n: Numeral, rest: seq<Byte>)
    requires NoNumber(before) && IsNumeral(n) && EndsNumber(rest)
    ensures Extracted(BlankOut(before + (NumeralText(n) + rest)), true) ==
            Extraction(NumeralValue(n), BlankOut(rest), true)
  {
    BlankOutNumeral(n);
    BlankOutConcat(NumeralText(n), rest);
    BlankOutConcat(before, NumeralText(n) + rest);
    hide Extracted, NumeralText, NumeralValue, IsNumeral;
    ReadsNumeral(BlankOut(before), n, BlankOut(rest));
  }

  predicate NoDigit(s: seq<Byte>) {
    forall i | 0 <= i < |s| :: !IsDigit(s[i])
  }

  lemma {:induction false} SkipsToNoDigit(s: seq<Byte>)
    requires NoDigit(s)
    ensures NoDigit(SkipBlanks(s))
  {
    if s != [] && s[0] == BLANK {
      SkipsToNoDigit(s[1..]);
    }
  }

  /** Without a digit nothing is read, and nothing after that. */
  lemma ExtractsNothing(s: seq<Byte>)
    requires NoDigit(s)
    ensures Extracted(BlankOut(s), true).value == 0.0 && !Extracted(BlankOut(s), true).good
    ensures forall t :: Extracted(t, false).value == 0.0 && !Extracted(t, false).good
  {
    SkipsToNoDigit(BlankOut(s));
  }

  /** The numbers read from a text. */
  function ThreeRead(text: seq<Byte>): (real, real, real) {
    var deg := Extracted(BlankOut(text), true);
    var min := Extracted(deg.rest, deg.good);
    var sec := Extracted(min.rest, min.good);
    (deg.value, min.value, sec.value)
  }

  /** Any three numbers with anything between them but digits and points. */
  lemma ReadsThree(before: seq<Byte>, d: Numeral, gap: seq<Byte>, m: Numeral, gap': seq<Byte>, s: Numeral,
                   after: seq<Byte>)
    requires NoNumber(before) && NoNumber(gap) && NoNumber(gap') && gap != [] && gap' != [] && EndsNumber(after)
    requires IsNumeral(d) && IsNumeral(m) && IsNumeral(s)
    ensures ThreeRead(before + (NumeralText(d) + (gap + (NumeralText(m) + (gap' + (NumeralText(s) + after)))))) ==
            (NumeralValue(d), NumeralValue(m), NumeralValue(s))
  {
    hide Extracted, NumeralText, NumeralValue, IsNumeral, BlankOut;
    var last := gap' + (NumeralText(s) + after);
    ExtractsNumber(before, d, gap + (NumeralText(m) + last));
    ExtractsNumber(gap, m, last);
    ExtractsNumber(gap', s, after);
  }

  /** Two numbers only: no seconds. */
  lemma ReadsTwo(before: seq<Byte>, d: Numeral, gap: seq<Byte>, m: Numeral, after: seq<Byte>)
    requires NoNumber(before) && NoNumber(gap) && gap != [] && EndsNumber(after) && NoDigit(after)
    requires IsNumeral(d) && IsNumeral(m)
    ensures ThreeRead(before + (NumeralText(d) + (gap + (NumeralText(m) + after)))) ==
            (NumeralValue(d), NumeralValue(m), 0.0)
  {
    ExtractsNothing(after);
    hide Extracted, NumeralText, NumeralValue, IsNumeral, BlankOut;
    ExtractsNumber(before, d, gap + (NumeralText(m) + after));
    ExtractsNumber(gap, m, after);
  }

  /** One number only: decimal degrees. */
  lemma ReadsOne(before: seq<Byte>, d: Numeral, after: seq<Byte>)
    requires NoNumber(before) && EndsNumber(after) && NoDigit(after) && IsNumeral(d)
    ensures ThreeRead(before + (NumeralText(d) + after)) == (NumeralValue(d), 0.0, 0.0)
  {
    ExtractsNothing(after);
    hide Extracted, NumeralText, NumeralValue, IsNumeral, BlankOut;
    ExtractsNumber(before, d, after);
  }

  /** None at all. */
  lemma ReadsNone(text: seq<Byte>)
    requires NoDigit(text)
    ensures ThreeRead(text) == (0.0, 0.0, 0.0)
  {
    ExtractsNothing(text);
    hide Extracted, BlankOut;
  }

  /** The angle is what the numbers are together, negative when the ends of the text say so. */
  lemma ReadIs(text: seq<Byte>)
    requires text != []
    ensures var (d, m, s) := ThreeRead(text);
      Read(text) == if Negative(text) then -(d + m / 60.0 + s / 3600.0) else d + m / 60.0 + s / 3600.0
  {
    hide Extracted, BlankOut, Negative;
  }

  function WholeNumeral(s: seq<Byte>): Numeral {
    Numeral(s, None)
  }

  function RawText(before: seq<Byte>, d: Numeral, m: Numeral, s: Numeral, after: seq<Byte>): seq<Byte> {
    before + (NumeralText(d) + (DEG_SIM + (NumeralText(m) + ([QUOTE] + (NumeralText(s) + ([DOUBLE_QUOTE] + after))))))
  }

  lemma ReadsText(before: seq<Byte>, d: Numeral, m: Numeral, s: Numeral, after: seq<Byte>)
    requires NoNumber(before) && IsNumeral(d) && IsNumeral(m) && IsNumeral(s)
    ensures ThreeRead(RawText(before, d, m, s, after)) == (NumeralValue(d), NumeralValue(m), NumeralValue(s))
  {
    hide ThreeRead, NumeralText, NumeralValue, IsNumeral;
    ReadsThree(before, d, DEG_SIM, m, [QUOTE], s, [DOUBLE_QUOTE] + after);
  }

  lemma NumeralOf(zero: seq<Byte>, n: nat)
    requires zero == [] || zero == [48]
    ensures IsNumeral(WholeNumeral(zero + PrintNat(n))) && NumeralValue(WholeNumeral(zero + PrintNat(n))) == n as real
  {
    PrintNatDigits(n);
    LeadingZero(PrintNat(n));
    hide Whole, Fraction, PrintNat;
    assert [] + PrintNat(n) == PrintNat(n);
  }

  lemma NumeralOfPadded(n: nat)
    ensures IsNumeral(WholeNumeral(Pad(2, PrintNat(n)))) && NumeralValue(WholeNumeral(Pad(2, PrintNat(n)))) == n as real
  {
    PrintNatDigits(n);
    PadKeeps(2, PrintNat(n));
  }

  /** The printed text, told as three numbers and what stands between them. */
  lemma PartsText(before: seq<Byte>, zero: seq<Byte>, parts: Parts, p: nat, after: seq<Byte>,
                  d: Numeral, m: Numeral, s: Numeral)
    requires parts.sec >= 0.0
    requires d == WholeNumeral(zero + PrintNat(parts.deg)) && m == WholeNumeral(Pad(2, PrintNat(parts.min)))
    requires NumeralText(s) == PrintUnits(Units(parts.sec, Pow10Nat(p)), p)
    ensures before + zero + PrintParts(parts, p) + after == RawText(before, d, m, s, after)
  {
    hide PrintNat, Pad, PrintUnits;
    assert NumeralText(d) == zero + PrintNat(parts.deg) && NumeralText(m) == m.whole;
  }

  /** A printed angle, with anything but digits and points around it, reads as its parts. */
  lemma ReadsParts(before: seq<Byte>, zero: seq<Byte>, parts: Parts, p: nat, after: seq<Byte>)
    requires parts.sec >= 0.0 && (zero == [] || zero == [48]) && NoNumber(before)
    ensures ThreeRead(before + zero + PrintParts(parts, p) + after) ==
            (parts.deg as real, parts.min as real, Shown(parts.sec, Pow10Nat(p)))
  {
    var d, m := WholeNumeral(zero + PrintNat(parts.deg)), WholeNumeral(Pad(2, PrintNat(parts.min)));
    NumeralOf(zero, parts.deg);
    NumeralOfPadded(parts.min);
    hide ThreeRead, PrintNat, Pad, PrintUnits, PrintParts, Units, Pow10Nat, IsNumeral, NumeralText,
      NumeralValue, WholeNumeral;
    var s := UnitsNumeral(Units(parts.sec, Pow10Nat(p)), p);
    assert NumeralValue(s) == Shown(parts.sec, Pow10Nat(p));
    PartsText(before, zero, parts, p, after, d, m, s);
    ReadsText(before, d, m, s, after);
  }

  // ----- the round trip

  function Front(form: Form, ang: real): seq<Byte> {
    match form
    case Plain => if ang < 0.0 then [MINUS] else []
    case Lat => [BLANK]
    case Lon => []
  }

  function Zero(form: Form, ang: real): seq<Byte> {
    if form == Lon && Abs(ang) < 100.0 then [48] else []
  }

  function Tail(form: Form, ang: real): seq<Byte> {
    match form
    case Plain => []
    case Lat => [BLANK, if ang < 0.0 then SOUTH else NORTH]
    case Lon => [BLANK, if ang < 0.0 then WEST else EAST]
  }

  /** The ends of a text around a body decide whether it is negative. */
  lemma Surrounded(front: seq<Byte>, zero: seq<Byte>, body: seq<Byte>, tail: seq<Byte>)
    requires body != [] && IsDigit(body[0]) && body[|body| - 1] == DOUBLE_QUOTE && (zero == [] || zero == [48])
    ensures var text := front + zero + body + tail;
      && text != []
      && text[|text| - 1] == (if tail == [] then DOUBLE_QUOTE else tail[|tail| - 1])
      && (if front == [] then IsDigit(text[0]) else text[0] == front[0])
  {
  }

  lemma BodyEnds(ang: real, p: nat)
    ensures Body(ang, p) != [] && Body(ang, p)[|Body(ang, p)| - 1] == DOUBLE_QUOTE
  {
  }

  lemma PrintIs(form: Form, ang: real, p: nat)
    ensures Print(form, ang, p) == Front(form, ang) + Zero(form, ang) + Body(ang, p) + Tail(form, ang)
    ensures Print(form, ang, p) != [] && (Negative(Print(form, ang, p)) <==> ang < 0.0)
  {
    BodyStartsWithDigit(ang, p);
    BodyEnds(ang, p);
    hide Body, Abs;
    var f, z, b, t := Front(form, ang), Zero(form, ang), Body(ang, p), Tail(form, ang);
    assert f + [] + b + [] == f + b && [] + z + b + t == z + b + t && f + [] + b + t == f + b + t;
    Surrounded(f, z, b, t);
  }

  /** What reading gives for every printed form. */
  lemma ReadsPrinted(form: Form, ang: real, p: nat)
    ensures Print(form, ang, p) != [] && Split(Abs(ang)).sec >= 0.0
    ensures var parts := Split(Abs(ang));
      var v := parts.deg as real + (parts.min as real + Shown(parts.sec, Pow10Nat(p)) / 60.0) / 60.0;
      Read(Print(form, ang, p)) == if ang < 0.0 then -v else v
  {
    SplitAccurate(Abs(ang));
    PrintIs(form, ang, p);
    ReadsParts(Front(form, ang), Zero(form, ang), Split(Abs(ang)), p, Tail(form, ang));
    hide Split, Extracted, BlankOut, PrintParts, Shown, Print, Negative;
  }

  /** Reading any printed form gives the angle back, within half a unit of the last place printed and
      half a unit of 1/10000 of a second, and with the right sign. */
  lemma RoundTrip(form: Form, ang: real, p: nat)
    ensures Print(form, ang, p) != []
    ensures Abs(Read(Print(form, ang, p)) - ang) <= (0.5 / Pow10Nat(p) + 0.00005) / 3600.0
    ensures if ang < 0.0 then Read(Print(form, ang, p)) <= 0.0 else Read(Print(form, ang, p)) >= 0.0
  {
    ReadsPrinted(form, ang, p);
    SplitAccurate(Abs(ang));
    ShownIsNear(Split(Abs(ang)).sec, Pow10Nat(p));
    hide Split, Read, Print, Shown, Pow10Nat;
  }

  lemma InTenThousandths(mag: real, t: nat, q: nat, units: nat)
    requires t * q == 10000 && mag * 3600.0 * t as real == units as real
    ensures mag * 36000000.0 == (units * q) as real
  {
    RealProduct(units, q);
    RealProduct(t, q);
    Associate(mag * 3600.0, t as real, q as real);
  }

  /** An angle of n units of 1/10000 of a second is split without a loss. */
  lemma SplitUnits(mag: real, n: nat) returns (j: int)
    requires mag >= 0.0 && mag * 36000000.0 == n as real
    ensures Join(Split(mag)) == mag && Split(mag).sec * 10000.0 == (n - j * 600000) as real
  {
    var deg := mag.Floor;
    var minutes := (mag - deg as real) * 60.0;
    var min := minutes.Floor;
    var x := (minutes - min as real) * 600000.0;
    assert x == (n - deg * 36000000 - min * 600000) as real;
    NearestIsNear(x);
    j := deg * 60 + min;
    if Split(mag).min != min {
      j := j + 1;
    }
  }

  lemma AssociateInt(a: int, b: int, c: int)
    ensures a * b * c == a * (b * c)
  {
  }

  lemma SameFactor(a: real, b: real, c: real)
    requires c > 0.0 && a * c == b * c
    ensures a == b
  {
  }

  lemma SecondsIntegral(sec: real, t: nat, q: nat, units: nat, j: int) returns (v: int)
    requires t * q == 10000 && q > 0
    requires sec * 10000.0 == (units * q - j * 600000) as real
    ensures sec * t as real == v as real
  {
    v := units - 60 * j * t;
    calc {
      v * q;
      units * q - 60 * j * t * q;
      { AssociateInt(60 * j, t, q); }
      units * q - 60 * j * (t * q);
    }
    RealProduct(v, q);
    RealProduct(t, q);
    Associate(sec, t as real, q as real);
    SameFactor(sec * t as real, v as real, q as real);
  }

  lemma CancelProduct(k: real, x: real, t: real)
    requires t > 0.0 && k == x * t
    ensures k / t == x
  {
  }

  lemma ShownExact(x: real, t: real, k: int)
    requires x >= 0.0 && t > 0.0 && x * t == k as real
    ensures Shown(x, t) == x
  {
    NearestIsNear(x * t);
    hide NearbyInt;
    assert Units(x, t) == k;
    CancelProduct(k as real, x, t);
  }

  lemma SplitExactIn(mag: real, t: nat, q: nat, units: nat)
    requires mag >= 0.0 && t > 0 && q > 0 && t * q == 10000 && mag * 3600.0 * t as real == units as real
    ensures Split(mag).sec >= 0.0 && Join(Split(mag)) == mag
    ensures Shown(Split(mag).sec, t as real) == Split(mag).sec
  {
    SplitAccurate(mag);
    hide Split, Shown, Join;
    InTenThousandths(mag, t, q, units);
    var j := SplitUnits(mag, units * q);
    var k := SecondsIntegral(Split(mag).sec, t, q, units, j);
    ShownExact(Split(mag).sec, t as real, k);
  }

  lemma PowIsTens(p: nat)
    ensures Pow10Nat(p) == Tens(p) as real
  {
  }

  lemma TensUpTo4(p: nat)
    requires p <= 4
    ensures Tens(p) in [1, 10, 100, 1000, 10000]
  {
    assert Tens(0) == 1 && Tens(1) == 10 && Tens(2) == 100 && Tens(3) == 1000 && Tens(4) == 10000;
  }

  /** Nothing is lost in splitting or in printing such an angle. */
  lemma SplitExact(mag: real, p: nat, units: nat)
    requires mag >= 0.0 && p <= 4 && mag * 3600.0 * Pow10Nat(p) == units as real
    ensures Split(mag).sec >= 0.0 && Join(Split(mag)) == mag
    ensures Shown(Split(mag).sec, Pow10Nat(p)) == Split(mag).sec
  {
    TensUpTo4(p);
    PowIsTens(p);
    var t := Tens(p);
    SplitExactIn(mag, t, if t == 1 then 10000 else if t == 10 then 1000 else if t == 100 then 100
      else if t == 1000 then 10 else 1, units);
  }

  /** An angle that is a whole number of units of the p-th place of a second, p being 4 at most, comes
      back exactly. */
  lemma RoundTripExact(form: Form, ang: real, p: nat, units: nat)
    requires p <= 4 && Abs(ang) * 3600.0 * Pow10Nat(p) == units as real
    ensures Print(form, ang, p) != [] && Read(Print(form, ang, p)) == ang
  {
    ReadsPrinted(form, ang, p);
    SplitExact(Abs(ang), p, units);
    hide Split, Read, Print, Shown, Pow10Nat;
  }
}
