/** The byte format of a NanoLogLine: what operator<< writes and what stringify reads back. */
module LogLineCodec {
  import opened Common

  // An argument of operator<<.  Double carries the bit pattern, Literal the address of the literal,
  // CString a null pointer or the bytes before the terminator, Text the bytes of a std::string.
  datatype Arg =
    | Char(c: Byte)
    | UInt32(n: nat)
    | UInt64(n: nat)
    | Int32(i: int)
    | Int64(i: int)
    | Double(bits: nat)
    | Literal(address: nat)
    | CString(text: Option<seq<Byte>>)
    | Text(s: seq<Byte>)

  // ----- integers in memory

  function Pow256(width: nat): nat {
    if width == 0 then 1 else 256 * Pow256(width - 1)
  }

  /** The bytes of an unsigned integer, least significant first. */
  function LittleEndian(n: nat, width: nat): (bs: seq<Byte>)
    ensures |bs| == width
  {
    if width == 0 then [] else [n % 256] + LittleEndian(n / 256, width - 1)
  }

  function FromLittleEndian(bs: seq<Byte>): nat {
    if bs == [] then 0 else bs[0] + 256 * FromLittleEndian(bs[1..])
  }

  lemma {:induction false} LittleEndianRoundTrip(n: nat, width: nat)
    requires n < Pow256(width)
    ensures FromLittleEndian(LittleEndian(n, width)) == n
  {
    if width > 0 {
      LittleEndianRoundTrip(n / 256, width - 1);
      assert LittleEndian(n, width)[1..] == LittleEndian(n / 256, width - 1);
    }
  }

  /** Two's complement. */
  function Unsigned(i: int, width: nat): nat
    requires 0 <= i + Pow256(width)
  {
    if i >= 0 then i else i + Pow256(width)
  }

  function Signed(n: nat, width: nat): int {
    if 2 * n < Pow256(width) then n else n - Pow256(width)
  }

  predicate InSigned(i: int, width: nat) {
    0 <= 2 * i + Pow256(width) && 2 * i < Pow256(width)
  }

  // ----- one argument

  predicate NulFree(s: seq<Byte>) {
    0 !in s
  }

  /** The values the C++ types can hold. */
  predicate WellFormed(a: Arg) {
    match a
    case Char(_) => true
    case UInt32(n) => n < Pow256(4)
    case UInt64(n) => n < Pow256(8)
    case Int32(i) => InSigned(i, 4)
    case Int64(i) => InSigned(i, 8)
    case Double(bits) => bits < Pow256(8)
    case Literal(address) => address < Pow256(8)
    case CString(text) => text.Some? ==> NulFree(text.value)
    case Text(_) => true
  }

  /** The tag, an index into SupportedTypes. */
  function Tag(a: Arg): Byte {
    match a
    case Char(_) => 0
    case UInt32(_) => 1
    case UInt64(_) => 2
    case Int32(_) => 3
    case Int64(_) => 4
    case Double(_) => 5
    case Literal(_) => 6
    case CString(_) => 7
    case Text(_) => 7
  }

  function Payload(a: Arg): seq<Byte>
    requires WellFormed(a)
  {
    match a
    case Char(c) => [c]
    case UInt32(n) => LittleEndian(n, 4)
    case UInt64(n) => LittleEndian(n, 8)
    case Int32(i) => LittleEndian(Unsigned(i, 4), 4)
    case Int64(i) => LittleEndian(Unsigned(i, 8), 8)
    case Double(bits) => LittleEndian(bits, 8)
    case Literal(address) => LittleEndian(address, 8)
    case CString(text) => if text.Some? then text.value + [0] else [0]
    case Text(s) => s + [0]
  }

  /** Null and empty strings are not recorded at all. */
  predicate Recorded(a: Arg) {
    match a
    case CString(text) => text.Some? && text.value != []
    case Text(s) => s != []
    case _ => true
  }

  function Record(a: Arg): seq<Byte>
    requires WellFormed(a)
  {
    if Recorded(a) then [Tag(a)] + Payload(a) else []
  }

  // ----- a sequence of arguments

  predicate AllWellFormed(args: seq<Arg>) {
    forall i | 0 <= i < |args| :: WellFormed(args[i])
  }

  function Encode(args: seq<Arg>): seq<Byte>
    requires AllWellFormed(args)
  {
    if args == [] then [] else Record(args[0]) + Encode(args[1..])
  }

  lemma {:induction false} EncodeSnoc(args: seq<Arg>, a: Arg)
    requires AllWellFormed(args) && WellFormed(a)
    ensures Encode(args + [a]) == Encode(args) + Record(a)
  {
    hide Record, WellFormed;
    if args == [] {
      assert (args + [a])[1..] == [];
    } else {
      assert (args + [a])[1..] == args[1..] + [a];
      EncodeSnoc(args[1..], a);
      var r, es := Record(args[0]), Encode(args[1..]);
      assert r + (es + Record(a)) == (r + es) + Record(a);
    }
  }

  /** What the line says: recorded arguments, with the two kinds of string told apart no longer. */
  function Meaning(args: seq<Arg>): seq<Arg> {
    if args == [] then [] else
    var rest := Meaning(args[1..]);
    match args[0]
    case CString(text) => if text.Some? && text.value != [] then [Text(text.value)] + rest else rest
    case Text(s) => if s != [] then [args[0]] + rest else rest
    case _ => [args[0]] + rest
  }

  // Done: the decoder came out exactly at the end.  UnknownTag: it met a byte that is no tag, and
  // stopped.  Overrun: it would have read past the end.
  datatype Outcome = Done | UnknownTag | Overrun

  datatype Decoded = Decoded(args: seq<Arg>, outcome: Outcome)

  /** The bytes before the first NUL at or after position i, or none if there is no NUL. */
  function NulAt(bs: seq<Byte>, i: nat): (k: nat)
    requires i <= |bs|
    ensures i <= k <= |bs|
    ensures NulFree(bs[i..k])
    ensures k < |bs| ==> bs[k] == 0
    decreases |bs| - i
  {
    if i == |bs| || bs[i] == 0 then i else NulAt(bs, i + 1)
  }

  /** sizeof the type a tag stands for; strings and bad tags have no fixed width. */
  function Width(tag: Byte): Option<nat> {
    if tag == 0 then Some(1)
    else if tag == 1 || tag == 3 then Some(4)
    else if tag == 2 || tag == 4 || tag == 5 || tag == 6 then Some(8)
    else None
  }

  /** Reading back a value of fixed width. */
  function Fixed(tag: Byte, bs: seq<Byte>): Arg
    requires Width(tag).Some? && |bs| == Width(tag).value
  {
    if tag == 0 then Char(bs[0])
    else if tag == 1 then UInt32(FromLittleEndian(bs))
    else if tag == 2 then UInt64(FromLittleEndian(bs))
    else if tag == 3 then Int32(Signed(FromLittleEndian(bs), 4))
    else if tag == 4 then Int64(Signed(FromLittleEndian(bs), 8))
    else if tag == 5 then Double(FromLittleEndian(bs))
    else Literal(FromLittleEndian(bs))
  }

  /** The recursive stringify over the bytes from start to end. */
  function Decode(bs: seq<Byte>): Decoded
    decreases |bs|
  {
    if bs == [] then Decoded([], Done) else
    var tag := bs[0];
    if Width(tag).Some? then
      var w := Width(tag).value;
      if 1 + w > |bs| then Decoded([], Overrun) else
      var rest := Decode(bs[1 + w..]);
      rest.(args := [Fixed(tag, bs[1..1 + w])] + rest.args)
    else if tag == 7 then
      var k := NulAt(bs, 1);
      if k == |bs| then Decoded([], Overrun) else
      var rest := Decode(bs[k + 1..]);
      rest.(args := [Text(bs[1..k])] + rest.args)
    else
      Decoded([], UnknownTag)
  }

  // ----- round trip

  lemma FixedRoundTrip(a: Arg)
    requires WellFormed(a) && !a.CString? && !a.Text?
    ensures Width(Tag(a)) == Some(|Payload(a)|) && Fixed(Tag(a), Payload(a)) == a
  {
    match a
    case Char(_) =>
    case UInt32(n) => LittleEndianRoundTrip(n, 4);
    case UInt64(n) => LittleEndianRoundTrip(n, 8);
    case Int32(i) => LittleEndianRoundTrip(Unsigned(i, 4), 4);
    case Int64(i) => LittleEndianRoundTrip(Unsigned(i, 8), 8);
    case Double(bits) => LittleEndianRoundTrip(bits, 8);
    case Literal(address) => LittleEndianRoundTrip(address, 8);
  }

  lemma DecodeFixed(a: Arg, rest: seq<Byte>)
    requires WellFormed(a) && !a.CString? && !a.Text?
    ensures Decode(Record(a) + rest) == Decode(rest).(args := [a] + Decode(rest).args)
  {
    FixedRoundTrip(a);
    var bs, w := Record(a) + rest, |Payload(a)|;
    assert bs[1..1 + w] == Payload(a);
    assert bs[1 + w..] == rest;
  }

  lemma {:induction false} NulAtFirst(bs: seq<Byte>, i: nat, k: nat)
    requires i <= k < |bs| && NulFree(bs[i..k]) && bs[k] == 0
    ensures NulAt(bs, i) == k
    decreases k - i
  {
    if i < k {
      assert bs[i] in bs[i..k];
      assert bs[i + 1..k] == bs[i..k][1..];
      NulAtFirst(bs, i + 1, k);
    }
  }

  lemma TextIndices(s: seq<Byte>, head: seq<Byte>, rest: seq<Byte>)
    requires head + [0] <= s + [0]
    ensures var bs, k := [7] + (s + [0]) + rest, |head| + 1;
      && k < |bs| && bs[0] == 7 && bs[1..k] == head && bs[k] == 0
      && bs[k + 1..] == (s + [0])[|head| + 1..] + rest
  {
    var bs, k, t := [7] + (s + [0]) + rest, |head| + 1, s + [0];
    assert t[..|head| + 1] == head + [0];
    assert t == (head + [0]) + t[|head| + 1..];
    assert bs == [7] + head + [0] + (t[|head| + 1..] + rest);
  }

  /** A recorded string comes back up to its first NUL, its own terminator if it holds no other. */
  lemma DecodeText(s: seq<Byte>, head: seq<Byte>, rest: seq<Byte>)
    requires head + [0] <= s + [0] && NulFree(head)
    ensures var tail := (s + [0])[|head| + 1..] + rest;
      Decode([7] + (s + [0]) + rest) == Decode(tail).(args := [Text(head)] + Decode(tail).args)
  {
    var bs, k := [7] + (s + [0]) + rest, |head| + 1;
    TextIndices(s, head, rest);
    NulAtFirst(bs, 1, k);
  }

  function StringBytes(a: Arg): seq<Byte>
    requires (a.CString? || a.Text?) && Recorded(a)
  {
    if a.CString? then a.text.value else a.s
  }

  /** The arguments whose text survives: a std::string may hold a NUL, the others cannot. */
  predicate Faithful(args: seq<Arg>) {
    forall i | 0 <= i < |args| && args[i].Text? :: NulFree(args[i].s)
  }

  lemma TextRecord(a: Arg)
    requires WellFormed(a) && (a.CString? || a.Text?) && Recorded(a)
    ensures Record(a) == [7] + (StringBytes(a) + [0])
  {
  }

  lemma {:induction false} RoundTripWhenFaithful(args: seq<Arg>)
    requires AllWellFormed(args) && Faithful(args)
    ensures Decode(Encode(args)) == Decoded(Meaning(args), Done)
  {
    if args != [] {
      var a, rest := args[0], Encode(args[1..]);
      RoundTripWhenFaithful(args[1..]);
      if !Recorded(a) {
        assert Encode(args) == rest;
      } else if a.CString? || a.Text? {
        var s := StringBytes(a);
        TextRecord(a);
        DecodeText(s, s, rest);
        assert (s + [0])[|s| + 1..] + rest == rest;
      } else {
        DecodeFixed(a, rest);
      }
    }
  }

  lemma ConsEqual<T>(x: T, a: seq<T>, y: T, b: seq<T>)
    requires [x] + a == [y] + b
    ensures x == y && a == b
  {
    assert ([x] + a)[0] == ([y] + b)[0];
    assert ([x] + a)[1..] == a && ([y] + b)[1..] == b;
  }

  /** The bytes of a string before its first NUL. */
  function BeforeNul(s: seq<Byte>): (head: seq<Byte>)
    ensures head + [0] <= s + [0] && NulFree(head) && head <= s
  {
    var k := NulAt(s, 0);
    assert s[..k] == s[0..k];
    assert (s + [0])[..k + 1] == s[..k] + [0];
    s[..k]
  }

  lemma NothingBehind(s: seq<Byte>, rest: seq<Byte>)
    ensures (s + [0])[|s| + 1..] + rest == rest
  {
  }

  /** A string that survives decoding holds no NUL, and the rest decodes as it should. */
  lemma TextSurvives(a: Arg, rest: seq<Byte>, said: seq<Arg>)
    requires (a.CString? || a.Text?) && Recorded(a)
    requires WellFormed(a) && Decode(Record(a) + rest) == Decoded([Text(StringBytes(a))] + said, Done)
    ensures NulFree(StringBytes(a)) && Decode(rest) == Decoded(said, Done)
  {
    TextRecord(a);
    var s := StringBytes(a);
    hide Decode, Record, WellFormed, StringBytes, BeforeNul, NulFree;
    var head := BeforeNul(s);
    var after := Decode((s + [0])[|head| + 1..] + rest);
    DecodeText(s, head, rest);
    ConsEqual(Text(head), after.args, Text(s), said);
    NothingBehind(s, rest);
  }

  lemma FixedSurvives(a: Arg, rest: seq<Byte>, said: seq<Arg>)
    requires WellFormed(a) && !a.CString? && !a.Text?
    requires Decode(Record(a) + rest) == Decoded([a] + said, Done)
    ensures Decode(rest) == Decoded(said, Done)
  {
    hide Decode, Record, WellFormed;
    DecodeFixed(a, rest);
    ConsEqual(a, Decode(rest).args, a, said);
  }

  /** What one argument adds to the meaning of the rest. */
  function Said(a: Arg): seq<Arg> {
    if !Recorded(a) then [] else if a.CString? || a.Text? then [Text(StringBytes(a))] else [a]
  }

  lemma MeaningCons(args: seq<Arg>)
    requires args != []
    ensures Meaning(args) == Said(args[0]) + Meaning(args[1..])
  {
  }

  /** The head of a line that survives decoding is NUL-free, and its rest survives too. */
  lemma HeadSurvives(a: Arg, rest: seq<Byte>, said: seq<Arg>)
    requires WellFormed(a) && Decode(Record(a) + rest) == Decoded(Said(a) + said, Done)
    ensures a.Text? ==> NulFree(a.s)
    ensures Decode(rest) == Decoded(said, Done)
  {
    if !Recorded(a) {
      assert [] + rest == rest;
      assert [] + said == said;
    } else if a.CString? || a.Text? {
      TextSurvives(a, rest, said);
    } else {
      FixedSurvives(a, rest, said);
    }
  }

  lemma {:induction false} FaithfulWhenRoundTrip(args: seq<Arg>)
    requires AllWellFormed(args) && Decode(Encode(args)) == Decoded(Meaning(args), Done)
    ensures Faithful(args)
  {
    if args != [] {
      hide Decode, Record, WellFormed, Said, Meaning;
      MeaningCons(args);
      HeadSurvives(args[0], Encode(args[1..]), Meaning(args[1..]));
      FaithfulWhenRoundTrip(args[1..]);
    }
  }

  /** Decoding what was encoded gives back what was said, ending exactly at the end, just when no
      std::string holds a NUL. */
  lemma RoundTrip(args: seq<Arg>)
    requires AllWellFormed(args)
    ensures Decode(Encode(args)) == Decoded(Meaning(args), Done) <==> Faithful(args)
  {
    if Faithful(args) {
      RoundTripWhenFaithful(args);
    }
    if Decode(Encode(args)) == Decoded(Meaning(args), Done) {
      FaithfulWhenRoundTrip(args);
    }
  }

  /** A std::string that is one NUL comes back as an empty string with half a record behind it. */
  lemma NulBreaksRoundTrip()
    ensures Decode(Encode([Text([0])])) == Decoded([Text([])], Overrun)
  {
    var args := [Text([0])];
    assert Encode(args) == Record(args[0]) + Encode(args[1..]) == [7] + ([0] + [0]) + [];
    DecodeText([0], [], []);
    assert ([0] + [0])[1..] + [] == [0];
    assert [Text([])] + [] == [Text([])];
  }

  // ----- what any bytes decode to

  lemma {:induction false} LittleEndianBack(bs: seq<Byte>)
    ensures FromLittleEndian(bs) < Pow256(|bs|) && LittleEndian(FromLittleEndian(bs), |bs|) == bs
  {
    if bs != [] {
      LittleEndianBack(bs[1..]);
      assert bs == [bs[0]] + bs[1..];
    }
  }

  /** A value of fixed width is the only one with its tag and its bytes. */
  lemma FixedBack(tag: Byte, bs: seq<Byte>)
    requires Width(tag) == Some(|bs|)
    ensures var a := Fixed(tag, bs); WellFormed(a) && Recorded(a) && Tag(a) == tag && Payload(a) == bs
  {
    LittleEndianBack(bs);
    hide LittleEndian, FromLittleEndian;
  }

  /** A tag and a payload for each argument, an empty string too. */
  function Records(args: seq<Arg>): seq<Byte>
    requires AllWellFormed(args)
  {
    if args == [] then [] else [Tag(args[0])] + Payload(args[0]) + Records(args[1..])
  }

  /** No further record begins here, for the reason that the outcome gives. */
  predicate Stuck(rest: seq<Byte>, outcome: Outcome) {
    match outcome
    case Done => rest == []
    case UnknownTag => rest != [] && rest[0] > 7
    case Overrun =>
      rest != [] &&
      if rest[0] == 7 then NulFree(rest[1..]) else Width(rest[0]).Some? && |rest| < 1 + Width(rest[0]).value
  }

  lemma OneMore(a: Arg, args: seq<Arg>, bs: seq<Byte>, rest: seq<Byte>)
    requires WellFormed(a) && AllWellFormed(args) && bs == [Tag(a)] + Payload(a) + (Records(args) + rest)
    ensures AllWellFormed([a] + args) && bs == Records([a] + args) + rest
  {
    hide WellFormed, Payload;
    var all := [a] + args;
    assert all[1..] == args;
    assert forall i | 0 < i < |all| :: all[i] == args[i - 1];
    var head, tail := [Tag(a)] + Payload(a), Records(args);
    assert head + (tail + rest) == (head + tail) + rest;
  }

  lemma Around(bs: seq<Byte>, k: nat)
    requires 1 <= k < |bs|
    ensures bs == [bs[0]] + (bs[1..k] + [bs[k]]) + bs[k + 1..]
  {
    assert bs[1..k] + [bs[k]] == bs[1..k + 1];
  }

  lemma TextFirst(bs: seq<Byte>)
    requires bs != [] && bs[0] == 7
    ensures var k := NulAt(bs, 1);
      if k == |bs| then NulFree(bs[1..])
      else NulFree(bs[1..k]) && bs == [7] + (bs[1..k] + [0]) + bs[k + 1..]
  {
    var k := NulAt(bs, 1);
    hide NulAt, NulFree;
    if k == |bs| {
      assert bs[1..k] == bs[1..];
    } else {
      Around(bs, k);
    }
  }

  lemma FixedFirst(bs: seq<Byte>, w: nat)
    requires 1 + w <= |bs|
    ensures bs == [bs[0]] + bs[1..1 + w] + bs[1 + w..]
  {
  }

  ghost predicate Accounts(bs: seq<Byte>, d: Decoded, rest: seq<Byte>) {
    AllWellFormed(d.args) && bs == Records(d.args) + rest && Stuck(rest, d.outcome)
  }

  lemma AccountsFixed(bs: seq<Byte>, rest: seq<Byte>)
    requires bs != [] && Width(bs[0]).Some? && 1 + Width(bs[0]).value <= |bs|
    requires Accounts(bs[1 + Width(bs[0]).value..], Decode(bs[1 + Width(bs[0]).value..]), rest)
    ensures Accounts(bs, Decode(bs), rest)
  {
    var w := Width(bs[0]).value;
    var later := Decode(bs[1 + w..]);
    var a := Fixed(bs[0], bs[1..1 + w]);
    FixedBack(bs[0], bs[1..1 + w]);
    FixedFirst(bs, w);
    assert Decode(bs).args == [a] + later.args && Decode(bs).outcome == later.outcome;
    hide Decode, Fixed, Payload, Records, WellFormed, Stuck, Width;
    OneMore(a, later.args, bs, rest);
  }

  lemma AccountsText(bs: seq<Byte>, rest: seq<Byte>)
    requires bs != [] && bs[0] == 7 && NulAt(bs, 1) < |bs|
    requires Accounts(bs[NulAt(bs, 1) + 1..], Decode(bs[NulAt(bs, 1) + 1..]), rest)
    ensures Accounts(bs, Decode(bs), rest)
  {
    assert Width(7).None?;
    var k := NulAt(bs, 1);
    var later := Decode(bs[k + 1..]);
    var a := Text(bs[1..k]);
    TextFirst(bs);
    assert Decode(bs).args == [a] + later.args && Decode(bs).outcome == later.outcome;
    hide Decode, Records, Stuck, Width, NulAt;
    assert Payload(a) == bs[1..k] + [0];
    OneMore(a, later.args, bs, rest);
  }

  lemma AccountsNone(bs: seq<Byte>)
    requires bs == [] || !(Width(bs[0]).Some? && 1 + Width(bs[0]).value <= |bs|)
    requires bs == [] || !(bs[0] == 7 && NulAt(bs, 1) < |bs|)
    ensures Accounts(bs, Decode(bs), bs)
  {
    if bs != [] && bs[0] == 7 {
      TextFirst(bs);
    }
    hide NulAt;
    assert Records([]) + bs == bs;
  }

  /** Decoding accounts for every byte: the records of what is decoded come first, and what is left over is
      no record, for the reason given. */
  lemma {:induction false} DecodeAccounts(bs: seq<Byte>) returns (rest: seq<Byte>)
    ensures Accounts(bs, Decode(bs), rest)
    decreases |bs|
  {
    hide Accounts, Decode, Records, NulAt;
    if bs != [] && Width(bs[0]).Some? && 1 + Width(bs[0]).value <= |bs| {
      rest := DecodeAccounts(bs[1 + Width(bs[0]).value..]);
      AccountsFixed(bs, rest);
    } else if bs != [] && bs[0] == 7 && NulAt(bs, 1) < |bs| {
      rest := DecodeAccounts(bs[NulAt(bs, 1) + 1..]);
      AccountsText(bs, rest);
    } else {
      rest := bs;
      AccountsNone(bs);
    }
  }
}
