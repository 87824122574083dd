/** The framing loop of a session: bytes come in reads of any size, frames end at ')'. */
module Sessions {
  import opened Common
  import opened LogLineCodec

  const MAX_LENGTH: nat := 1024
  const CLOSE: Byte := 41

  // ----- cutting a stream into frames

  /** The pieces that end at a ')', and what follows the last of them. */
  function Cut(s: seq<Byte>): (seq<seq<Byte>>, seq<Byte>) {
    if s == [] then ([], []) else
    var (pieces, tail) := Cut(s[..|s| - 1]);
    if s[|s| - 1] == CLOSE then (pieces + [tail + [CLOSE]], []) else (pieces, tail + [s[|s| - 1]])
  }

  function TrimLeft(s: seq<Byte>): seq<Byte> {
    if s != [] && IsSpace(s[0]) then TrimLeft(s[1..]) else s
  }

  function TrimRight(s: seq<Byte>): seq<Byte> {
    if s != [] && IsSpace(s[|s| - 1]) then TrimRight(s[..|s| - 1]) else s
  }

  /** boost::trim. */
  function Trim(s: seq<Byte>): seq<Byte> {
    TrimLeft(TrimRight(s))
  }

  function TrimAll(pieces: seq<seq<Byte>>): (r: seq<seq<Byte>>)
    ensures |r| == |pieces| && forall i | 0 <= i < |r| :: r[i] == Trim(pieces[i])
  {
    seq(|pieces|, i requires 0 <= i < |pieces| => Trim(pieces[i]))
  }

  predicate Blank(s: seq<Byte>) {
    forall i | 0 <= i < |s| :: IsSpace(s[i])
  }

  // What has been passed on and what is held back.
  datatype Carried = Carried(frames: seq<seq<Byte>>, tail: seq<Byte>)

  /** One read: the tail held back is put in front of the new bytes and all of that after the tail. */
  function OnRead(c: Carried, d: seq<Byte>): Carried {
    var (pieces, tail) := Cut(c.tail + (c.tail + d));
    Carried(c.frames + TrimAll(pieces), tail)
  }

  function Run(chunks: seq<seq<Byte>>): Carried {
    if chunks == [] then Carried([], []) else OnRead(Run(chunks[..|chunks| - 1]), chunks[|chunks| - 1])
  }

  /** What a framer that forgets and repeats nothing makes of the input. */
  function Ideal(s: seq<Byte>): Carried {
    Carried(TrimAll(Cut(s).0), Cut(s).1)
  }

  /** A read that ends a frame begins where nothing but white space follows the last ')' before it. */
  ghost predicate CleanRead(chunks: seq<seq<Byte>>, i: nat)
    requires i < |chunks|
  {
    CLOSE in chunks[i] ==> Blank(Cut(Flatten(chunks[..i])).1)
  }

  // ----- the buffer, byte by byte

  // buff and what has been passed on.
  datatype Wire = Wire(buff: seq<Byte>, frames: seq<seq<Byte>>)

  /** What memset leaves. */
  function Cleared(): seq<Byte> {
    seq(MAX_LENGTH, _ => 0)
  }

  /** The C string in a buffer: up to its first NUL; None when reading it would run past the end. */
  function BuffText(buff: seq<Byte>): (r: Option<seq<Byte>>)
    ensures r.Some? ==> |r.value| < |buff|
  {
    var n := NulAt(buff, 0);
    if n == |buff| then None else Some(buff[..n])
  }

  /** The body of the byte loop: the byte is stored at pos, and a ')' ends a frame.  None is an access
      outside buff.  Also gives where the next byte goes. */
  function StoreByte(w: Wire, pos: nat, ch: Byte): Option<(Wire, nat)> {
    if pos >= |w.buff| then None else
    var buff := w.buff[pos := ch];
    if ch != CLOSE then Some((w.(buff := buff), pos + 1)) else
    if BuffText(buff).None? then None
    else Some((Wire(Cleared(), w.frames + [Trim(BuffText(buff).value)]), 0))
  }

  function StoreAll(w: Wire, pos: nat, bytes: seq<Byte>): Option<(Wire, nat)> {
    if bytes == [] then Some((w, pos)) else
    var before := StoreAll(w, pos, bytes[..|bytes| - 1]);
    if before.None? then None else StoreByte(before.value.0, before.value.1, bytes[|bytes| - 1])
  }

  /** The read handler: what is held goes in front of the new bytes, and all of that behind it. */
  function Handle(w: Wire, d: seq<Byte>): Option<Wire> {
    var held := BuffText(w.buff);
    if held.None? then None else
    var stored := StoreAll(w, |held.value|, held.value + d);
    if stored.None? then None else Some(stored.value.0)
  }

  // ----- the session

  lemma BuffTextIs(buff: seq<Byte>)
    ensures BuffText(buff).Some? ==> BuffText(buff).value == buff[..|BuffText(buff).value|]
  {
  }

  lemma StoreAllNothing(w: Wire, pos: nat)
    ensures StoreAll(w, pos, []) == Some((w, pos))
  {
  }

  lemma StoreAllSnoc(w: Wire, pos: nat, bytes: seq<Byte>, i: nat)
    requires i < |bytes|
    ensures StoreAll(w, pos, bytes[..i + 1]) ==
            var before := StoreAll(w, pos, bytes[..i]);
            if before.None? then None else StoreByte(before.value.0, before.value.1, bytes[i])
  {
    assert bytes[..i + 1][..i] == bytes[..i];
  }

  /** After an access outside buff there is nothing more to say. */
  lemma {:induction false} StoreAllFails(w: Wire, pos: nat, bytes: seq<Byte>, i: nat)
    requires i <= |bytes| && StoreAll(w, pos, bytes[..i]).None?
    ensures StoreAll(w, pos, bytes).None?
    decreases |bytes| - i
  {
    if i == |bytes| {
      assert bytes[..i] == bytes;
    } else {
      StoreAllSnoc(w, pos, bytes, i);
      StoreAllFails(w, pos, bytes, i + 1);
    }
  }

  class Session {
    const buff: array<Byte>
    var frames: seq<seq<Byte>>

    ghost predicate Valid()
      reads this
    {
      buff.Length == MAX_LENGTH
    }

    ghost function State(): Wire
      reads this, buff
    {
      Wire(buff[..], frames)
    }

    constructor ()
      ensures Valid() && State() == Wire(Cleared(), [])
    {
      buff := new Byte[MAX_LENGTH](_ => 0);
      frames := [];
      new;
      assert buff[..] == Cleared();
    }

    /** strlen(buff), or None where that would run past the end of buff. */
    method Length() returns (n: Option<nat>)
      requires Valid()
      ensures n == if BuffText(buff[..]).None? then None else Some(|BuffText(buff[..]).value|)
    {
      var i := 0;
      while i < MAX_LENGTH && buff[i] != 0
        invariant i <= MAX_LENGTH && NulAt(buff[..], 0) == NulAt(buff[..], i)
      {
        assert buff[..][i] == buff[i];
        i := i + 1;
      }
      assert i < MAX_LENGTH ==> buff[..][i] == buff[i];
      n := if i == MAX_LENGTH then None else Some(i);
    }

    /** memset(buff, 0, max_length). */
    method Clear()
      requires Valid()
      modifies buff
      ensures buff[..] == Cleared()
    {
      var i := 0;
      while i < MAX_LENGTH
        invariant i <= MAX_LENGTH && forall j | 0 <= j < i :: buff[j] == 0
      {
        buff[i] := 0;
        i := i + 1;
      }
    }

    /** The body of the byte loop; false is an access outside buff, which is not made. */
    method TakeByte(base: nat, writeIndex: int, ch: Byte) returns (ok: bool, base': nat, writeIndex': int)
      requires Valid() && writeIndex >= 0
      modifies this, buff
      ensures ok <==> StoreByte(old(State()), base + writeIndex, ch).Some?
      ensures ok ==> writeIndex' >= 0
      ensures ok ==> StoreByte(old(State()), base + writeIndex, ch) == Some((State(), base' + writeIndex'))
    {
      base', writeIndex' := base, if writeIndex < 1 then 0 else writeIndex;
      if base' + writeIndex' >= MAX_LENGTH {
        return false, base', writeIndex';
      }
      hide BuffText, Trim;
      ghost var before := State();
      buff[base' + writeIndex'] := ch;
      assert buff[..] == before.buff[base + writeIndex := ch];
      writeIndex' := writeIndex' + 1;
      ok := true;
      if ch == CLOSE {
        ok, base', writeIndex' := EndFrame();
      }
    }

    /** The text in buff is trimmed and passed on, and buff is cleared. */
    method EndFrame() returns (ok: bool, base: nat, writeIndex: int)
      requires Valid()
      modifies this, buff
      ensures ok <==> BuffText(old(buff[..])).Some?
      ensures ok ==> State() == Wire(Cleared(), old(frames) + [Trim(BuffText(old(buff[..])).value)])
      ensures base == writeIndex == 0
    {
      base, writeIndex := 0, 0;
      var n := Length();
      if n.None? {
        return false, base, writeIndex;
      }
      BuffTextIs(buff[..]);
      frames := frames + [Trim(buff[..n.value])];
      Clear();
      ok := true;
    }

    /** The byte loop, from position base of buff on. */
    method StoreBytes(start: nat, newBytes: seq<Byte>) returns (ok: bool)
      requires Valid()
      modifies this, buff
      ensures ok <==> StoreAll(old(State()), start, newBytes).Some?
      ensures ok ==> StoreAll(old(State()), start, newBytes).value.0 == State()
    {
      hide BuffText, StoreByte, StoreAll;
      ghost var before := State();
      var base: nat, writeIndex: int := start, 0;
      assert newBytes[..0] == [];
      StoreAllNothing(before, start);
      var i := 0;
      while i < |newBytes|
        invariant i <= |newBytes| && writeIndex >= 0
        invariant StoreAll(before, start, newBytes[..i]) == Some((State(), base + writeIndex))
      {
        StoreAllSnoc(before, start, newBytes, i);
        ok, base, writeIndex := TakeByte(base, writeIndex, newBytes[i]);
        if !ok {
          StoreAllFails(before, start, newBytes, i + 1);
          return;
        }
        i := i + 1;
      }
      assert newBytes[..i] == newBytes;
      ok := true;
    }

    /** The read handler; false is an access outside buff, which is not made. */
    method HandleRead(d: seq<Byte>) returns (ok: bool)
      requires Valid()
      modifies this, buff
      ensures ok <==> Handle(old(State()), d).Some?
      ensures ok ==> Handle(old(State()), d) == Some(State())
    {
      var remaining := Length();
      if remaining.None? {
        return false;
      }
      BuffTextIs(buff[..]);
      hide BuffText, StoreAll;
      ok := StoreBytes(remaining.value, buff[..remaining.value] + d);
    }
  }

  lemma {:induction false} NothingToCut(s: seq<Byte>)
    requires CLOSE !in s
    ensures Cut(s) == ([], s)
  {
    if s != [] {
      NothingToCut(s[..|s| - 1]);
      assert s == s[..|s| - 1] + [s[|s| - 1]];
    }
  }

  // ----- what the frames are

  /** t in front of the first piece, or of the tail if there is no piece. */
  function Prefixed(t: seq<Byte>, cut: (seq<seq<Byte>>, seq<Byte>)): (seq<seq<Byte>>, seq<Byte>) {
    if cut.0 == [] then ([], t + cut.1) else ([t + cut.0[0]] + cut.0[1..], cut.1)
  }

  function Extend(cut: (seq<seq<Byte>>, seq<Byte>), ch: Byte): (seq<seq<Byte>>, seq<Byte>) {
    if ch == CLOSE then (cut.0 + [cut.1 + [CLOSE]], []) else (cut.0, cut.1 + [ch])
  }

  lemma CutSnoc(s: seq<Byte>, ch: Byte)
    ensures Cut(s + [ch]) == Extend(Cut(s), ch)
  {
    assert (s + [ch])[..|s|] == s;
  }

  lemma PrefixedSnoc(t: seq<Byte>, pieces: seq<seq<Byte>>, tail: seq<Byte>, ch: Byte)
    ensures Extend(Prefixed(t, (pieces, tail)), ch) == Prefixed(t, Extend((pieces, tail), ch))
  {
    var more := pieces + [tail + [CLOSE]];
    if pieces == [] {
      assert (t + tail) + [ch] == t + (tail + [ch]);
      assert (t + tail) + [CLOSE] == t + (tail + [CLOSE]);
      assert pieces + [(t + tail) + [CLOSE]] == [t + more[0]] + more[1..];
    } else {
      assert ([t + pieces[0]] + pieces[1..]) + [tail + [CLOSE]] == [t + more[0]] + more[1..];
    }
  }

  /** With no ')' held back, the first piece takes the held bytes in front and the others stay. */
  lemma {:induction false} CutPrefixed(t: seq<Byte>, d: seq<Byte>)
    requires CLOSE !in t
    ensures Cut(t + d) == Prefixed(t, Cut(d))
  {
    if d == [] {
      NothingToCut(t);
      assert t + d == t && t + [] == t;
    } else {
      var front, ch := d[..|d| - 1], d[|d| - 1];
      CutPrefixed(t, front);
      assert t + d == (t + front) + [ch] && d == front + [ch];
      CutSnoc(t + front, ch);
      CutSnoc(front, ch);
      hide Cut;
      PrefixedSnoc(t, Cut(front).0, Cut(front).1, ch);
    }
  }

  lemma {:induction false} CutTail(s: seq<Byte>)
    ensures CLOSE !in Cut(s).1
    ensures forall i | 0 <= i < |Cut(s).0| :: Cut(s).0[i] != [] && Cut(s).0[i][|Cut(s).0[i]| - 1] == CLOSE
    ensures Cut(s).0 == [] <==> CLOSE !in s
  {
    if s != [] {
      CutTail(s[..|s| - 1]);
      assert s == s[..|s| - 1] + [s[|s| - 1]];
    }
  }

  /** A ')' at the end and nowhere else. */
  predicate IsPiece(p: seq<Byte>) {
    p != [] && p[|p| - 1] == CLOSE && CLOSE !in p[..|p| - 1]
  }

  /** The pieces and the rest are all of s, cut behind every ')'. */
  ghost predicate CutsUp(s: seq<Byte>, pieces: seq<seq<Byte>>, tail: seq<Byte>) {
    Flatten(pieces) + tail == s && CLOSE !in tail && forall i | 0 <= i < |pieces| :: IsPiece(pieces[i])
  }

  lemma NewPiece(tail: seq<Byte>)
    requires CLOSE !in tail
    ensures IsPiece(tail + [CLOSE])
  {
    assert (tail + [CLOSE])[..|tail|] == tail;
  }

  lemma TailGrows(before: seq<Byte>, tail: seq<Byte>, ch: Byte)
    ensures before + (tail + [ch]) == before + tail + [ch] && before + (tail + [ch]) + [] == before + (tail + [ch])
  {
  }

  lemma TextSnoc(s: seq<Byte>, pieces: seq<seq<Byte>>, tail: seq<Byte>, ch: Byte)
    requires Flatten(pieces) + tail == s
    ensures Flatten(pieces) + (tail + [ch]) == s + [ch]
    ensures Flatten(pieces + [tail + [ch]]) + [] == s + [ch]
  {
    FlattenSnoc(pieces, tail + [ch]);
    hide Flatten;
    TailGrows(Flatten(pieces), tail, ch);
  }

  lemma PiecesSnoc(pieces: seq<seq<Byte>>, p: seq<Byte>)
    requires IsPiece(p) && forall i | 0 <= i < |pieces| :: IsPiece(pieces[i])
    ensures forall i | 0 <= i < |pieces + [p]| :: IsPiece((pieces + [p])[i])
  {
    hide IsPiece;
  }

  lemma CutsUpSnoc(s: seq<Byte>, pieces: seq<seq<Byte>>, tail: seq<Byte>, ch: Byte)
    requires CutsUp(s, pieces, tail)
    ensures CutsUp(s + [ch], Extend((pieces, tail), ch).0, Extend((pieces, tail), ch).1)
  {
    NewPiece(tail);
    PiecesSnoc(pieces, tail + [CLOSE]);
    TextSnoc(s, pieces, tail, ch);
    hide IsPiece, Flatten;
  }

  /** Cutting loses nothing, and cuts behind every ')'. */
  lemma {:induction false} CutExact(s: seq<Byte>)
    ensures CutsUp(s, Cut(s).0, Cut(s).1)
  {
    if s == [] {
      assert Flatten<Byte>([]) + [] == [];
    } else {
      var front, ch := s[..|s| - 1], s[|s| - 1];
      CutExact(front);
      assert s == front + [ch];
      CutSnoc(front, ch);
      hide Cut, CutsUp;
      CutsUpSnoc(front, Cut(front).0, Cut(front).1, ch);
    }
  }

  /** Cutting in two goes: the tail of the first goes in front of the second. */
  lemma {:induction false} CutTwice(a: seq<Byte>, d: seq<Byte>)
    ensures Cut(a + d).0 == Cut(a).0 + Cut(Cut(a).1 + d).0
    ensures Cut(a + d).1 == Cut(Cut(a).1 + d).1
  {
    var pieces, tail := Cut(a).0, Cut(a).1;
    if d == [] {
      CutTail(a);
      NothingToCut(tail);
      assert a + d == a && tail + d == tail && pieces + [] == pieces;
    } else {
      var front, ch := d[..|d| - 1], d[|d| - 1];
      CutTwice(a, front);
      hide Cut;
      assert a + d == (a + front) + [ch] && tail + d == (tail + front) + [ch];
      CutSnoc(a + front, ch);
      CutSnoc(tail + front, ch);
    }
  }

  // ----- trimming

  lemma {:induction false} TrimLeftExact(s: seq<Byte>) returns (n: nat)
    ensures n <= |s| && Blank(s[..n]) && TrimLeft(s) == s[n..] && (n < |s| ==> !IsSpace(s[n]))
  {
    if s != [] && IsSpace(s[0]) {
      n := TrimLeftExact(s[1..]);
      assert s[..n + 1] == [s[0]] + s[1..][..n];
      n := n + 1;
    } else {
      n := 0;
    }
  }

  lemma {:induction false} TrimRightExact(s: seq<Byte>) returns (n: nat)
    ensures n <= |s| && Blank(s[n..]) && TrimRight(s) == s[..n] && (n > 0 ==> !IsSpace(s[n - 1]))
  {
    if s != [] && IsSpace(s[|s| - 1]) {
      var front := s[..|s| - 1];
      n := TrimRightExact(front);
      assert s[n..] == front[n..] + [s[|s| - 1]] && s[..n] == front[..n];
    } else {
      n := |s|;
      assert s[..n] == s;
    }
  }

  /** Trimming takes the white space off both ends and nothing else. */
  lemma TrimExact(s: seq<Byte>) returns (m: nat, n: nat)
    ensures m <= n <= |s| && Trim(s) == s[m..n] && Blank(s[..m]) && Blank(s[n..])
    ensures m < n ==> !IsSpace(s[m]) && !IsSpace(s[n - 1])
  {
    n := TrimRightExact(s);
    m := TrimLeftExact(s[..n]);
    assert s[..n][m..] == s[m..n] && s[..n][..m] == s[..m];
  }

  /** A frame ends at ')', so only its front is trimmed. */
  lemma TrimFrame(p: seq<Byte>)
    requires p != [] && p[|p| - 1] == CLOSE
    ensures Trim(p) == TrimLeft(p)
  {
  }

  lemma {:induction false} TrimLeftPrefixed(t: seq<Byte>, p: seq<Byte>)
    ensures TrimLeft(t + p) == if Blank(t) then TrimLeft(p) else TrimLeft(t) + p
    ensures !Blank(t) ==> TrimLeft(t) != []
    ensures Blank(t) ==> TrimLeft(t) == []
  {
    if t == [] {
      assert t + p == p;
    } else {
      assert (t + p)[1..] == t[1..] + p;
      TrimLeftPrefixed(t[1..], p);
      if IsSpace(t[0]) {
        assert Blank(t) <==> Blank(t[1..]);
      }
    }
  }

  // ----- how far the session's frames are the ideal ones

  /** How the session's tail and the ideal one compare: both blank and both empty or neither, and the
      session's no shorter, trimmed or not. */
  ghost predicate TailsCompare(a: seq<Byte>, b: seq<Byte>) {
    && CLOSE !in a && CLOSE !in b
    && (Blank(a) <==> Blank(b)) && (a == [] <==> b == [])
    && |a| >= |b| && |TrimLeft(a)| >= |TrimLeft(b)|
  }

  lemma TailsEqual(tail: seq<Byte>)
    requires CLOSE !in tail
    ensures TailsCompare(tail, tail)
  {
  }

  lemma OnlyFirstDiffers(p: seq<Byte>, q: seq<Byte>, rest: seq<seq<Byte>>)
    ensures TrimAll([p] + rest) == TrimAll([q] + rest) <==> Trim(p) == Trim(q)
  {
    hide Trim;
    assert TrimAll([p] + rest)[0] == Trim(p) && TrimAll([q] + rest)[0] == Trim(q);
  }

  lemma BlankConcat(a: seq<Byte>, b: seq<Byte>)
    ensures Blank(a + b) <==> Blank(a) && Blank(b)
  {
    if Blank(a + b) {
      assert forall i | 0 <= i < |a| :: a[i] == (a + b)[i];
      assert forall i | 0 <= i < |b| :: b[i] == (a + b)[|a| + i];
    }
  }

  lemma TailsGrow(a: seq<Byte>, b: seq<Byte>, tail: seq<Byte>)
    requires TailsCompare(a, b) && CLOSE !in tail
    ensures TailsCompare(a + a + tail, b + tail)
  {
    TrimLeftPrefixed(a, a + tail);
    TrimLeftPrefixed(a, tail);
    TrimLeftPrefixed(b, tail);
    BlankConcat(a, tail);
    BlankConcat(a, a + tail);
    BlankConcat(b, tail);
    assert a + a + tail == a + (a + tail);
    hide TrimLeft, Blank;
  }

  lemma NotBlankNotEmpty(a: seq<Byte>)
    requires !Blank(a)
    ensures a != []
  {
  }

  lemma FirstFrames(a: seq<Byte>, b: seq<Byte>, p: seq<Byte>)
    requires TailsCompare(a, b) && p != [] && p[|p| - 1] == CLOSE
    ensures Trim(a + a + p) == Trim(b + p) <==> Blank(a)
  {
    assert a + a + p == a + (a + p);
    TrimFrame(a + (a + p));
    TrimFrame(b + p);
    TrimLeftPrefixed(a, a + p);
    TrimLeftPrefixed(a, p);
    TrimLeftPrefixed(b, p);
    hide TrimLeft, Trim, Blank;
    if !Blank(a) {
      assert |Trim(a + a + p)| == |TrimLeft(a)| + |a| + |p|;
      assert |Trim(b + p)| == |TrimLeft(b)| + |p|;
      NotBlankNotEmpty(a);
    }
  }

  /** One read on: the frames it ends are the ideal ones just when it ends none or nothing but white
      space was held back. */
  lemma ReadCompares(a: seq<Byte>, b: seq<Byte>, d: seq<Byte>)
    requires TailsCompare(a, b)
    ensures var ps, qs := Cut(a + (a + d)).0, Cut(b + d).0;
      && |ps| == |qs| && TailsCompare(Cut(a + (a + d)).1, Cut(b + d).1)
      && (TrimAll(ps) == TrimAll(qs) <==> (CLOSE in d ==> Blank(a)))
  {
    CutTail(d);
    CutPrefixed(a + a, d);
    assert a + (a + d) == (a + a) + d;
    CutPrefixed(b, d);
    hide Cut, TailsCompare, Blank;
    if Cut(d).0 == [] {
      TailsGrow(a, b, Cut(d).1);
    } else {
      FirstFrames(a, b, Cut(d).0[0]);
      OnlyFirstDiffers(a + a + Cut(d).0[0], b + Cut(d).0[0], Cut(d).0[1..]);
      TailsEqual(Cut(d).1);
    }
  }

  lemma TrimAllSnoc(pieces: seq<seq<Byte>>, p: seq<Byte>)
    ensures TrimAll(pieces + [p]) == TrimAll(pieces) + [Trim(p)]
  {
  }

  lemma TrimAllConcat(ps: seq<seq<Byte>>, qs: seq<seq<Byte>>)
    ensures TrimAll(ps + qs) == TrimAll(ps) + TrimAll(qs)
  {
  }

  lemma SameParts<T>(a: seq<T>, b: seq<T>, c: seq<T>, d: seq<T>)
    requires |a| == |b|
    ensures a + c == b + d <==> a == b && c == d
  {
    if a + c == b + d {
      assert a == (a + c)[..|a|] && b == (b + d)[..|a|];
      assert c == (a + c)[|a|..] && d == (b + d)[|a|..];
    }
  }

  ghost predicate AllClean(chunks: seq<seq<Byte>>) {
    forall i | 0 <= i < |chunks| :: CleanRead(chunks, i)
  }

  lemma AllCleanSnoc(chunks: seq<seq<Byte>>)
    requires chunks != []
    ensures AllClean(chunks) <==> AllClean(chunks[..|chunks| - 1]) && CleanRead(chunks, |chunks| - 1)
  {
    var front := chunks[..|chunks| - 1];
    forall i | 0 <= i < |front| ensures CleanRead(front, i) <==> CleanRead(chunks, i) {
      assert front[..i] == chunks[..i];
    }
  }

  lemma CompareBlank(a: seq<Byte>, b: seq<Byte>)
    requires TailsCompare(a, b)
    ensures Blank(a) <==> Blank(b)
    ensures a == [] <==> b == []
    ensures |a| >= |b|
  {
  }

  lemma NothingClean()
    ensures AllClean([])
  {
  }

  lemma {:induction false} RunCompares(chunks: seq<seq<Byte>>)
    ensures var run, ideal := Run(chunks), Ideal(Flatten(chunks));
      && |run.frames| == |ideal.frames| && TailsCompare(run.tail, ideal.tail)
      && (run.frames == ideal.frames <==> AllClean(chunks))
  {
    hide Cut, TailsCompare, AllClean, Blank;
    if chunks == [] {
      NothingToCut([]);
      TailsEqual([]);
      NothingClean();
    } else {
      var front, d := chunks[..|chunks| - 1], chunks[|chunks| - 1];
      var run, ideal := Run(front), Ideal(Flatten(front));
      RunCompares(front);
      CompareBlank(run.tail, ideal.tail);
      ReadCompares(run.tail, ideal.tail, d);
      CutTwice(Flatten(front), d);
      AllCleanSnoc(chunks);
      var ps, qs := Cut(run.tail + (run.tail + d)).0, Cut(ideal.tail + d).0;
      TrimAllConcat(Cut(Flatten(front)).0, qs);
      SameParts(run.frames, ideal.frames, TrimAll(ps), TrimAll(qs));
    }
  }

  /** Over any run of reads there are as many frames as the whole input has; and they are those frames,
      in order, exactly when every read that ends a frame begins where only white space follows the last
      ')' of the input so far. */
  lemma FramesAreIdeal(chunks: seq<seq<Byte>>)
    ensures |Run(chunks).frames| == |Ideal(Flatten(chunks)).frames|
    ensures Run(chunks).frames == Ideal(Flatten(chunks)).frames <==> AllClean(chunks)
  {
    RunCompares(chunks);
  }

  // ----- how far what is held back is the ideal rest

  /** From read i on no frame ends. */
  ghost predicate EndsNothing(chunks: seq<seq<Byte>>, i: nat) {
    forall j | i <= j < |chunks| :: CLOSE !in chunks[j]
  }

  /** Since the last read that ended a frame, every read began right behind a ')', or at the start. */
  ghost predicate CleanTail(chunks: seq<seq<Byte>>) {
    forall i: nat | i < |chunks| && EndsNothing(chunks, i) :: Cut(Flatten(chunks[..i])).1 == []
  }

  lemma CleanTailSnoc(front: seq<seq<Byte>>, d: seq<Byte>)
    ensures CLOSE in d ==> CleanTail(front + [d])
    ensures CLOSE !in d ==> (CleanTail(front + [d]) <==> CleanTail(front) && Cut(Flatten(front)).1 == [])
  {
    hide Cut, Flatten;
    var chunks := front + [d];
    assert chunks[..|front|] == front;
    if CLOSE in d {
      forall i: nat | i < |chunks| ensures !EndsNothing(chunks, i) {
        assert CLOSE in chunks[|front|];
      }
    } else {
      forall i: nat | i < |front| ensures EndsNothing(chunks, i) <==> EndsNothing(front, i) {
        assert forall j | i <= j < |front| :: chunks[j] == front[j];
      }
      assert EndsNothing(chunks, |front|);
      assert forall i: nat | i < |front| :: chunks[..i] == front[..i];
      if CleanTail(chunks) {
        assert Cut(Flatten(chunks[..|front|])).1 == [];
        forall i: nat | i < |front| && EndsNothing(front, i) ensures Cut(Flatten(front[..i])).1 == [] {
          assert Cut(Flatten(chunks[..i])).1 == [];
        }
      }
    }
  }

  /** A tail doubled is the ideal one only if both are empty. */
  lemma DoubledTail(a: seq<Byte>, b: seq<Byte>, d: seq<Byte>)
    requires |a| >= |b| && (a == [] <==> b == [])
    ensures (a + a) + d == b + d <==> b == []
  {
    if (a + a) + d == b + d {
      assert |(a + a) + d| == |b + d|;
    }
  }

  lemma TailPrefixed(t: seq<Byte>, d: seq<Byte>)
    requires CLOSE !in t
    ensures Cut(t + d).1 == if CLOSE in d then Cut(d).1 else t + d
  {
    CutTail(d);
    CutPrefixed(t, d);
    if CLOSE !in d {
      NothingToCut(d);
    }
    hide Cut;
  }

  lemma TailStep(a: seq<Byte>, b: seq<Byte>, d: seq<Byte>)
    requires CLOSE !in a && CLOSE !in b && |a| >= |b| && (a == [] <==> b == [])
    ensures CLOSE in d ==> Cut(a + (a + d)).1 == Cut(b + d).1
    ensures CLOSE !in d ==> (Cut(a + (a + d)).1 == Cut(b + d).1 <==> b == [])
  {
    hide Cut;
    assert a + (a + d) == (a + a) + d;
    TailPrefixed(a + a, d);
    TailPrefixed(b, d);
    DoubledTail(a, b, d);
  }

  /** What is held back is exactly what follows the last ')' of the input just when no read since then,
      or since the start, began with anything held back. */
  lemma {:induction false} TailIsIdeal(chunks: seq<seq<Byte>>)
    ensures Run(chunks).tail == Cut(Flatten(chunks)).1 <==> CleanTail(chunks)
  {
    if chunks != [] {
      var front, d := chunks[..|chunks| - 1], chunks[|chunks| - 1];
      var a, b := Run(front).tail, Cut(Flatten(front)).1;
      assert chunks == front + [d];
      TailIsIdeal(front);
      RunCompares(front);
      CompareBlank(a, b);
      CleanTailSnoc(front, d);
      TailStep(a, b, d);
      CutTwice(Flatten(front), d);
      hide Cut, TailsCompare, CleanTail, Blank;
    }
  }

  /** The session is the ideal framer of its whole input exactly under these two conditions on the input
      and how it was cut into reads. */
  lemma RunIsIdeal(chunks: seq<seq<Byte>>)
    ensures Run(chunks) == Ideal(Flatten(chunks)) <==> AllClean(chunks) && CleanTail(chunks)
  {
    FramesAreIdeal(chunks);
    TailIsIdeal(chunks);
    hide Cut, AllClean, CleanTail;
  }

  /** What is held back, told of the reads alone: what follows the last ')' of the last read that has one,
      and from there on, with every further read, itself twice and the new bytes. */
  function Held(chunks: seq<seq<Byte>>): seq<Byte> {
    if chunks == [] then [] else
    var before, d := Held(chunks[..|chunks| - 1]), chunks[|chunks| - 1];
    if CLOSE in d then Cut(d).1 else before + (before + d)
  }

  lemma {:induction false} HeldIsTail(chunks: seq<seq<Byte>>)
    ensures Run(chunks).tail == Held(chunks) && CLOSE !in Held(chunks)
  {
    if chunks != [] {
      var front, d := chunks[..|chunks| - 1], chunks[|chunks| - 1];
      HeldIsTail(front);
      var t := Held(front);
      assert t + (t + d) == (t + t) + d;
      TailPrefixed(t + t, d);
      CutTail(d);
      hide Cut;
    }
  }

  /** The session is the ideal framer when every read begins with nothing held back. */
  lemma EmptyTailsAreIdeal(chunks: seq<seq<Byte>>)
    requires forall i | 0 <= i < |chunks| :: Held(chunks[..i]) == []
    ensures Run(chunks) == Ideal(Flatten(chunks))
  {
    forall i: nat | i < |chunks| ensures Cut(Flatten(chunks[..i])).1 == [] {
      HeldIsTail(chunks[..i]);
      RunCompares(chunks[..i]);
      CompareBlank(Run(chunks[..i]).tail, Cut(Flatten(chunks[..i])).1);
    }
    hide Cut, Run, Flatten, Held;
    RunIsIdeal(chunks);
  }

  /** A held tail comes twice in front of the next frame; the other frames and the new tail are those of
      the new bytes. */
  lemma HeldTailDoubles(c: Carried, d: seq<Byte>)
    requires CLOSE !in c.tail && Cut(d).0 != []
    ensures OnRead(c, d) == Carried(c.frames + TrimAll([c.tail + c.tail + Cut(d).0[0]] + Cut(d).0[1..]), Cut(d).1)
  {
    hide Cut, TrimAll;
    var t := c.tail + c.tail;
    assert c.tail + (c.tail + d) == t + d;
    CutPrefixed(t, d);
    assert Cut(t + d).0 == [t + Cut(d).0[0]] + Cut(d).0[1..];
  }

  lemma FlattenPair(a: seq<Byte>, b: seq<Byte>)
    ensures Flatten([a, b]) == a + b
  {
    assert [a, b] == ([] + [a]) + [b];
    FlattenSnoc([], a);
    FlattenSnoc([] + [a], b);
  }

  lemma RunOne(a: seq<Byte>)
    requires CLOSE !in a
    ensures Run([a]) == Carried([], a)
  {
    assert [a][..0] == [];
    assert [] + ([] + a) == a;
    NothingToCut(a);
  }

  lemma RunTwo(a: seq<Byte>, d: seq<Byte>)
    requires CLOSE !in a
    ensures Run([a, d]) == OnRead(Carried([], a), d)
  {
    assert [a, d][..1] == [a];
    RunOne(a);
  }

  /** A short line without white space at its ends is one frame. */
  lemma CutShort(s: seq<Byte>, ch: Byte)
    requires ch == CLOSE && CLOSE !in s && s != [] && !IsSpace(s[0])
    ensures Cut(s + [ch]) == ([s + [CLOSE]], []) && TrimAll([s + [CLOSE]]) == [s + [CLOSE]]
  {
    NothingToCut(s);
    CutSnoc(s, ch);
    TrimFrame(s + [CLOSE]);
    assert (s + [CLOSE])[0] == s[0];
    assert [] + [s + [CLOSE]] == [s + [CLOSE]];
    assert TrimAll([s + [CLOSE]])[0] == Trim(s + [CLOSE]);
  }

  /** It is not so for "a" then "b)": the frame is "aab)". */
  lemma HeldTailShows()
    ensures Run([[97], [98, CLOSE]]).frames == [[97, 97, 98, CLOSE]]
    ensures Ideal(Flatten([[97], [98, CLOSE]])).frames == [[97, 98, CLOSE]]
  {
    RunTwo([97], [98, CLOSE]);
    CutShort([97, 98], CLOSE);
    CutShort([97, 97, 98], CLOSE);
    FlattenPair([97], [98, CLOSE]);
    hide Cut, Run, TrimAll, Flatten;
    assert [97] + ([97] + [98, CLOSE]) == [97, 97, 98] + [CLOSE];
    assert [97] + [98, CLOSE] == [97, 98] + [CLOSE];
    assert [97, 97, 98] + [CLOSE] == [97, 97, 98, CLOSE] && [97, 98] + [CLOSE] == [97, 98, CLOSE];
  }

  /** Nor for "a" then "b", after which "aab" is held. */
  lemma HeldTailGrows()
    ensures Run([[97], [98]]).tail == [97, 97, 98] && Cut(Flatten([[97], [98]])).1 == [97, 98]
  {
    RunTwo([97], [98]);
    NothingToCut([97, 97, 98]);
    NothingToCut([97, 98]);
    FlattenPair([97], [98]);
    hide Cut, Run, TrimAll, Flatten;
    assert [97] + ([97] + [98]) == [97, 97, 98];
    assert [97] + [98] == [97, 98];
  }

  // ----- the bytes in buff

  predicate ClosesFrom(s: seq<Byte>, i: nat)
    requires i + (MAX_LENGTH - 1) < |s|
  {
    CLOSE in s[i..i + (MAX_LENGTH - 1)]
  }

  /** No 1023 bytes in a row, with more to come, are without a ')': every frame and all that is held fit
      into buff with a NUL behind them. */
  ghost predicate Fits(s: seq<Byte>) {
    forall i: nat | i + (MAX_LENGTH - 1) < |s| :: ClosesFrom(s, i)
  }

  /** What is held and NULs behind it. */
  function Padded(t: seq<Byte>): (r: seq<Byte>)
    requires |t| <= MAX_LENGTH
    ensures |r| == MAX_LENGTH
  {
    t + seq(MAX_LENGTH - |t|, _ => 0)
  }

  lemma DropSnoc(front: seq<Byte>, last: Byte, k: nat)
    requires k <= |front|
    ensures (front + [last])[k..] == front[k..] + [last]
  {
  }

  lemma {:induction false} CutLength(s: seq<Byte>, n: nat)
    ensures |Cut(s).1| >= n <==> n <= |s| && CLOSE !in s[|s| - n..]
  {
    if n == 0 {
      assert s[|s|..] == [];
    } else if s != [] {
      var front, last := s[..|s| - 1], s[|s| - 1];
      CutLength(front, n - 1);
      assert s == front + [last];
      CutSnoc(front, last);
      hide Cut;
      if n <= |s| {
        DropSnoc(front, last, |s| - n);
      }
    }
  }

  /** Fitting, told of what is held when each byte comes. */
  lemma FitsEach(s: seq<Byte>)
    ensures Fits(s) <==> forall k: nat | k < |s| :: |Cut(s[..k]).1| < MAX_LENGTH - 1
  {
    hide Cut;
    var n := MAX_LENGTH - 1;
    forall k: nat | k < |s| ensures |Cut(s[..k]).1| >= n <==> k >= n && CLOSE !in s[k - n..][..n] {
      CutLength(s[..k], n);
      if k >= n {
        assert s[..k][k - n..] == s[k - n..][..n];
      }
    }
    if Fits(s) {
      forall k: nat | k < |s| ensures |Cut(s[..k]).1| < n {
        if k >= n {
          var i: nat := k - n;
          assert ClosesFrom(s, i);
          assert s[i..][..n] == s[i..i + n];
        }
      }
    }
    if forall k: nat | k < |s| :: |Cut(s[..k]).1| < n {
      forall i: nat | i + n < |s| ensures ClosesFrom(s, i) {
        assert |Cut(s[..i + n]).1| < n;
        assert s[i..][..n] == s[i..i + n];
      }
    }
  }

  lemma {:induction false} NulAtEnd(t: seq<Byte>, rest: seq<Byte>, i: nat)
    requires i <= |t| && NulFree(t) && (rest == [] || rest[0] == 0)
    ensures NulAt(t + rest, i) == |t|
    decreases |t| - i
  {
    if i < |t| {
      NulAtEnd(t, rest, i + 1);
    } else {
      assert rest != [] ==> (t + rest)[i] == 0;
    }
  }

  lemma PaddedText(t: seq<Byte>)
    requires |t| <= MAX_LENGTH && NulFree(t)
    ensures BuffText(Padded(t)) == if |t| < MAX_LENGTH then Some(t) else None
  {
    NulAtEnd(t, seq(MAX_LENGTH - |t|, _ => 0), 0);
    assert Padded(t)[..|t|] == t;
  }

  /** One byte behind what is held. */
  lemma StorePadded(t: seq<Byte>, frames: seq<seq<Byte>>, ch: Byte)
    requires |t| < MAX_LENGTH && NulFree(t) && ch != 0
    ensures StoreByte(Wire(Padded(t), frames), |t|, ch) ==
            if ch != CLOSE then Some((Wire(Padded(t + [ch]), frames), |t| + 1))
            else if |t| + 1 < MAX_LENGTH then Some((Wire(Padded([]), frames + [Trim(t + [CLOSE])]), 0)) else None
  {
    assert Padded(t)[|t| := ch] == Padded(t + [ch]);
    assert Padded([]) == Cleared();
    PaddedText(t + [ch]);
    hide BuffText, Trim, Padded;
  }

  /** Where the loop stands: at what the cut of the bytes so far says, or past the end of buff. */
  ghost predicate Stands(r: Option<(Wire, nat)>, frames: seq<seq<Byte>>, cut: (seq<seq<Byte>>, seq<Byte>), fits: bool) {
    if fits then
      |cut.1| < MAX_LENGTH && NulFree(cut.1) &&
      r == Some((Wire(Padded(cut.1), frames + TrimAll(cut.0)), |cut.1|))
    else r.Some? ==> r.value.1 == |r.value.0.buff| && BuffText(r.value.0.buff).None?
  }

  ghost predicate FitsUpTo(s: seq<Byte>, from: nat, to: nat)
    requires to <= |s|
  {
    forall k | from <= k < to :: |Cut(s[..k]).1| < MAX_LENGTH - 1
  }

  lemma StandsStep(r: Option<(Wire, nat)>, frames: seq<seq<Byte>>, cut: (seq<seq<Byte>>, seq<Byte>), fits: bool,
                   ch: Byte)
    requires Stands(r, frames, cut, fits) && ch != 0
    ensures var r' := if r.None? then None else StoreByte(r.value.0, r.value.1, ch);
      Stands(r', frames, Extend(cut, ch), fits && |cut.1| < MAX_LENGTH - 1)
  {
    hide BuffText, Trim, Padded;
    if fits {
      StorePadded(cut.1, frames + TrimAll(cut.0), ch);
      if |cut.1| < MAX_LENGTH - 1 {
        TrimAllSnoc(cut.0, cut.1 + [CLOSE]);
        assert frames + TrimAll(cut.0) + [Trim(cut.1 + [CLOSE])] ==
               frames + (TrimAll(cut.0) + [Trim(cut.1 + [CLOSE])]);
      } else {
        PaddedText(cut.1 + [ch]);
      }
    }
  }

  lemma FitsUpToSnoc(s: seq<Byte>, from: nat, ch: Byte)
    requires from <= |s|
    ensures FitsUpTo(s + [ch], from, |s| + 1) <==> FitsUpTo(s, from, |s|) && |Cut(s).1| < MAX_LENGTH - 1
  {
    hide Cut;
    assert (s + [ch])[..|s|] == s;
    assert forall k | from <= k < |s| :: (s + [ch])[..k] == s[..k];
    if FitsUpTo(s + [ch], from, |s| + 1) {
      forall k | from <= k < |s| ensures |Cut(s[..k]).1| < MAX_LENGTH - 1 {
        assert |Cut((s + [ch])[..k]).1| < MAX_LENGTH - 1;
      }
      assert |Cut((s + [ch])[..|s|]).1| < MAX_LENGTH - 1;
    }
  }

  lemma {:induction false} StoreAllStands(t: seq<Byte>, frames: seq<seq<Byte>>, bytes: seq<Byte>)
    requires |t| < MAX_LENGTH && NulFree(t) && CLOSE !in t && NulFree(bytes)
    ensures Stands(StoreAll(Wire(Padded(t), frames), |t|, bytes), frames, Cut(t + bytes),
                   FitsUpTo(t + bytes, |t|, |t + bytes|))
    decreases |bytes|
  {
    if bytes == [] {
      assert t + bytes == t;
      NothingToCut(t);
      assert frames + TrimAll([]) == frames;
      hide Padded;
    } else {
      var front, ch := bytes[..|bytes| - 1], bytes[|bytes| - 1];
      StoreAllStands(t, frames, front);
      FitsUpToSnoc(t + front, |t|, ch);
      assert t + bytes == (t + front) + [ch];
      CutSnoc(t + front, ch);
      hide Stands, Cut, StoreByte, FitsUpTo, Padded;
      StandsStep(StoreAll(Wire(Padded(t), frames), |t|, front), frames, Cut(t + front),
                 FitsUpTo(t + front, |t|, |t + front|), ch);
    }
  }

  /** What is held fits by itself, so only the bytes behind it matter. */
  lemma FitsBehind(t: seq<Byte>, bytes: seq<Byte>)
    requires |t| < MAX_LENGTH && CLOSE !in t
    ensures Fits(t + bytes) <==> FitsUpTo(t + bytes, |t|, |t + bytes|)
  {
    FitsEach(t + bytes);
    forall k: nat | k < |t| ensures |Cut((t + bytes)[..k]).1| < MAX_LENGTH - 1 {
      assert (t + bytes)[..k] == t[..k];
      NothingToCut(t[..k]);
    }
    hide Cut, Fits;
  }

  /** For bytes without a NUL, no access of the handler or of the strlen that starts the next read is
      outside buff exactly when the held tail, and behind it the tail and the new bytes, fit; and then
      buff and the frames are those of the tail so read. */
  lemma HandleIsOnRead(t: seq<Byte>, frames: seq<seq<Byte>>, d: seq<Byte>)
    requires |t| < MAX_LENGTH && NulFree(t) && CLOSE !in t && NulFree(d)
    ensures var r, c := Handle(Wire(Padded(t), frames), d), OnRead(Carried(frames, t), d);
      && (r.Some? && BuffText(r.value.buff).Some? <==> Fits(t + (t + d)))
      && (Fits(t + (t + d)) ==> |c.tail| < MAX_LENGTH && NulFree(c.tail) && CLOSE !in c.tail &&
                                r == Some(Wire(Padded(c.tail), c.frames)))
  {
    PaddedText(t);
    StoreAllStands(t, frames, t + d);
    FitsBehind(t, t + d);
    CutTail(t + (t + d));
    var tail := Cut(t + (t + d)).1;
    if Fits(t + (t + d)) {
      PaddedText(tail);
    }
    hide BuffText, StoreAll, Cut, Fits, FitsUpTo, Padded;
  }

  function RunWire(chunks: seq<seq<Byte>>): Option<Wire> {
    if chunks == [] then Some(Wire(Cleared(), [])) else
    var before := RunWire(chunks[..|chunks| - 1]);
    if before.None? then None else Handle(before.value, chunks[|chunks| - 1])
  }

  /** Each read fits behind what was held before it. */
  ghost predicate AllFit(chunks: seq<seq<Byte>>) {
    forall i | 0 <= i < |chunks| :: Fits(Held(chunks[..i]) + (Held(chunks[..i]) + chunks[i]))
  }

  lemma AllFitSnoc(front: seq<seq<Byte>>, d: seq<Byte>)
    ensures AllFit(front + [d]) <==> AllFit(front) && Fits(Held(front) + (Held(front) + d))
  {
    hide Held, Fits;
    var chunks := front + [d];
    assert chunks[..|front|] == front;
    forall i | 0 <= i < |front| ensures chunks[..i] == front[..i] && chunks[i] == front[i] {
    }
    if AllFit(chunks) {
      assert Fits(Held(chunks[..|front|]) + (Held(chunks[..|front|]) + chunks[|front|]));
      forall i | 0 <= i < |front| ensures Fits(Held(front[..i]) + (Held(front[..i]) + front[i])) {
        assert Fits(Held(chunks[..i]) + (Held(chunks[..i]) + chunks[i]));
      }
    }
  }

  /** An access outside buff has been made, or the next strlen makes one. */
  predicate RunsOut(w: Option<Wire>) {
    w.None? || BuffText(w.value.buff).None?
  }

  lemma RunSnoc(front: seq<seq<Byte>>, d: seq<Byte>)
    ensures Run(front + [d]) == OnRead(Run(front), d)
    ensures RunWire(front + [d]) == if RunWire(front).None? then None else Handle(RunWire(front).value, d)
    ensures RunsOut(RunWire(front)) ==> RunWire(front + [d]) == None
  {
    assert (front + [d])[..|front|] == front;
    hide StoreAll, Cut, NulAt;
  }

  /** Over any run of reads without a NUL: every access is inside buff exactly when each read fits, and
      then the session in its buffer is the one on sequences. */
  lemma {:induction false} WireIsRun(chunks: seq<seq<Byte>>)
    requires forall i | 0 <= i < |chunks| :: NulFree(chunks[i])
    ensures !RunsOut(RunWire(chunks)) <==> AllFit(chunks)
    ensures AllFit(chunks) ==> var c := Run(chunks);
      && |c.tail| < MAX_LENGTH && NulFree(c.tail) && CLOSE !in c.tail
      && RunWire(chunks) == Some(Wire(Padded(c.tail), c.frames))
  {
    if chunks == [] {
      assert Padded([]) == Cleared();
      PaddedText([]);
    } else {
      var front, d := chunks[..|chunks| - 1], chunks[|chunks| - 1];
      assert chunks == front + [d];
      AllFitSnoc(front, d);
      HeldIsTail(front);
      RunSnoc(front, d);
      hide Run, Held, RunWire, Handle, OnRead, BuffText, Cut, Padded, Fits, NulFree, AllFit;
      WireIsRun(front);
      if AllFit(front) {
        HandleIsOnRead(Run(front).tail, Run(front).frames, d);
      }
    }
  }

  function As(n: nat): seq<Byte> {
    seq(n, _ => 97)
  }

  lemma UnclosedUnfit(s: seq<Byte>)
    requires |s| >= MAX_LENGTH && CLOSE !in s
    ensures !Fits(s)
  {
    assert !ClosesFrom(s, 0);
  }

  /** A single read of as many bytes as a read can give goes past the end of buff if none is a ')', */
  lemma LongReadRunsOut()
    ensures RunsOut(RunWire([As(MAX_LENGTH)]))
  {
    var d: seq<Byte> := As(MAX_LENGTH);
    assert [d][..0] == [] && Held([]) + (Held([]) + d) == d;
    UnclosedUnfit(d);
    assert !Fits(Held([d][..0]) + (Held([d][..0]) + [d][0]));
    hide RunWire, RunsOut, Fits;
    WireIsRun([d]);
  }

  /** and so do two of 400 bytes, because the first comes twice. */
  lemma HeldTailRunsOut()
    ensures RunsOut(RunWire([As(400), As(400)]))
  {
    var d: seq<Byte> := As(400);
    assert [d, d][..1] == [d] && [d][..0] == [] && Held([]) + (Held([]) + d) == d;
    UnclosedUnfit(d + (d + d));
    assert !Fits(Held([d, d][..1]) + (Held([d, d][..1]) + [d, d][1]));
    hide RunWire, RunsOut, Fits, Held;
    WireIsRun([d, d]);
  }

  // ----- bytes that may be NUL

  /** Bytes laid over the front of a buffer. */
  function Over(base: seq<Byte>, p: seq<Byte>): seq<Byte>
    requires |p| <= |base|
  {
    p + base[|p|..]
  }

  /** The frame of a piece laid over base; None where it does not fit or nothing ends it. */
  function Framed(base: seq<Byte>, p: seq<Byte>): Option<seq<Byte>> {
    if |p| > |base| || BuffText(Over(base, p)).None? then None else Some(Trim(BuffText(Over(base, p)).value))
  }

  /** The first piece is laid over base and every other one over NULs. */
  function FramedAll(base: seq<Byte>, ps: seq<seq<Byte>>): Option<seq<seq<Byte>>> {
    if ps == [] then Some([]) else
    var before := FramedAll(base, ps[..|ps| - 1]);
    var frame := Framed(if |ps| == 1 then base else Cleared(), ps[|ps| - 1]);
    if before.None? || frame.None? then None else Some(before.value + [frame.value])
  }

  /** The frames of the pieces are passed on, and the rest is laid over what the last of them left. */
  function Laid(w: Wire, cut: (seq<seq<Byte>>, seq<Byte>)): Option<Wire> {
    var frames := FramedAll(w.buff, cut.0);
    var base := if cut.0 == [] then w.buff else Cleared();
    if frames.None? || |cut.1| > |base| then None else Some(Wire(Over(base, cut.1), w.frames + frames.value))
  }

  lemma FramedAllSnoc(base: seq<Byte>, ps: seq<seq<Byte>>, p: seq<Byte>)
    ensures FramedAll(base, ps + [p]) ==
            var before, frame := FramedAll(base, ps), Framed(if ps == [] then base else Cleared(), p);
            if before.None? || frame.None? then None else Some(before.value + [frame.value])
  {
    assert (ps + [p])[..|ps|] == ps;
  }

  lemma OverSnoc(base: seq<Byte>, p: seq<Byte>, ch: Byte)
    requires |p| < |base|
    ensures Over(base, p)[|p| := ch] == Over(base, p + [ch])
    ensures Over(base, []) == base
  {
  }

  /** What a byte makes of pieces laid and of a rest behind them. */
  predicate LaidNext(w: Wire, cut: (seq<seq<Byte>>, seq<Byte>), ch: Byte) {
    var r, next := Laid(w, cut), Laid(w, Extend(cut, ch));
    (if r.None? then None else StoreByte(r.value, |cut.1|, ch)) ==
    if next.None? then None else Some((next.value, |Extend(cut, ch).1|))
  }

  lemma LaidByte(w: Wire, cut: (seq<seq<Byte>>, seq<Byte>), ch: Byte)
    requires |w.buff| == MAX_LENGTH && ch != CLOSE
    ensures LaidNext(w, cut, ch)
  {
    var base := if cut.0 == [] then w.buff else Cleared();
    if |cut.1| < |base| {
      OverSnoc(base, cut.1, ch);
    }
    hide FramedAll, BuffText, Trim, Over;
  }

  lemma LaidClose(w: Wire, cut: (seq<seq<Byte>>, seq<Byte>))
    requires |w.buff| == MAX_LENGTH
    ensures LaidNext(w, cut, CLOSE)
  {
    var base := if cut.0 == [] then w.buff else Cleared();
    var p := cut.1 + [CLOSE];
    FramedAllSnoc(w.buff, cut.0, p);
    if |cut.1| < |base| {
      OverSnoc(base, cut.1, CLOSE);
      OverSnoc(Cleared(), [], CLOSE);
    }
    var frames, frame := FramedAll(w.buff, cut.0), Framed(base, p);
    if frames.Some? && frame.Some? {
      assert w.frames + (frames.value + [frame.value]) == w.frames + frames.value + [frame.value];
    }
    hide FramedAll, BuffText, Trim, Over;
  }

  lemma {:induction false} StoreAllLaid(w: Wire, t: seq<Byte>, bytes: seq<Byte>)
    requires |w.buff| == MAX_LENGTH && t <= w.buff && CLOSE !in t
    ensures StoreAll(w, |t|, bytes) ==
            var r := Laid(w, Cut(t + bytes));
            if r.None? then None else Some((r.value, |Cut(t + bytes).1|))
    decreases |bytes|
  {
    if bytes == [] {
      assert t + bytes == t;
      NothingToCut(t);
      assert Over(w.buff, t) == w.buff && w.frames + [] == w.frames;
    } else {
      var front, ch := bytes[..|bytes| - 1], bytes[|bytes| - 1];
      StoreAllLaid(w, t, front);
      assert t + bytes == (t + front) + [ch];
      CutSnoc(t + front, ch);
      hide Laid, Cut, StoreByte;
      if ch == CLOSE {
        LaidClose(w, Cut(t + front));
      } else {
        LaidByte(w, Cut(t + front), ch);
      }
    }
  }

  lemma LaidKeeps(w: Wire, s: seq<Byte>)
    requires |w.buff| == MAX_LENGTH && CLOSE !in w.buff
    ensures var r := Laid(w, Cut(s)); r.Some? ==> |r.value.buff| == MAX_LENGTH && CLOSE !in r.value.buff
  {
    CutTail(s);
    hide Cut, FramedAll;
  }

  /** The handler in terms of pieces: the held text, the held text again and the new bytes are cut, and the
      pieces laid over buff. */
  function LaidRead(w: Wire, d: seq<Byte>): Option<Wire> {
    var text := BuffText(w.buff);
    if text.None? then None else Laid(w, Cut(text.value + (text.value + d)))
  }

  /** For any bytes and any buff between reads: the handler stays inside buff exactly when each piece and
      the rest fit and a NUL is found behind each piece, and each frame is what stands before that NUL. */
  lemma HandleIsLaid(w: Wire, d: seq<Byte>)
    requires |w.buff| == MAX_LENGTH && CLOSE !in w.buff
    ensures var r := Handle(w, d);
      r == LaidRead(w, d) && (r.Some? ==> |r.value.buff| == MAX_LENGTH && CLOSE !in r.value.buff)
  {
    var text := BuffText(w.buff);
    if text.Some? {
      BuffTextIs(w.buff);
      var t := text.value;
      assert forall i | 0 <= i < |t| :: t[i] == w.buff[i];
      StoreAllLaid(w, t, t + d);
      LaidKeeps(w, t + (t + d));
    }
    hide BuffText, StoreAll, Laid, Cut;
  }

  function RunLaid(chunks: seq<seq<Byte>>): Option<Wire> {
    if chunks == [] then Some(Wire(Cleared(), [])) else
    var before := RunLaid(chunks[..|chunks| - 1]);
    if before.None? then None else LaidRead(before.value, chunks[|chunks| - 1])
  }

  /** So it is over any run of any reads. */
  lemma {:induction false} RunIsLaid(chunks: seq<seq<Byte>>)
    ensures var w := RunWire(chunks);
      w == RunLaid(chunks) && (w.Some? ==> |w.value.buff| == MAX_LENGTH && CLOSE !in w.value.buff)
  {
    if chunks != [] {
      var front := chunks[..|chunks| - 1];
      RunIsLaid(front);
      if RunWire(front).Some? {
        HandleIsLaid(RunWire(front).value, chunks[|chunks| - 1]);
      }
      hide Handle, LaidRead;
    }
  }

  predicate AllNulFree(ss: seq<seq<Byte>>) {
    forall i | 0 <= i < |ss| :: NulFree(ss[i])
  }

  lemma AllNulFreeSnoc(ss: seq<seq<Byte>>, s: seq<Byte>)
    ensures AllNulFree(ss + [s]) <==> AllNulFree(ss) && NulFree(s)
  {
    hide NulFree;
    assert forall i | 0 <= i < |ss| :: (ss + [s])[i] == ss[i];
    assert (ss + [s])[|ss|] == s;
  }

  lemma AllNulFreeConcat(a: seq<seq<Byte>>, b: seq<seq<Byte>>)
    ensures AllNulFree(a + b) <==> AllNulFree(a) && AllNulFree(b)
  {
    hide NulFree;
    if AllNulFree(a + b) {
      assert forall i | 0 <= i < |a| :: a[i] == (a + b)[i];
      assert forall i | 0 <= i < |b| :: b[i] == (a + b)[|a| + i];
    }
  }

  lemma {:induction false} CutNulFree(s: seq<Byte>)
    ensures NulFree(s) <==> AllNulFree(Cut(s).0) && NulFree(Cut(s).1)
  {
    if s != [] {
      var front, ch := s[..|s| - 1], s[|s| - 1];
      CutNulFree(front);
      assert s == front + [ch];
      CutSnoc(front, ch);
      AllNulFreeSnoc(Cut(front).0, Cut(front).1 + [CLOSE]);
      hide Cut, AllNulFree;
    }
  }

  lemma {:induction false} TrimLeftNulFree(s: seq<Byte>)
    ensures NulFree(TrimLeft(s)) <==> NulFree(s)
  {
    if s != [] && IsSpace(s[0]) {
      TrimLeftNulFree(s[1..]);
      assert s == [s[0]] + s[1..];
    }
  }

  lemma {:induction false} TrimRightNulFree(s: seq<Byte>)
    ensures NulFree(TrimRight(s)) <==> NulFree(s)
  {
    if s != [] && IsSpace(s[|s| - 1]) {
      TrimRightNulFree(s[..|s| - 1]);
      assert s == s[..|s| - 1] + [s[|s| - 1]];
    }
  }

  lemma TrimNulFree(s: seq<Byte>)
    ensures NulFree(Trim(s)) <==> NulFree(s)
  {
    TrimRightNulFree(s);
    TrimLeftNulFree(TrimRight(s));
  }

  lemma TrimAllNulFree(ss: seq<seq<Byte>>)
    ensures AllNulFree(TrimAll(ss)) <==> AllNulFree(ss)
  {
    forall i | 0 <= i < |ss| ensures NulFree(TrimAll(ss)[i]) <==> NulFree(ss[i]) {
      TrimNulFree(ss[i]);
    }
    hide NulFree, Trim;
  }

  /** The session on sequences never loses a NUL. */
  lemma {:induction false} RunNulFree(chunks: seq<seq<Byte>>)
    ensures AllNulFree(Run(chunks).frames) && NulFree(Run(chunks).tail) <==> AllNulFree(chunks)
  {
    if chunks != [] {
      var front, d := chunks[..|chunks| - 1], chunks[|chunks| - 1];
      RunNulFree(front);
      var c := Run(front);
      assert chunks == front + [d];
      AllNulFreeSnoc(front, d);
      var s := c.tail + (c.tail + d);
      assert NulFree(s) <==> NulFree(c.tail) && NulFree(d);
      CutNulFree(s);
      TrimAllNulFree(Cut(s).0);
      AllNulFreeConcat(c.frames, TrimAll(Cut(s).0));
      hide Cut, NulFree, AllNulFree, TrimAll;
    }
  }

  lemma BuffTextNulFree(buff: seq<Byte>)
    ensures BuffText(buff).Some? ==> NulFree(BuffText(buff).value)
  {
    assert forall n | 0 <= n <= |buff| :: buff[..n] == buff[0..n];
  }

  lemma {:induction false} FramedNulFree(base: seq<Byte>, ps: seq<seq<Byte>>)
    ensures FramedAll(base, ps).Some? ==> AllNulFree(FramedAll(base, ps).value)
  {
    if ps != [] {
      var front, p := ps[..|ps| - 1], ps[|ps| - 1];
      FramedNulFree(base, front);
      var frames, frame := FramedAll(base, front), Framed(if |ps| == 1 then base else Cleared(), p);
      if frames.Some? && frame.Some? {
        var text := BuffText(Over(if |ps| == 1 then base else Cleared(), p)).value;
        BuffTextNulFree(Over(if |ps| == 1 then base else Cleared(), p));
        TrimNulFree(text);
        AllNulFreeSnoc(frames.value, frame.value);
      }
      hide BuffText, Over, Trim, NulFree, AllNulFree;
    }
  }

  /** The session in its buffer never passes one on. */
  lemma {:induction false} WireNulFree(chunks: seq<seq<Byte>>)
    ensures RunWire(chunks).Some? ==> AllNulFree(RunWire(chunks).value.frames)
  {
    if chunks != [] {
      var front, d := chunks[..|chunks| - 1], chunks[|chunks| - 1];
      WireNulFree(front);
      RunIsLaid(front);
      if RunWire(chunks).Some? {
        var w := RunWire(front).value;
        HandleIsLaid(w, d);
        var t := BuffText(w.buff).value;
        var ps := Cut(t + (t + d)).0;
        FramedNulFree(w.buff, ps);
        AllNulFreeConcat(w.frames, FramedAll(w.buff, ps).value);
      }
      hide Handle, Cut, BuffText, FramedAll, AllNulFree;
    }
  }

  /** For every run of reads: the session in its buffer passes on and holds what the one on sequences does
      exactly when each read fits and no read has a NUL. */
  lemma WireAgrees(chunks: seq<seq<Byte>>)
    ensures var w, c := RunWire(chunks), Run(chunks);
      w.Some? && w.value.frames == c.frames && BuffText(w.value.buff) == Some(c.tail)
      <==> AllFit(chunks) && AllNulFree(chunks)
  {
    hide Run, RunWire, BuffText, Cut, Padded, AllFit, NulFree;
    RunNulFree(chunks);
    if AllNulFree(chunks) {
      WireIsRun(chunks);
      if AllFit(chunks) {
        PaddedText(Run(chunks).tail);
      }
    } else if RunWire(chunks).Some? {
      WireNulFree(chunks);
      BuffTextNulFree(RunWire(chunks).value.buff);
    }
  }

  lemma NulFrame(d: seq<Byte>)
    requires d == [97, 0, CLOSE]
    ensures Framed(Cleared(), d) == Some([97])
  {
    var buff := Over(Cleared(), d);
    assert buff[0..1] == [97] && buff[..1] == [97] && NulFree([97]) && buff[1] == 0;
    NulAtFirst(buff, 0, 1);
    hide NulAt;
    assert TrimRight([97]) == [97] && TrimLeft([97]) == [97];
  }

  /** It is not so for "a", a NUL and ")": the frame is "a". */
  lemma NulCutsFrame()
    ensures RunWire([[97, 0, CLOSE]]).Some? && RunWire([[97, 0, CLOSE]]).value.frames == [[97]]
    ensures Run([[97, 0, CLOSE]]).frames == [[97, 0, CLOSE]]
  {
    var d: seq<Byte> := [97, 0, CLOSE];
    CutShort([97, 0], CLOSE);
    assert [97, 0] + [CLOSE] == d && [d][..0] == [];
    assert [] + ([] + d) == d;
    NulFrame(d);
    PaddedText([]);
    assert Padded([]) == Cleared();
    HandleIsLaid(Wire(Cleared(), []), d);
    assert [d][..|[d]| - 1] == [];
    hide Cut, Trim, BuffText, Handle, Framed, Padded, TrimAll;
    assert FramedAll(Cleared(), []) == Some([]);
    FramedAllSnoc(Cleared(), [], d);
    assert [] + [d] == [d] && [] + [[97]] == [[97]];
  }
}
