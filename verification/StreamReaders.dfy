/** basic_istream's readers.  What each one delivers is a function of the stream alone, however the
    stream is cut into writes, whenever the writes come, and however often the output block fills up. */
module StreamReaders {
  import opened Common
  import opened StreamBuffers

  const BUF_SIZE: nat := 16 * 1024
  const LF: int := 10
  const CR: int := 13

  // ----- what the readers deliver

  /** The characters before the first delimiter. */
  function Before(s: seq<Byte>, delim: int): seq<Byte> {
    if s == [] || s[0] == delim then [] else [s[0]] + Before(s[1..], delim)
  }

  /** What follows the first delimiter. */
  function After(s: seq<Byte>, delim: int): seq<Byte> {
    if s == [] then [] else if s[0] == delim then s[1..] else After(s[1..], delim)
  }

  /** The characters before the first \n, \r\n or lone \r. */
  function Line(s: seq<Byte>): seq<Byte> {
    if s == [] || s[0] == LF || s[0] == CR then [] else [s[0]] + Line(s[1..])
  }

  function SkipLF(s: seq<Byte>): seq<Byte> {
    if s != [] && s[0] == LF then s[1..] else s
  }

  /** What follows the first line's terminator. */
  function AfterLine(s: seq<Byte>): seq<Byte> {
    if s == [] then [] else
    if s[0] == LF then s[1..] else
    if s[0] == CR then SkipLF(s[1..]) else AfterLine(s[1..])
  }

  /** Reading to a delimiter splits the stream at the first one, or takes all of it when there is none. */
  lemma {:induction false} SplitAtDelim(s: seq<Byte>, delim: int)
    ensures delim !in Before(s, delim)
    ensures delim in s ==> 0 <= delim < 256 && s == Before(s, delim) + [delim as Byte] + After(s, delim)
    ensures delim !in s ==> Before(s, delim) == s && After(s, delim) == []
  {
    if s != [] && s[0] != delim {
      var rest := s[1..];
      SplitAtDelim(rest, delim);
      assert s == [s[0]] + rest;
      assert Before(s, delim) == [s[0]] + Before(rest, delim) && After(s, delim) == After(rest, delim);
      hide Before, After;
    }
  }

  datatype Ending = Lf | CrLf | LoneCr

  function Mark(e: Ending): seq<Byte> {
    match e
    case Lf => [10]
    case CrLf => [13, 10]
    case LoneCr => [13]
  }

  predicate IsLine(s: seq<Byte>) {
    LF !in s && CR !in s
  }

  /** Reading a line gives back the line that was written, whichever way it was ended, unless a lone \r
      happens to be followed by \n. */
  lemma {:induction false} ReadsWrittenLine(line: seq<Byte>, e: Ending, rest: seq<Byte>)
    requires IsLine(line)
    ensures Line(line + Mark(e) + rest) == line
    ensures AfterLine(line + Mark(e) + rest) == if e == LoneCr then SkipLF(rest) else rest
  {
    var s := line + Mark(e) + rest;
    if line == [] {
      assert s == Mark(e) + rest;
      assert s[1..] == Mark(e)[1..] + rest;
    } else {
      ReadsWrittenLine(line[1..], e, rest);
      assert s[1..] == line[1..] + Mark(e) + rest;
    }
  }

  /** A line, its ending and what follows, which a lone \r must not go on into. */
  predicate Splits(s: seq<Byte>, line: seq<Byte>, e: Ending, rest: seq<Byte>) {
    s == line + Mark(e) + rest && (e == LoneCr ==> rest == [] || rest[0] != LF)
  }

  lemma SplitHere(s: seq<Byte>) returns (e: Ending)
    requires s != [] && (s[0] == LF || s[0] == CR)
    ensures Splits(s, [], e, AfterLine(s))
  {
    if s[0] == LF {
      e := Lf;
      assert s == [] + [10] + s[1..];
    } else if s[1..] != [] && s[1] == LF {
      e := CrLf;
      assert s[1..][1..] == s[2..];
      assert s == [] + [13, 10] + s[2..];
    } else {
      e := LoneCr;
      assert s == [] + [13] + s[1..];
    }
  }

  lemma SplitLater(ch: Byte, s: seq<Byte>, line: seq<Byte>, e: Ending, rest: seq<Byte>)
    requires Splits(s, line, e, rest)
    ensures Splits([ch] + s, [ch] + line, e, rest)
  {
    hide Mark;
    assert [ch] + (line + Mark(e) + rest) == ([ch] + line) + Mark(e) + rest;
  }

  /** Reading a line splits any stream at its first line ending, the longest there, or takes all of it when
      there is none. */
  lemma {:induction false} SplitAtLine(s: seq<Byte>) returns (e: Ending)
    ensures IsLine(Line(s))
    ensures IsLine(s) ==> Line(s) == s && AfterLine(s) == []
    ensures !IsLine(s) ==> Splits(s, Line(s), e, AfterLine(s))
  {
    if s == [] {
      e := Lf;
    } else if s[0] == LF || s[0] == CR {
      e := SplitHere(s);
      hide Splits;
    } else {
      e := SplitAtLine(s[1..]);
      assert s == [s[0]] + s[1..];
      hide Splits;
      if !IsLine(s[1..]) {
        SplitLater(s[0], s[1..], Line(s[1..]), e, AfterLine(s[1..]));
      }
    }
  }

  datatype Ended = Ended(text: seq<Byte>, ending: Ending)

  function Written(lines: seq<Ended>): seq<Byte> {
    if lines == [] then [] else lines[0].text + Mark(lines[0].ending) + Written(lines[1..])
  }

  function Texts(lines: seq<Ended>): seq<seq<Byte>> {
    if lines == [] then [] else [lines[0].text] + Texts(lines[1..])
  }

  lemma {:induction false} AfterLineShorter(s: seq<Byte>)
    requires s != []
    ensures |AfterLine(s)| < |s|
  {
    if |s| > 1 && s[0] != LF && s[0] != CR {
      AfterLineShorter(s[1..]);
    }
  }

  /** All the lines, reading until nothing is left. */
  function ReadAll(s: seq<Byte>): seq<seq<Byte>>
    decreases |s|
  {
    if s == [] then [] else (AfterLineShorter(s); [Line(s)] + ReadAll(AfterLine(s)))
  }

  /** A lone \r right before an empty line ended by \n reads as one \r\n. */
  predicate Ambiguous(lines: seq<Ended>, i: nat) {
    i + 1 < |lines| && lines[i].ending == LoneCr && lines[i + 1] == Ended([], Lf)
  }

  lemma WrittenStartsWithLF(lines: seq<Ended>)
    requires forall i | 0 <= i < |lines| :: IsLine(lines[i].text)
    ensures Written(lines) != [] && Written(lines)[0] == LF <==> lines != [] && lines[0] == Ended([], Lf)
  {
  }

  lemma {:induction false} ReadAllShorter(s: seq<Byte>, lines: seq<Ended>)
    requires s == Written(lines) && forall i | 0 <= i < |lines| :: IsLine(lines[i].text)
    ensures |ReadAll(s)| <= |lines|
    ensures (exists i: nat :: Ambiguous(lines, i)) ==> |ReadAll(s)| < |lines|
    decreases |lines|
  {
    if lines != [] {
      var l, rest := lines[0], Written(lines[1..]);
      ReadsWrittenLine(l.text, l.ending, rest);
      WrittenStartsWithLF(lines[1..]);
      if Ambiguous(lines, 0) {
        assert lines[1..][1..] == lines[2..];
        assert SkipLF(rest) == Written(lines[2..]);
        ReadAllShorter(Written(lines[2..]), lines[2..]);
      } else {
        ReadAllShorter(rest, lines[1..]);
        assert forall i: nat :: i > 0 && Ambiguous(lines, i) ==> Ambiguous(lines[1..], i - 1);
      }
    }
  }

  lemma {:induction false} TextsLength(lines: seq<Ended>)
    ensures |Texts(lines)| == |lines|
  {
    if lines != [] {
      TextsLength(lines[1..]);
    }
  }

  lemma {:induction false} LinesComeBack(lines: seq<Ended>)
    requires forall i | 0 <= i < |lines| :: IsLine(lines[i].text)
    requires !exists i: nat :: Ambiguous(lines, i)
    ensures ReadAll(Written(lines)) == Texts(lines)
  {
    if lines != [] {
      var l, rest := lines[0], Written(lines[1..]);
      ReadsWrittenLine(l.text, l.ending, rest);
      WrittenStartsWithLF(lines[1..]);
      assert !Ambiguous(lines, 0);
      assert forall i: nat :: Ambiguous(lines[1..], i) ==> Ambiguous(lines, i + 1);
      hide Line, AfterLine, IsLine;
      LinesComeBack(lines[1..]);
    }
  }

  /** Reading line after line gives back the lines written, in any mix of endings, exactly when no lone
      \r is followed by an empty line ended by \n. */
  lemma {:induction false} LinesRoundTrip(lines: seq<Ended>)
    requires forall i | 0 <= i < |lines| :: IsLine(lines[i].text)
    ensures ReadAll(Written(lines)) == Texts(lines) <==> !exists i: nat :: Ambiguous(lines, i)
  {
    TextsLength(lines);
    ReadAllShorter(Written(lines), lines);
    if !exists i: nat :: Ambiguous(lines, i) {
      LinesComeBack(lines);
    }
  }

  /** A lone \r and then an empty line ended by \n read as one line. */
  lemma LoneCrSwallowsLine()
    ensures ReadAll(Written([Ended([], LoneCr), Ended([], Lf)])) == [[]]
  {
    var lines := [Ended([], LoneCr), Ended([], Lf)];
    assert lines[1..] == [Ended([], Lf)] && lines[1..][1..] == [];
    assert Written(lines) == [13, 10];
    assert [13, 10][1..] == [10] && SkipLF([10]) == [];
    assert AfterLine([13, 10]) == [];
  }

  // ----- the readers

  /** _read_helper, with the target it fills. */
  class ReadHelper {
    const target: Sink
    const outbuf: array<Byte>
    var total: nat
    var writePos: nat
    var sawCR: bool
    // What the target had, and that followed by every character sent to it.
    ghost const base: seq<Byte>
    ghost var sent: seq<Byte>

    /** What has been sent is in the target or in outbuf, unless the target has closed. */
    ghost predicate Tracks()
      reads this, target, outbuf
    {
      && writePos <= outbuf.Length && outbuf.Length > 0
      && base <= target.written <= sent && total == |target.written| - |base|
      && (target.open ==> sent == target.written + outbuf[..writePos])
    }

    ghost predicate Valid()
      reads this, target, outbuf
    {
      Tracks() && writePos < outbuf.Length
    }

    constructor (target: Sink)
      ensures Valid() && this.target == target && sent == base == target.written && fresh(outbuf)
      ensures writePos == 0 && !sawCR
    {
      this.target := target;
      outbuf := new Byte[BUF_SIZE](_ => 0);
      total, writePos, sawCR := 0, 0, false;
      base, sent := target.written, target.written;
    }

    method Flush()
      requires Tracks()
      modifies this`total, this`writePos, target`written, target`open
      ensures Valid() && writePos == 0 && (target.open ==> target.written == sent && old(target.open))
    {
      var wrote := target.PutN(outbuf[..writePos]);
      total := total + wrote;
      writePos := 0;
    }

    method Put(ch: Byte)
      requires Valid()
      modifies this`total, this`writePos, this`sent, target`written, target`open, outbuf
      ensures Valid() && sent == old(sent) + [ch] && (target.open ==> old(target.open))
    {
      outbuf[writePos] := ch;
      assert outbuf[..writePos + 1] == old(outbuf[..writePos]) + [ch];
      assert target.written + (old(outbuf[..writePos]) + [ch]) == target.written + old(outbuf[..writePos]) + [ch];
      sent := sent + [ch];
      assert target.written <= old(sent) <= sent;
      writePos := writePos + 1;
      if writePos == outbuf.Length {
        Flush();
      }
    }
  }

  /** update of read_to_delim: whether to go on. */
  method UpdateDelim(h: ReadHelper, ch: Got, delim: int) returns (more: bool)
    requires h.Valid() && !ch.RequiresAsync?
    modifies h`total, h`writePos, h`sent, h.target`written, h.target`open, h.outbuf
    ensures h.Valid() && (h.target.open ==> old(h.target.open))
    ensures more == (ch.Char? && ch.value != delim)
    ensures h.sent == if more then old(h.sent) + [ch.value] else old(h.sent)
  {
    if ch == Eof || ch.value == delim {
      return false;
    }
    h.Put(ch.value);
    more := true;
  }

  /** What read_to_delim keeps: sent and still to be sent, and what is to be left over. */
  ghost predicate DelimGoesOn(sent: seq<Byte>, stream: seq<Byte>, delim: int, all: seq<Byte>, left: seq<Byte>) {
    sent + Before(stream, delim) == all && After(stream, delim) == left
  }

  lemma DelimStep(sent: seq<Byte>, before: seq<Byte>, after: seq<Byte>, ch: Got, delim: int,
                  all: seq<Byte>, left: seq<Byte>)
    requires DelimGoesOn(sent, before, delim, all, left) && Reads(before, after, ch, true)
    ensures ch.Char? && ch.value != delim ==> DelimGoesOn(sent + [ch.value], after, delim, all, left)
    ensures !(ch.Char? && ch.value != delim) ==> sent == all && after == left
  {
    if ch.Char? && ch.value != delim {
      assert sent + ([ch.value] + Before(after, delim)) == sent + [ch.value] + Before(after, delim);
    }
  }

  /** One turn of the loop: take what is there at once, then wait for one more character. */
  method DelimTurn(source: Source, h: ReadHelper, delim: int, ghost all: seq<Byte>, ghost left: seq<Byte>)
    returns (more: bool)
    requires source.Valid() && h.Valid()
    requires DelimGoesOn(h.sent, source.Stream(), delim, all, left)
    modifies source, h`total, h`writePos, h`sent, h.target`written, h.target`open, h.outbuf
    ensures source.Valid() && h.Valid() && (h.target.open ==> old(h.target.open))
    ensures more ==> |source.Stream()| < |old(source.Stream())|
    ensures more ==> DelimGoesOn(h.sent, source.Stream(), delim, all, left)
    ensures !more ==> h.sent == all && source.Stream() == left
  {
    hide DelimGoesOn, Before, After, Flatten;
    while true
      invariant source.Valid() && h.Valid() && (h.target.open ==> old(h.target.open))
      invariant DelimGoesOn(h.sent, source.Stream(), delim, all, left)
      invariant |source.Stream()| <= |old(source.Stream())|
      decreases |source.Stream()|
    {
      var inAvail := source.InAvail();
      if inAvail == 0 {
        break;
      }
      ghost var s := source.Stream();
      var ch := source.Sync1(true);
      if ch == RequiresAsync {
        break;
      }
      DelimStep(h.sent, s, source.Stream(), ch, delim, all, left);
      more := UpdateDelim(h, ch, delim);
      if !more {
        return;
      }
    }
    ghost var s := source.Stream();
    var ch := source.Async1(true);
    DelimStep(h.sent, s, source.Stream(), ch, delim, all, left);
    more := UpdateDelim(h, ch, delim);
  }

  /** read_to_delim. */
  method ReadToDelim(source: Source, target: Sink, delim: int) returns (r: Outcome)
    requires source.Valid()
    modifies source, target`written, target`open
    ensures source.Valid() && (r.Refused? || r.Done?)
    ensures r.Refused? <==> old(source.failed || !source.q.readable || !target.open)
    ensures r.Refused? ==> target.written == old(target.written) && source.Stream() == old(source.Stream())
    ensures r.Done? ==> source.Stream() == After(old(source.Stream()), delim)
    ensures r.Done? ==> Received(old(target.written), target.written, Before(old(source.Stream()), delim), target.open)
    ensures r.Done? ==> r.count == |target.written| - |old(target.written)|
  {
    if source.failed || !source.q.readable || !target.open {
      return Refused;
    }
    var h := new ReadHelper(target);
    ghost var left := After(source.Stream(), delim);
    ghost var all := target.written + Before(source.Stream(), delim);
    var more := true;
    while more
      invariant source.Valid() && h.Valid()
      invariant more ==> DelimGoesOn(h.sent, source.Stream(), delim, all, left)
      invariant !more ==> h.sent == all && source.Stream() == left
      decreases more, |source.Stream()|
    {
      more := DelimTurn(source, h, delim, all, left);
    }
    h.Flush();
    r := Done(h.total);
  }

  /** update of read_line: whether to go on. */
  method UpdateLine(h: ReadHelper, ch: Got) returns (more: bool)
    requires h.Valid() && !ch.RequiresAsync? && !h.sawCR
    modifies h, h.target`written, h.target`open, h.outbuf
    ensures h.Valid() && (h.target.open ==> old(h.target.open))
    ensures more == (ch.Char? && ch.value != LF) && h.sawCR == (ch == Char(13))
    ensures h.sent == if more && !h.sawCR then old(h.sent) + [ch.value] else old(h.sent)
  {
    if ch == Eof || ch.value == LF {
      return false;
    }
    if ch.value == CR {
      h.sawCR := true;
      return true;
    }
    h.Put(ch.value);
    more := true;
  }

  ghost predicate LineGoesOn(sent: seq<Byte>, stream: seq<Byte>, sawCR: bool, all: seq<Byte>, left: seq<Byte>) {
    if sawCR then sent == all && SkipLF(stream) == left
    else sent + Line(stream) == all && AfterLine(stream) == left
  }

  lemma LineStep(sent: seq<Byte>, before: seq<Byte>, after: seq<Byte>, ch: Got, all: seq<Byte>, left: seq<Byte>)
    requires LineGoesOn(sent, before, false, all, left) && Reads(before, after, ch, true)
    ensures ch.Char? && ch.value == CR ==> LineGoesOn(sent, after, true, all, left)
    ensures ch.Char? && ch.value != LF && ch.value != CR ==> LineGoesOn(sent + [ch.value], after, false, all, left)
    ensures ch == Eof || ch.value == LF ==> sent == all && after == left
  {
    if ch.Char? && ch.value != LF && ch.value != CR {
      assert sent + ([ch.value] + Line(after)) == sent + [ch.value] + Line(after);
    }
  }

  lemma LineEnds(sent: seq<Byte>, stream: seq<Byte>, all: seq<Byte>, left: seq<Byte>)
    requires LineGoesOn(sent, stream, true, all, left)
    ensures sent == all && SkipLF(stream) == left
  {
  }

  /** After a \r, with characters at hand: a \n belongs to it. */
  method TakeLF(source: Source)
    requires source.Valid() && source.q.unread != []
    modifies source
    ensures source.Valid() && source.Stream() == SkipLF(old(source.Stream()))
  {
    var next := source.Sync1(false);
    if next == Char(10) {
      var _ := source.Sync1(true);
    }
  }

  /** After a \r: a \n belongs to it. */
  method UpdateAfterCR(source: Source) returns (more: bool)
    requires source.Valid()
    modifies source
    ensures source.Valid() && !more && source.Stream() == SkipLF(old(source.Stream()))
  {
    var ch := source.Async1(false);
    if ch == Char(10) {
      var _ := source.Async1(true);
    }
    more := false;
  }

  /** One turn of the loop of read_line. */
  method LineTurn(source: Source, h: ReadHelper, ghost all: seq<Byte>, ghost left: seq<Byte>) returns (more: bool)
    requires source.Valid() && h.Valid()
    requires LineGoesOn(h.sent, source.Stream(), h.sawCR, all, left)
    modifies source, h, h.target`written, h.target`open, h.outbuf
    ensures source.Valid() && h.Valid() && (h.target.open ==> old(h.target.open))
    ensures more ==> |source.Stream()| < |old(source.Stream())|
    ensures more ==> LineGoesOn(h.sent, source.Stream(), h.sawCR, all, left)
    ensures !more ==> h.sent == all && source.Stream() == left
  {
    hide LineGoesOn, SkipLF, Line, AfterLine, Flatten;
    while true
      invariant source.Valid() && h.Valid() && (h.target.open ==> old(h.target.open))
      invariant LineGoesOn(h.sent, source.Stream(), h.sawCR, all, left)
      invariant |source.Stream()| <= |old(source.Stream())|
      decreases |source.Stream()|
    {
      var inAvail := source.InAvail();
      if inAvail == 0 {
        break;
      }
      if h.sawCR {
        LineEnds(h.sent, source.Stream(), all, left);
        TakeLF(source);
        return false;
      }
      ghost var s := source.Stream();
      var ch := source.Sync1(true);
      if ch == RequiresAsync {
        break;
      }
      LineStep(h.sent, s, source.Stream(), ch, all, left);
      more := UpdateLine(h, ch);
      if !more {
        return;
      }
    }
    if h.sawCR {
      LineEnds(h.sent, source.Stream(), all, left);
      more := UpdateAfterCR(source);
      return;
    }
    ghost var s := source.Stream();
    var ch := source.Async1(true);
    LineStep(h.sent, s, source.Stream(), ch, all, left);
    more := UpdateLine(h, ch);
  }

  /** read_line. */
  method ReadLine(source: Source, target: Sink) returns (r: Outcome)
    requires source.Valid()
    modifies source, target`written, target`open
    ensures source.Valid() && (r.Refused? || r.Done?)
    ensures r.Refused? <==> old(source.failed || !source.q.readable || !target.open)
    ensures r.Refused? ==> target.written == old(target.written) && source.Stream() == old(source.Stream())
    ensures r.Done? ==> source.Stream() == AfterLine(old(source.Stream()))
    ensures r.Done? ==> Received(old(target.written), target.written, Line(old(source.Stream())), target.open)
    ensures r.Done? ==> r.count == |target.written| - |old(target.written)|
  {
    if source.failed || !source.q.readable || !target.open {
      return Refused;
    }
    var h := new ReadHelper(target);
    ghost var left := AfterLine(source.Stream());
    ghost var all := target.written + Line(source.Stream());
    var more := true;
    while more
      invariant source.Valid() && h.Valid()
      invariant more ==> LineGoesOn(h.sent, source.Stream(), h.sawCR, all, left)
      invariant !more ==> h.sent == all && source.Stream() == left
      decreases more, |source.Stream()|
    {
      more := LineTurn(source, h, all, left);
    }
    h.Flush();
    r := Done(h.total);
  }

  /** copy_to_target: a block of characters from one to the other. */
  method CopyToTarget(source: Source, target: Sink) returns (rd: nat, wr: nat)
    requires source.Valid()
    modifies source, target`written, target`open
    ensures source.Valid() && rd <= |old(source.Stream())| && source.Stream() == old(source.Stream())[rd..]
    ensures rd == 0 ==> old(source.Stream()) == []
    ensures wr == rd ==> target.written == old(target.written) + old(source.Stream())[..rd]
    ensures wr != rd ==> wr == 0 && target.written == old(target.written) && !target.open
  {
    var outbuf := source.GetN(BUF_SIZE);
    rd := |outbuf|;
    wr := target.PutN(outbuf);
  }

  lemma Shift(w: seq<Byte>, s: seq<Byte>, n: nat)
    requires n <= |s|
    ensures w + s == (w + s[..n]) + s[n..]
  {
    assert s == s[..n] + s[n..];
  }

  lemma TooShort(w0: seq<Byte>, w: seq<Byte>, s: seq<Byte>, all: seq<Byte>)
    requires w0 <= w && w + s == all && s != []
    ensures w < all
  {
  }

  /** read_to_end. */
  method ReadToEnd(source: Source, target: Sink) returns (r: Outcome)
    requires source.Valid()
    modifies source, target`written, target`open
    ensures source.Valid() && !r.Overlap?
    ensures r.Refused? <==> old(source.failed || !source.q.readable || !target.open)
    ensures r.Refused? ==> target.written == old(target.written) && source.Stream() == old(source.Stream())
    ensures r.ShortWrite? ==> !target.open
    ensures r.ShortWrite? ==> old(target.written) <= target.written < old(target.written + source.Stream())
    ensures r.Done? ==> source.Stream() == [] && target.written == old(target.written) + old(source.Stream())
    ensures r.Done? ==> r.count == |old(source.Stream())|
  {
    if source.failed || !source.q.readable || !target.open {
      return Refused;
    }
    hide Flatten;
    var total, more := 0, true;
    ghost var all := target.written + source.Stream();
    while more
      invariant source.Valid() && target.written + source.Stream() == all
      invariant old(target.written) <= target.written
      invariant total == |target.written| - |old(target.written)|
      invariant !more ==> source.Stream() == []
      decreases more, |source.Stream()|
    {
      ghost var s, w := source.Stream(), target.written;
      var rd, wr := CopyToTarget(source, target);
      Shift(w, s, rd);
      total := total + wr;
      if rd == 0 {
        more := false;
      } else if rd != wr {
        TooShort(old(target.written), w, s, all);
        return ShortWrite;
      }
    }
    assert target.written + [] == target.written;
    r := Done(total);
  }
}
