/** NanoLogLine: the growable buffer operator<< writes into, and the cursor stringify reads it with. */
module NanoLogLines {
  import opened Common
  import opened LogLineCodec

  // The stack buffer fills a 256-byte object: two size_t, the heap pointer and 8 reserved bytes go off.
  const STACK_SIZE: nat := 224
  const HEADER_SIZE: nat := 37

  // ----- how the buffer grows

  // onHeap says the stack buffer has been left; copied is history: bytes moved by all growth steps.
  datatype Growth = Growth(used: nat, size: nat, onHeap: bool, copied: nat)

  /** resize_buffer_if_needed for some additional bytes. */
  function Reserve(g: Growth, additional: nat): Growth {
    var required := g.used + additional;
    if required <= g.size then g
    else if !g.onHeap then Growth(g.used, Max(512, required), true, g.copied + g.used)
    else Growth(g.used, Max(2 * g.size, required), true, g.copied + g.used)
  }

  /** Reserving some bytes and filling them; nothing to record reserves nothing. */
  function Write(g: Growth, bytes: nat): Growth {
    if bytes == 0 then g else Reserve(g, bytes).(used := g.used + bytes)
  }

  /** A whole run of operator<< calls, by the sizes of their records. */
  function WriteAll(g: Growth, sizes: seq<nat>): Growth {
    if sizes == [] then g else Write(WriteAll(g, sizes[..|sizes| - 1]), sizes[|sizes| - 1])
  }

  predicate GrowthOk(g: Growth) {
    && g.used <= g.size && g.copied <= g.size && g.size <= Max(512, 2 * g.used)
    && (if g.onHeap then g.size >= 512 else g.size == STACK_SIZE && g.copied == 0)
  }

  const FRESH: Growth := Growth(HEADER_SIZE, STACK_SIZE, false, 0)

  lemma WriteKeeps(g: Growth, bytes: nat)
    requires GrowthOk(g)
    ensures GrowthOk(Write(g, bytes)) && Write(g, bytes).used == g.used + bytes
    ensures Write(g, bytes).size != g.size <==> g.used + bytes > g.size
  {
  }

  /** Amortised growth: over any run, all the copying there has been fits in the buffer there is, and
      the buffer is at most 512 bytes or twice what is used. */
  lemma {:induction false} AmortisedGrowth(sizes: seq<nat>)
    ensures GrowthOk(WriteAll(FRESH, sizes))
  {
    if sizes != [] {
      AmortisedGrowth(sizes[..|sizes| - 1]);
      WriteKeeps(WriteAll(FRESH, sizes[..|sizes| - 1]), sizes[|sizes| - 1]);
    }
  }

  // ----- the fixed header

  datatype Header = Header(timestamp: nat, thread: nat, file: nat, function_: nat, line: nat, level: Byte) {
    predicate Valid() {
      && timestamp < Pow256(8) && thread < Pow256(8) && file < Pow256(8) && function_ < Pow256(8)
      && line < Pow256(4)
    }

    /** timestamp, thread id, file and function pointers, line, level: no tags. */
    function Bytes(): (bs: seq<Byte>)
      ensures |bs| == HEADER_SIZE
    {
      LittleEndian(timestamp, 8) + LittleEndian(thread, 8) + LittleEndian(file, 8) + LittleEndian(function_, 8)
      + LittleEndian(line, 4) + [level]
    }
  }

  function DecodeHeader(bs: seq<Byte>): Header
    requires |bs| >= HEADER_SIZE
  {
    Header(FromLittleEndian(bs[0..8]), FromLittleEndian(bs[8..16]), FromLittleEndian(bs[16..24]),
           FromLittleEndian(bs[24..32]), FromLittleEndian(bs[32..36]), bs[36])
  }

  lemma HeaderRoundTrip(h: Header, rest: seq<Byte>)
    requires h.Valid()
    ensures DecodeHeader(h.Bytes() + rest) == h
  {
    var bs := h.Bytes() + rest;
    assert bs[0..8] == LittleEndian(h.timestamp, 8);
    assert bs[8..16] == LittleEndian(h.thread, 8);
    assert bs[16..24] == LittleEndian(h.file, 8);
    assert bs[24..32] == LittleEndian(h.function_, 8);
    assert bs[32..36] == LittleEndian(h.line, 4);
    LittleEndianRoundTrip(h.timestamp, 8);
    LittleEndianRoundTrip(h.thread, 8);
    LittleEndianRoundTrip(h.file, 8);
    LittleEndianRoundTrip(h.function_, 8);
    LittleEndianRoundTrip(h.line, 4);
  }

  method RecordBytes(a: Arg) returns (bs: seq<Byte>)
    requires WellFormed(a) && Recorded(a)
    ensures bs == Record(a) && bs != []
  {
    bs := [Tag(a)] + Payload(a);
  }

  lemma RecordNothing(a: Arg)
    requires WellFormed(a) && !Recorded(a)
    ensures Record(a) == []
  {
  }

  lemma WriteNothing(g: Growth)
    ensures Write(g, 0) == g
  {
  }

  /** A slice of a slice. */
  lemma Subslice(s: seq<Byte>, start: nat, end: nat, i: nat, j: nat)
    requires start <= end <= |s| && i <= j <= end - start
    ensures s[start..end][i..j] == s[start + i..start + j]
  {
    var t := s[start..end];
    assert |t[i..j]| == j - i;
    assert forall k | 0 <= k < j - i :: t[i..j][k] == t[i + k] == s[start + (i + k)];
  }

  // ----- the object

  /** The loop that reads a string, from behind its tag to its terminator. */
  method FindNul(b: array<Byte>, start: nat, end: nat) returns (k: nat)
    requires start < end <= b.Length
    ensures start + 1 <= k <= end && k - start == NulAt(b[..][start..end], 1)
  {
    ghost var bs := b[..][start..end];
    k := start + 1;
    while k < end && b[k] != 0
      invariant start + 1 <= k <= end
      invariant NulAt(bs, 1) == NulAt(bs, k - start)
    {
      assert bs[k - start] == b[k];
      k := k + 1;
    }
    assert k < end ==> bs[k - start] == b[k];
  }

  // One step of the decoder, with every slice written out to its end.

  lemma DecodeFixedStep(bs: seq<Byte>)
    requires bs != [] && Width(bs[0]).Some?
    ensures var w := Width(bs[0]).value;
      if 1 + w > |bs| then Decode(bs) == Decoded([], Overrun)
      else Decode(bs) ==
           Decoded([Fixed(bs[0], bs[1..1 + w])] + Decode(bs[1 + w..|bs|]).args, Decode(bs[1 + w..|bs|]).outcome)
  {
    hide Fixed, NulAt, Width;
    var w := Width(bs[0]).value;
    if 1 + w <= |bs| {
      assert bs[1 + w..] == bs[1 + w..|bs|];
    }
  }

  lemma DecodeTextStep(bs: seq<Byte>)
    requires bs != [] && bs[0] == 7
    ensures var k := NulAt(bs, 1);
      if k == |bs| then Decode(bs) == Decoded([], Overrun)
      else Decode(bs) == Decoded([Text(bs[1..k])] + Decode(bs[k + 1..|bs|]).args, Decode(bs[k + 1..|bs|]).outcome)
  {
    assert Width(bs[0]).None?;
    hide Fixed, NulAt, Width;
    var k := NulAt(bs, 1);
    if k < |bs| {
      assert bs[k + 1..] == bs[k + 1..|bs|];
    }
  }

  lemma DecodeNoStep(bs: seq<Byte>)
    ensures bs == [] ==> Decode(bs) == Decoded([], Done)
    ensures bs != [] && Width(bs[0]).None? && bs[0] != 7 ==> Decode(bs) == Decoded([], UnknownTag)
  {
  }

  /** The recursive stringify, on the buffer from start to end. */
  method StringifyArgs(b: array<Byte>, start: nat, end: nat) returns (r: Decoded)
    requires start <= end <= b.Length
    ensures r == Decode(b[..][start..end])
    decreases end - start
  {
    hide Fixed, Decode, Width, NulAt;
    ghost var all := b[..];
    ghost var bs := all[start..end];
    DecodeNoStep(bs);
    if start == end {
      return Decoded([], Done);
    }
    var tag := b[start];
    assert tag == bs[0];
    if Width(tag).Some? {
      DecodeFixedStep(bs);
      var w := Width(tag).value;
      if start + 1 + w > end {
        return Decoded([], Overrun);
      }
      Subslice(all, start, end, 1, 1 + w);
      Subslice(all, start, end, 1 + w, end - start);
      var rest := StringifyArgs(b, start + 1 + w, end);
      r := Decoded([Fixed(tag, b[..][start + 1..start + 1 + w])] + rest.args, rest.outcome);
    } else if tag == 7 {
      DecodeTextStep(bs);
      var k := FindNul(b, start, end);
      if k == end {
        return Decoded([], Overrun);
      }
      Subslice(all, start, end, 1, k - start);
      Subslice(all, start, end, k - start + 1, end - start);
      var rest := StringifyArgs(b, k + 1, end);
      r := Decoded([Text(b[..][start + 1..k])] + rest.args, rest.outcome);
    } else {
      r := Decoded([], UnknownTag);
    }
  }

  class NanoLogLine {
    var bytesUsed: nat
    var bufferSize: nat
    var heapBuffer: array?<Byte>
    const stackBuffer: array<Byte>
    ghost var copied: nat
    ghost const header: Header
    ghost var args: seq<Arg>

    function Buffer(): array<Byte>
      reads this
    {
      if heapBuffer == null then stackBuffer else heapBuffer
    }

    /** The bytes written so far. */
    ghost function Contents(): seq<Byte>
      requires bytesUsed <= Buffer().Length
      reads this, Buffer()
    {
      Buffer()[..bytesUsed]
    }

    ghost function Grown(): Growth
      reads this
    {
      Growth(bytesUsed, bufferSize, heapBuffer != null, copied)
    }

    ghost predicate Sized()
      reads this
    {
      && stackBuffer.Length == STACK_SIZE
      && Buffer().Length == bufferSize
      && bytesUsed <= bufferSize
    }

    /** The buffer holds the header and then the record of every argument, in order. */
    ghost predicate Valid()
      reads this, Buffer()
    {
      && Sized() && GrowthOk(Grown())
      && header.Valid() && AllWellFormed(args)
      && Contents() == header.Bytes() + Encode(args)
    }

    constructor (h: Header)
      requires h.Valid()
      ensures Valid() && header == h && args == [] && Grown() == FRESH
      ensures fresh(Buffer())
    {
      header := h;
      args := [];
      copied := 0;
      bytesUsed := 0;
      bufferSize := STACK_SIZE;
      heapBuffer := null;
      stackBuffer := new Byte[STACK_SIZE](_ => 0);
      new;
      // The constructor's encodes do not ask for room: the header fits the stack buffer.
      Put(h.Bytes());
    }

    /** The one-argument encode: bytes at the write position, and no check that they fit. */
    method Put(bs: seq<Byte>)
      requires Sized() && bytesUsed + |bs| <= bufferSize
      modifies this, Buffer()
      ensures Sized() && Buffer() == old(Buffer())
      ensures Contents() == old(Contents()) + bs
      ensures Grown() == old(Grown()).(used := old(bytesUsed) + |bs|)
      ensures args == old(args)
    {
      var b := Buffer();
      var i := 0;
      while i < |bs|
        invariant 0 <= i <= |bs|
        invariant Buffer() == b && Sized() && Grown() == old(Grown()) && args == old(args)
        invariant forall j | 0 <= j < bytesUsed :: b[j] == old(Contents())[j]
        invariant forall j | 0 <= j < i :: b[bytesUsed + j] == bs[j]
      {
        b[bytesUsed + i] := bs[i];
        i := i + 1;
      }
      bytesUsed := bytesUsed + |bs|;
      assert forall k | old(bytesUsed) <= k < bytesUsed :: b[k] == b[old(bytesUsed) + (k - old(bytesUsed))];
      assert b[..bytesUsed] == old(Contents()) + bs;
    }

    method ResizeBufferIfNeeded(additional: nat)
      requires Sized()
      modifies this
      ensures Sized() && bytesUsed + additional <= bufferSize
      ensures Buffer() == old(Buffer()) || fresh(Buffer())
      ensures Contents() == old(Contents())
      ensures Grown() == Reserve(old(Grown()), additional) && args == old(args)
    {
      var required := bytesUsed + additional;
      if required <= bufferSize {
        return;
      }
      if heapBuffer == null {
        bufferSize := Max(512, required);
      } else {
        bufferSize := Max(2 * bufferSize, required);
      }
      var grown := new Byte[bufferSize](_ => 0);
      CopyBytes(Buffer(), grown, bytesUsed);
      copied := copied + bytesUsed;
      heapBuffer := grown;
    }

    /** memcpy. */
    static method CopyBytes(src: array<Byte>, dst: array<Byte>, n: nat)
      requires src != dst && n <= src.Length && n <= dst.Length
      modifies dst
      ensures dst[..n] == src[..n] == old(src[..n])
    {
      var i := 0;
      while i < n
        invariant 0 <= i <= n
        invariant dst[..i] == src[..i] && src[..n] == old(src[..n])
      {
        dst[i] := src[i];
        i := i + 1;
      }
    }

    /** Room for a record, then the record. */
    method WriteRecord(bs: seq<Byte>)
      requires Sized() && GrowthOk(Grown()) && bs != []
      modifies this, Buffer()
      ensures Sized() && GrowthOk(Grown()) && args == old(args)
      ensures Buffer() == old(Buffer()) || fresh(Buffer())
      ensures Contents() == old(Contents()) + bs
      ensures Grown() == Write(old(Grown()), |bs|)
    {
      WriteKeeps(Grown(), |bs|);
      ResizeBufferIfNeeded(|bs|);
      Put(bs);
    }

    /** operator<<, whatever growth it takes: the line gains the record of its argument and keeps the rest. */
    method Insert(a: Arg)
      requires Valid() && WellFormed(a)
      modifies this, Buffer()
      ensures Valid() && args == old(args) + [a]
      ensures Buffer() == old(Buffer()) || fresh(Buffer())
      ensures Contents() == old(Contents()) + Record(a)
      ensures Grown() == Write(old(Grown()), |Record(a)|)
    {
      hide Record, Payload, Encode, WellFormed, GrowthOk, Write;
      ghost var before, said := Contents(), args;
      EncodeSnoc(said, a);
      assert before + Record(a) == header.Bytes() + (Encode(said) + Record(a));
      if Recorded(a) {
        var bs := RecordBytes(a);
        WriteRecord(bs);
      } else {
        RecordNothing(a);
        WriteNothing(Grown());
        assert before + [] == before;
      }
      args := args + [a];
    }

    /** stringify: the header, then the arguments from behind it to bytesUsed. */
    method Stringify() returns (h: Header, r: Decoded)
      requires Valid()
      ensures h == header && r == Decode(Encode(args))
      ensures r == Decoded(Meaning(args), Done) <==> Faithful(args)
    {
      HeaderRoundTrip(header, Encode(args));
      RoundTrip(args);
      h := DecodeHeader(Buffer()[..bytesUsed]);
      assert Contents()[HEADER_SIZE..] == Encode(args);
      assert Buffer()[..][HEADER_SIZE..bytesUsed] == Contents()[HEADER_SIZE..];
      r := StringifyArgs(Buffer(), HEADER_SIZE, bytesUsed);
    }
  }
}
