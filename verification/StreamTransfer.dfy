/** Moving characters from a stream buffer to another: basic_ostream::write and basic_istream::read.
    Both choose between three ways of moving, which agree on what they move. */
module StreamTransfers {
  import opened Common
  import opened StreamBuffers

  predicate Suffix(before: seq<Byte>, after: seq<Byte>) {
    |after| <= |before| && after == before[|before| - |after|..]
  }

  /** A target that had some characters has gained the first n that the source held before, and the
      source has lost them.  While the target stayed open nothing else is gone, and n is what was asked for
      unless the source had been flushed or has ended; a target that closed may have cost the characters
      read for it. */
  predicate Moved(before: seq<Byte>, after: seq<Byte>, had: seq<Byte>, has: seq<Byte>, open: bool, flushed: bool,
                  n: nat, count: nat)
  {
    && n <= count && n <= |before| && has == had + before[..n]
    && Suffix(before, after) && |before| - count <= |after| <= |before| - n
    && (open ==> after == before[n..])
    && (open && n == 0 && count > 0 ==> before == [])
    && (open && n < count ==> flushed || after == [])
  }

  /** Into room that the target has handed out. */
  method MoveIntoBlock(source: Source, target: Sink, count: nat) returns (n: nat)
    requires source.Valid() && target.block == Some(count)
    modifies source, target`written, target`block
    ensures source.Valid() && target.block == None
    ensures Moved(old(source.Stream()), source.Stream(), old(target.written), target.written, target.open,
                  source.LastWasFlushed(), n, count)
    ensures source.Stream() == old(source.Stream())[n..]
  {
    var data := source.GetN(count);
    target.Commit(data);
    n := |data|;
  }

  /** From the source's own block, in place. */
  method MoveInPlace(source: Source, target: Sink, data: seq<Byte>, count: nat) returns (n: nat)
    requires source.Valid() && data <= source.q.unread && count <= |data|
    modifies source, target`written, target`open
    ensures source.Valid()
    ensures Moved(old(source.Stream()), source.Stream(), old(target.written), target.written, target.open,
                  source.LastWasFlushed(), n, count)
    ensures source.Stream() == old(source.Stream())[n..] && (target.open ==> n == count)
  {
    PrefixOf(source.q.unread, Flatten(source.coming), count);
    assert data[..count] == source.q.unread[..count];
    n := target.PutN(data[..count]);
    source.Release(n);
  }

  /** By way of a temporary buffer. */
  method MoveByCopy(source: Source, target: Sink, count: nat) returns (n: nat)
    requires source.Valid()
    modifies source, target`written, target`open
    ensures source.Valid()
    ensures Moved(old(source.Stream()), source.Stream(), old(target.written), target.written, target.open,
                  source.LastWasFlushed(), n, count)
  {
    var buf := source.GetN(count);
    n := target.PutN(buf);
  }

  /** Straight from the source's own block, or by copy if it holds too little. */
  method MoveFromBlock(source: Source, target: Sink, count: nat) returns (n: nat)
    requires source.Valid()
    modifies source, target`written, target`open
    ensures source.Valid()
    ensures Moved(old(source.Stream()), source.Stream(), old(target.written), target.written, target.open,
                  source.LastWasFlushed(), n, count)
  {
    var acquired, data := source.Acquire();
    var available := if data.Some? then |data.value| else 0;
    if available >= count {
      if data.None? {
        // A null pointer and nothing asked for.
        n := target.PutN([]);
        assert source.Stream() == old(source.Stream())[0..];
        return;
      }
      n := MoveInPlace(source, target, data.value, count);
    } else {
      if acquired && data.Some? {
        source.Release(0);
      }
      n := MoveByCopy(source, target, count);
    }
  }

  /** The common part: alloc and commit, or one of the other ways. */
  method Move(source: Source, target: Sink, count: nat) returns (r: Outcome)
    requires source.Valid()
    modifies source, target`written, target`block, target`open
    ensures source.Valid() && (r.Done? || r.Overlap?)
    ensures r.Overlap? <==> old(target.block).Some?
    ensures r.Overlap? ==> target.written == old(target.written) && source.Stream() == old(source.Stream())
    ensures r.Done? ==> target.block == None
    ensures r.Done? ==> Moved(old(source.Stream()), source.Stream(), old(target.written), target.written,
                               target.open, source.LastWasFlushed(), r.count, count)
  {
    if target.block.Some? {
      return Overlap;
    }
    hide Moved;
    var n: nat;
    var ok := target.Alloc(count);
    if ok {
      n := MoveIntoBlock(source, target, count);
    } else {
      n := MoveFromBlock(source, target, count);
    }
    r := Done(n);
  }

  /** basic_ostream::write. */
  method WriteFrom(target: Sink, source: Source, count: nat) returns (r: Outcome)
    requires source.Valid()
    modifies source, target`written, target`block, target`open
    ensures source.Valid() && !r.ShortWrite?
    ensures r.Refused? <==> old(target.failed || !target.open || !source.q.readable)
    ensures r.Overlap? <==> !r.Refused? && count > 0 && old(target.block).Some?
    ensures !r.Done? ==> target.written == old(target.written) && source.Stream() == old(source.Stream())
    ensures r.Done? ==> Moved(old(source.Stream()), source.Stream(), old(target.written), target.written,
                               target.open, source.LastWasFlushed(), r.count, count)
  {
    if target.failed || !target.open || !source.q.readable {
      return Refused;
    }
    if count == 0 {
      return Done(0);
    }
    r := Move(source, target, count);
  }

  /** basic_istream::read. */
  method ReadInto(source: Source, target: Sink, count: nat) returns (r: Outcome)
    requires source.Valid()
    modifies source, target`written, target`block, target`open
    ensures source.Valid() && !r.ShortWrite?
    ensures r.Refused? <==> old(source.failed || !source.q.readable || !target.open)
    ensures r.Overlap? <==> !r.Refused? && old(target.block).Some?
    ensures !r.Done? ==> target.written == old(target.written) && source.Stream() == old(source.Stream())
    ensures r.Done? ==> Moved(old(source.Stream()), source.Stream(), old(target.written), target.written,
                               target.open, source.LastWasFlushed(), r.count, count)
  {
    if source.failed || !source.q.readable || !target.open {
      return Refused;
    }
    r := Move(source, target, count);
  }
}
