/** The two ends that the stream readers work between: a source fed by a writer they do not control,
    and a target.  The source is the byte queue of ByteQueues with one reader. */
module StreamBuffers {
  import opened Common
  import opened ByteQueues

  // An int_type: a character, eof(), or requires_async().
  datatype Got = Char(value: Byte) | Eof | RequiresAsync

  /** ch is the first character of what there was, or there was none; it is gone if told to advance. */
  ghost predicate Reads(before: seq<Byte>, after: seq<Byte>, ch: Got, advance: bool) {
    if before == [] then ch == Eof && after == []
    else ch == Char(before[0]) && after == if advance then before[1..] else before
  }

  lemma PrefixOf(bs: seq<Byte>, rest: seq<Byte>, n: nat)
    requires n <= |bs|
    ensures bs[..n] <= bs + rest && (bs + rest)[n..] == bs[n..] + rest
    ensures (bs + rest)[0..] == bs + rest
  {
    assert (bs + rest)[..n] == bs[..n];
  }

  /** What a request that can be satisfied gives, told of the whole stream. */
  lemma AnswerIs(q: Q, rest: seq<Byte>, k: Kind)
    requires q.synced <= |q.unread| && CanSatisfy(q, Wanted(k)) && !k.Released? && !k.Nextc?
    ensures var given, q', s := Given(k, q.unread), Complete(q, k), q.unread + rest;
      && given <= q.unread && given <= s && |given| <= (if k.Getn? || k.Peek? then k.count else 1)
      && q' == q.(unread := q'.unread, synced := q'.synced, answers := q'.answers) && q'.synced <= |q'.unread|
      && q'.unread + rest == (if Taken(k) > 0 then s[|given|..] else s)
      && (Taken(k) == 0 ==> q'.unread == q.unread)
      && (given == [] && Wanted(k) >= 1 ==> !q.open && q.unread == [])
      && q'.answers != [] && q'.answers[|q'.answers| - 1].flushed == (q.synced > 0)
      && (|given| < Wanted(k) ==> q.synced > 0 || (!q.open && given == q.unread))
  {
    PrefixOf(q.unread, rest, |Given(k, q.unread)|);
  }

  class Source {
    var q: Q
    // The writes still to come, after which the write side closes.
    var coming: seq<seq<Byte>>
    // exception().
    var failed: bool

    ghost predicate Valid()
      reads this
    {
      q.pending == [] && q.synced <= |q.unread| && (!q.open ==> coming == [])
    }

    /** Everything that will ever be read, however it is cut into writes and whenever they come. */
    ghost function Stream(): seq<Byte>
      reads this
    {
      q.unread + Flatten(coming)
    }

    /** The latest read found flushed characters, which it may hand over without waiting for more. */
    ghost predicate LastWasFlushed()
      reads this
    {
      q.answers != [] && q.answers[|q.answers| - 1].flushed
    }

    constructor (writes: seq<seq<Byte>>)
      ensures Valid() && Stream() == Flatten(writes)
    {
      q := EMPTY;
      coming := writes;
      failed := false;
    }

    // ----- what the writer does meanwhile

    method Deliver()
      requires Valid() && coming != []
      modifies this
      ensures Valid() && Stream() == old(Stream()) && |coming| < |old(coming)|
      ensures old(q.unread) <= q.unread
    {
      FlattenSplit(coming, 0);
      assert coming[..0] == [];
      assert Flatten(coming) == coming[0] + Flatten(coming[1..]);
      assert q.unread + (coming[0] + Flatten(coming[1..])) == q.unread + coming[0] + Flatten(coming[1..]);
      hide Flatten;
      q := Apply(q, Write(coming[0]));
      coming := coming[1..];
    }

    method Flush()
      requires Valid()
      modifies this
      ensures Valid() && Stream() == old(Stream()) && coming == old(coming) && q.unread == old(q.unread)
    {
      hide Flatten;
      q := Apply(q, Sync);
    }

    method Close()
      requires Valid() && coming == []
      modifies this
      ensures Valid() && Stream() == old(Stream()) && coming == [] && !q.open && q.unread == old(q.unread)
    {
      hide Flatten;
      q := Apply(Apply(q, StopWriting), FlushReaders);
    }

    /** Between two steps of a reader anything may arrive, be flushed, or be closed. */
    method Meanwhile()
      requires Valid()
      modifies this
      ensures Valid() && Stream() == old(Stream()) && old(q.unread) <= q.unread
    {
      hide Flatten;
      while *
        invariant Valid() && Stream() == old(Stream()) && old(q.unread) <= q.unread
        decreases |coming|
      {
        if coming == [] {
          break;
        }
        Deliver();
        if * {
          Flush();
        }
      }
      if * {
        Flush();
      }
      if coming == [] {
        if * {
          Close();
        }
      }
    }

    /** What a waiting request waits for; the writer gets there in the end. */
    method Await(count: nat)
      requires Valid()
      modifies this
      ensures Valid() && Stream() == old(Stream()) && CanSatisfy(q, count)
    {
      hide Flatten;
      Meanwhile();
      while !CanSatisfy(q, count)
        invariant Valid() && Stream() == old(Stream())
        decreases |coming|, q.open
      {
        if coming == [] {
          Close();
        } else {
          Deliver();
        }
      }
    }

    // ----- reading

    /** Answers a request that can be satisfied. */
    method Answered(k: Kind) returns (given: seq<Byte>)
      requires Valid() && CanSatisfy(q, Wanted(k)) && !k.Released? && !k.Nextc?
      modifies this
      ensures Valid()
      ensures given <= old(q.unread) && given <= old(Stream()) && |given| <= (if k.Getn? || k.Peek? then k.count else 1)
      ensures Stream() == if Taken(k) > 0 then old(Stream())[|given|..] else old(Stream())
      ensures Taken(k) == 0 ==> q.unread == old(q.unread)
      ensures given == [] && Wanted(k) >= 1 ==> old(Stream()) == []
      ensures |given| < Wanted(k) ==> LastWasFlushed() || given == old(Stream())
    {
      AnswerIs(q, Flatten(coming), k);
      hide Given, CanSatisfy, Wanted, Complete, Flatten;
      given := Given(k, q.unread);
      q := Apply(q, SyncRead(k));
    }

    method InAvail() returns (n: nat)
      requires Valid()
      modifies this
      ensures Valid() && Stream() == old(Stream()) && n == |q.unread|
    {
      Meanwhile();
      n := |q.unread|;
    }

    /** One character, or the end, once there is an answer. */
    method One(advance: bool) returns (ch: Got)
      requires Valid() && CanSatisfy(q, 1)
      modifies this
      ensures Valid() && Reads(old(Stream()), Stream(), ch, advance) && !ch.RequiresAsync?
      ensures !advance ==> q.unread == old(q.unread) && (ch.Char? ==> q.unread != [])
    {
      hide Flatten, CanSatisfy;
      var given := Answered(if advance then Bumpc else Getc);
      ch := if given == [] then Eof else Char(given[0]);
    }

    /** sbumpc and sgetc: a character at once, or none because it would have to wait. */
    method Sync1(advance: bool) returns (ch: Got)
      requires Valid()
      modifies this
      ensures Valid() && (ch.RequiresAsync? ==> old(q.unread) == [] && Stream() == old(Stream()))
      ensures !ch.RequiresAsync? ==> Reads(old(Stream()), Stream(), ch, advance)
      ensures !advance ==> old(q.unread) <= q.unread && (ch.Char? ==> q.unread != [])
    {
      hide Flatten, Reads;
      Meanwhile();
      if !CanSatisfy(q, 1) {
        return RequiresAsync;
      }
      ch := One(advance);
    }

    /** bumpc and getc: a character, or the end, however long it takes. */
    method Async1(advance: bool) returns (ch: Got)
      requires Valid()
      modifies this
      ensures Valid() && Reads(old(Stream()), Stream(), ch, advance)
      ensures !advance && ch.Char? ==> q.unread != []
    {
      hide Flatten, Reads;
      Await(1);
      ch := One(advance);
    }

    /** getn: up to count characters; fewer only after a flush or at the end. */
    method GetN(count: nat) returns (bs: seq<Byte>)
      requires Valid()
      modifies this
      ensures Valid() && bs <= old(Stream()) && |bs| <= count && Stream() == old(Stream())[|bs|..]
      ensures bs == [] && count > 0 ==> old(Stream()) == []
      ensures |bs| < count ==> LastWasFlushed() || bs == old(Stream())
    {
      hide Flatten;
      Await(count);
      bs := Answered(Getn(count));
    }

    /** acquire: the front of what is there, in place; None is a null pointer. */
    method Acquire() returns (acquired: bool, chars: Option<seq<Byte>>)
      requires Valid()
      modifies this
      ensures Valid() && Stream() == old(Stream())
      ensures chars.Some? ==> acquired && chars.value <= q.unread
    {
      hide Flatten;
      Meanwhile();
      if q.unread == [] {
        // There may be an empty block all the same.
        if * {
          return !q.open, None;
        }
      }
      // The front block may hold any part of what is there.
      var n :| 0 <= n <= |q.unread|;
      acquired, chars := true, Some(q.unread[..n]);
    }

    /** release: count of the acquired characters have been read. */
    method Release(count: nat)
      requires Valid() && count <= |q.unread|
      modifies this
      ensures Valid() && Stream() == old(Stream())[count..]
    {
      PrefixOf(q.unread, Flatten(coming), count);
      q := Apply(q, Op.Release(count));
    }
  }

  /** A target.  Whoever owns it may close it for writing between any two steps, for good; a buffer that
      cannot hand out blocks refuses alloc. */
  class Sink {
    var written: seq<Byte>
    var block: Option<nat>
    var open: bool
    var failed: bool
    const allocates: bool

    constructor (allocates: bool)
      ensures written == [] && block == None && open && !failed && this.allocates == allocates
    {
      written, block, open, failed, this.allocates := [], None, true, false, allocates;
    }

    method Meanwhile()
      modifies this`open
      ensures open ==> old(open)
    {
      if * {
        open := false;
      }
    }

    /** putn_nocopy: all of it, or nothing once closed. */
    method PutN(bs: seq<Byte>) returns (wrote: nat)
      modifies this`written, this`open
      ensures open ==> old(open)
      ensures written == (if open then old(written) + bs else old(written)) && wrote == if open then |bs| else 0
    {
      Meanwhile();
      if !open {
        return 0;
      }
      written := written + bs;
      wrote := |bs|;
    }

    /** alloc: a block to write into, if the buffer gives any and is open. */
    method Alloc(count: nat) returns (ok: bool)
      requires block == None
      modifies this`block, this`open
      ensures open ==> old(open)
      ensures ok == (allocates && open) && block == if ok then Some(count) else None
    {
      Meanwhile();
      ok := allocates && open;
      if ok {
        block := Some(count);
      }
    }

    /** commit, with the characters that were put in the block; it does not ask whether writing has closed. */
    method Commit(bs: seq<Byte>)
      requires block.Some? && |bs| <= block.value
      modifies this`written, this`block
      ensures written == old(written) + bs && block == None
    {
      written, block := written + bs, None;
    }
  }

  /** What a target has received of the characters sent to it: all of them while it stayed open. */
  ghost predicate Received(before: seq<Byte>, after: seq<Byte>, sent: seq<Byte>, open: bool) {
    before <= after <= before + sent && (open ==> after == before + sent)
  }

  // What a reader or a transfer ends with: a count, the exception of its checks on entry, the one for a
  // target that took too little, or the one for a target already handing out a block.
  datatype Outcome = Done(count: nat) | Refused | ShortWrite | Overlap
}
