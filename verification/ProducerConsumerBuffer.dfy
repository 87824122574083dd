/** basic_producer_consumer_buffer: a deque of blocks and a line of waiting read requests.  A method is
    one hold of m_lock, or one store to a flag outside it, and is proved against the byte queue of
    ByteQueues. */
module ProducerConsumerBuffers {
  import opened Common
  import opened ByteQueues

  // _block: storage with a read head and a write head.
  datatype Chunk = Chunk(read: nat, pos: nat, data: seq<Byte>)

  type Block = b: Chunk | b.read <= b.pos <= |b.data| witness Chunk(0, 0, [])

  function Contents(b: Block): seq<Byte> {
    b.data[b.read..b.pos]
  }

  /** wr_chars_left. */
  function Room(b: Block): nat {
    |b.data| - b.pos
  }

  function Views(blocks: seq<Block>): (r: seq<seq<Byte>>)
    ensures |r| == |blocks| && forall i | 0 <= i < |r| :: r[i] == Contents(blocks[i])
  {
    seq(|blocks|, i requires 0 <= i < |blocks| => Contents(blocks[i]))
  }

  /** What there is to read, over all the blocks. */
  function Unread(blocks: seq<Block>): seq<Byte> {
    Flatten(Views(blocks))
  }

  // The outcome of acquire: whether it succeeded, and the characters of the front block if there is one.
  datatype Acquired = Acquired(ok: bool, chars: Option<seq<Byte>>)

  lemma ViewsUpdate(blocks: seq<Block>, i: nat, b: Block)
    requires i < |blocks|
    ensures Views(blocks[i := b]) == Views(blocks)[i := Contents(b)]
  {
  }

  /** Reading one block takes up to n characters off its front. */
  lemma ReadOne(b: Block, n: nat)
    ensures var countRead := Min(b.pos - b.read, n);
      && b.data[b.read..b.read + countRead] == Upto(Contents(b), n)
      && Contents(b.(read := b.read + countRead)) == Beyond(Contents(b), n)
      && (countRead < n ==> Beyond(Contents(b), n) == [])
  {
    var countRead := Min(b.pos - b.read, n);
    assert b.data[b.read..b.pos][..countRead] == b.data[b.read..b.read + countRead];
    assert b.data[b.read..b.pos][countRead..] == b.data[b.read + countRead..b.pos];
  }

  lemma UnreadSnoc(blocks: seq<Block>, b: Block)
    ensures Unread(blocks + [b]) == Unread(blocks) + Contents(b)
  {
    assert Views(blocks + [b]) == Views(blocks) + [Contents(b)];
    FlattenSnoc(Views(blocks), Contents(b));
  }

  /** Writing into the back block adds at the end of what there is to read. */
  lemma FillBack(blocks: seq<Block>, filled: Block, data: seq<Byte>)
    requires blocks != []
    requires Contents(filled) == Contents(blocks[|blocks| - 1]) + data
    ensures Unread(blocks[|blocks| - 1 := filled]) == Unread(blocks) + data
  {
    var last := |blocks| - 1;
    var front, b := blocks[..last], blocks[last];
    assert blocks == front + [b] && blocks[last := filled] == front + [filled];
    UnreadSnoc(front, b);
    UnreadSnoc(front, filled);
    assert Unread(front) + (Contents(b) + data) == Unread(front) + Contents(b) + data;
  }

  lemma UnreadFront(blocks: seq<Block>)
    requires blocks != []
    ensures Unread(blocks) == Contents(blocks[0]) + Unread(blocks[1..])
  {
    var v := Views(blocks);
    FlattenSplit(v, 0);
    assert v[..0] == [] && v[1..] == Views(blocks[1..]);
  }

  lemma DropFront(blocks: seq<Block>)
    requires blocks != [] && Contents(blocks[0]) == []
    ensures Unread(blocks) == Unread(blocks[1..])
  {
    UnreadFront(blocks);
  }

  lemma FrontIsPrefix(blocks: seq<Block>)
    requires blocks != []
    ensures Contents(blocks[0]) <= Unread(blocks)
  {
    UnreadFront(blocks);
  }

  lemma FrontOfConcat(bs: seq<Byte>, rest: seq<Byte>, n: nat)
    requires n <= |bs|
    ensures Upto(bs + rest, n) == Upto(bs, n) && Beyond(bs + rest, n) == Beyond(bs, n) + rest
  {
  }

  /** The front block's characters come off the front of everything unread. */
  lemma ReleaseFront(blocks: seq<Block>, count: nat)
    requires blocks != [] && count <= blocks[0].pos - blocks[0].read
    ensures var b := blocks[0];
      && Unread(blocks[0 := b.(read := b.read + count)]) == Beyond(Unread(blocks), count)
      && Upto(Unread(blocks), count) == b.data[b.read..b.read + count]
      && count <= |Unread(blocks)|
  {
    var b := blocks[0];
    var left := blocks[0 := b.(read := b.read + count)];
    UnreadFront(blocks);
    UnreadFront(left);
    assert left[1..] == blocks[1..];
    ReadOne(b, count);
    FrontOfConcat(Contents(b), Unread(blocks[1..]), count);
  }

  /** A request leaves the line before its callback runs or after: it makes no difference. */
  lemma CompleteLeavesLine(q: Q, k: Kind)
    ensures Complete(q, k).pending == q.pending
  {
  }

  lemma DropNothing(q: Q)
    ensures Drop(q, 0) == q && Upto(q.unread, 0) == []
  {
  }

  lemma UptoIs(bs: seq<Byte>, rest: seq<Byte>, n: nat)
    requires |bs| <= n && (|bs| == n || rest == [])
    ensures Upto(bs + rest, n) == bs && Beyond(bs + rest, n) == rest
  {
  }

  lemma TakenInPlace(left: seq<seq<Byte>>, i: nat, taken: seq<Byte>, kept: seq<Byte>, before: seq<Byte>)
    requires i < |left| && left[i] == taken + kept && forall k | 0 <= k < i :: left[k] == []
    ensures before + Flatten(left) == (before + taken) + Flatten(left[i := kept])
  {
    hide Flatten;
    var rest, left' := Flatten(left[i + 1..]), left[i := kept];
    FlattenSplit(left, i);
    FlattenSplit(left', i);
    assert left'[..i] == left[..i] && left'[i + 1..] == left[i + 1..];
    FlattenNothing(left[..i]);
    assert before + ([] + (taken + kept) + rest) == (before + taken) + ([] + kept + rest);
  }

  /** Taking characters off the first view that has any takes them off the front of the whole: what was
      read before, what is read now and what is left stay the same. */
  lemma TakeFront(left: seq<seq<Byte>>, i: nat, n: nat, before: seq<Byte>)
    requires i < |left| && forall k | 0 <= k < i :: left[k] == []
    ensures |Upto(left[i], n)| <= n && (|Upto(left[i], n)| < n ==> Beyond(left[i], n) == [])
    ensures before + Flatten(left) == (before + Upto(left[i], n)) + Flatten(left[i := Beyond(left[i], n)])
  {
    UptoBeyond(left[i], n);
    TakenInPlace(left, i, Upto(left[i], n), Beyond(left[i], n), before);
  }

  class Buffer {
    var total: nat
    var totalRead: nat
    var totalWritten: nat
    var synced: nat
    var canRead: bool
    var canWrite: bool
    var blocks: seq<Block>
    var requests: seq<Kind>
    var answers: seq<Answer>
    var allocBlock: Option<Block>
    const allocSize: nat
    ghost var stored: seq<Byte>

    /** The counters agree with each other and say how much is in the blocks. */
    ghost predicate Valid()
      reads this
    {
      && total == |Unread(blocks)|
      && totalWritten == totalRead + total
      && (allocBlock.Some? ==> allocBlock.value.read == allocBlock.value.pos == 0)
    }

    /** The byte queue this buffer stands for. */
    ghost function Abstract(): Q
      reads this
    {
      Q(Unread(blocks), synced, canWrite, canRead, requests, answers, stored)
    }

    constructor (allocSize: nat)
      ensures Valid() && Abstract() == EMPTY && this.allocSize == allocSize && allocBlock == None
    {
      this.allocSize := allocSize;
      total, totalRead, totalWritten, synced := 0, 0, 0, 0;
      canRead, canWrite := true, true;
      blocks, requests, answers, stored := [], [], [], [];
      allocBlock := None;
    }

    predicate CanSatisfyNow(count: nat)
      reads this
    {
      synced > 0 || total >= count || !canWrite
    }

    // ----- the read head

    /** Up to n characters of one block. */
    method ReadBlock(i: nat, n: nat, advance: bool) returns (bs: seq<Byte>)
      requires i < |blocks|
      modifies this`blocks
      ensures bs == Upto(old(Views(blocks))[i], n)
      ensures Views(blocks) ==
              if advance then old(Views(blocks))[i := Beyond(old(Views(blocks))[i], n)] else old(Views(blocks))
    {
      var b := blocks[i];
      var countRead := Min(b.pos - b.read, n);
      ReadOne(b, n);
      ViewsUpdate(blocks, i, b.(read := b.read + countRead));
      hide Views, Contents, Upto, Beyond;
      bs := b.data[b.read..b.read + countRead];
      if advance {
        blocks := blocks[i := b.(read := b.read + countRead)];
      }
    }

    /** Up to count characters, from the front block on; the counters are left to the caller. */
    method ReadBlocks(count: nat, advance: bool) returns (bs: seq<Byte>)
      modifies this`blocks
      ensures bs == Upto(old(Unread(blocks)), count)
      ensures Unread(blocks) == if advance then Beyond(old(Unread(blocks)), count) else old(Unread(blocks))
    {
      hide Flatten, Upto, Beyond, Contents;
      // What is left of each block; the blocks follow it when the read heads advance.
      ghost var v := Views(blocks);
      ghost var left := v;
      bs := [];
      var i, full := 0, false;
      while i < |blocks| && !full
        invariant 0 <= i <= |blocks| == |v| == |left| && |bs| <= count
        invariant Views(blocks) == if advance then left else v
        invariant Flatten(v) == bs + Flatten(left)
        invariant full ==> |bs| == count
        invariant !full ==> forall k | 0 <= k < i :: left[k] == []
        invariant forall k | i <= k < |v| :: left[k] == v[k]
      {
        ghost var next := left[i := Beyond(left[i], count - |bs|)];
        var got := ReadBlock(i, count - |bs|, advance);
        TakeFront(left, i, count - |bs|, bs);
        bs := bs + got;
        left := next;
        i := i + 1;
        full := |bs| == count;
      }
      if !full {
        FlattenNothing(left);
      }
      UptoIs(bs, Flatten(left), count);
    }

    /** Counts the characters read and drops the used-up blocks at the front. */
    method UpdateReadHead(count: nat)
      requires total == |Unread(blocks)| + count
      modifies this`total, this`totalRead, this`synced, this`blocks
      ensures total == |Unread(blocks)| && totalRead == old(totalRead) + count
      ensures old(total) == total + count
      ensures synced == if old(synced) > count then old(synced) - count else 0
      ensures Unread(blocks) == old(Unread(blocks))
      ensures blocks != [] ==> Contents(blocks[0]) != []
    {
      hide Flatten;
      total := total - count;
      totalRead := totalRead + count;
      if synced > 0 {
        synced := if synced > count then synced - count else 0;
      }
      while blocks != [] && blocks[0].pos - blocks[0].read == 0
        invariant Unread(blocks) == old(Unread(blocks))
        modifies this`blocks
        decreases |blocks|
      {
        DropFront(blocks);
        blocks := blocks[1..];
      }
    }

    /** read: up to count characters, for good if told to advance. */
    method Read(count: nat, advance: bool) returns (bs: seq<Byte>)
      requires Valid()
      modifies this`total, this`totalRead, this`synced, this`blocks
      ensures Valid() && bs == Upto(old(Abstract()).unread, count)
      ensures Abstract() == if advance then Drop(old(Abstract()), count) else old(Abstract())
    {
      UptoBeyond(Unread(blocks), count);
      hide Unread, Upto, Beyond;
      bs := ReadBlocks(count, advance);
      if advance {
        UpdateReadHead(|bs|);
      }
    }

    // ----- requests

    /** A request's callback, run once the request can be satisfied. */
    method CompleteRequest(k: Kind) returns (given: seq<Byte>)
      requires Valid()
      modifies this`total, this`totalRead, this`synced, this`blocks, this`answers
      ensures Valid() && Abstract() == Complete(old(Abstract()), k)
      ensures given == Given(k, old(Abstract()).unread)
    {
      hide Unread, Upto, Beyond;
      var open, flushed := canWrite, synced > 0;
      var taken: seq<Byte> := [];
      DropNothing(Abstract());
      match k {
        case Getn(n) =>
          given := Read(n, true);
          taken := given;
        case Bumpc =>
          given := Read(1, true);
          taken := given;
        case Getc =>
          given := Read(1, false);
        case Nextc =>
          taken := Read(1, true);
          given := Read(1, false);
        case Peek(n) =>
          given := Read(n, false);
        case Released(n) =>
          given := Read(n, true);
          taken := given;
      }
      answers := answers + [Answer(k, given, taken, open, flushed)];
    }

    /** Answers waiting requests until the head has to wait. */
    method FulfillOutstanding()
      requires Valid()
      modifies this`total, this`totalRead, this`synced, this`blocks, this`answers, this`requests
      ensures Valid() && Abstract() == Fulfill(old(Abstract()))
    {
      hide Complete, Unread;
      while requests != []
        invariant Valid() && Fulfill(Abstract()) == Fulfill(old(Abstract()))
        decreases |requests|
      {
        if !CanSatisfyNow(Wanted(requests[0])) {
          return;
        }
        CompleteLeavesLine(Abstract(), requests[0]);
        var _ := CompleteRequest(requests[0]);
        requests := requests[1..];
      }
    }

    /** enqueue_request: _getn, _bumpc, _getc and _nextc. */
    method EnqueueRequest(k: Kind)
      requires Valid()
      modifies this`total, this`totalRead, this`synced, this`blocks, this`answers, this`requests
      ensures Valid() && Abstract() == Apply(old(Abstract()), Request(k))
    {
      hide Complete, Unread;
      if CanSatisfyNow(Wanted(k)) {
        var _ := CompleteRequest(k);
      } else {
        requests := requests + [k];
      }
    }

    /** _sgetn, _scopy, _sbumpc and _sgetc; None stands for requires_async. */
    method ReadNow(k: Kind) returns (r: Option<seq<Byte>>)
      requires Valid()
      modifies this`total, this`totalRead, this`synced, this`blocks, this`answers
      ensures Valid() && Abstract() == Apply(old(Abstract()), SyncRead(k))
      ensures r == if CanSatisfy(old(Abstract()), Wanted(k)) then Some(Given(k, old(Abstract()).unread)) else None
    {
      hide Complete, Given, Unread;
      if CanSatisfyNow(Wanted(k)) {
        var given := CompleteRequest(k);
        r := Some(given);
      } else {
        r := None;
      }
    }

    // ----- acquire and release

    /** The characters of the front block, to be read where they are. */
    method Acquire() returns (r: Acquired)
      requires Valid()
      ensures r.chars.Some? <==> canRead && blocks != []
      ensures r.chars.Some? ==> r.chars.value <= Abstract().unread && |r.chars.value| == blocks[0].pos - blocks[0].read
      ensures canRead && Abstract().unread != [] ==> r.chars.Some?
      ensures r.ok <==> r.chars.Some? || (canRead && !canWrite)
    {
      if !canRead {
        return Acquired(false, None);
      }
      if blocks == [] {
        return Acquired(!canWrite, None);
      }
      FrontIsPrefix(blocks);
      r := Acquired(true, Some(blocks[0].data[blocks[0].read..blocks[0].pos]));
    }

    /** Gives back the front block after count of its characters have been read in place. */
    method Release(count: nat)
      requires Valid() && blocks != [] && count <= blocks[0].pos - blocks[0].read
      modifies this`total, this`totalRead, this`synced, this`blocks, this`answers
      ensures Valid() && Abstract() == Apply(old(Abstract()), Op.Release(count))
    {
      var open, flushed := canWrite, synced > 0;
      UptoBeyond(Unread(blocks), count);
      hide Unread, Upto, Beyond;
      var bs := AdvanceFront(count);
      UpdateReadHead(count);
      answers := answers + [Answer(Released(count), bs, bs, open, flushed)];
    }

    /** Moves the read head of the front block; the counters are left to the caller. */
    method AdvanceFront(count: nat) returns (bs: seq<Byte>)
      requires blocks != [] && count <= blocks[0].pos - blocks[0].read
      modifies this`blocks
      ensures bs == Upto(old(Unread(blocks)), count) && |bs| == count
      ensures Unread(blocks) == Beyond(old(Unread(blocks)), count)
    {
      ReleaseFront(blocks, count);
      hide Unread, Upto, Beyond, Contents;
      bs := blocks[0].data[blocks[0].read..blocks[0].read + count];
      blocks := blocks[0 := blocks[0].(read := blocks[0].read + count)];
    }

    // ----- the write head

    /** Counts the characters written and sees who can be answered now. */
    method UpdateWriteHead(count: nat, ghost data: seq<Byte>)
      requires total + count == |Unread(blocks)| && totalWritten == totalRead + total
      requires allocBlock.Some? ==> allocBlock.value.read == allocBlock.value.pos == 0
      modifies this`total, this`totalRead, this`totalWritten, this`synced, this`blocks, this`answers,
               this`requests, this`stored
      ensures Valid() && Abstract() == Fulfill(old(Abstract()).(stored := old(stored) + data))
    {
      hide Unread, Fulfill;
      total := total + count;
      totalWritten := totalWritten + count;
      stored := stored + data;
      FulfillOutstanding();
    }

    /** write: refused once writing has closed, dropped once nobody can read. */
    method Write(data: seq<Byte>) returns (n: nat)
      requires Valid()
      modifies this`total, this`totalRead, this`totalWritten, this`synced, this`blocks, this`answers,
               this`requests, this`stored
      ensures Valid()
      ensures n == if old(canWrite) then |data| else 0
      ensures Abstract() ==
              if old(canWrite) && data != [] && old(canRead) then Apply(old(Abstract()), Op.Write(data))
              else old(Abstract())
    {
      if !canWrite || data == [] {
        return 0;
      }
      if !canRead {
        return |data|;
      }
      n := WriteLocked(data);
    }

    /** The part of write under the lock; the write side may have closed since write looked. */
    method WriteLocked(data: seq<Byte>) returns (n: nat)
      requires Valid() && data != []
      modifies this`total, this`totalRead, this`totalWritten, this`synced, this`blocks, this`answers,
               this`requests, this`stored
      ensures Valid() && Abstract() == Apply(old(Abstract()), Op.Write(data))
      ensures n == |data|
    {
      hide Unread, Fulfill, Room;
      MakeRoom(|data|);
      n := WriteBack(data);
      UpdateWriteHead(n, data);
    }

    /** The back block is kept if it has room for count characters; else a new one goes behind it. */
    method MakeRoom(count: nat)
      modifies this`blocks
      ensures blocks != [] && Room(blocks[|blocks| - 1]) >= count
      ensures Unread(blocks) == old(Unread(blocks))
    {
      hide Unread;
      if blocks == [] || Room(blocks[|blocks| - 1]) < count {
        var size: nat := Max(allocSize, count);
        UnreadSnoc(blocks, Chunk(0, 0, seq(size, _ => 0)));
        blocks := blocks + [Chunk(0, 0, seq(size, _ => 0))];
      }
    }

    /** Writes what fits into the back block, which is all of it. */
    method WriteBack(data: seq<Byte>) returns (n: nat)
      requires blocks != [] && Room(blocks[|blocks| - 1]) >= |data|
      modifies this`blocks
      ensures n == |data| && Unread(blocks) == old(Unread(blocks)) + data
    {
      hide Unread;
      var last := blocks[|blocks| - 1];
      n := Min(Room(last), |data|);
      var filled := last.(data := last.data[..last.pos] + data[..n] + last.data[last.pos + n..], pos := last.pos + n);
      assert Contents(filled) == Contents(last) + data;
      FillBack(blocks, filled, data);
      blocks := blocks[|blocks| - 1 := filled];
    }

    /** _alloc: room for the caller to write count characters into; refused once writing has closed. */
    method Alloc(count: nat) returns (ok: bool)
      requires Valid() && allocBlock == None
      modifies this`allocBlock
      ensures Valid() && Abstract() == old(Abstract()) && ok == canWrite
      ensures ok ==> allocBlock.Some? && Room(allocBlock.value) == count
      ensures !ok ==> allocBlock == None
    {
      if !canWrite {
        return false;
      }
      allocBlock := Some(Chunk(0, 0, seq(count, _ => 0)));
      ok := true;
    }

    /** The caller writes through the pointer that alloc gave it. */
    method FillAllocated(bs: seq<Byte>)
      requires Valid() && allocBlock.Some? && |bs| <= Room(allocBlock.value)
      modifies this`allocBlock
      ensures Valid() && Abstract() == old(Abstract()) && allocBlock.Some?
      ensures allocBlock.value.data == bs + old(allocBlock).value.data[|bs|..]
    {
      var b := allocBlock.value;
      allocBlock := Some(b.(data := bs + b.data[|bs|..]));
    }

    /** _commit: the first count characters of the allocated block become part of the stream. */
    method Commit(count: nat)
      requires Valid() && allocBlock.Some? && count <= Room(allocBlock.value)
      modifies this`total, this`totalRead, this`totalWritten, this`synced, this`blocks, this`answers,
               this`requests, this`stored, this`allocBlock
      ensures Valid() && allocBlock == None
      ensures Abstract() == Apply(old(Abstract()), Op.Write(old(allocBlock).value.data[..count]))
    {
      var b := allocBlock.value.(pos := count);
      UnreadSnoc(blocks, b);
      hide Unread, Fulfill;
      blocks := blocks + [b];
      allocBlock := None;
      UpdateWriteHead(count, b.data[..count]);
    }

    /** _sync: whatever is in the buffer now may be read without waiting for more. */
    method SyncNow()
      requires Valid()
      modifies this`total, this`totalRead, this`synced, this`blocks, this`answers, this`requests
      ensures Valid() && Abstract() == Apply(old(Abstract()), Sync)
    {
      hide Unread, Fulfill;
      synced := total;
      FulfillOutstanding();
    }

    // ----- closing

    /** _close_write, before it takes the lock. */
    method StopWritingNow()
      requires Valid()
      modifies this`canWrite
      ensures Valid() && Abstract() == Apply(old(Abstract()), StopWriting)
    {
      canWrite := false;
    }

    /** _close_write, under the lock. */
    method Flush()
      requires Valid()
      modifies this`total, this`totalRead, this`synced, this`blocks, this`answers, this`requests
      ensures Valid() && Abstract() == Apply(old(Abstract()), FlushReaders)
    {
      hide Unread, Fulfill;
      FulfillOutstanding();
    }

    method StopReadingNow()
      requires Valid()
      modifies this`canRead
      ensures Valid() && Abstract() == Apply(old(Abstract()), StopReading)
    {
      canRead := false;
    }
  }
}
