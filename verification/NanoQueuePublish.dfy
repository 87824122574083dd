/** Constructing, publishing and counting a slot keep the invariant of the NanoLog queue. */
module NanoQueuePublish {
  import opened Common
  import opened LogEntries
  import opened NanoQueue
  import opened NanoQueueInvariant
  import opened NanoQueueReserve

  // What Built, Published and counted slots look like, for the buffer they are in.

  function Constructed(buf: Buffer, w: nat, line: Line): Buffer
    requires w < |buf.slots|
  {
    buf.(slots := buf.slots[w := Full(line)])
  }

  function Flagged(buf: Buffer, w: nat): Buffer
    requires w < |buf.flags|
  {
    buf.(flags := buf.flags[w := true])
  }

  function Counted(buf: Buffer, w: nat): Buffer
    requires w < |buf.counted|
  {
    buf.(count := buf.count + 1, counted := buf.counted[w := true])
  }

  /** A producer with a slot in hand has its hands on a slot of the current buffer that is really there. */
  lemma HeldSlot(c: Config, q: Queue, pcs: seq<Pc>, p: nat)
    requires HeapOk(c, q) && ProducersOk(c, q, pcs)
    requires p < |pcs| && Holds(pcs[p]).Some?
    ensures ProducerOk(c, q, p, pcs[p])
    ensures Owns(c, q, p, Holds(pcs[p]).value)
    ensures ValidSlot(q, q.current, Holds(pcs[p]).value)
    ensures BufferOk(c, q.bufs[q.current], q.resv[q.current])
  {
    assert ProducerOk(c, q, p, pcs[p]);
    assert BufferOk(c, q.bufs[q.current], q.resv[q.current]);
  }

  lemma ConstructedBuffer(c: Config, buf: Buffer, resv: seq<Entry>, w: nat)
    requires BufferOk(c, buf, resv) && w < |resv| && buf.slots[w].Raw?
    ensures BufferOk(c, Constructed(buf, w, resv[w].line), resv)
  {
  }

  lemma FlaggedBuffer(c: Config, buf: Buffer, resv: seq<Entry>, w: nat)
    requires BufferOk(c, buf, resv) && w < |resv| && !buf.slots[w].Raw?
    ensures BufferOk(c, Flagged(buf, w), resv)
  {
  }

  lemma CountedBuffer(c: Config, buf: Buffer, resv: seq<Entry>, w: nat)
    requires BufferOk(c, buf, resv) && w < |resv| && buf.flags[w] && !buf.counted[w]
    ensures BufferOk(c, Counted(buf, w), resv)
    ensures buf.count < c.size
    ensures buf.count + 1 == c.size ==> |resv| == c.size
  {
    CountTrueSet(buf.counted, w);
    CountTrueFull(buf.counted);
    var counted := buf.counted[w := true];
    CountTrueFull(counted);
    assert |resv| < c.size ==> w != |resv| && !counted[|resv|];
  }

  lemma BufferHeap(c: Config, q: Queue, buf: Buffer)
    requires HeapOk(c, q) && BufferOk(c, buf, q.resv[q.current])
    requires buf.count == q.bufs[q.current].count
    ensures HeapOk(c, WithBuffer(q, q.current, buf))
  {
  }

  function CountedQueue(c: Config, q: Queue, buf: Buffer): Queue
    requires q.current < |q.bufs| && q.current < |q.switched|
  {
    if buf.count == c.size then
      WithBuffer(q, q.current, buf).(switched := q.switched[q.current := q.switched[q.current] + 1])
    else
      WithBuffer(q, q.current, buf)
  }

  lemma CountedHeap(c: Config, q: Queue, buf: Buffer)
    requires HeapOk(c, q) && BufferOk(c, buf, q.resv[q.current])
    requires q.bufs[q.current].count < c.size && buf.count == q.bufs[q.current].count + 1
    ensures HeapOk(c, CountedQueue(c, q, buf))
  {
  }

  /** The other producers do not notice work on a slot they do not hold. */
  lemma SlotProducers(c: Config, q: Queue, pcs: seq<Pc>, p: nat, pc: Pc, buf: Buffer, w: nat)
    requires HeapOk(c, q) && ProducersOk(c, q, pcs) && HeapOk(c, WithBuffer(q, q.current, buf))
    requires p < |pcs| && Holds(pcs[p]) == Some(w) && Holds(pc) == Some(w)
    requires ProducerOk(c, WithBuffer(q, q.current, buf), p, pc)
    requires buf.count == q.bufs[q.current].count && buf.counted == q.bufs[q.current].counted
    requires forall v | 0 <= v < c.size && v != w ::
               buf.slots[v] == q.bufs[q.current].slots[v] && buf.flags[v] == q.bufs[q.current].flags[v]
    ensures ProducersOk(c, WithBuffer(q, q.current, buf), pcs[p := pc])
  {
    var q', pcs' := WithBuffer(q, q.current, buf), pcs[p := pc];
    HeldSlot(c, q, pcs, p);
    forall r | 0 <= r < |pcs| ensures ProducerOk(c, q', r, pcs'[r]) {
      assert ProducerOk(c, q, r, pcs[r]);
      if r != p && Holds(pcs[r]).Some? {
        HeldSlot(c, q, pcs, r);
        assert Holds(pcs[r]).value != w;
      }
    }
  }

  /** Working on a slot the reader has not been shown keeps what the reader relies on. */
  lemma SlotReader(c: Config, q: Queue, lg: Logger, buf: Buffer, w: nat)
    requires HeapOk(c, q) && ReaderOk(c, q, lg) && HeapOk(c, WithBuffer(q, q.current, buf))
    requires |buf.slots| == |buf.flags| == c.size && w < c.size
    requires forall v | 0 <= v < c.size ::
               (q.bufs[q.current].flags[v] ==> buf.flags[v]) &&
                (buf.slots[v].Moved? ==> q.bufs[q.current].slots[v].Moved?)
    ensures ReaderOk(c, WithBuffer(q, q.current, buf), lg)
  {
    var q' := WithBuffer(q, q.current, buf);
    assert BufferOk(c, q.bufs[q.current], q.resv[q.current]);
    forall b, v | lg.base <= b < |q'.bufs| && 0 <= v < |q'.bufs[b].slots| && (b == lg.base ==> lg.readIndex <= v)
      ensures !q'.bufs[b].slots[v].Moved?
    {
      assert !q.bufs[b].slots[v].Moved?;
    }
  }

  lemma PcKeepsLock(lock: Lock, pcs: seq<Pc>, lpc: LoggerPc, p: nat, pc: Pc)
    requires LockOk(lock, pcs, lpc) && p < |pcs|
    requires !Resetting(pcs[p]) && !pcs[p].Install4?
    ensures LockOk(lock, pcs[p := pc], lpc)
  {
  }

  lemma PcKeepsSlots(counted: seq<bool>, resv: seq<Entry>, pcs: seq<Pc>, p: nat, pc: Pc)
    requires SlotsOwned(counted, resv, pcs) && p < |pcs| && Holds(pcs[p]) == Holds(pc)
    ensures SlotsOwned(counted, resv, pcs[p := pc])
  {
  }

  /** A producer constructs its item in raw memory, or publishes the one it has constructed. */
  lemma SlotKeeps(c: Config, s: State, p: nat, pc: Pc, buf: Buffer, w: nat)
    requires c.Valid() && Inv(c, s)
    requires p < |s.pcs| && Holds(s.pcs[p]) == Some(w) && Holds(pc) == Some(w)
    requires HeapOk(c, WithBuffer(s.q, s.q.current, buf))
    requires ProducersOk(c, WithBuffer(s.q, s.q.current, buf), s.pcs[p := pc])
    requires ReaderOk(c, WithBuffer(s.q, s.q.current, buf), s.lg)
    requires buf.count == s.q.bufs[s.q.current].count && buf.counted == s.q.bufs[s.q.current].counted
    ensures Inv(c, s.(q := WithBuffer(s.q, s.q.current, buf), pcs := s.pcs[p := pc]))
  {
    hide ProducersOk, ProducerOk, IndexOk, SlotsOwned, InstallersOk, LockOk, QueueOk, ReaderOk, PoppedOk,
      FilesOk, CallsOk;
    IndexRoom(c, s.q.writeIndex, |s.q.resv[s.q.current]|, s.pcs, p, pc);
    PcKeepsInstallers(c, s.q.bufs[s.q.current].count, s.pcs, p, pc);
    PcKeepsIndex(c, s.q.writeIndex, |s.q.resv[s.q.current]|, s.pcs, p, pc);
    PcKeepsQueue(s.q.queue, s.q.current, s.pcs, QueueFront(s.lg), p, pc);
    SamePendingKeepsCalls(s.q.resv, s.pcs, s.calls, p, pc);
    PcKeepsLock(s.q.lock, s.pcs, s.lg.pc, p, pc);
    PcKeepsSlots(s.q.bufs[s.q.current].counted, s.q.resv[s.q.current], s.pcs, p, pc);
  }

  lemma BuildKeeps(c: Config, s: State, p: nat, line: Line, w: nat, b: nat)
    requires c.Valid() && Inv(c, s)
    requires p < |s.pcs| && s.pcs[p] == HasBuffer(line, w, b)
    ensures ProducerStep(c, s, p).Some? && Inv(c, ProducerStep(c, s, p).value)
  {
    hide BufferOk, ProducersOk, IndexOk, SlotsOwned, InstallersOk, LockOk, QueueOk, ReaderOk, PoppedOk,
      FilesOk, CallsOk;
    var q, cur := s.q, s.q.current;
    HeldSlot(c, q, s.pcs, p);
    var buf := Constructed(q.bufs[cur], w, line);
    ConstructedBuffer(c, q.bufs[cur], q.resv[cur], w);
    BufferHeap(c, q, buf);
    SlotProducers(c, q, s.pcs, p, Built(w, b), buf, w);
    SlotReader(c, q, s.lg, buf, w);
    SlotKeeps(c, s, p, Built(w, b), buf, w);
  }

  lemma PublishKeeps(c: Config, s: State, p: nat, w: nat, b: nat)
    requires c.Valid() && Inv(c, s)
    requires p < |s.pcs| && s.pcs[p] == Built(w, b)
    ensures ProducerStep(c, s, p).Some? && Inv(c, ProducerStep(c, s, p).value)
  {
    hide BufferOk, ProducersOk, IndexOk, SlotsOwned, InstallersOk, LockOk, QueueOk, ReaderOk, PoppedOk,
      FilesOk, CallsOk;
    var q, cur := s.q, s.q.current;
    HeldSlot(c, q, s.pcs, p);
    var buf := Flagged(q.bufs[cur], w);
    FlaggedBuffer(c, q.bufs[cur], q.resv[cur], w);
    BufferHeap(c, q, buf);
    SlotProducers(c, q, s.pcs, p, Published(w, b), buf, w);
    SlotReader(c, q, s.lg, buf, w);
    SlotKeeps(c, s, p, Published(w, b), buf, w);
  }

  // ----- counting the slot

  lemma CountProducers(c: Config, q: Queue, pcs: seq<Pc>, p: nat, w: nat, pc: Pc)
    requires HeapOk(c, q) && ProducersOk(c, q, pcs)
    requires p < |pcs| && pcs[p].Published? && pcs[p].slot == w
    requires ValidSlot(q, q.current, w) && HeapOk(c, CountedQueue(c, q, Counted(q.bufs[q.current], w)))
    requires ProducerOk(c, CountedQueue(c, q, Counted(q.bufs[q.current], w)), p, pc)
    ensures ProducersOk(c, CountedQueue(c, q, Counted(q.bufs[q.current], w)), pcs[p := pc])
  {
    var q', pcs' := CountedQueue(c, q, Counted(q.bufs[q.current], w)), pcs[p := pc];
    HeldSlot(c, q, pcs, p);
    CountedBuffer(c, q.bufs[q.current], q.resv[q.current], w);
    forall r | 0 <= r < |pcs| ensures ProducerOk(c, q', r, pcs'[r]) {
      assert ProducerOk(c, q, r, pcs[r]);
      if r != p && Holds(pcs[r]).Some? {
        HeldSlot(c, q, pcs, r);
        assert Holds(pcs[r]).value != w;
      }
    }
  }

  /** While a slot of the current buffer is won and not counted, nobody is installing. */
  lemma NobodyInstalls(c: Config, q: Queue, pcs: seq<Pc>, p: nat)
    requires HeapOk(c, q) && ProducersOk(c, q, pcs)
    requires p < |pcs| && Holds(pcs[p]).Some?
    ensures forall r | 0 <= r < |pcs| :: !Installing(pcs[r])
  {
    HeldSlot(c, q, pcs, p);
    CountTrueFull(q.bufs[q.current].counted);
    forall r | 0 <= r < |pcs| ensures !Installing(pcs[r]) {
      assert ProducerOk(c, q, r, pcs[r]);
    }
  }

  lemma CountInstallers(c: Config, count: nat, pcs: seq<Pc>, p: nat, pc: Pc)
    requires p < |pcs| && count <= c.size
    requires forall r | 0 <= r < |pcs| :: !Installing(pcs[r])
    requires pc == if count == c.size then Install0 else Idle
    ensures InstallersOk(c, count, pcs[p := pc])
  {
    if count == c.size {
      assert pcs[p := pc][p].Install0?;
    }
  }

  lemma CountSlots(counted: seq<bool>, resv: seq<Entry>, pcs: seq<Pc>, p: nat, w: nat, pc: Pc)
    requires SlotsOwned(counted, resv, pcs) && w < |counted|
    requires p < |pcs| && Holds(pcs[p]) == Some(w) && Holds(pc).None?
    ensures SlotsOwned(counted[w := true], resv, pcs[p := pc])
  {
  }

  lemma CountReader(c: Config, q: Queue, lg: Logger, w: nat)
    requires HeapOk(c, q) && ReaderOk(c, q, lg) && ValidSlot(q, q.current, w)
    ensures ReaderOk(c, CountedQueue(c, q, Counted(q.bufs[q.current], w)), lg)
  {
    hide BufferOk;
    var q' := CountedQueue(c, q, Counted(q.bufs[q.current], w));
    forall b, v | lg.base <= b < |q'.bufs| && 0 <= v < |q'.bufs[b].slots| && (b == lg.base ==> lg.readIndex <= v)
      ensures !q'.bufs[b].slots[v].Moved?
    {
      assert !q.bufs[b].slots[v].Moved?;
    }
  }

  lemma CountMoves(c: Config, s: State, p: nat, w: nat, b: nat, pc: Pc)
    requires Inv(c, s) && p < |s.pcs| && s.pcs[p] == Published(w, b) && ValidSlot(s.q, s.q.current, w)
    requires Holds(pc).None? && !Resetting(pc) && !pc.Spin? && Unreserved(pc) == []
    ensures SlotsOwned(s.q.bufs[s.q.current].counted[w := true], s.q.resv[s.q.current], s.pcs[p := pc])
    ensures IndexOk(c, s.q.writeIndex, |s.q.resv[s.q.current]|, s.pcs[p := pc])
    ensures LockOk(s.q.lock, s.pcs[p := pc], s.lg.pc)
    ensures QueueOk(s.q.queue, s.q.current, s.pcs[p := pc], QueueFront(s.lg))
    ensures CallsOk(s.q.resv, s.pcs[p := pc], s.calls)
  {
    hide ProducersOk, ProducerOk, IndexOk, SlotsOwned, InstallersOk, LockOk, QueueOk, ReaderOk, PoppedOk,
      FilesOk, CallsOk;
    IndexRoom(c, s.q.writeIndex, |s.q.resv[s.q.current]|, s.pcs, p, pc);
    CountSlots(s.q.bufs[s.q.current].counted, s.q.resv[s.q.current], s.pcs, p, w, pc);
    PcKeepsIndex(c, s.q.writeIndex, |s.q.resv[s.q.current]|, s.pcs, p, pc);
    PcKeepsLock(s.q.lock, s.pcs, s.lg.pc, p, pc);
    PcKeepsQueue(s.q.queue, s.q.current, s.pcs, QueueFront(s.lg), p, pc);
    SamePendingKeepsCalls(s.q.resv, s.pcs, s.calls, p, pc);
  }

  lemma CountStep(c: Config, s: State, p: nat, w: nat, b: nat, pc: Pc)
    requires Inv(c, s) && p < |s.pcs| && s.pcs[p] == Published(w, b)
    requires ValidSlot(s.q, s.q.current, w) && b == s.q.current
    requires pc == if Counted(s.q.bufs[s.q.current], w).count == c.size then Install0 else Idle
    ensures ProducerStep(c, s, p) ==
            Some(s.(q := CountedQueue(c, s.q, Counted(s.q.bufs[s.q.current], w)), pcs := s.pcs[p := pc]))
  {
    hide HeapOk, ProducersOk, IndexOk, SlotsOwned, InstallersOk, LockOk, QueueOk, ReaderOk, PoppedOk, FilesOk, CallsOk;
  }

  /** The successor of Published, and the three parts of the invariant that see the count. */
  lemma CountParts(c: Config, s: State, p: nat, w: nat, b: nat)
    requires c.Valid() && Inv(c, s)
    requires p < |s.pcs| && s.pcs[p] == Published(w, b)
    ensures ValidSlot(s.q, s.q.current, w)
    ensures var buf := Counted(s.q.bufs[s.q.current], w);
      var q', pc := CountedQueue(c, s.q, buf), if buf.count == c.size then Install0 else Idle;
      && ProducerStep(c, s, p) == Some(s.(q := q', pcs := s.pcs[p := pc]))
      && HeapOk(c, q')
      && ProducersOk(c, q', s.pcs[p := pc])
      && InstallersOk(c, buf.count, s.pcs[p := pc])
      && ReaderOk(c, q', s.lg)
  {
    hide ProducerStep, ProducersOk, IndexOk, SlotsOwned, InstallersOk, LockOk, QueueOk, ReaderOk, PoppedOk,
      FilesOk, CallsOk;
    var q, cur := s.q, s.q.current;
    HeldSlot(c, q, s.pcs, p);
    var buf := Counted(q.bufs[cur], w);
    var pc := if buf.count == c.size then Install0 else Idle;
    CountStep(c, s, p, w, b, pc);
    CountedBuffer(c, q.bufs[cur], q.resv[cur], w);
    CountedHeap(c, q, buf);
    CountProducers(c, q, s.pcs, p, w, pc);
    NobodyInstalls(c, q, s.pcs, p);
    CountInstallers(c, buf.count, s.pcs, p, pc);
    CountReader(c, q, s.lg, w);
  }

  lemma CountKeeps(c: Config, s: State, p: nat, w: nat, b: nat)
    requires c.Valid() && Inv(c, s)
    requires p < |s.pcs| && s.pcs[p] == Published(w, b)
    ensures ProducerStep(c, s, p).Some? && Inv(c, ProducerStep(c, s, p).value)
  {
    hide ProducerStep, ProducersOk, IndexOk, SlotsOwned, InstallersOk, LockOk, QueueOk, ReaderOk, PoppedOk,
      FilesOk, CallsOk;
    CountParts(c, s, p, w, b);
    var count := s.q.bufs[s.q.current].count + 1;
    CountMoves(c, s, p, w, b, if count == c.size then Install0 else Idle);
  }
}
