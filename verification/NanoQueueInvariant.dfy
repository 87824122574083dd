/** What every step of the NanoLog queue keeps. */
module NanoQueueInvariant {
  import opened Common
  import opened FileWriters
  import opened LogEntries
  import opened NanoQueue

  function CountTrue(bs: seq<bool>): nat {
    if bs == [] then 0 else CountTrue(bs[..|bs| - 1]) + (if bs[|bs| - 1] then 1 else 0)
  }

  lemma {:induction false} CountTrueSet(bs: seq<bool>, i: nat)
    requires i < |bs| && !bs[i]
    ensures CountTrue(bs[i := true]) == CountTrue(bs) + 1
  {
    var last := |bs| - 1;
    if i == last {
      assert bs[i := true][..last] == bs[..last];
    } else {
      assert bs[i := true][..last] == bs[..last][i := true];
      CountTrueSet(bs[..last], i);
    }
  }

  /** The completion counter reaches the size exactly when every slot is counted. */
  lemma {:induction false} CountTrueFull(bs: seq<bool>)
    ensures CountTrue(bs) <= |bs|
    ensures CountTrue(bs) == |bs| <==> forall i | 0 <= i < |bs| :: bs[i]
  {
    if bs != [] {
      var last := |bs| - 1;
      CountTrueFull(bs[..last]);
      assert forall i | 0 <= i < last :: bs[..last][i] == bs[i];
    }
  }

  lemma {:induction false} CountTrueNone(bs: seq<bool>)
    requires forall i | 0 <= i < |bs| :: !bs[i]
    ensures CountTrue(bs) == 0
  {
    if bs != [] {
      CountTrueNone(bs[..|bs| - 1]);
    }
  }

  /** How many producers wait for m_write_index to be reset. */
  function Spinners(pcs: seq<Pc>): nat {
    if pcs == [] then 0 else Spinners(pcs[..|pcs| - 1]) + (if pcs[|pcs| - 1].Spin? then 1 else 0)
  }

  lemma {:induction false} SpinnersSet(pcs: seq<Pc>, p: nat, pc: Pc)
    requires p < |pcs|
    ensures Spinners(pcs[p := pc]) ==
            Spinners(pcs) - (if pcs[p].Spin? then 1 else 0) + (if pc.Spin? then 1 else 0)
  {
    var last := |pcs| - 1;
    if p == last {
      assert pcs[p := pc][..last] == pcs[..last];
    } else {
      assert pcs[p := pc][..last] == pcs[..last][p := pc];
      SpinnersSet(pcs[..last], p, pc);
    }
  }

  lemma {:induction false} SpinnersBound(pcs: seq<Pc>)
    ensures Spinners(pcs) <= |pcs|
  {
    if pcs != [] {
      SpinnersBound(pcs[..|pcs| - 1]);
    }
  }

  /** The slot a producer has won and not yet had counted. */
  function Holds(pc: Pc): Option<nat> {
    match pc
    case HasSlot(_, w) => Some(w)
    case HasBuffer(_, w, _) => Some(w)
    case Built(w, _) => Some(w)
    case Published(w, _) => Some(w)
    case _ => None
  }

  predicate Installing(pc: Pc) {
    pc.Install0? || pc.Install1? || pc.Install2? || pc.Install3?
  }

  predicate Resetting(pc: Pc) {
    pc.Install1? || pc.Install2? || pc.Install3?
  }

  predicate LoggerLocked(pc: LoggerPc) {
    pc.FrontLocked? || pc.FrontUnlock? || pc.PopLocked? || pc.PopUnlock?
  }

  /** The address at the front of the queue; the buffer just read stays there until it is dequeued. */
  function QueueFront(lg: Logger): int {
    if lg.pc.PopWait? || lg.pc.PopLocked? then lg.base - 1 else lg.base
  }

  /** The line try_pop has moved out and the file writer has not yet written. */
  function Pending(pc: LoggerPc): seq<Line> {
    match pc
    case PopWait(_, line) => [line]
    case PopLocked(_, line) => [line]
    case PopUnlock(_, line) => [line]
    case Write(_, line) => [line]
    case _ => []
  }

  /** All lines in reservation order: by buffer, then by slot. */
  function Reserved(s: State): seq<Entry> {
    Flatten(s.q.resv)
  }

  /** The line of a call that has not won its reservation yet. */
  function Unreserved(pc: Pc): seq<Line> {
    match pc
    case Start(line) => [line]
    case Spin(line) => [line]
    case _ => []
  }

  /** One buffer, given the reservations won on it. */
  ghost predicate BufferOk(c: Config, buf: Buffer, resv: seq<Entry>) {
    && |buf.slots| == |buf.flags| == |buf.counted| == c.size
    && |resv| <= c.size
    && buf.count == CountTrue(buf.counted)
    && (forall w {:trigger buf.slots[w]} {:trigger buf.flags[w]} {:trigger buf.counted[w]}
          | |resv| <= w < c.size :: buf.slots[w].Raw? && !buf.flags[w] && !buf.counted[w])
    && (forall w | 0 <= w < c.size && buf.counted[w] :: buf.flags[w])
    && (forall w | 0 <= w < |resv| :: !buf.slots[w].Raw? ==> buf.slots[w].Moved? || buf.slots[w] == Full(resv[w].line))
    && (forall w | 0 <= w < |resv| :: buf.flags[w] ==> !buf.slots[w].Raw?)
    && (forall w | 0 <= w < |resv| :: buf.slots[w].Moved? ==> buf.flags[w])
  }

  ghost predicate BuffersOk(c: Config, bufs: seq<Buffer>, resv: seq<seq<Entry>>, switched: seq<nat>, current: nat) {
    && |bufs| == |resv| == |switched| == current + 1
    && (forall b | 0 <= b < |bufs| :: BufferOk(c, bufs[b], resv[b]))
    && (forall b | 0 <= b < current :: |resv[b]| == c.size && bufs[b].count == c.size)
    && (forall b | 0 <= b < |bufs| :: switched[b] == (if bufs[b].count == c.size then 1 else 0))
  }

  ghost predicate HeapOk(c: Config, q: Queue) {
    BuffersOk(c, q.bufs, q.resv, q.switched, q.current)
  }

  /** Producer p has won slot w of the current buffer and is not yet counted on it. */
  ghost predicate Owns(c: Config, q: Queue, p: nat, w: nat)
    requires HeapOk(c, q)
  {
    && w < |q.resv[q.current]|
    && q.resv[q.current][w].producer == p
    && !q.bufs[q.current].counted[w]
  }

  ghost predicate ProducerOk(c: Config, q: Queue, p: nat, pc: Pc)
    requires HeapOk(c, q)
  {
    var buf, resv := q.bufs[q.current], q.resv[q.current];
    && (Holds(pc).Some? ==> Owns(c, q, p, Holds(pc).value))
    && (pc.HasSlot? || pc.HasBuffer? ==>
          resv[pc.slot].line == pc.line && buf.slots[pc.slot].Raw? && !buf.flags[pc.slot])
    && (pc.HasBuffer? || pc.Built? || pc.Published? ==> pc.buf == q.current)
    && (pc.Built? ==> !buf.slots[pc.slot].Raw? && !buf.flags[pc.slot])
    && (pc.Published? ==> buf.flags[pc.slot])
    && (pc.Install0? ==> |resv| == c.size && buf.count == c.size)
    && (Resetting(pc) ==> |resv| == 0 && q.writeIndex >= c.size)
    && (pc.Install1? || pc.Install2? ==> pc.buf == q.current)
    && (pc.Install2? || pc.Install3? || pc.Install4? ==> q.lock == HeldByProducer(p))
  }

  ghost predicate ProducersOk(c: Config, q: Queue, pcs: seq<Pc>)
    requires HeapOk(c, q)
  {
    forall p | 0 <= p < |pcs| :: ProducerOk(c, q, p, pcs[p])
  }

  /** reserved is the number of slots won on the current buffer. */
  ghost predicate IndexOk(c: Config, writeIndex: nat, reserved: nat, pcs: seq<Pc>) {
    && writeIndex <= c.size + Spinners(pcs)
    && (writeIndex < c.size ==> reserved == writeIndex)
    && (writeIndex >= c.size && (forall p | 0 <= p < |pcs| :: !Resetting(pcs[p])) ==> reserved == c.size)
  }

  /** Every slot won and not yet counted has its producer at work on it. */
  ghost predicate SlotsOwned(counted: seq<bool>, resv: seq<Entry>, pcs: seq<Pc>) {
    forall w | 0 <= w < |resv| && w < |counted| && !counted[w] ::
      resv[w].producer < |pcs| && Holds(pcs[resv[w].producer]) == Some(w)
  }

  /** At most one producer is installing, and a complete current buffer has one. */
  ghost predicate InstallersOk(c: Config, count: nat, pcs: seq<Pc>) {
    && (forall p, p' | 0 <= p < |pcs| && 0 <= p' < |pcs| && Installing(pcs[p]) && Installing(pcs[p']) :: p == p')
    && ((forall p | 0 <= p < |pcs| :: !pcs[p].Install0?) ==> count < c.size)
  }

  ghost predicate LockOk(lock: Lock, pcs: seq<Pc>, pc: LoggerPc) {
    && (lock == HeldByLogger <==> LoggerLocked(pc))
    && (lock.HeldByProducer? ==>
          lock.p < |pcs| && (pcs[lock.p].Install2? || pcs[lock.p].Install3? || pcs[lock.p].Install4?))
  }

  /** m_buffers holds consecutive buffers, up to the current one unless that one is being installed. */
  ghost predicate QueueOk(queue: seq<nat>, current: nat, pcs: seq<Pc>, front: int) {
    && front >= 0
    && (forall i | 0 <= i < |queue| :: queue[i] == front + i)
    && ((forall p | 0 <= p < |pcs| :: !pcs[p].Install1? && !pcs[p].Install2?) ==> front + |queue| == current + 1)
    && (forall p | 0 <= p < |pcs| && (pcs[p].Install1? || pcs[p].Install2?) :: front + |queue| == current)
  }

  ghost predicate ReaderPcOk(bufs: seq<Buffer>, queue: seq<nat>, lg: Logger) {
    && (lg.pc.Probe? ==> lg.readBuf.Some?)
    && (lg.pc.Take? ==>
          lg.readBuf.Some? && lg.base < |bufs| && lg.readIndex < |bufs[lg.base].flags| &&
          bufs[lg.base].flags[lg.readIndex])
    && (lg.pc.FrontWait? || lg.pc.FrontLocked? || lg.pc.PopWait? || lg.pc.PopLocked? || lg.pc.PopUnlock? ==>
          lg.readBuf.None?)
    && (lg.pc.FrontUnlock? && lg.readBuf.None? ==> queue == [])
  }

  ghost predicate ReaderPosOk(c: Config, resv: seq<seq<Entry>>, lg: Logger) {
    && lg.base <= |resv|
    && lg.readIndex < c.size
    && (lg.readBuf.None? ==> lg.readIndex == 0)
    && (lg.readBuf.Some? ==> lg.readBuf.value == lg.base < |resv| && lg.readIndex <= |resv[lg.base]|)
    && (forall b | 0 <= b < lg.base :: |resv[b]| == c.size)
  }

  /** Nothing has been moved out of a slot the reader has not reached. */
  ghost predicate UnreadOk(bufs: seq<Buffer>, base: nat, readIndex: nat) {
    forall b, w | base <= b < |bufs| && 0 <= w < |bufs[b].slots| && (b == base ==> readIndex <= w) ::
      !bufs[b].slots[w].Moved?
  }

  ghost predicate ReaderOk(c: Config, q: Queue, lg: Logger) {
    && ReaderPosOk(c, q.resv, lg)
    && ReaderPcOk(q.bufs, q.queue, lg)
    && UnreadOk(q.bufs, lg.base, lg.readIndex)
  }

  /** What has been popped: the buffers read to their end, then the slots of the one being read. */
  ghost predicate PoppedOk(resv: seq<seq<Entry>>, lg: Logger) {
    && lg.base <= |resv|
    && (lg.readBuf.Some? ==> lg.base < |resv| && lg.readIndex <= |resv[lg.base]|)
    && lg.popped == Lines(Flatten(resv[..lg.base]) +
                          if lg.readBuf.None? then [] else resv[lg.base][..lg.readIndex])
  }

  ghost predicate FilesOk(c: Config, lg: Logger) {
    && RolledWell(c.rollLimit, lg.files)
    && lg.popped == Flatten(lg.files) + Pending(lg.pc)
  }

  ghost predicate CallsOk(resv: seq<seq<Entry>>, pcs: seq<Pc>, calls: seq<seq<Line>>) {
    && |calls| == |pcs|
    && forall p | 0 <= p < |pcs| :: calls[p] == Project(Flatten(resv), p) + Unreserved(pcs[p])
  }

  ghost predicate Inv(c: Config, s: State) {
    && |s.pcs| == c.producers
    && HeapOk(c, s.q)
    && ProducersOk(c, s.q, s.pcs)
    && IndexOk(c, s.q.writeIndex, |s.q.resv[s.q.current]|, s.pcs)
    && SlotsOwned(s.q.bufs[s.q.current].counted, s.q.resv[s.q.current], s.pcs)
    && InstallersOk(c, s.q.bufs[s.q.current].count, s.pcs)
    && LockOk(s.q.lock, s.pcs, s.lg.pc)
    && QueueOk(s.q.queue, s.q.current, s.pcs, QueueFront(s.lg))
    && ReaderOk(c, s.q, s.lg)
    && PoppedOk(s.q.resv, s.lg)
    && FilesOk(c, s.lg)
    && CallsOk(s.q.resv, s.pcs, s.calls)
  }

  lemma InitHeap(c: Config)
    requires c.Valid()
    ensures HeapOk(c, InitState(c).q)
  {
    CountTrueNone(NewBuffer(c).counted);
    assert BufferOk(c, NewBuffer(c), []);
    hide BufferOk;
  }

  lemma InitInv(c: Config)
    requires c.Valid()
    ensures Inv(c, InitState(c))
  {
    var s := InitState(c);
    InitHeap(c);
    hide BuffersOk;
    assert s.q.resv[..0] == [];
    assert Flatten(s.q.resv) == [];
  }
}
