/** Calling add and reserving a slot keep the invariant of the NanoLog queue. */
module NanoQueueReserve {
  import opened Common
  import opened LogEntries
  import opened NanoQueue
  import opened NanoQueueInvariant

  // ----- moving one producer while the shared state stands still

  lemma PcKeepsProducers(c: Config, q: Queue, pcs: seq<Pc>, p: nat, pc: Pc)
    requires HeapOk(c, q) && ProducersOk(c, q, pcs)
    requires p < |pcs| && ProducerOk(c, q, p, pc)
    ensures ProducersOk(c, q, pcs[p := pc])
  {
    assert forall r | 0 <= r < |pcs| && r != p :: pcs[p := pc][r] == pcs[r];
  }

  lemma PcKeepsInstallers(c: Config, count: nat, pcs: seq<Pc>, p: nat, pc: Pc)
    requires InstallersOk(c, count, pcs)
    requires p < |pcs| && !Installing(pcs[p]) && !Installing(pc)
    ensures InstallersOk(c, count, pcs[p := pc])
  {
    var pcs' := pcs[p := pc];
    assert forall r | 0 <= r < |pcs| && pcs[r].Install0? :: pcs'[r].Install0?;
  }

  lemma PcKeepsIndex(c: Config, writeIndex: nat, reserved: nat, pcs: seq<Pc>, p: nat, pc: Pc)
    requires IndexOk(c, writeIndex, reserved, pcs)
    requires p < |pcs| && !Resetting(pcs[p]) && !Resetting(pc)
    requires writeIndex <= c.size + Spinners(pcs[p := pc])
    ensures IndexOk(c, writeIndex, reserved, pcs[p := pc])
  {
    var pcs' := pcs[p := pc];
    assert forall r | 0 <= r < |pcs| && Resetting(pcs[r]) :: Resetting(pcs'[r]);
  }

  lemma PcKeepsQueue(queue: seq<nat>, current: nat, pcs: seq<Pc>, front: int, p: nat, pc: Pc)
    requires QueueOk(queue, current, pcs, front)
    requires p < |pcs| && !Resetting(pcs[p]) && !Resetting(pc)
    ensures QueueOk(queue, current, pcs[p := pc], front)
  {
    var pcs' := pcs[p := pc];
    assert forall r | 0 <= r < |pcs| && Resetting(pcs[r]) :: pcs'[r] == pcs[r];
  }

  /** A producer outside the installation moves to another point outside it, same slot in hand. */
  lemma PcKeeps(c: Config, s: State, p: nat, pc: Pc)
    requires Inv(c, s)
    requires p < |s.pcs| && Holds(s.pcs[p]) == Holds(pc) && ProducerOk(c, s.q, p, pc)
    requires !Installing(s.pcs[p]) && !Installing(pc) && !s.pcs[p].Install4? && !pc.Install4?
    requires s.q.writeIndex <= c.size + Spinners(s.pcs[p := pc])
    ensures ProducersOk(c, s.q, s.pcs[p := pc])
    ensures IndexOk(c, s.q.writeIndex, |s.q.resv[s.q.current]|, s.pcs[p := pc])
    ensures SlotsOwned(s.q.bufs[s.q.current].counted, s.q.resv[s.q.current], s.pcs[p := pc])
    ensures InstallersOk(c, s.q.bufs[s.q.current].count, s.pcs[p := pc])
    ensures LockOk(s.q.lock, s.pcs[p := pc], s.lg.pc)
    ensures QueueOk(s.q.queue, s.q.current, s.pcs[p := pc], QueueFront(s.lg))
  {
    hide BufferOk, ProducersOk, IndexOk, InstallersOk, QueueOk, ReaderOk, PoppedOk, FilesOk, CallsOk;
    PcKeepsProducers(c, s.q, s.pcs, p, pc);
    PcKeepsInstallers(c, s.q.bufs[s.q.current].count, s.pcs, p, pc);
    PcKeepsIndex(c, s.q.writeIndex, |s.q.resv[s.q.current]|, s.pcs, p, pc);
    PcKeepsQueue(s.q.queue, s.q.current, s.pcs, QueueFront(s.lg), p, pc);
  }

  /** Leaving the spin loop is the only move that costs the index bound, and the index is low then. */
  lemma IndexRoom(c: Config, writeIndex: nat, reserved: nat, pcs: seq<Pc>, p: nat, pc: Pc)
    requires IndexOk(c, writeIndex, reserved, pcs) && p < |pcs|
    requires pcs[p].Spin? && !pc.Spin? ==> writeIndex < c.size
    ensures writeIndex <= c.size + Spinners(pcs[p := pc])
    ensures !pcs[p].Spin? && pc.Spin? ==> writeIndex < c.size + Spinners(pcs[p := pc]) <= c.size + |pcs|
  {
    SpinnersSet(pcs, p, pc);
    SpinnersBound(pcs[p := pc]);
  }

  lemma BeginCalls(resv: seq<seq<Entry>>, pcs: seq<Pc>, calls: seq<seq<Line>>, p: nat, line: Line)
    requires CallsOk(resv, pcs, calls) && p < |pcs| && pcs[p].Idle?
    ensures CallsOk(resv, pcs[p := Start(line)], calls[p := calls[p] + [line]])
  {
  }

  /** Nothing is asked of a producer that waits or has not started. */
  lemma QuietProducer(c: Config, q: Queue, p: nat, pc: Pc)
    requires HeapOk(c, q) && (pc.Idle? || pc.Start? || pc.Spin?)
    ensures ProducerOk(c, q, p, pc)
  {
  }

  lemma BeginKeeps(c: Config, s: State, p: nat, line: Line)
    requires c.Valid() && Inv(c, s)
    requires p < |s.pcs| && s.pcs[p].Idle?
    ensures Inv(c, Begin(s, p, line))
  {
    IndexRoom(c, s.q.writeIndex, |s.q.resv[s.q.current]|, s.pcs, p, Start(line));
    hide ProducersOk, IndexOk, SlotsOwned, InstallersOk, LockOk, QueueOk, ReaderOk, PoppedOk, FilesOk, CallsOk;
    QuietProducer(c, s.q, p, Start(line));
    PcKeeps(c, s, p, Start(line));
    BeginCalls(s.q.resv, s.pcs, s.calls, p, line);
  }

  lemma LoadProducer(c: Config, q: Queue, pcs: seq<Pc>, p: nat)
    requires HeapOk(c, q) && ProducersOk(c, q, pcs) && p < |pcs| && pcs[p].HasSlot?
    ensures ProducerOk(c, q, p, HasBuffer(pcs[p].line, pcs[p].slot, q.current))
  {
    assert ProducerOk(c, q, p, pcs[p]);
  }

  lemma ModeKeeps(c: Config, s: State, s': State)
    requires c.Valid() && Inv(c, s) && ModeStep(s, s')
    ensures Inv(c, s')
  {
  }

  lemma SamePendingKeepsCalls(resv: seq<seq<Entry>>, pcs: seq<Pc>, calls: seq<seq<Line>>, p: nat, pc: Pc)
    requires CallsOk(resv, pcs, calls) && p < |pcs| && Unreserved(pcs[p]) == Unreserved(pc)
    ensures CallsOk(resv, pcs[p := pc], calls)
  {
  }

  // ----- reserving a slot

  lemma WaitKeeps(c: Config, s: State, p: nat, pc: Pc)
    requires Inv(c, s)
    requires p < |s.pcs| && Holds(s.pcs[p]) == Holds(pc) && ProducerOk(c, s.q, p, pc)
    requires !Installing(s.pcs[p]) && !Installing(pc) && !s.pcs[p].Install4? && !pc.Install4?
    requires s.q.writeIndex <= c.size + Spinners(s.pcs[p := pc])
    requires Unreserved(s.pcs[p]) == Unreserved(pc)
    ensures Inv(c, s.(pcs := s.pcs[p := pc]))
  {
    hide ProducersOk, IndexOk, SlotsOwned, InstallersOk, LockOk, QueueOk, ReaderOk, PoppedOk, FilesOk, CallsOk;
    PcKeeps(c, s, p, pc);
    SamePendingKeepsCalls(s.q.resv, s.pcs, s.calls, p, pc);
  }

  lemma SpinKeeps(c: Config, s: State, p: nat, line: Line)
    requires c.Valid() && Inv(c, s)
    requires p < |s.pcs| && s.pcs[p] == Spin(line)
    ensures ProducerStep(c, s, p).Some? && Inv(c, ProducerStep(c, s, p).value)
  {
    hide ProducersOk, ProducerOk, IndexOk, SlotsOwned, InstallersOk, LockOk, QueueOk, ReaderOk, PoppedOk,
      FilesOk, CallsOk;
    if s.q.writeIndex < c.size {
      IndexRoom(c, s.q.writeIndex, |s.q.resv[s.q.current]|, s.pcs, p, Start(line));
      assert ProducerOk(c, s.q, p, Start(line)) by { QuietProducer(c, s.q, p, Start(line)); }
      WaitKeeps(c, s, p, Start(line));
    }
  }

  lemma LoadKeeps(c: Config, s: State, p: nat, line: Line, w: nat)
    requires c.Valid() && Inv(c, s)
    requires p < |s.pcs| && s.pcs[p] == HasSlot(line, w)
    ensures ProducerStep(c, s, p).Some? && Inv(c, ProducerStep(c, s, p).value)
  {
    hide ProducersOk, ProducerOk, IndexOk, SlotsOwned, InstallersOk, LockOk, QueueOk, ReaderOk, PoppedOk,
      FilesOk, CallsOk;
    var pc := HasBuffer(line, w, s.q.current);
    IndexRoom(c, s.q.writeIndex, |s.q.resv[s.q.current]|, s.pcs, p, pc);
    LoadProducer(c, s.q, s.pcs, p);
    WaitKeeps(c, s, p, pc);
  }

  /** The queue after a winning fetch_add by p. */
  function WonSlot(q: Queue, e: Entry): Queue
    requires q.resv != []
  {
    var last := |q.resv| - 1;
    q.(writeIndex := q.writeIndex + 1, resv := q.resv[last := q.resv[last] + [e]])
  }

  /** The index can be bumped without wrapping around 2^32. */
  lemma FetchAddValue(c: Config, s: State, p: nat, line: Line)
    requires c.Valid() && |s.pcs| == c.producers && HeapOk(c, s.q)
    requires IndexOk(c, s.q.writeIndex, |s.q.resv[s.q.current]|, s.pcs)
    requires p < |s.pcs| && s.pcs[p] == Start(line)
    ensures s.q.writeIndex + 1 < UINT32
    ensures FetchAdd(c, s, p, line) == Some(
      if s.q.writeIndex < c.size then
        s.(q := WonSlot(s.q, Entry(p, line)), pcs := s.pcs[p := HasSlot(line, s.q.writeIndex)])
      else
        s.(q := s.q.(writeIndex := s.q.writeIndex + 1), pcs := s.pcs[p := Spin(line)]))
  {
    hide BufferOk;
    SpinnersSet(s.pcs, p, Spin(line));
    SpinnersBound(s.pcs[p := Spin(line)]);
  }

  lemma BumpKeepsProducers(c: Config, q: Queue, pcs: seq<Pc>)
    requires HeapOk(c, q) && ProducersOk(c, q, pcs) && q.writeIndex >= c.size
    ensures ProducersOk(c, q.(writeIndex := q.writeIndex + 1), pcs)
  {
    var q' := q.(writeIndex := q.writeIndex + 1);
    forall r | 0 <= r < |pcs| ensures ProducerOk(c, q', r, pcs[r]) {
      assert ProducerOk(c, q, r, pcs[r]);
    }
  }

  lemma BumpKeeps(c: Config, s: State)
    requires Inv(c, s) && c.size <= s.q.writeIndex < c.size + Spinners(s.pcs)
    ensures Inv(c, s.(q := s.q.(writeIndex := s.q.writeIndex + 1)))
  {
    BumpKeepsProducers(c, s.q, s.pcs);
  }

  lemma OvershootKeeps(c: Config, s: State, p: nat, line: Line)
    requires c.Valid() && Inv(c, s)
    requires p < |s.pcs| && s.pcs[p] == Start(line) && s.q.writeIndex >= c.size
    ensures FetchAdd(c, s, p, line).Some? && Inv(c, FetchAdd(c, s, p, line).value)
  {
    hide BufferOk, FetchAdd, ProducersOk, ProducerOk, IndexOk, SlotsOwned, InstallersOk, LockOk, QueueOk, ReaderOk,
      PoppedOk, FilesOk, CallsOk;
    FetchAddValue(c, s, p, line);
    var waiting := s.(pcs := s.pcs[p := Spin(line)]);
    IndexRoom(c, s.q.writeIndex, |s.q.resv[s.q.current]|, s.pcs, p, Spin(line));
    QuietProducer(c, s.q, p, Spin(line));
    WaitKeeps(c, s, p, Spin(line));
    BumpKeeps(c, waiting);
    assert FetchAdd(c, s, p, line).value == waiting.(q := s.q.(writeIndex := s.q.writeIndex + 1));
  }

  lemma WinHeap(c: Config, q: Queue, e: Entry)
    requires HeapOk(c, q) && |q.resv[q.current]| < c.size
    ensures HeapOk(c, WonSlot(q, e))
  {
    var q', cur := WonSlot(q, e), q.current;
    var w := |q.resv[cur]|;
    assert BufferOk(c, q.bufs[cur], q.resv[cur]);
    assert q'.resv[cur] == q.resv[cur] + [e];
    assert q.bufs[cur].slots[w].Raw?;
    assert BufferOk(c, q'.bufs[cur], q'.resv[cur]);
  }

  lemma WinProducers(c: Config, q: Queue, pcs: seq<Pc>, p: nat, line: Line)
    requires c.Valid() && HeapOk(c, q) && ProducersOk(c, q, pcs)
    requires p < |pcs| && |q.resv[q.current]| == q.writeIndex < c.size
    requires HeapOk(c, WonSlot(q, Entry(p, line)))
    ensures ProducersOk(c, WonSlot(q, Entry(p, line)), pcs[p := HasSlot(line, q.writeIndex)])
  {
    var q', pcs' := WonSlot(q, Entry(p, line)), pcs[p := HasSlot(line, q.writeIndex)];
    var cur := q.current;
    assert q'.resv[cur] == q.resv[cur] + [Entry(p, line)];
    assert BufferOk(c, q.bufs[cur], q.resv[cur]);
    assert q.bufs[cur].slots[q.writeIndex].Raw?;
    forall r | 0 <= r < |pcs| ensures ProducerOk(c, q', r, pcs'[r]) {
      assert ProducerOk(c, q, r, pcs[r]);
    }
  }

  lemma WinSlots(counted: seq<bool>, resv: seq<Entry>, pcs: seq<Pc>, p: nat, line: Line)
    requires SlotsOwned(counted, resv, pcs)
    requires p < |pcs| && pcs[p] == Start(line)
    ensures SlotsOwned(counted, resv + [Entry(p, line)], pcs[p := HasSlot(line, |resv|)])
  {
  }

  lemma WinReader(c: Config, q: Queue, lg: Logger, e: Entry)
    requires HeapOk(c, q) && ReaderOk(c, q, lg) && PoppedOk(q.resv, lg)
    requires |q.resv[q.current]| < c.size
    requires HeapOk(c, WonSlot(q, e))
    ensures ReaderOk(c, WonSlot(q, e), lg)
    ensures PoppedOk(WonSlot(q, e).resv, lg)
  {
    var q', cur := WonSlot(q, e), q.current;
    assert lg.base <= cur;
    assert q'.resv[..lg.base] == q.resv[..lg.base];
    if lg.readBuf.Some? {
      assert q'.resv[lg.base][..lg.readIndex] == q.resv[lg.base][..lg.readIndex];
    }
  }

  lemma WinCalls(resv: seq<seq<Entry>>, resv': seq<seq<Entry>>, pcs: seq<Pc>, calls: seq<seq<Line>>,
                 p: nat, line: Line, pc: Pc)
    requires CallsOk(resv, pcs, calls) && Flatten(resv') == Flatten(resv) + [Entry(p, line)]
    requires p < |pcs| && Unreserved(pcs[p]) == [line] && Unreserved(pc) == []
    ensures CallsOk(resv', pcs[p := pc], calls)
  {
    hide Project, Flatten, Unreserved;
    var pcs' := pcs[p := pc];
    forall r | 0 <= r < |pcs| ensures calls[r] == Project(Flatten(resv'), r) + Unreserved(pcs'[r]) {
      ProjectSnoc(Flatten(resv), Entry(p, line), r);
      assert calls[r] == Project(Flatten(resv), r) + Unreserved(pcs[r]);
      if r == p {
        assert Project(Flatten(resv'), r) + [] == Project(Flatten(resv), r) + [line];
      } else {
        assert Project(Flatten(resv), r) + [] == Project(Flatten(resv), r);
      }
    }
  }

  lemma FlattenGrow<T>(xs: seq<seq<T>>, x: T)
    requires xs != []
    ensures Flatten(xs[|xs| - 1 := xs[|xs| - 1] + [x]]) == Flatten(xs) + [x]
  {
    var last := |xs| - 1;
    assert xs[last := xs[last] + [x]][..last] == xs[..last];
  }

  lemma ReservedIsIndex(c: Config, writeIndex: nat, reserved: nat, pcs: seq<Pc>)
    requires IndexOk(c, writeIndex, reserved, pcs) && writeIndex < c.size
    ensures reserved == writeIndex
  {
  }

  lemma WinIndex(c: Config, writeIndex: nat, pcs: seq<Pc>, p: nat, line: Line)
    requires IndexOk(c, writeIndex, writeIndex, pcs)
    requires p < |pcs| && pcs[p] == Start(line) && writeIndex < c.size
    ensures IndexOk(c, writeIndex + 1, writeIndex + 1, pcs[p := HasSlot(line, writeIndex)])
  {
    SpinnersSet(pcs, p, HasSlot(line, writeIndex));
  }

  lemma WinKeepsHeap(c: Config, s: State, p: nat, line: Line)
    requires c.Valid() && Inv(c, s)
    requires p < |s.pcs| && s.pcs[p] == Start(line) && s.q.writeIndex < c.size
    ensures var q', pcs' := WonSlot(s.q, Entry(p, line)), s.pcs[p := HasSlot(line, s.q.writeIndex)];
      && HeapOk(c, q')
      && ProducersOk(c, q', pcs')
      && IndexOk(c, q'.writeIndex, |q'.resv[q'.current]|, pcs')
      && ReaderOk(c, q', s.lg)
      && PoppedOk(q'.resv, s.lg)
  {
    hide BufferOk, ProducersOk, IndexOk, SlotsOwned, InstallersOk, LockOk, QueueOk, ReaderOk, PoppedOk,
      FilesOk, CallsOk;
    ReservedIsIndex(c, s.q.writeIndex, |s.q.resv[s.q.current]|, s.pcs);
    WinHeap(c, s.q, Entry(p, line));
    WinProducers(c, s.q, s.pcs, p, line);
    WinIndex(c, s.q.writeIndex, s.pcs, p, line);
    WinReader(c, s.q, s.lg, Entry(p, line));
  }

  lemma WinKeepsPcs(c: Config, s: State, p: nat, line: Line)
    requires c.Valid() && Inv(c, s)
    requires p < |s.pcs| && s.pcs[p] == Start(line) && s.q.writeIndex < c.size
    ensures var pcs' := s.pcs[p := HasSlot(line, s.q.writeIndex)];
      && SlotsOwned(s.q.bufs[s.q.current].counted, s.q.resv[s.q.current] + [Entry(p, line)], pcs')
      && InstallersOk(c, s.q.bufs[s.q.current].count, pcs')
      && LockOk(s.q.lock, pcs', s.lg.pc)
      && QueueOk(s.q.queue, s.q.current, pcs', QueueFront(s.lg))
  {
    hide BufferOk, ProducersOk, IndexOk, InstallersOk, QueueOk, ReaderOk, PoppedOk, FilesOk, CallsOk;
    var pc := HasSlot(line, s.q.writeIndex);
    ReservedIsIndex(c, s.q.writeIndex, |s.q.resv[s.q.current]|, s.pcs);
    WinSlots(s.q.bufs[s.q.current].counted, s.q.resv[s.q.current], s.pcs, p, line);
    PcKeepsInstallers(c, s.q.bufs[s.q.current].count, s.pcs, p, pc);
    PcKeepsQueue(s.q.queue, s.q.current, s.pcs, QueueFront(s.lg), p, pc);
  }

  lemma WinKeepsCalls(c: Config, s: State, p: nat, line: Line)
    requires c.Valid() && Inv(c, s)
    requires p < |s.pcs| && s.pcs[p] == Start(line)
    ensures CallsOk(WonSlot(s.q, Entry(p, line)).resv, s.pcs[p := HasSlot(line, s.q.writeIndex)], s.calls)
  {
    hide BufferOk, ProducersOk, IndexOk, SlotsOwned, InstallersOk, LockOk, QueueOk, ReaderOk, PoppedOk, FilesOk,
      CallsOk, Flatten;
    FlattenGrow(s.q.resv, Entry(p, line));
    WinCalls(s.q.resv, WonSlot(s.q, Entry(p, line)).resv, s.pcs, s.calls, p, line, HasSlot(line, s.q.writeIndex));
  }

  lemma WonKeeps(c: Config, s: State, p: nat, line: Line)
    requires c.Valid() && Inv(c, s)
    requires p < |s.pcs| && s.pcs[p] == Start(line) && s.q.writeIndex < c.size
    ensures Inv(c, s.(q := WonSlot(s.q, Entry(p, line)), pcs := s.pcs[p := HasSlot(line, s.q.writeIndex)]))
  {
    hide BufferOk, ProducersOk, IndexOk, SlotsOwned, InstallersOk, LockOk, QueueOk, ReaderOk, PoppedOk,
      FilesOk, CallsOk;
    WinKeepsHeap(c, s, p, line);
    WinKeepsPcs(c, s, p, line);
    WinKeepsCalls(c, s, p, line);
  }

  lemma WinKeeps(c: Config, s: State, p: nat, line: Line)
    requires c.Valid() && Inv(c, s)
    requires p < |s.pcs| && s.pcs[p] == Start(line) && s.q.writeIndex < c.size
    ensures FetchAdd(c, s, p, line).Some? && Inv(c, FetchAdd(c, s, p, line).value)
  {
    FetchAddValue(c, s, p, line);
    WonKeeps(c, s, p, line);
  }
}
