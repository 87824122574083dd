/** The four steps of setup_next_write_buffer keep the invariant of the NanoLog queue. */
module NanoQueueInstall {
  import opened Common
  import opened LogEntries
  import opened NanoQueue
  import opened NanoQueueInvariant
  import opened NanoQueueReserve

  /** The queue once the next write buffer is allocated and stored. */
  function Installed(c: Config, q: Queue): Queue {
    q.(bufs := q.bufs + [NewBuffer(c)],
       current := |q.bufs|,
       resv := q.resv + [[]],
       switched := q.switched + [0])
  }

  lemma InstallHeap(c: Config, q: Queue)
    requires c.Valid() && HeapOk(c, q)
    requires |q.resv[q.current]| == c.size && q.bufs[q.current].count == c.size
    ensures HeapOk(c, Installed(c, q))
  {
    var q' := Installed(c, q);
    CountTrueNone(NewBuffer(c).counted);
    assert BufferOk(c, NewBuffer(c), []);
    hide BufferOk;
    forall b | 0 <= b < |q'.bufs| ensures BufferOk(c, q'.bufs[b], q'.resv[b]) {
      assert b <= q.current ==> BufferOk(c, q.bufs[b], q.resv[b]);
    }
  }

  /** Once a buffer is complete, nobody has a slot in hand. */
  lemma NobodyHolds(c: Config, q: Queue, pcs: seq<Pc>)
    requires HeapOk(c, q) && ProducersOk(c, q, pcs) && q.bufs[q.current].count == c.size
    ensures forall r | 0 <= r < |pcs| :: Holds(pcs[r]).None?
  {
    CountTrueFull(q.bufs[q.current].counted);
    assert BufferOk(c, q.bufs[q.current], q.resv[q.current]);
    forall r | 0 <= r < |pcs| ensures Holds(pcs[r]).None? {
      assert ProducerOk(c, q, r, pcs[r]);
    }
  }

  lemma InstallProducers(c: Config, q: Queue, pcs: seq<Pc>, p: nat)
    requires HeapOk(c, q) && HeapOk(c, Installed(c, q)) && ProducersOk(c, q, pcs)
    requires InstallersOk(c, q.bufs[q.current].count, pcs)
    requires p < |pcs| && pcs[p].Install0? && q.writeIndex >= c.size
    ensures ProducersOk(c, Installed(c, q), pcs[p := Install1(|q.bufs|)])
  {
    var q', pcs' := Installed(c, q), pcs[p := Install1(|q.bufs|)];
    assert ProducerOk(c, q, p, pcs[p]);
    NobodyHolds(c, q, pcs);
    forall r | 0 <= r < |pcs| ensures ProducerOk(c, q', r, pcs'[r]) {
      assert ProducerOk(c, q, r, pcs[r]);
      assert r != p ==> !Installing(pcs[r]);
    }
  }

  lemma InstallReady(c: Config, q: Queue, pcs: seq<Pc>, p: nat)
    requires HeapOk(c, q) && ProducersOk(c, q, pcs) && IndexOk(c, q.writeIndex, |q.resv[q.current]|, pcs)
    requires p < |pcs| && pcs[p].Install0?
    ensures q.writeIndex >= c.size
    ensures |q.resv[q.current]| == c.size && q.bufs[q.current].count == c.size
  {
    assert ProducerOk(c, q, p, pcs[p]);
  }

  lemma InstallIndex(c: Config, writeIndex: nat, reserved: nat, pcs: seq<Pc>, p: nat, b: nat)
    requires IndexOk(c, writeIndex, reserved, pcs) && writeIndex >= c.size
    requires p < |pcs| && pcs[p].Install0?
    ensures IndexOk(c, writeIndex, 0, pcs[p := Install1(b)])
  {
    SpinnersSet(pcs, p, Install1(b));
    assert Resetting(pcs[p := Install1(b)][p]);
  }

  lemma InstallInstallers(c: Config, count: nat, pcs: seq<Pc>, p: nat, b: nat)
    requires c.Valid() && InstallersOk(c, count, pcs)
    requires p < |pcs| && pcs[p].Install0?
    ensures InstallersOk(c, 0, pcs[p := Install1(b)])
  {
    var pcs' := pcs[p := Install1(b)];
    assert forall r | 0 <= r < |pcs| && r != p :: pcs'[r] == pcs[r] && !Installing(pcs'[r]);
  }

  lemma InstallQueue(c: Config, count: nat, queue: seq<nat>, current: nat, pcs: seq<Pc>, front: int, p: nat, b: nat)
    requires QueueOk(queue, current, pcs, front) && InstallersOk(c, count, pcs)
    requires p < |pcs| && pcs[p].Install0?
    ensures QueueOk(queue, current + 1, pcs[p := Install1(b)], front)
  {
    var pcs' := pcs[p := Install1(b)];
    assert forall r | 0 <= r < |pcs| :: Installing(pcs[r]) ==> r == p;
    assert pcs'[p].Install1?;
  }

  lemma InstallLock(lock: Lock, pcs: seq<Pc>, lpc: LoggerPc, p: nat, b: nat)
    requires LockOk(lock, pcs, lpc) && p < |pcs| && pcs[p].Install0?
    ensures LockOk(lock, pcs[p := Install1(b)], lpc)
  {
  }

  lemma InstallReader(c: Config, q: Queue, lg: Logger)
    requires HeapOk(c, q) && ReaderOk(c, q, lg) && PoppedOk(q.resv, lg)
    ensures ReaderOk(c, Installed(c, q), lg) && PoppedOk(Installed(c, q).resv, lg)
  {
    var q' := Installed(c, q);
    assert q'.resv[..lg.base] == q.resv[..lg.base];
    forall b, v | lg.base <= b < |q'.bufs| && 0 <= v < |q'.bufs[b].slots| && (b == lg.base ==> lg.readIndex <= v)
      ensures !q'.bufs[b].slots[v].Moved?
    {
      assert b < |q.bufs| ==> !q.bufs[b].slots[v].Moved?;
    }
  }

  lemma InstallCalls(resv: seq<seq<Entry>>, pcs: seq<Pc>, calls: seq<seq<Line>>)
    requires CallsOk(resv, pcs, calls)
    ensures CallsOk(resv + [[]], pcs, calls)
  {
    FlattenSnoc(resv, []);
    assert Flatten(resv) + [] == Flatten(resv);
  }

  lemma NothingWon(pcs: seq<Pc>, counted: seq<bool>)
    ensures SlotsOwned(counted, [], pcs)
  {
  }

  lemma AllocateKeeps(c: Config, s: State, p: nat)
    requires c.Valid() && Inv(c, s)
    requires p < |s.pcs| && s.pcs[p].Install0?
    ensures ProducerStep(c, s, p).Some? && Inv(c, ProducerStep(c, s, p).value)
  {
    hide BufferOk, ProducersOk, IndexOk, SlotsOwned, InstallersOk, LockOk, QueueOk, ReaderOk, PoppedOk,
      FilesOk, CallsOk;
    var b := |s.q.bufs|;
    InstallReady(c, s.q, s.pcs, p);
    InstallIndex(c, s.q.writeIndex, |s.q.resv[s.q.current]|, s.pcs, p, b);
    InstallInstallers(c, s.q.bufs[s.q.current].count, s.pcs, p, b);
    InstallQueue(c, s.q.bufs[s.q.current].count, s.q.queue, s.q.current, s.pcs, QueueFront(s.lg), p, b);
    InstallLock(s.q.lock, s.pcs, s.lg.pc, p, b);
    SamePendingKeepsCalls(s.q.resv, s.pcs, s.calls, p, Install1(b));
    InstallHeap(c, s.q);
    InstallProducers(c, s.q, s.pcs, p);
    InstallReader(c, s.q, s.lg);
    InstallCalls(s.q.resv, s.pcs[p := Install1(|s.q.bufs|)], s.calls);
    NothingWon(s.pcs[p := Install1(|s.q.bufs|)], NewBuffer(c).counted);
  }

  // ----- under the spin lock

  /** A step of the installer that leaves buffers and reservations alone. */
  lemma InstallerPcs(c: Config, s: State, p: nat, pc: Pc)
    requires Inv(c, s) && p < |s.pcs|
    requires Resetting(s.pcs[p]) && Resetting(pc)
    ensures var pcs' := s.pcs[p := pc];
      && IndexOk(c, s.q.writeIndex, |s.q.resv[s.q.current]|, pcs')
      && SlotsOwned(s.q.bufs[s.q.current].counted, s.q.resv[s.q.current], pcs')
      && InstallersOk(c, s.q.bufs[s.q.current].count, pcs')
      && CallsOk(s.q.resv, pcs', s.calls)
  {
    hide BufferOk, ProducersOk, LockOk, ReaderOk, PoppedOk, FilesOk, QueueOk, CallsOk;
    var pcs' := s.pcs[p := pc];
    assert Resetting(pcs'[p]);
    SpinnersSet(s.pcs, p, pc);
    assert forall r | 0 <= r < |s.pcs| :: pcs'[r].Install0? <==> s.pcs[r].Install0?;
    SamePendingKeepsCalls(s.q.resv, s.pcs, s.calls, p, pc);
  }

  lemma LockProducers(c: Config, q: Queue, pcs: seq<Pc>, p: nat, b: nat)
    requires HeapOk(c, q) && ProducersOk(c, q, pcs) && q.lock == Free
    requires p < |pcs| && pcs[p] == Install1(b)
    ensures ProducersOk(c, q.(lock := HeldByProducer(p)), pcs[p := Install2(b)])
  {
    var q', pcs' := q.(lock := HeldByProducer(p)), pcs[p := Install2(b)];
    forall r | 0 <= r < |pcs| ensures ProducerOk(c, q', r, pcs'[r]) {
      assert ProducerOk(c, q, r, pcs[r]);
    }
  }

  lemma InstallerQueue(queue: seq<nat>, current: nat, pcs: seq<Pc>, front: int, p: nat, pc: Pc)
    requires QueueOk(queue, current, pcs, front)
    requires p < |pcs| && (pcs[p].Install1? || pcs[p].Install2?) && (pc.Install1? || pc.Install2?)
    ensures QueueOk(queue, current, pcs[p := pc], front)
  {
    assert pcs[p := pc][p] == pc;
  }

  lemma LockedKeeps(c: Config, s: State, p: nat, b: nat)
    requires c.Valid() && Inv(c, s)
    requires p < |s.pcs| && s.pcs[p] == Install1(b) && s.q.lock == Free
    ensures Inv(c, s.(q := s.q.(lock := HeldByProducer(p)), pcs := s.pcs[p := Install2(b)]))
  {
    hide BufferOk, ProducersOk, IndexOk, SlotsOwned, InstallersOk, QueueOk, ReaderPosOk, ReaderPcOk, UnreadOk, PoppedOk,
      FilesOk, CallsOk;
    InstallerPcs(c, s, p, Install2(b));
    LockProducers(c, s.q, s.pcs, p, b);
    InstallerQueue(s.q.queue, s.q.current, s.pcs, QueueFront(s.lg), p, Install2(b));
  }

  lemma LockKeeps(c: Config, s: State, p: nat, b: nat)
    requires c.Valid() && Inv(c, s)
    requires p < |s.pcs| && s.pcs[p] == Install1(b)
    ensures ProducerStep(c, s, p).Some? && Inv(c, ProducerStep(c, s, p).value)
  {
    hide BufferOk, ProducersOk, IndexOk, SlotsOwned, InstallersOk, LockOk, QueueOk, ReaderOk, PoppedOk,
      FilesOk, CallsOk;
    if s.q.lock == Free {
      LockedKeeps(c, s, p, b);
    }
  }

  lemma EnqueueProducers(c: Config, q: Queue, pcs: seq<Pc>, p: nat, b: nat)
    requires HeapOk(c, q) && ProducersOk(c, q, pcs)
    requires p < |pcs| && pcs[p] == Install2(b)
    ensures b == q.current && q.lock == HeldByProducer(p)
    ensures ProducersOk(c, q.(queue := q.queue + [b]), pcs[p := Install3])
  {
    var q', pcs' := q.(queue := q.queue + [b]), pcs[p := Install3];
    assert ProducerOk(c, q, p, pcs[p]);
    forall r | 0 <= r < |pcs| ensures ProducerOk(c, q', r, pcs'[r]) {
      assert ProducerOk(c, q, r, pcs[r]);
    }
  }

  lemma EnqueueQueue(c: Config, queue: seq<nat>, current: nat, count: nat, pcs: seq<Pc>, front: int, p: nat)
    requires QueueOk(queue, current, pcs, front) && InstallersOk(c, count, pcs)
    requires p < |pcs| && pcs[p].Install2?
    ensures QueueOk(queue + [current], current, pcs[p := Install3], front)
  {
    var pcs' := pcs[p := Install3];
    assert forall r | 0 <= r < |pcs| && r != p :: pcs'[r] == pcs[r] && !Installing(pcs'[r]);
  }

  lemma EnqueueKeeps(c: Config, s: State, p: nat, b: nat)
    requires c.Valid() && Inv(c, s)
    requires p < |s.pcs| && s.pcs[p] == Install2(b)
    ensures ProducerStep(c, s, p).Some? && Inv(c, ProducerStep(c, s, p).value)
  {
    hide BufferOk, ProducersOk, IndexOk, SlotsOwned, InstallersOk, QueueOk, PoppedOk, FilesOk, CallsOk;
    InstallerPcs(c, s, p, Install3);
    EnqueueProducers(c, s.q, s.pcs, p, b);
    EnqueueQueue(c, s.q.queue, s.q.current, s.q.bufs[s.q.current].count, s.pcs, QueueFront(s.lg), p);
  }

  lemma ResetProducers(c: Config, q: Queue, pcs: seq<Pc>, p: nat)
    requires HeapOk(c, q) && ProducersOk(c, q, pcs) && InstallersOk(c, q.bufs[q.current].count, pcs)
    requires p < |pcs| && pcs[p].Install3?
    ensures q.lock == HeldByProducer(p) && |q.resv[q.current]| == 0
    ensures ProducersOk(c, q.(writeIndex := 0), pcs[p := Install4])
  {
    var q', pcs' := q.(writeIndex := 0), pcs[p := Install4];
    assert ProducerOk(c, q, p, pcs[p]);
    forall r | 0 <= r < |pcs| ensures ProducerOk(c, q', r, pcs'[r]) {
      assert ProducerOk(c, q, r, pcs[r]);
      assert r != p ==> !Installing(pcs[r]);
    }
  }

  lemma ResetIndex(c: Config, pcs: seq<Pc>)
    requires c.Valid()
    ensures IndexOk(c, 0, 0, pcs)
  {
  }

  lemma ResetInstallers(c: Config, count: nat, pcs: seq<Pc>, p: nat)
    requires InstallersOk(c, count, pcs) && p < |pcs| && pcs[p].Install3?
    ensures InstallersOk(c, count, pcs[p := Install4])
  {
    var pcs' := pcs[p := Install4];
    assert forall r | 0 <= r < |pcs| :: pcs'[r].Install0? <==> pcs[r].Install0?;
  }

  lemma ResetPcs(c: Config, s: State, p: nat)
    requires c.Valid() && Inv(c, s) && p < |s.pcs| && s.pcs[p].Install3?
    requires |s.q.resv[s.q.current]| == 0
    ensures var pcs' := s.pcs[p := Install4];
      && IndexOk(c, 0, 0, pcs')
      && InstallersOk(c, s.q.bufs[s.q.current].count, pcs')
      && QueueOk(s.q.queue, s.q.current, pcs', QueueFront(s.lg))
      && CallsOk(s.q.resv, pcs', s.calls)
  {
    hide BufferOk, ProducersOk, LockOk, CallsOk, ReaderOk, PoppedOk, FilesOk, SlotsOwned, IndexOk, InstallersOk;
    var pcs' := s.pcs[p := Install4];
    ResetIndex(c, pcs');
    ResetInstallers(c, s.q.bufs[s.q.current].count, s.pcs, p);
    assert forall r | 0 <= r < |s.pcs| ::
        pcs'[r].Install1? || pcs'[r].Install2? <==> s.pcs[r].Install1? || s.pcs[r].Install2?;
    SamePendingKeepsCalls(s.q.resv, s.pcs, s.calls, p, Install4);
  }

  lemma ResetKeeps(c: Config, s: State, p: nat)
    requires c.Valid() && Inv(c, s)
    requires p < |s.pcs| && s.pcs[p].Install3?
    ensures ProducerStep(c, s, p).Some? && Inv(c, ProducerStep(c, s, p).value)
  {
    hide BufferOk, ProducersOk, IndexOk, SlotsOwned, InstallersOk, QueueOk, ReaderPosOk, ReaderPcOk, UnreadOk, PoppedOk,
      FilesOk, CallsOk;
    ResetProducers(c, s.q, s.pcs, p);
    ResetPcs(c, s, p);
    assert s.q.resv[s.q.current] == [];
    NothingWon(s.pcs[p := Install4], s.q.bufs[s.q.current].counted);
  }

  lemma UnlockProducers(c: Config, q: Queue, pcs: seq<Pc>, p: nat)
    requires HeapOk(c, q) && ProducersOk(c, q, pcs)
    requires p < |pcs| && pcs[p].Install4?
    ensures q.lock == HeldByProducer(p)
    ensures ProducersOk(c, q.(lock := Free), pcs[p := Idle])
  {
    var q', pcs' := q.(lock := Free), pcs[p := Idle];
    assert ProducerOk(c, q, p, pcs[p]);
    forall r | 0 <= r < |pcs| ensures ProducerOk(c, q', r, pcs'[r]) {
      assert ProducerOk(c, q, r, pcs[r]);
    }
  }

  lemma UnlockKeeps(c: Config, s: State, p: nat)
    requires c.Valid() && Inv(c, s)
    requires p < |s.pcs| && s.pcs[p].Install4?
    ensures ProducerStep(c, s, p).Some? && Inv(c, ProducerStep(c, s, p).value)
  {
    hide BufferOk, ProducersOk, IndexOk, InstallersOk, QueueOk, ReaderPosOk, ReaderPcOk, UnreadOk, PoppedOk, FilesOk,
      CallsOk;
    IndexRoom(c, s.q.writeIndex, |s.q.resv[s.q.current]|, s.pcs, p, Idle);
    UnlockProducers(c, s.q, s.pcs, p);
    PcKeepsIndex(c, s.q.writeIndex, |s.q.resv[s.q.current]|, s.pcs, p, Idle);
    PcKeepsInstallers(c, s.q.bufs[s.q.current].count, s.pcs, p, Idle);
    PcKeepsQueue(s.q.queue, s.q.current, s.pcs, QueueFront(s.lg), p, Idle);
    SamePendingKeepsCalls(s.q.resv, s.pcs, s.calls, p, Idle);
  }
}
