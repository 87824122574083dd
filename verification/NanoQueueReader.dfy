/** The logger thread's steps keep the invariant of the NanoLog queue. */
module NanoQueueReader {
  import opened Common
  import opened FileWriters
  import opened LogEntries
  import opened NanoQueue
  import opened NanoQueueInvariant

  /** A step that changes nothing but where the logger thread stands. */
  lemma MoveKeeps(c: Config, s: State, pc: LoggerPc)
    requires Inv(c, s)
    requires LoggerLocked(s.lg.pc) == LoggerLocked(pc) && Pending(s.lg.pc) == Pending(pc)
    requires QueueFront(s.lg) == QueueFront(s.lg.(pc := pc))
    requires ReaderPcOk(s.q.bufs, s.q.queue, s.lg.(pc := pc))
    ensures Inv(c, GoTo(s, pc))
  {
    hide BuffersOk, ProducersOk, IndexOk, SlotsOwned, InstallersOk, QueueOk, UnreadOk, CallsOk;
  }

  // ----- the spin lock

  lemma LockSwap(c: Config, q: Queue, pcs: seq<Pc>, lock: Lock)
    requires HeapOk(c, q) && ProducersOk(c, q, pcs) && !q.lock.HeldByProducer?
    ensures ProducersOk(c, q.(lock := lock), pcs)
  {
    var q' := q.(lock := lock);
    forall r | 0 <= r < |pcs| ensures ProducerOk(c, q', r, pcs[r]) {
      assert ProducerOk(c, q, r, pcs[r]);
    }
  }

  /** Taking the lock, or releasing it, on the way to pc. */
  lemma LockKeeps(c: Config, s: State, lock: Lock, pc: LoggerPc)
    requires Inv(c, s)
    requires !s.q.lock.HeldByProducer? && lock == (if LoggerLocked(pc) then HeldByLogger else Free)
    requires Pending(s.lg.pc) == Pending(pc) && QueueFront(s.lg) == QueueFront(s.lg.(pc := pc))
    requires ReaderPcOk(s.q.bufs, s.q.queue, s.lg.(pc := pc))
    ensures Inv(c, GoTo(s.(q := s.q.(lock := lock)), pc))
  {
    hide BuffersOk, ProducersOk, IndexOk, SlotsOwned, InstallersOk, QueueOk, UnreadOk, CallsOk;
    LockSwap(c, s.q, s.pcs, lock);
  }

  // ----- fetching the front buffer

  /** The front of the queue is the buffer to read next. */
  lemma FrontIsNext(c: Config, s: State)
    requires Inv(c, s) && s.q.queue != [] && s.lg.pc.FrontLocked?
    ensures s.q.queue[0] == s.lg.base < |s.q.bufs| == |s.q.resv|
  {
    hide BufferOk, ProducersOk, IndexOk, SlotsOwned, InstallersOk, ReaderOk, PoppedOk, FilesOk, CallsOk;
    assert QueueFront(s.lg) + |s.q.queue| <= s.q.current + 1;
  }

  lemma FrontKeeps(c: Config, s: State, drain: bool)
    requires c.Valid() && Inv(c, s) && s.lg.pc == FrontLocked(drain)
    ensures LoggerStep(c, s).Some? && Inv(c, LoggerStep(c, s).value)
  {
    hide BuffersOk, ProducersOk, IndexOk, SlotsOwned, InstallersOk, QueueOk, UnreadOk, CallsOk;
    if s.q.queue != [] {
      FrontIsNext(c, s);
      assert s.q.resv[s.lg.base][..0] == [];
    }
  }

  // ----- moving a line out of its slot

  /** A published slot the reader has reached holds the line reserved for it. */
  lemma ReadableSlot(c: Config, q: Queue, lg: Logger)
    requires HeapOk(c, q) && ReaderOk(c, q, lg) && lg.pc.Take?
    ensures lg.readBuf == Some(lg.base) && ValidSlot(q, lg.base, lg.readIndex)
    ensures lg.readIndex < |q.resv[lg.base]| <= c.size
    ensures q.bufs[lg.base].flags[lg.readIndex]
    ensures q.bufs[lg.base].slots[lg.readIndex] == Full(q.resv[lg.base][lg.readIndex].line)
  {
    assert BufferOk(c, q.bufs[lg.base], q.resv[lg.base]);
    assert !q.bufs[lg.base].slots[lg.readIndex].Moved?;
  }

  /** The queue once the line under the read index has been moved out. */
  function TakenQueue(q: Queue, b: nat, r: nat): Queue
    requires b < |q.bufs| && r < |q.bufs[b].slots|
  {
    WithBuffer(q, b, q.bufs[b].(slots := q.bufs[b].slots[r := Moved]))
  }

  function TakenLogger(c: Config, lg: Logger, drain: bool, line: Line): Logger {
    var taken := lg.(popped := lg.popped + [line]);
    if lg.readIndex + 1 == c.size then
      taken.(readIndex := 0, readBuf := None, base := lg.base + 1, pc := PopWait(drain, line))
    else
      taken.(readIndex := lg.readIndex + 1, pc := Write(drain, line))
  }

  lemma TakeHeap(c: Config, q: Queue, b: nat, r: nat)
    requires HeapOk(c, q) && ValidSlot(q, b, r) && q.bufs[b].flags[r]
    ensures HeapOk(c, TakenQueue(q, b, r))
  {
    assert BufferOk(c, q.bufs[b], q.resv[b]);
    assert BufferOk(c, TakenQueue(q, b, r).bufs[b], q.resv[b]);
  }

  lemma TakeProducers(c: Config, q: Queue, pcs: seq<Pc>, b: nat, r: nat)
    requires HeapOk(c, q) && ProducersOk(c, q, pcs) && ValidSlot(q, b, r) && q.bufs[b].flags[r]
    requires HeapOk(c, TakenQueue(q, b, r))
    ensures ProducersOk(c, TakenQueue(q, b, r), pcs)
  {
    var q' := TakenQueue(q, b, r);
    assert BufferOk(c, q.bufs[b], q.resv[b]) && BufferOk(c, q.bufs[q.current], q.resv[q.current]);
    hide CountTrue;
    forall p | 0 <= p < |pcs| ensures ProducerOk(c, q', p, pcs[p]) {
      assert ProducerOk(c, q, p, pcs[p]);
    }
  }

  lemma TakeReader(c: Config, q: Queue, lg: Logger, drain: bool, line: Line)
    requires HeapOk(c, q) && ReaderOk(c, q, lg) && lg.pc.Take?
    requires ValidSlot(q, lg.base, lg.readIndex) && lg.readIndex < |q.resv[lg.base]|
    ensures ReaderOk(c, TakenQueue(q, lg.base, lg.readIndex), TakenLogger(c, lg, drain, line))
  {
    var q', lg' := TakenQueue(q, lg.base, lg.readIndex), TakenLogger(c, lg, drain, line);
    assert BufferOk(c, q.bufs[lg.base], q.resv[lg.base]);
    forall b, w | lg'.base <= b < |q'.bufs| && 0 <= w < |q'.bufs[b].slots| && (b == lg'.base ==> lg'.readIndex <= w)
      ensures !q'.bufs[b].slots[w].Moved?
    {
      assert !q.bufs[b].slots[w].Moved?;
    }
  }

  lemma TakePopped(c: Config, resv: seq<seq<Entry>>, lg: Logger, drain: bool)
    requires PoppedOk(resv, lg) && lg.readBuf.Some? && lg.base < |resv|
    requires lg.readIndex < |resv[lg.base]| <= c.size
    ensures PoppedOk(resv, TakenLogger(c, lg, drain, resv[lg.base][lg.readIndex].line))
  {
    var b, r := lg.base, lg.readIndex;
    assert resv[b][..r + 1] == resv[b][..r] + [resv[b][r]];
    assert Lines(Flatten(resv[..b]) + resv[b][..r + 1]) == Lines(Flatten(resv[..b]) + resv[b][..r]) + [resv[b][r].line];
    if r + 1 == c.size {
      assert resv[b][..r + 1] == resv[b];
      assert resv[..b + 1][..b] == resv[..b];
      assert Flatten(resv[..b + 1]) == Flatten(resv[..b]) + resv[b];
    }
  }

  /** The step at Take, given the slot it reads. */
  lemma TakeStep(c: Config, s: State, drain: bool, line: Line)
    requires s.lg.pc == Take(drain) && s.lg.readBuf == Some(s.lg.base)
    requires ValidSlot(s.q, s.lg.base, s.lg.readIndex)
    requires s.q.bufs[s.lg.base].slots[s.lg.readIndex] == Full(line)
    ensures LoggerStep(c, s) ==
            Some(s.(q := TakenQueue(s.q, s.lg.base, s.lg.readIndex), lg := TakenLogger(c, s.lg, drain, line)))
  {
  }

  lemma TakeParts(c: Config, s: State, drain: bool)
    requires c.Valid() && Inv(c, s) && s.lg.pc == Take(drain)
    ensures ValidSlot(s.q, s.lg.base, s.lg.readIndex) && s.lg.readIndex < |s.q.resv[s.lg.base]|
    ensures var line := s.q.resv[s.lg.base][s.lg.readIndex].line;
      var q', lg' := TakenQueue(s.q, s.lg.base, s.lg.readIndex), TakenLogger(c, s.lg, drain, line);
      && LoggerStep(c, s) == Some(s.(q := q', lg := lg'))
      && HeapOk(c, q')
      && ProducersOk(c, q', s.pcs)
      && ReaderOk(c, q', lg')
      && PoppedOk(q'.resv, lg')
  {
    hide LoggerStep, BufferOk, ProducersOk, IndexOk, SlotsOwned, InstallersOk, QueueOk, ReaderOk, PoppedOk,
      FilesOk, CallsOk, TakenLogger;
    var b, r := s.lg.base, s.lg.readIndex;
    ReadableSlot(c, s.q, s.lg);
    TakeStep(c, s, drain, s.q.resv[b][r].line);
    TakeHeap(c, s.q, b, r);
    TakeProducers(c, s.q, s.pcs, b, r);
    TakeReader(c, s.q, s.lg, drain, s.q.resv[b][r].line);
    TakePopped(c, s.q.resv, s.lg, drain);
  }

  /** Moving a line out changes neither what is counted nor what is reserved. */
  lemma TakenSame(q: Queue, b: nat, r: nat)
    requires b < |q.bufs| && r < |q.bufs[b].slots|
    ensures var q' := TakenQueue(q, b, r);
      q' == q.(bufs := q'.bufs) && |q'.bufs| == |q.bufs| &&
      forall i | 0 <= i < |q.bufs| :: q'.bufs[i].counted == q.bufs[i].counted && q'.bufs[i].count == q.bufs[i].count
  {
  }

  lemma TakenFiles(c: Config, lg: Logger, drain: bool, line: Line)
    requires FilesOk(c, lg) && lg.pc == Take(drain)
    ensures FilesOk(c, TakenLogger(c, lg, drain, line))
    ensures QueueFront(TakenLogger(c, lg, drain, line)) == QueueFront(lg)
    ensures LoggerLocked(TakenLogger(c, lg, drain, line).pc) == LoggerLocked(lg.pc)
  {
  }

  lemma TakeKeeps(c: Config, s: State, drain: bool)
    requires c.Valid() && Inv(c, s) && s.lg.pc == Take(drain)
    ensures LoggerStep(c, s).Some? && Inv(c, LoggerStep(c, s).value)
  {
    TakeParts(c, s, drain);
    TakenSame(s.q, s.lg.base, s.lg.readIndex);
    TakenFiles(c, s.lg, drain, s.q.resv[s.lg.base][s.lg.readIndex].line);
    hide LoggerStep, BufferOk, ProducersOk, IndexOk, SlotsOwned, InstallersOk, QueueOk, ReaderOk, PoppedOk, FilesOk,
      CallsOk, TakenQueue, TakenLogger;
  }

  // ----- dequeuing the buffer just read

  /** The buffer just read to its end is still at the front of the queue. */
  lemma DequeueReady(c: Config, q: Queue, pcs: seq<Pc>, lg: Logger)
    requires c.Valid() && HeapOk(c, q) && ProducersOk(c, q, pcs)
    requires ReaderOk(c, q, lg) && QueueOk(q.queue, q.current, pcs, lg.base - 1)
    ensures q.queue != []
  {
    // While an installer is on its way, the current buffer is empty and has not been read.
    if p :| 0 <= p < |pcs| && (pcs[p].Install1? || pcs[p].Install2?) {
      assert ProducerOk(c, q, p, pcs[p]);
    }
  }

  lemma DequeueQueue(queue: seq<nat>, current: nat, pcs: seq<Pc>, front: int)
    requires QueueOk(queue, current, pcs, front) && queue != []
    ensures QueueOk(queue[1..], current, pcs, front + 1)
  {
  }

  lemma DequeueProducers(c: Config, q: Queue, pcs: seq<Pc>)
    requires HeapOk(c, q) && ProducersOk(c, q, pcs) && q.queue != []
    ensures ProducersOk(c, q.(queue := q.queue[1..]), pcs)
  {
    var q' := q.(queue := q.queue[1..]);
    forall r | 0 <= r < |pcs| ensures ProducerOk(c, q', r, pcs[r]) {
      assert ProducerOk(c, q, r, pcs[r]);
    }
  }

  lemma DequeueKeeps(c: Config, s: State, drain: bool, line: Line)
    requires c.Valid() && Inv(c, s) && s.lg.pc == PopLocked(drain, line)
    ensures LoggerStep(c, s).Some? && Inv(c, LoggerStep(c, s).value)
  {
    hide BuffersOk, ProducersOk, IndexOk, SlotsOwned, InstallersOk, QueueOk, UnreadOk, CallsOk;
    DequeueReady(c, s.q, s.pcs, s.lg);
    DequeueProducers(c, s.q, s.pcs);
    DequeueQueue(s.q.queue, s.q.current, s.pcs, QueueFront(s.lg));
  }

  lemma FilesExist(c: Config, lg: Logger)
    requires FilesOk(c, lg)
    ensures lg.files != []
  {
  }

  lemma WriteKeeps(c: Config, s: State, drain: bool, line: Line)
    requires c.Valid() && Inv(c, s) && s.lg.pc == Write(drain, line)
    ensures LoggerStep(c, s).Some? && Inv(c, LoggerStep(c, s).value)
  {
    hide BuffersOk, ProducersOk, IndexOk, SlotsOwned, InstallersOk, QueueOk, RolledWell, UnreadOk, CallsOk, AppendLine;
    assert s.lg.files != [] by { FilesExist(c, s.lg); }
    AppendLineKeeps(c.rollLimit, s.lg.files, line);
  }

  // ----- every step of the logger thread

  lemma WaitKeeps(c: Config, s: State)
    requires c.Valid() && Inv(c, s)
    requires s.lg.pc.WaitInit? || s.lg.pc.CheckMode? || s.lg.pc.PopStart?
    ensures LoggerStep(c, s).Some? && Inv(c, LoggerStep(c, s).value)
  {
    hide BuffersOk, ProducersOk, IndexOk, SlotsOwned, InstallersOk, QueueOk, PoppedOk, FilesOk, UnreadOk,
      ReaderPosOk, CallsOk;
    match s.lg.pc
    case WaitInit => if !s.mode.Init? { MoveKeeps(c, s, CheckMode); }
    case CheckMode => MoveKeeps(c, s, PopStart(!s.mode.Ready?));
    case PopStart(drain) => MoveKeeps(c, s, if s.lg.readBuf.None? then FrontWait(drain) else Probe(drain));
  }

  lemma TakeLockKeeps(c: Config, s: State, pc: LoggerPc)
    requires Inv(c, s)
    requires match s.lg.pc
      case FrontWait(drain) => pc == FrontLocked(drain)
      case PopWait(drain, line) => pc == PopLocked(drain, line)
      case _ => false
    ensures Inv(c, TakeLock(s, pc))
  {
    hide BuffersOk, ProducersOk, IndexOk, SlotsOwned, InstallersOk, QueueOk, PoppedOk, FilesOk, UnreadOk,
      ReaderPosOk, CallsOk;
    if s.q.lock == Free {
      LockKeeps(c, s, HeldByLogger, pc);
    }
  }

  lemma UnlockKeeps(c: Config, s: State)
    requires c.Valid() && Inv(c, s)
    requires s.lg.pc.FrontUnlock? || s.lg.pc.PopUnlock?
    ensures LoggerStep(c, s).Some? && Inv(c, LoggerStep(c, s).value)
  {
    hide BuffersOk, ProducersOk, IndexOk, SlotsOwned, InstallersOk, QueueOk, PoppedOk, FilesOk, UnreadOk,
      ReaderPosOk, CallsOk;
    match s.lg.pc
    case FrontUnlock(drain) =>
      LockKeeps(c, s, Free, if s.lg.readBuf.Some? then Probe(drain) else if drain then Finished else CheckMode);
    case PopUnlock(drain, line) => LockKeeps(c, s, Free, Write(drain, line));
  }

  lemma ProbeSlot(c: Config, q: Queue, lg: Logger)
    requires HeapOk(c, q) && ReaderOk(c, q, lg) && lg.pc.Probe?
    ensures lg.readBuf == Some(lg.base) && ValidSlot(q, lg.base, lg.readIndex)
  {
    assert BufferOk(c, q.bufs[lg.base], q.resv[lg.base]);
  }

  lemma ProbeKeeps(c: Config, s: State, drain: bool)
    requires c.Valid() && Inv(c, s) && s.lg.pc == Probe(drain)
    ensures LoggerStep(c, s).Some? && Inv(c, LoggerStep(c, s).value)
  {
    hide BufferOk, ProducersOk, IndexOk, SlotsOwned, InstallersOk, QueueOk, PoppedOk, FilesOk, UnreadOk, CallsOk;
    ProbeSlot(c, s.q, s.lg);
    MoveKeeps(c, s, if s.q.bufs[s.lg.base].flags[s.lg.readIndex] then Take(drain)
                    else if drain then Finished else CheckMode);
  }

  lemma LoggerKeeps(c: Config, s: State)
    requires c.Valid() && Inv(c, s)
    ensures LoggerStep(c, s).Some? && Inv(c, LoggerStep(c, s).value)
  {
    hide Inv;
    match s.lg.pc
    case WaitInit => WaitKeeps(c, s);
    case CheckMode => WaitKeeps(c, s);
    case PopStart(_) => WaitKeeps(c, s);
    case FrontWait(drain) => TakeLockKeeps(c, s, FrontLocked(drain));
    case FrontLocked(drain) => FrontKeeps(c, s, drain);
    case FrontUnlock(_) => UnlockKeeps(c, s);
    case Probe(drain) => ProbeKeeps(c, s, drain);
    case Take(drain) => TakeKeeps(c, s, drain);
    case PopWait(drain, line) => TakeLockKeeps(c, s, PopLocked(drain, line));
    case PopLocked(drain, line) => DequeueKeeps(c, s, drain, line);
    case PopUnlock(_, _) => UnlockKeeps(c, s);
    case Write(drain, line) => WriteKeeps(c, s, drain, line);
    case Finished =>
  }
}
