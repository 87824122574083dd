/** What the logger thread gets done while the logger is READY. */
module NanoProgress {
  import opened Common
  import opened FileWriters
  import opened LogEntries
  import opened NanoQueue
  import opened NanoQueueInvariant
  import Reader = NanoQueueReader
  import opened NanoQueueTheorems
  import opened NanoLoggers

  /** The line under the read index is published. */
  predicate NextPublished(s: State) {
    ValidSlot(s.q, s.lg.base, s.lg.readIndex) && s.q.bufs[s.lg.base].flags[s.lg.readIndex]
  }

  /** A line is there to be written: popped already, or published under the read index. */
  predicate Due(s: State) {
    Pending(s.lg.pc) != [] || NextPublished(s)
  }

  /** The logger thread waits for the lock. */
  predicate Waits(s: State) {
    (s.lg.pc.FrontWait? || s.lg.pc.PopWait?) && s.q.lock != Free
  }

  /** Steps left to the logger thread before it writes a line that is due. */
  function WriteLeft(lg: Logger): nat {
    match lg.pc
    case WaitInit => 13
    case CheckMode => 12
    case PopStart(_) => 11
    case FrontWait(_) => 10
    case FrontLocked(_) => 9
    case FrontUnlock(_) => if lg.readBuf.None? then 14 else 8
    case Probe(_) => 7
    case Take(_) => 6
    case PopWait(_, _) => 5
    case PopLocked(_, _) => 4
    case PopUnlock(_, _) => 3
    case Write(_, _) => 2
    case Finished => 0
  }

  // ----- one step of the logger thread

  /** A published slot is in a buffer that has been enqueued. */
  lemma FrontThere(c: Config, s: State)
    requires Inv(c, s) && s.lg.pc.FrontLocked? && NextPublished(s)
    ensures s.q.queue != []
  {
    hide IndexOk, SlotsOwned, InstallersOk, UnreadOk, PoppedOk, FilesOk, CallsOk;
    var q := s.q;
    assert BufferOk(c, q.bufs[s.lg.base], q.resv[s.lg.base]);
    assert s.lg.readIndex < |q.resv[s.lg.base]|;
  }

  /** What one step gets done: nothing is written and the write is nearer, or the line is written. */
  predicate Nearer(s: State, s': State) {
    if s.lg.pc.Write? then s.lg.files != [] && s'.lg.pc.CheckMode? && Pending(s'.lg.pc) == []
    else s'.lg.files == s.lg.files && WriteLeft(s'.lg) < WriteLeft(s.lg) && Due(s') && !Draining(s'.lg.pc)
  }

  lemma StepNearer(c: Config, s: State)
    requires LoggerStep(c, s).Some? && s.mode.Ready? && !Draining(s.lg.pc) && Due(s) && !Waits(s)
    requires s.lg.pc.FrontLocked? ==> s.q.queue != []
    requires s.lg.pc.Probe? || s.lg.pc.Take? || (s.lg.pc.FrontUnlock? && s.lg.readBuf.Some?) ==>
               s.lg.readBuf == Some(s.lg.base)
    requires s.lg.pc.PopWait? || s.lg.pc.PopLocked? || s.lg.pc.PopUnlock? || s.lg.pc.Write? ==> s.lg.files != []
    ensures Nearer(s, LoggerStep(c, s).value)
  {
    hide AppendLine;
  }

  lemma AppendText(limit: nat, files: seq<seq<Line>>, line: Line)
    requires files != []
    ensures Flatten(AppendLine(limit, files, line)) == Flatten(files) + [line]
  {
    hide AppendLine, Flatten;
    assert files == files[..|files| - 1] + [files[|files| - 1]];
    AppendLineText(limit, files[..|files| - 1], files[|files| - 1], line);
  }

  lemma WriteStep(c: Config, s: State)
    requires s.lg.pc.Write? && s.lg.files != []
    ensures LoggerStep(c, s).Some?
    ensures Flatten(LoggerStep(c, s).value.lg.files) == Flatten(s.lg.files) + Pending(s.lg.pc)
  {
    hide AppendLine, Flatten;
    AppendText(c.rollLimit, s.lg.files, s.lg.pc.line);
  }

  /** While READY, a step of the logger thread that does not wait for the lock brings the line that is due
      nearer to its file, or writes it. */
  lemma WriteProgress(c: Config, s: State)
    requires c.Valid() && Inv(c, s) && s.mode.Ready? && !Draining(s.lg.pc) && Due(s) && !Waits(s)
    ensures LoggerStep(c, s).Some? && Nearer(s, LoggerStep(c, s).value)
    ensures s.lg.pc.Write? ==>
              Flatten(LoggerStep(c, s).value.lg.files) == Flatten(s.lg.files) + Pending(s.lg.pc)
  {
    Reader.LoggerKeeps(c, s);
    if s.lg.pc.FrontLocked? {
      FrontThere(c, s);
    }
    hide BuffersOk, ProducersOk, IndexOk, SlotsOwned, InstallersOk, LockOk, QueueOk, UnreadOk, PoppedOk, CallsOk,
      LoggerStep, Due;
    if s.lg.pc.Write? {
      WriteStep(c, s);
    }
    StepNearer(c, s);
  }

  // ----- under any schedule

  /** A buffer with the slots of another and at least its flags. */
  predicate Covers(buf: Buffer, buf': Buffer) {
    && |buf'.slots| == |buf.slots| && |buf'.counted| == |buf.counted| && |buf'.flags| == |buf.flags|
    && forall w | 0 <= w < |buf.flags| && buf.flags[w] :: buf'.flags[w]
  }

  predicate AllCovered(bufs: seq<Buffer>, bufs': seq<Buffer>) {
    |bufs'| >= |bufs| && forall b | 0 <= b < |bufs| :: Covers(bufs[b], bufs'[b])
  }

  lemma DueKept(s: State, s': State)
    requires Due(s) && s'.lg == s.lg && |s'.q.switched| >= |s.q.switched| && AllCovered(s.q.bufs, s'.q.bufs)
    ensures Due(s')
  {
    if Pending(s.lg.pc) == [] {
      assert Covers(s.q.bufs[s.lg.base], s'.q.bufs[s.lg.base]);
    }
  }

  lemma SameCovered(bufs: seq<Buffer>, more: seq<Buffer>)
    ensures AllCovered(bufs, bufs + more)
    ensures AllCovered(bufs, bufs)
  {
  }

  lemma SameBuffer()
    ensures forall buf :: Covers(buf, buf)
  {
  }

  lemma OneCovered(bufs: seq<Buffer>, b: nat, buf: Buffer)
    requires b < |bufs| && Covers(bufs[b], buf)
    ensures AllCovered(bufs, bufs[b := buf])
  {
    hide Covers;
    SameBuffer();
  }

  lemma FetchAddFrame(c: Config, s: State, p: nat, line: Line)
    requires p < |s.pcs|
    ensures var r := FetchAdd(c, s, p, line);
      r.Some? ==> r.value.lg == s.lg && r.value.q.bufs == s.q.bufs && r.value.q.switched == s.q.switched
  {
  }

  lemma ProducerCovers(c: Config, s: State, p: nat)
    requires p < |s.pcs| && ProducerStep(c, s, p).Some?
    ensures var s' := ProducerStep(c, s, p).value;
      s'.lg == s.lg && |s'.q.switched| >= |s.q.switched| && AllCovered(s.q.bufs, s'.q.bufs)
  {
    hide FetchAdd, AllCovered;
    SameCovered(s.q.bufs, [NewBuffer(c)]);
    match s.pcs[p]
    case Start(line) => FetchAddFrame(c, s, p, line);
    case HasBuffer(line, w, b) =>
      OneCovered(s.q.bufs, b, s.q.bufs[b].(slots := s.q.bufs[b].slots[w := Full(line)]));
    case Built(w, b) => OneCovered(s.q.bufs, b, s.q.bufs[b].(flags := s.q.bufs[b].flags[w := true]));
    case Published(w, b) =>
      var buf := s.q.bufs[b];
      OneCovered(s.q.bufs, b, buf.(count := buf.count + 1, counted := buf.counted[w := true]));
    case _ =>
  }

  /** Whatever a producer does, what is published stays published. */
  lemma ProducerKeepsDue(c: Config, s: State, p: nat)
    requires p < |s.pcs| && ProducerStep(c, s, p).Some? && Due(s)
    ensures Due(ProducerStep(c, s, p).value) && ProducerStep(c, s, p).value.lg == s.lg
  {
    hide Due, ProducerStep, AllCovered;
    ProducerCovers(c, s, p);
    DueKept(s, ProducerStep(c, s, p).value);
  }

  /** Every step but the logger thread's own leaves the line due and the logger where it is. */
  lemma OthersKeepDue(c: Config, s: State, s': State)
    requires Next(c, s, s') && Due(s) && LoggerStep(c, s) != Some(s')
    ensures Due(s') && s'.lg == s.lg
  {
    hide ProducerStep, LoggerStep;
    if AnyProducerStep(c, s, s') {
      var p: nat :| p < |s.pcs| && ProducerStep(c, s, p) == Some(s');
      hide Due;
      ProducerKeepsDue(c, s, p);
    }
  }

  lemma WaitsStands(c: Config, s: State)
    requires Waits(s)
    ensures LoggerStep(c, s) == Some(s)
  {
  }

  lemma FilesGrow(s: State, s': State)
    requires Pending(s.lg.pc) != [] && Flatten(s'.lg.files) == Flatten(s.lg.files) + Pending(s.lg.pc)
    ensures s'.lg.files != s.lg.files
  {
    hide Flatten;
  }

  lemma PendingWrite(pc: LoggerPc)
    ensures pc.Write? ==> Pending(pc) != []
  {
  }

  /** While READY, with a line due: a step that writes nothing keeps the line due, and brings the logger
      thread nearer to the write if it moves it. */
  lemma DueStep(c: Config, s: State, s': State)
    requires c.Valid() && Inv(c, s) && Next(c, s, s') && s.mode.Ready? && !Draining(s.lg.pc) && Due(s)
    requires s'.lg.files == s.lg.files
    ensures Due(s') && !Draining(s'.lg.pc)
    ensures WriteLeft(s'.lg) + (if s'.lg == s.lg then 0 else 1) <= WriteLeft(s.lg)
  {
    hide Inv, Next, LoggerStep, WriteLeft, Due, Pending, Waits, Draining;
    if LoggerStep(c, s) == Some(s') {
      if Waits(s) {
        WaitsStands(c, s);
      } else {
        WriteProgress(c, s);
        PendingWrite(s.lg.pc);
        if s.lg.pc.Write? {
          FilesGrow(s, s');
        }
      }
    } else {
      OthersKeepDue(c, s, s');
    }
  }

  /** Steps of the logger thread that move it, among those from run[i] to run[j]. */
  function LoggerMoves(run: seq<State>, i: nat, j: nat): nat
    requires i <= j < |run|
    decreases j
  {
    if i == j then 0 else LoggerMoves(run, i, j - 1) + (if run[j - 1].lg == run[j].lg then 0 else 1)
  }

  /** The logger thread drains only once SHUTDOWN is stored. */
  ghost predicate LateDrain(s: State) {
    (s.lg.pc.WaitInit? || !s.mode.Init?) && (Draining(s.lg.pc) ==> s.mode.Shutdown?)
  }

  lemma NextLate(c: Config, s: State, s': State)
    requires c.Valid() && Inv(c, s) && Next(c, s, s') && LateDrain(s)
    ensures LateDrain(s')
  {
    hide Inv, LoggerStep, ProducerStep;
    if LoggerStep(c, s) == Some(s') {
      LoggerFrame(c, s);
      LoggerMode(c, s);
    } else if AnyProducerStep(c, s, s') {
      var p: nat :| p < |s.pcs| && ProducerStep(c, s, p) == Some(s');
      ProducerLeavesLogger(c, s, p);
    }
  }

  lemma {:induction false} RunLate(c: Config, run: seq<State>, i: nat)
    requires c.Valid() && IsRun(c, run) && i < |run|
    ensures LateDrain(run[i])
  {
    hide Inv, Next;
    if i > 0 {
      hide LateDrain;
      RunLate(c, run, i - 1);
      RunKeeps(c, run, i - 1);
      assert Next(c, run[i - 1], run[i - 1 + 1]);
      NextLate(c, run[i - 1], run[i]);
    }
  }

  lemma NotLate(s: State)
    requires LateDrain(s) && s.mode.Ready?
    ensures !Draining(s.lg.pc)
  {
  }

  /** Under any schedule, while READY: once the next line is published or popped, the logger thread moves at
      most 14 times before it writes a line. */
  lemma {:induction false} WritesSoon(c: Config, run: seq<State>, i: nat, j: nat)
    requires c.Valid() && IsRun(c, run) && i <= j < |run| && Due(run[i])
    requires forall k | i <= k <= j :: run[k].mode.Ready? && run[k].lg.files == run[i].lg.files
    ensures Due(run[j]) && LoggerMoves(run, i, j) + WriteLeft(run[j].lg) <= WriteLeft(run[i].lg) <= 14
  {
    hide Inv, Next, Due, LateDrain;
    if i < j {
      WritesSoon(c, run, i, j - 1);
      hide WriteLeft;
      RunKeeps(c, run, j - 1);
      RunLate(c, run, j - 1);
      NotLate(run[j - 1]);
      assert Next(c, run[j - 1], run[j - 1 + 1]);
      DueStep(c, run[j - 1], run[j]);
    }
  }

  /** And it can move, or the producer that has the lock can, as it does within three steps of its own. */
  lemma NotStuck(c: Config, run: seq<State>, i: nat)
    requires c.Valid() && IsRun(c, run) && i < |run| && run[i].mode.Ready? && Due(run[i])
    ensures (LoggerStep(c, run[i]).Some? && LoggerStep(c, run[i]).value.lg != run[i].lg)
         || (run[i].q.lock.HeldByProducer? && run[i].q.lock.p < |run[i].pcs| &&
             ProducerStep(c, run[i], run[i].q.lock.p).Some? &&
             ProducerStep(c, run[i], run[i].q.lock.p) != Some(run[i]))
  {
    hide ProducerStep, LoggerStep, Next, BuffersOk, ProducersOk, IndexOk, SlotsOwned, InstallersOk, QueueOk, ReaderOk,
      PoppedOk, FilesOk, CallsOk, Due, WriteLeft;
    var s := run[i];
    RunKeeps(c, run, i);
    if Waits(s) {
      UnblockedMoves(c, s, s.q.lock.p);
    } else {
      RunLate(c, run, i);
      WriteProgress(c, s);
    }
  }

  // ----- with no producer at work

  lemma SlotThere(c: Config, q: Queue, b: nat, w: nat)
    requires HeapOk(c, q) && b < |q.bufs| && w < |q.bufs[b].flags|
    ensures ValidSlot(q, b, w)
  {
    assert BufferOk(c, q.bufs[b], q.resv[b]);
  }

  lemma OnlyCurrentOpen(c: Config, q: Queue, b: nat, w: nat)
    requires HeapOk(c, q) && b < |q.bufs| && w < c.size && |q.resv[b]| <= w
    ensures b == q.current
  {
    hide BufferOk;
  }

  /** If nothing under the read index is published, everything has been popped. */
  lemma AllPopped(c: Config, s: State)
    requires c.Valid() && Inv(c, s) && AllIdle(s) && !NextPublished(s)
    ensures s.lg.popped == Lines(Reserved(s))
  {
    hide BufferOk, ProducersOk, IndexOk, InstallersOk, SlotsOwned, QueueOk, UnreadOk, FilesOk, CallsOk;
    var q, lg := s.q, s.lg;
    if lg.base < |q.bufs| && lg.readIndex < |q.resv[lg.base]| {
      IdleFlags(c, q, s.pcs, lg.base, lg.readIndex);
      SlotThere(c, q, lg.base, lg.readIndex);
    } else if lg.base < |q.bufs| {
      assert lg.base == q.current by {
        OnlyCurrentOpen(c, q, lg.base, lg.readIndex);
      }
      assert q.resv[..lg.base + 1] == q.resv && q.resv[..lg.base + 1][..lg.base] == q.resv[..lg.base];
      assert q.resv[lg.base][..lg.readIndex] == q.resv[lg.base];
    } else {
      assert q.resv[..lg.base] == q.resv;
      assert Flatten(q.resv) + [] == Flatten(q.resv);
    }
  }

  lemma IdleIsDue(c: Config, s: State)
    requires c.Valid() && Inv(c, s) && AllIdle(s) && Flatten(s.lg.files) != Lines(Reserved(s))
    ensures Due(s) && |Flatten(s.lg.files)| < |Reserved(s)|
  {
    hide HeapOk, ProducersOk, IndexOk, InstallersOk, SlotsOwned, QueueOk, ReaderOk, CallsOk, Lines;
    PoppedPrefix(s.q.resv, s.lg);
    if Pending(s.lg.pc) == [] {
      assert Flatten(s.lg.files) + [] == Flatten(s.lg.files);
      assert Reserved(s)[..|Reserved(s)|] == Reserved(s);
      if !NextPublished(s) {
        AllPopped(c, s);
      }
    }
  }

  /** Lines not written yet first, then the steps to the next write. */
  function ReadyRank(s: State): int {
    20 * (|Reserved(s)| - |Flatten(s.lg.files)|) + WriteLeft(s.lg)
  }

  lemma WriteLeftBound(lg: Logger)
    ensures WriteLeft(lg) <= 14 && (lg.pc.Write? ==> |Pending(lg.pc)| == 1)
  {
  }

  lemma IdleWaitsNot(c: Config, s: State)
    requires Inv(c, s) && AllIdle(s)
    ensures !Waits(s)
  {
    hide HeapOk, ProducersOk, IndexOk, SlotsOwned, InstallersOk, QueueOk, ReaderOk, PoppedOk, FilesOk, CallsOk;
    if !LoggerLocked(s.lg.pc) {
      LockFree(c, s);
    }
  }

  /** While READY, with no producer at work and lines not written: a step of the logger thread lowers the
      rank. */
  lemma ReadyProgress(c: Config, s: State)
    requires c.Valid() && Inv(c, s) && s.mode.Ready? && AllIdle(s) && !Draining(s.lg.pc)
    requires Flatten(s.lg.files) != Lines(Reserved(s))
    ensures LoggerStep(c, s).Some? && ReadyRank(LoggerStep(c, s).value) < ReadyRank(s)
  {
    IdleIsDue(c, s);
    hide Inv, LoggerStep, AllIdle, Due, Pending, WriteLeft, Reserved, Flatten, Draining;
    IdleWaitsNot(c, s);
    WriteProgress(c, s);
    LoggerFrame(c, s);
    SameReserved(s, LoggerStep(c, s).value);
    WriteLeftBound(s.lg);
    WriteLeftBound(LoggerStep(c, s).value.lg);
  }

  lemma FilesBound(c: Config, s: State)
    requires Inv(c, s)
    ensures |Flatten(s.lg.files)| <= |Reserved(s)| && 0 <= ReadyRank(s)
  {
    hide HeapOk, ProducersOk, IndexOk, SlotsOwned, InstallersOk, QueueOk, ReaderOk, CallsOk;
    PoppedPrefix(s.q.resv, s.lg);
  }

  lemma BusyBegin(s: State, s': State)
    requires BeginStep(s, s')
    ensures !AllIdle(s')
  {
    var p: nat, line: Line :| p < |s.pcs| == |s.calls| && s.pcs[p].Idle? && s' == Begin(s, p, line);
    assert s'.pcs[p] == Start(line);
  }

  lemma IdleStands(c: Config, s: State, s': State)
    requires AllIdle(s) && AnyProducerStep(c, s, s')
    ensures s' == s
  {
  }

  lemma ReadyStep(c: Config, s: State, s': State)
    requires Next(c, s, s') && s' != s
    requires AllIdle(s) && AllIdle(s') && s.mode.Ready? && s'.mode.Ready?
    ensures LoggerStep(c, s) == Some(s')
  {
    hide LoggerStep, ProducerStep, AllIdle, BeginStep, AnyProducerStep;
    if BeginStep(s, s') {
      BusyBegin(s, s');
    } else if AnyProducerStep(c, s, s') {
      IdleStands(c, s, s');
    }
  }

  /** While READY and with no producer at work, only so many steps that change anything can come before every
      line added is in the files. */
  lemma {:induction false} ReadyWritesAll(c: Config, run: seq<State>, i: nat, j: nat)
    requires c.Valid() && IsRun(c, run) && i <= j < |run|
    requires forall k | i <= k <= j :: run[k].mode.Ready? && AllIdle(run[k])
    requires forall k | i <= k < j :: run[k] != run[k + 1]
    requires forall k | i <= k < j :: Flatten(run[k].lg.files) != Lines(Reserved(run[k]))
    ensures 0 <= ReadyRank(run[j]) <= ReadyRank(run[i]) - (j - i)
  {
    hide Inv, Next, LoggerStep, ReadyRank, AllIdle, Reserved, LateDrain;
    RunKeeps(c, run, j);
    FilesBound(c, run[j]);
    if i < j {
      ReadyWritesAll(c, run, i, j - 1);
      var s, s' := run[j - 1], run[j];
      RunKeeps(c, run, j - 1);
      RunLate(c, run, j - 1);
      NotLate(s);
      assert run[j - 1] != run[j - 1 + 1] && Next(c, s, run[j - 1 + 1]);
      ReadyStep(c, s, s');
      ReadyProgress(c, s);
    }
  }
}
