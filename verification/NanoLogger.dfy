/** NanoLogger with the guaranteed queue: progress, and what the log files hold after shutdown. */
module NanoLoggers {
  import opened Common
  import opened FileWriters
  import opened LogEntries
  import opened NanoQueue
  import opened NanoQueueInvariant
  import Reader = NanoQueueReader
  import Reserve = NanoQueueReserve
  import opened NanoQueueTheorems

  // ----- no deadlock among producers

  ghost predicate AllIdle(s: State) {
    forall p | 0 <= p < |s.pcs| :: s.pcs[p].Idle?
  }

  /** A producer that would not move if scheduled: it has nothing to do, or it waits. */
  predicate Blocked(c: Config, q: Queue, pc: Pc) {
    pc.Idle? || (pc.Spin? && q.writeIndex >= c.size) || (pc.Install1? && q.lock != Free)
  }

  lemma FetchAddMoves(c: Config, s: State, p: nat, line: Line)
    requires p < |s.pcs| && s.pcs[p] == Start(line)
    ensures FetchAdd(c, s, p, line) != Some(s)
  {
    var r := FetchAdd(c, s, p, line);
    assert r.Some? ==> r.value.pcs[p] != s.pcs[p];
  }

  lemma UnblockedMoves(c: Config, s: State, p: nat)
    requires c.Valid() && Inv(c, s) && p < |s.pcs| && !Blocked(c, s.q, s.pcs[p])
    ensures ProducerStep(c, s, p).Some? && ProducerStep(c, s, p) != Some(s)
  {
    hide Inv, FetchAdd;
    ProducerKeeps(c, s, p);
    if s.pcs[p].Start? {
      FetchAddMoves(c, s, p, s.pcs[p].line);
    }
    assert !s.pcs[p].Start? ==> ProducerStep(c, s, p).value.pcs[p] != s.pcs[p];
  }

  lemma SpinnersReleased(c: Config, q: Queue, pcs: seq<Pc>)
    requires c.Valid() && HeapOk(c, q) && IndexOk(c, q.writeIndex, |q.resv[q.current]|, pcs)
    requires SlotsOwned(q.bufs[q.current].counted, q.resv[q.current], pcs)
    requires InstallersOk(c, q.bufs[q.current].count, pcs)
    requires q.writeIndex >= c.size
    ensures exists p :: 0 <= p < |pcs| && !pcs[p].Idle? && !pcs[p].Spin?
  {
    var buf, resv := q.bufs[q.current], q.resv[q.current];
    assert BufferOk(c, buf, resv);
    CountTrueFull(buf.counted);
    if p :| 0 <= p < |pcs| && Resetting(pcs[p]) {
    } else if w :| 0 <= w < |resv| && !buf.counted[w] {
      assert Holds(pcs[resv[w].producer]).Some?;
    } else {
      assert buf.count == c.size;
    }
  }

  /** Whenever some producer is inside add, some producer inside add can move, unless the logger thread
      holds the spin lock, which it releases within two steps of its own. */
  lemma NoDeadlock(c: Config, run: seq<State>, i: nat)
    requires c.Valid() && IsRun(c, run) && i < |run|
    requires exists p :: 0 <= p < |run[i].pcs| && !run[i].pcs[p].Idle?
    ensures LoggerLocked(run[i].lg.pc)
         || exists p :: 0 <= p < |run[i].pcs| &&
              ProducerStep(c, run[i], p).Some? && ProducerStep(c, run[i], p) != Some(run[i])
  {
    hide ProducerStep, Next, ProducersOk, IndexOk, SlotsOwned, InstallersOk, QueueOk, ReaderOk, PoppedOk,
      FilesOk, CallsOk;
    RunKeeps(c, run, i);
    var s := run[i];
    if !LoggerLocked(s.lg.pc) {
      var p :| 0 <= p < |s.pcs| && !s.pcs[p].Idle?;
      if s.pcs[p].Spin? && s.q.writeIndex >= c.size {
        SpinnersReleased(c, s.q, s.pcs);
        p :| 0 <= p < |s.pcs| && !s.pcs[p].Idle? && !s.pcs[p].Spin?;
      }
      if s.pcs[p].Install1? && s.q.lock != Free {
        p := s.q.lock.p;
      }
      UnblockedMoves(c, s, p);
    }
  }

  // ----- no livelock among producers

  /** An upper bound on the steps left to one of n producers: those ahead of it to the end of push or to a
      wait, and in a wait those that each reset of m_write_index may add; low is whether the index is below
      the size. */
  function Turns(n: nat, pc: Pc, low: bool): nat {
    match pc
    case Idle => 0
    case Install4 => 1
    case Install3 => 3 * n + 3
    case Install2(_) => 3 * n + 4
    case Install1(_) => 3 * n + 5
    case Install0 => 3 * n + 6
    case Published(_, _) => 3 * n + 7
    case Built(_, _) => 3 * n + 8
    case HasBuffer(_, _, _) => 3 * n + 9
    case HasSlot(_, _) => 3 * n + 10
    case Start(_) => 3 * n + (if low then 12 else 11)
    case Spin(_) => 3 * n + (if low then 13 else 10)
  }

  function TurnsOf(n: nat, pcs: seq<Pc>, low: bool): nat {
    if pcs == [] then 0 else TurnsOf(n, pcs[..|pcs| - 1], low) + Turns(n, pcs[|pcs| - 1], low)
  }

  /** An upper bound on the steps left to all producers while nobody calls add. */
  function PushRank(c: Config, s: State): nat {
    TurnsOf(c.producers, s.pcs, s.q.writeIndex < c.size)
  }

  lemma {:induction false} TurnsSet(n: nat, pcs: seq<Pc>, p: nat, pc: Pc, low: bool)
    requires p < |pcs|
    ensures TurnsOf(n, pcs[p := pc], low) == TurnsOf(n, pcs, low) - Turns(n, pcs[p], low) + Turns(n, pc, low)
  {
    hide Turns;
    var last := |pcs| - 1;
    if p == last {
      assert pcs[p := pc][..last] == pcs[..last];
    } else {
      assert pcs[p := pc][..last] == pcs[..last][p := pc];
      TurnsSet(n, pcs[..last], p, pc, low);
    }
  }

  /** A reset adds at most three steps per producer, and a win adds none. */
  lemma {:induction false} TurnsLow(n: nat, pcs: seq<Pc>)
    ensures TurnsOf(n, pcs, false) <= TurnsOf(n, pcs, true) <= TurnsOf(n, pcs, false) + 3 * |pcs|
  {
    if pcs != [] {
      TurnsLow(n, pcs[..|pcs| - 1]);
    }
  }

  lemma {:induction false} TurnsZero(n: nat, pcs: seq<Pc>, low: bool)
    ensures TurnsOf(n, pcs, low) == 0 <==> forall p | 0 <= p < |pcs| :: pcs[p].Idle?
  {
    if pcs != [] {
      var front := pcs[..|pcs| - 1];
      TurnsZero(n, front, low);
      assert forall p | 0 <= p < |front| :: front[p] == pcs[p];
    }
  }

  /** What a step of producer p does: a reset is of its own kind, and any other lets the index pass the
      size at most, and brings p on. */
  predicate Moved(c: Config, s: State, s': State, p: nat) {
    var n, low := c.producers, s.q.writeIndex < c.size;
    && p < |s.pcs| == |s'.pcs| && s'.pcs == s.pcs[p := s'.pcs[p]] && s'.pcs[p] != s.pcs[p] && s'.calls == s.calls
    && if s.pcs[p].Install3? then s'.pcs[p].Install4?
       else (s'.q.writeIndex < c.size ==> low) && Turns(n, s'.pcs[p], low) < Turns(n, s.pcs[p], low)
  }

  lemma FetchAddMoved(c: Config, s: State, p: nat, line: Line)
    requires c.Valid() && Inv(c, s) && p < |s.pcs| && s.pcs[p] == Start(line)
    ensures FetchAdd(c, s, p, line).Some? && Moved(c, s, FetchAdd(c, s, p, line).value, p)
  {
    hide BuffersOk, ProducersOk, IndexOk, SlotsOwned, InstallersOk, QueueOk, ReaderOk, PoppedOk, FilesOk, CallsOk,
      FetchAdd;
    Reserve.FetchAddValue(c, s, p, line);
  }

  lemma ProducerMoved(c: Config, s: State, p: nat)
    requires c.Valid() && Inv(c, s) && p < |s.pcs|
    requires ProducerStep(c, s, p).Some? && ProducerStep(c, s, p) != Some(s)
    ensures Moved(c, s, ProducerStep(c, s, p).value, p)
  {
    hide Inv;
    if s.pcs[p].Start? {
      FetchAddMoved(c, s, p, s.pcs[p].line);
      hide FetchAdd, Moved;
    }
  }

  lemma TurnsLower(n: nat, pcs: seq<Pc>, p: nat, pc: Pc, low: bool, low': bool)
    requires p < |pcs| <= n
    requires if pcs[p].Install3? then pc.Install4?
             else (low' ==> low) && Turns(n, pc, low) < Turns(n, pcs[p], low)
    ensures TurnsOf(n, pcs[p := pc], low') < TurnsOf(n, pcs, low)
  {
    TurnsLow(n, pcs[p := pc]);
    TurnsSet(n, pcs, p, pc, low);
    if pcs[p].Install3? {
      assert Turns(n, pcs[p], low) == 3 * n + 3 && Turns(n, pc, low) == 1;
    }
    hide TurnsOf, Turns;
  }

  /** Every producer step that moves at all lowers the rank. */
  lemma ProducerProgress(c: Config, s: State, p: nat)
    requires c.Valid() && Inv(c, s) && p < |s.pcs|
    requires ProducerStep(c, s, p).Some? && ProducerStep(c, s, p) != Some(s)
    ensures PushRank(c, ProducerStep(c, s, p).value) < PushRank(c, s)
    ensures ProducerStep(c, s, p).value.pcs != s.pcs && ProducerStep(c, s, p).value.calls == s.calls
  {
    hide ProducerStep, TurnsOf, Turns, BuffersOk, ProducersOk, IndexOk, SlotsOwned, InstallersOk, QueueOk, ReaderOk,
      PoppedOk, FilesOk, CallsOk;
    var s' := ProducerStep(c, s, p).value;
    ProducerMoved(c, s, p);
    TurnsLower(c.producers, s.pcs, p, s'.pcs[p], s.q.writeIndex < c.size, s'.q.writeIndex < c.size);
  }

  /** Steps of producers among those from run[i] to run[j]. */
  function Moves(run: seq<State>, i: nat, j: nat): nat
    requires i <= j < |run|
    decreases j
  {
    if i == j then 0 else Moves(run, i, j - 1) + (if run[j - 1].pcs == run[j].pcs then 0 else 1)
  }

  lemma BeginCalls(s: State, p: nat, line: Line)
    requires p < |s.pcs| == |s.calls|
    ensures Begin(s, p, line).calls != s.calls
  {
    assert |Begin(s, p, line).calls[p]| == |s.calls[p]| + 1;
  }

  lemma LoggerLeavesPush(c: Config, s: State)
    requires LoggerStep(c, s).Some?
    ensures LoggerStep(c, s).value.pcs == s.pcs && LoggerStep(c, s).value.q.writeIndex == s.q.writeIndex
  {
    hide AppendLine;
  }

  lemma PushStep(c: Config, s: State, s': State)
    requires c.Valid() && Inv(c, s) && Next(c, s, s') && s'.calls == s.calls
    ensures PushRank(c, s') + (if s.pcs == s'.pcs then 0 else 1) <= PushRank(c, s)
  {
    hide Inv, LoggerStep, ProducerStep, TurnsOf;
    if LoggerStep(c, s) == Some(s') {
      LoggerLeavesPush(c, s);
    } else if BeginStep(s, s') {
      var p: nat, line: Line :| p < |s.pcs| == |s.calls| && s.pcs[p].Idle? && s' == Begin(s, p, line);
      BeginCalls(s, p, line);
    } else if AnyProducerStep(c, s, s') && s' != s {
      var p: nat :| p < |s.pcs| && ProducerStep(c, s, p) == Some(s');
      ProducerProgress(c, s, p);
    }
  }

  /** Under any schedule, while nobody calls add, only so many steps of producers are left. */
  lemma {:induction false} PushesEnd(c: Config, run: seq<State>, i: nat, j: nat)
    requires c.Valid() && IsRun(c, run) && i <= j < |run|
    requires forall k | i <= k <= j :: run[k].calls == run[i].calls
    ensures Moves(run, i, j) + PushRank(c, run[j]) <= PushRank(c, run[i])
  {
    hide Inv, Next, PushRank;
    if i < j {
      PushesEnd(c, run, i, j - 1);
      RunKeeps(c, run, j - 1);
      assert Next(c, run[j - 1], run[j - 1 + 1]);
      PushStep(c, run[j - 1], run[j]);
    }
  }

  /** None are left exactly when every producer has returned from add. */
  lemma NoneLeft(c: Config, s: State)
    ensures PushRank(c, s) == 0 <==> AllIdle(s)
  {
    TurnsZero(c.producers, s.pcs, s.q.writeIndex < c.size);
  }

  // ----- shutdown

  /** Every add has returned before SHUTDOWN is stored, and none is called after. */
  ghost predicate Quiet(run: seq<State>) {
    forall i | 0 <= i < |run| && run[i].mode.Shutdown? :: AllIdle(run[i])
  }

  predicate Draining(pc: LoggerPc) {
    match pc
    case WaitInit => false
    case CheckMode => false
    case PopStart(drain) => drain
    case FrontWait(drain) => drain
    case FrontLocked(drain) => drain
    case FrontUnlock(drain) => drain
    case Probe(drain) => drain
    case Take(drain) => drain
    case PopWait(drain, _) => drain
    case PopLocked(drain, _) => drain
    case PopUnlock(drain, _) => drain
    case Write(drain, _) => drain
    case Finished => true
  }

  /** The logger drains only once SHUTDOWN is stored, and stops only when everything is popped. */
  ghost predicate DrainOk(s: State) {
    && (s.lg.pc.WaitInit? || !s.mode.Init?)
    && (Draining(s.lg.pc) ==> s.mode.Shutdown?)
    && (s.lg.pc.Finished? ==> s.lg.popped == Lines(Reserved(s)))
  }

  /** With no producer at work every reserved slot of every buffer is published. */
  lemma IdleFlags(c: Config, q: Queue, pcs: seq<Pc>, b: nat, w: nat)
    requires HeapOk(c, q) && SlotsOwned(q.bufs[q.current].counted, q.resv[q.current], pcs)
    requires forall p | 0 <= p < |pcs| :: pcs[p].Idle?
    requires b < |q.bufs| && w < |q.resv[b]|
    ensures w < |q.bufs[b].flags| && q.bufs[b].flags[w]
  {
    assert BufferOk(c, q.bufs[b], q.resv[b]);
    CountTrueFull(q.bufs[b].counted);
    assert q.bufs[b].counted[w];
  }

  /** An empty queue, or an unpublished slot under the read index, means everything has been popped. */
  lemma NothingLeft(c: Config, s: State)
    requires c.Valid() && Inv(c, s) && AllIdle(s)
    requires (s.lg.pc.FrontUnlock? && s.lg.readBuf.None?)
          || (s.lg.pc.Probe? && ValidSlot(s.q, s.lg.base, s.lg.readIndex) && !s.q.bufs[s.lg.base].flags[s.lg.readIndex])
    ensures s.lg.popped == Lines(Reserved(s))
  {
    hide BufferOk, ProducersOk, IndexOk, InstallersOk, SlotsOwned, UnreadOk, FilesOk, CallsOk;
    var q, lg := s.q, s.lg;
    if lg.pc.FrontUnlock? {
      assert lg.base == |q.bufs|;
      assert q.resv[..lg.base] == q.resv;
      assert Flatten(q.resv) + [] == Flatten(q.resv);
    } else {
      if lg.readIndex < |q.resv[lg.base]| {
        IdleFlags(c, q, s.pcs, lg.base, lg.readIndex);
      }
      assert q.resv[lg.base][..lg.readIndex] == q.resv[lg.base];
    }
  }

  lemma SameReserved(s: State, s': State)
    requires s'.q.resv == s.q.resv
    ensures Reserved(s') == Reserved(s)
  {
  }

  /** The logger thread leaves the reservations, the producers and the mode alone. */
  lemma LoggerFrame(c: Config, s: State)
    requires LoggerStep(c, s).Some?
    ensures var s' := LoggerStep(c, s).value; s'.q.resv == s.q.resv && s'.pcs == s.pcs && s'.mode == s.mode
  {
    hide AppendLine;
  }

  /** It starts once the mode is set, drains only after SHUTDOWN, and stays finished. */
  lemma LoggerMode(c: Config, s: State)
    requires LoggerStep(c, s).Some?
    requires (s.lg.pc.WaitInit? || !s.mode.Init?) && (Draining(s.lg.pc) ==> s.mode.Shutdown?)
    ensures var s' := LoggerStep(c, s).value;
      && (s'.lg.pc.WaitInit? || !s.mode.Init?) && (Draining(s'.lg.pc) ==> s.mode.Shutdown?)
      && (s.lg.pc.Finished? ==> s' == s)
  {
    hide AppendLine;
  }

  lemma FinishPopsNothing(c: Config, s: State)
    requires LoggerStep(c, s).Some? && LoggerStep(c, s).value.lg.pc.Finished?
    ensures LoggerStep(c, s).value.lg.popped == s.lg.popped
  {
    hide AppendLine;
  }

  lemma FinishReady(c: Config, s: State)
    requires c.Valid() && Inv(c, s)
    requires LoggerStep(c, s).Some? && LoggerStep(c, s).value.lg.pc.Finished? && !s.lg.pc.Finished?
    ensures (s.lg.pc.FrontUnlock? && s.lg.readBuf.None?)
         || (s.lg.pc.Probe? && ValidSlot(s.q, s.lg.base, s.lg.readIndex) && !s.q.bufs[s.lg.base].flags[s.lg.readIndex])
  {
    hide BufferOk, ProducersOk, IndexOk, SlotsOwned, InstallersOk, QueueOk, PoppedOk, FilesOk, CallsOk, UnreadOk;
  }

  lemma LoggerDrains(c: Config, s: State)
    requires c.Valid() && Inv(c, s) && DrainOk(s)
    requires s.mode.Shutdown? ==> AllIdle(s)
    ensures LoggerStep(c, s).Some? && DrainOk(LoggerStep(c, s).value)
    ensures LoggerStep(c, s).value.q.resv == s.q.resv
    ensures LoggerStep(c, s).value.pcs == s.pcs && LoggerStep(c, s).value.mode == s.mode
  {
    hide Inv, LoggerStep, AllIdle, Reserved;
    Reader.LoggerKeeps(c, s);
    var s' := LoggerStep(c, s).value;
    LoggerFrame(c, s);
    LoggerMode(c, s);
    if s'.lg.pc.Finished? && !s.lg.pc.Finished? {
      FinishReady(c, s);
      FinishPopsNothing(c, s);
      NothingLeft(c, s);
    }
    assert Reserved(s') == Reserved(s) by {
      SameReserved(s, s');
    }
  }

  lemma ProducerLeavesLogger(c: Config, s: State, p: nat)
    requires p < |s.pcs| && ProducerStep(c, s, p).Some?
    ensures var s' := ProducerStep(c, s, p).value; s'.lg == s.lg && s'.mode == s.mode
    ensures s.pcs[p].Idle? ==> ProducerStep(c, s, p).value == s
  {
  }

  lemma QuietKeeps(c: Config, s: State, s': State)
    requires c.Valid() && Inv(c, s) && DrainOk(s) && Next(c, s, s')
    requires s.mode.Shutdown? ==> AllIdle(s)
    requires s'.mode.Shutdown? ==> AllIdle(s')
    ensures DrainOk(s')
    ensures s.mode.Shutdown? ==> s' == s || LoggerStep(c, s) == Some(s')
  {
    hide Inv, LoggerStep, Lines;
    if LoggerStep(c, s) == Some(s') {
      LoggerDrains(c, s);
    } else if BeginStep(s, s') {
      var p: nat, line: Line :| p < |s.pcs| == |s.calls| && s.pcs[p].Idle? && s' == Begin(s, p, line);
      assert s'.pcs[p] == Start(line);
    } else if AnyProducerStep(c, s, s') {
      var p: nat :| p < |s.pcs| && ProducerStep(c, s, p) == Some(s');
      ProducerLeavesLogger(c, s, p);
    }
  }

  lemma InitDrain(c: Config)
    ensures DrainOk(InitState(c))
  {
  }

  lemma {:induction false} QuietRun(c: Config, run: seq<State>, i: nat)
    requires c.Valid() && IsRun(c, run) && Quiet(run) && i < |run|
    ensures DrainOk(run[i])
  {
    hide Inv, Next, DrainOk;
    if i == 0 {
      InitDrain(c);
    } else {
      QuietRun(c, run, i - 1);
      RunKeeps(c, run, i - 1);
      assert Next(c, run[i - 1], run[i - 1 + 1]);
      QuietKeeps(c, run[i - 1], run[i]);
    }
  }

  /** Guaranteed logging: if every add returned before shutdown then, once the logger thread is done, the
      files in number order hold every added line in reservation order, each producer's in its own
      order, and every closed file exceeds the roll limit only by its last line. */
  lemma ShutdownComplete(c: Config, run: seq<State>, i: nat)
    requires c.Valid() && IsRun(c, run) && Quiet(run) && i < |run| && run[i].lg.pc.Finished?
    ensures Flatten(run[i].lg.files) == Lines(Reserved(run[i]))
    ensures |run[i].calls| == c.producers
    ensures forall p | 0 <= p < c.producers :: Project(Reserved(run[i]), p) == run[i].calls[p]
    ensures RolledWell(c.rollLimit, run[i].lg.files)
  {
    hide Next, ProducersOk, IndexOk, SlotsOwned, InstallersOk, QueueOk, ReaderOk, PoppedOk, RolledWell, Lines;
    RunKeeps(c, run, i);
    QuietRun(c, run, i);
    var s := run[i];
    assert Flatten(s.lg.files) + [] == Flatten(s.lg.files);
    assert AllIdle(s);
  }

  // ----- the drain loop terminates

  function Late(drain: bool): nat {
    if drain then 0 else 30
  }

  /** Steps left to the logger thread in the pass it is in. */
  function Phase(pc: LoggerPc): nat {
    match pc
    case WaitInit => 60
    case CheckMode => 25
    case PopStart(drain) => 15 + Late(drain)
    case FrontWait(drain) => 14 + Late(drain)
    case FrontLocked(drain) => 13 + Late(drain)
    case FrontUnlock(drain) => 12 + Late(drain)
    case Probe(drain) => 11 + Late(drain)
    case Take(drain) => 10 + Late(drain)
    case PopWait(drain, _) => 19 + Late(drain)
    case PopLocked(drain, _) => 18 + Late(drain)
    case PopUnlock(drain, _) => 17 + Late(drain)
    case Write(drain, _) => 16 + Late(drain)
    case Finished => 0
  }

  /** Unpopped lines first, then the steps of the pass. */
  function Rank(s: State): int {
    100 * (|Reserved(s)| - |s.lg.popped|) + Phase(s.lg.pc)
  }

  lemma StepPhase(c: Config, s: State)
    requires LoggerStep(c, s).Some? && s.mode.Shutdown? && !s.lg.pc.Finished?
    requires s.lg.pc.FrontWait? || s.lg.pc.PopWait? ==> s.q.lock == Free
    ensures var s' := LoggerStep(c, s).value;
      && Reserved(s') == Reserved(s)
      && (if |s'.lg.popped| == |s.lg.popped| then Phase(s'.lg.pc) < Phase(s.lg.pc)
          else |s'.lg.popped| == |s.lg.popped| + 1 && Phase(s'.lg.pc) < 100)
  {
    LoggerFrame(c, s);
    SameReserved(s, LoggerStep(c, s).value);
    hide AppendLine, Reserved;
  }

  lemma LockFree(c: Config, s: State)
    requires Inv(c, s) && AllIdle(s) && !LoggerLocked(s.lg.pc)
    ensures s.q.lock == Free
  {
    hide ProducersOk, IndexOk, SlotsOwned, InstallersOk, QueueOk, ReaderOk, PoppedOk, FilesOk, CallsOk;
  }

  lemma RankNonNegative(c: Config, s: State)
    requires Inv(c, s)
    ensures 0 <= Rank(s)
  {
    hide ProducersOk, IndexOk, SlotsOwned, InstallersOk, QueueOk, ReaderOk, PoppedOk, FilesOk, CallsOk;
    PoppedPrefix(s.q.resv, s.lg);
  }

  lemma DrainProgress(c: Config, s: State)
    requires c.Valid() && Inv(c, s) && s.mode.Shutdown? && AllIdle(s) && !s.lg.pc.Finished?
    ensures LoggerStep(c, s).Some? && 0 <= Rank(LoggerStep(c, s).value) < Rank(s)
  {
    hide Inv, LoggerStep, AllIdle;
    Reader.LoggerKeeps(c, s);
    if !LoggerLocked(s.lg.pc) {
      LockFree(c, s);
    }
    StepPhase(c, s);
    RankNonNegative(c, LoggerStep(c, s).value);
  }

  /** NanoLogger::pop after SHUTDOWN: the second loop, until try_pop fails. */
  method Drain(c: Config, start: State) returns (s: State)
    requires c.Valid() && Inv(c, start) && DrainOk(start) && start.mode.Shutdown? && AllIdle(start)
    ensures s.lg.pc.Finished?
    ensures Flatten(s.lg.files) == Lines(Reserved(start))
    ensures RolledWell(c.rollLimit, s.lg.files)
  {
    hide BufferOk, ProducersOk, IndexOk, SlotsOwned, InstallersOk, LockOk, QueueOk, ReaderOk, PoppedOk, CallsOk,
      RolledWell, LoggerStep, Lines;
    s := start;
    PoppedPrefix(s.q.resv, s.lg);
    while !s.lg.pc.Finished?
      invariant Inv(c, s) && DrainOk(s) && s.mode.Shutdown? && AllIdle(s)
      invariant s.q.resv == start.q.resv
      decreases Rank(s)
    {
      Reader.LoggerKeeps(c, s);
      LoggerDrains(c, s);
      DrainProgress(c, s);
      s := LoggerStep(c, s).value;
    }
    assert Flatten(s.lg.files) + [] == Flatten(s.lg.files);
  }

  lemma FinishedStays(c: Config, s: State)
    ensures s.lg.pc.Finished? ==> LoggerStep(c, s) == Some(s)
  {
  }

  lemma ShutdownStays(c: Config, s: State, s': State)
    requires Next(c, s, s') && s.mode.Shutdown?
    ensures s'.mode.Shutdown?
  {
    if AnyProducerStep(c, s, s') {
      var p: nat :| p < |s.pcs| && ProducerStep(c, s, p) == Some(s');
      ProducerLeavesLogger(c, s, p);
    }
  }

  /** Under any schedule, only so many steps that change anything can follow a quiet shutdown. */
  lemma {:induction false} ShutdownTerminates(c: Config, run: seq<State>, i: nat, j: nat)
    requires c.Valid() && IsRun(c, run) && Quiet(run) && i <= j < |run| && run[i].mode.Shutdown?
    requires forall k | i <= k < j :: run[k] != run[k + 1]
    ensures run[j].mode.Shutdown? && 0 <= Rank(run[j]) <= Rank(run[i]) - (j - i)
  {
    hide Inv, Next, DrainOk, LoggerStep, ModeStep, Rank;
    RunKeeps(c, run, i);
    RankNonNegative(c, run[i]);
    if i < j {
      ShutdownTerminates(c, run, i, j - 1);
      var s, s' := run[j - 1], run[j];
      assert run[j - 1] != run[j - 1 + 1] && Next(c, s, run[j - 1 + 1]);
      RunKeeps(c, run, j - 1);
      QuietRun(c, run, j - 1);
      ShutdownStays(c, s, s');
      QuietKeeps(c, s, s');
      FinishedStays(c, s);
      DrainProgress(c, s);
    }
  }
}
