/** What QueueBuffer promises, over every run of any number of producers and the logger thread. */
module NanoQueueTheorems {
  import opened Common
  import opened LogEntries
  import opened NanoQueue
  import opened NanoQueueInvariant
  import Reserve = NanoQueueReserve
  import Publish = NanoQueuePublish
  import Install = NanoQueueInstall
  import Reader = NanoQueueReader

  lemma ProducerKeeps(c: Config, s: State, p: nat)
    requires c.Valid() && Inv(c, s) && p < |s.pcs|
    ensures ProducerStep(c, s, p).Some? && Inv(c, ProducerStep(c, s, p).value)
  {
    hide Inv, FetchAdd;
    match s.pcs[p]
    case Idle =>
    case Start(line) =>
      if s.q.writeIndex < c.size { Reserve.WinKeeps(c, s, p, line); } else { Reserve.OvershootKeeps(c, s, p, line); }
    case Spin(line) => Reserve.SpinKeeps(c, s, p, line);
    case HasSlot(line, w) => Reserve.LoadKeeps(c, s, p, line, w);
    case HasBuffer(line, w, b) => Publish.BuildKeeps(c, s, p, line, w, b);
    case Built(w, b) => Publish.PublishKeeps(c, s, p, w, b);
    case Published(w, b) => Publish.CountKeeps(c, s, p, w, b);
    case Install0 => Install.AllocateKeeps(c, s, p);
    case Install1(b) => Install.LockKeeps(c, s, p, b);
    case Install2(b) => Install.EnqueueKeeps(c, s, p, b);
    case Install3 => Install.ResetKeeps(c, s, p);
    case Install4 => Install.UnlockKeeps(c, s, p);
  }

  lemma NextKeeps(c: Config, s: State, s': State)
    requires c.Valid() && Inv(c, s) && Next(c, s, s')
    ensures Inv(c, s')
  {
    hide Inv, ProducerStep, LoggerStep;
    if ModeStep(s, s') {
      Reserve.ModeKeeps(c, s, s');
    } else if BeginStep(s, s') {
      var p: nat, line: Line :| p < |s.pcs| == |s.calls| && s.pcs[p].Idle? && s' == Begin(s, p, line);
      Reserve.BeginKeeps(c, s, p, line);
    } else if AnyProducerStep(c, s, s') {
      var p: nat :| p < |s.pcs| && ProducerStep(c, s, p) == Some(s');
      ProducerKeeps(c, s, p);
    } else {
      Reader.LoggerKeeps(c, s);
    }
  }

  /** Every state of every run satisfies the invariant. */
  lemma {:induction false} RunKeeps(c: Config, run: seq<State>, i: nat)
    requires c.Valid() && IsRun(c, run) && i < |run|
    ensures Inv(c, run[i])
  {
    hide Inv, Next;
    if i == 0 {
      InitInv(c);
    } else {
      RunKeeps(c, run, i - 1);
      assert Next(c, run[i - 1], run[i - 1 + 1]);
      NextKeeps(c, run[i - 1], run[i]);
    }
  }

  /** No wild pointer, no slot outside its buffer, no line moved out twice, no pop of an empty queue. */
  lemma NoFault(c: Config, run: seq<State>, i: nat)
    requires c.Valid() && IsRun(c, run) && i < |run|
    ensures forall p | 0 <= p < |run[i].pcs| :: ProducerStep(c, run[i], p).Some?
    ensures LoggerStep(c, run[i]).Some?
  {
    hide Inv, Next, ProducerStep, LoggerStep;
    RunKeeps(c, run, i);
    forall p | 0 <= p < |run[i].pcs| ensures ProducerStep(c, run[i], p).Some? {
      ProducerKeeps(c, run[i], p);
    }
    Reader.LoggerKeeps(c, run[i]);
  }

  // ----- order

  lemma PoppedPrefix(resv: seq<seq<Entry>>, lg: Logger)
    requires PoppedOk(resv, lg)
    ensures |lg.popped| <= |Flatten(resv)|
    ensures lg.popped == Lines(Flatten(resv)[..|lg.popped|])
  {
    var read := Flatten(resv[..lg.base]) + (if lg.readBuf.None? then [] else resv[lg.base][..lg.readIndex]);
    FlattenPrefix(resv, lg.base);
    if lg.readBuf.Some? {
      FlattenPrefix(resv, lg.base + 1);
      assert resv[..lg.base + 1][..lg.base] == resv[..lg.base];
      assert read <= Flatten(resv[..lg.base + 1]);
    }
    assert read <= Flatten(resv);
  }

  /** The popped lines are exactly the first reserved ones: none lost, duplicated or reordered. */
  lemma PoppedInReservationOrder(c: Config, run: seq<State>, i: nat)
    requires c.Valid() && IsRun(c, run) && i < |run|
    ensures |run[i].lg.popped| <= |Reserved(run[i])|
    ensures run[i].lg.popped == Lines(Reserved(run[i])[..|run[i].lg.popped|])
  {
    hide Next, ProducersOk, IndexOk, SlotsOwned, InstallersOk, QueueOk, ReaderOk, FilesOk, CallsOk;
    RunKeeps(c, run, i);
    PoppedPrefix(run[i].q.resv, run[i].lg);
  }

  /** Each producer's own lines come out in the order it added them: what has been popped of p is a
      prefix of what p passed to add. */
  lemma PoppedInProgramOrder(c: Config, run: seq<State>, i: nat, p: nat)
    requires c.Valid() && IsRun(c, run) && i < |run| && p < c.producers
    ensures |run[i].lg.popped| <= |Reserved(run[i])| && p < |run[i].calls|
    ensures Project(Reserved(run[i])[..|run[i].lg.popped|], p) <= run[i].calls[p]
  {
    hide Next, ProducersOk, IndexOk, SlotsOwned, InstallersOk, QueueOk, ReaderOk, PoppedOk, FilesOk, Project;
    RunKeeps(c, run, i);
    PoppedInReservationOrder(c, run, i);
    ProjectPrefix(Reserved(run[i]), |run[i].lg.popped|, p);
  }

  // ----- epochs

  lemma LoggerKeepsCurrent(c: Config, s: State)
    requires LoggerStep(c, s).Some?
    ensures LoggerStep(c, s).value.q.current == s.q.current
  {
  }

  lemma HoldersPinStep(c: Config, s: State, s': State, p: nat)
    requires c.Valid() && Inv(c, s) && Next(c, s, s')
    requires p < |s.pcs| && Holds(s.pcs[p]).Some?
    ensures s'.q.current == s.q.current
  {
    hide IndexOk, SlotsOwned, QueueOk, ReaderOk, PoppedOk, FilesOk, CallsOk, LoggerStep;
    if AnyProducerStep(c, s, s') {
      var r: nat :| r < |s.pcs| && ProducerStep(c, s, r) == Some(s');
      Publish.NobodyInstalls(c, s.q, s.pcs, p);
      assert !s.pcs[r].Install0?;
    } else if LoggerStep(c, s) == Some(s') {
      LoggerKeepsCurrent(c, s);
    }
  }

  /** From its winning fetch_add until its push is counted, the write buffer cannot change under a
      producer, and the slot it works on is its own, in that buffer, raw until it constructs there. */
  lemma EpochSafety(c: Config, run: seq<State>, i: nat, p: nat)
    requires c.Valid() && IsRun(c, run) && i < |run| && p < c.producers
    ensures p < |run[i].pcs|
    ensures Holds(run[i].pcs[p]).Some? ==>
      var q, w := run[i].q, Holds(run[i].pcs[p]).value;
      && (i + 1 < |run| ==> run[i + 1].q.current == q.current)
      && ValidSlot(q, q.current, w) && q.current < |q.resv| && w < |q.resv[q.current]|
      && q.resv[q.current][w].producer == p
      && (run[i].pcs[p].HasBuffer? ==> run[i].pcs[p].buf == q.current && q.bufs[q.current].slots[w].Raw?)
      && (forall p' | 0 <= p' < |run[i].pcs| && p' != p :: Holds(run[i].pcs[p']) != Some(w))
  {
    hide Next, IndexOk, SlotsOwned, InstallersOk, QueueOk, ReaderOk, PoppedOk, FilesOk, CallsOk;
    RunKeeps(c, run, i);
    var s := run[i];
    if Holds(s.pcs[p]).Some? {
      Publish.HeldSlot(c, s.q, s.pcs, p);
      forall p' | 0 <= p' < |s.pcs| && p' != p ensures Holds(s.pcs[p']) != Holds(s.pcs[p]) {
        if Holds(s.pcs[p']).Some? {
          Publish.HeldSlot(c, s.q, s.pcs, p');
        }
      }
      if i + 1 < |run| {
        HoldersPinStep(c, s, run[i + 1], p);
      }
    }
  }

  /** So over the whole stretch from the win to the count the write buffer is one and the same. */
  lemma {:induction false} EpochInterval(c: Config, run: seq<State>, i: nat, j: nat, p: nat)
    requires c.Valid() && IsRun(c, run) && i <= j < |run| && p < c.producers
    requires forall k | i <= k < j :: p < |run[k].pcs| && Holds(run[k].pcs[p]).Some?
    ensures forall k | i <= k <= j :: run[k].q.current == run[i].q.current
  {
    hide Inv, Next;
    if i < j {
      EpochInterval(c, run, i, j - 1, p);
      RunKeeps(c, run, j - 1);
      assert Next(c, run[j - 1], run[j - 1 + 1]);
      HoldersPinStep(c, run[j - 1], run[j], p);
    }
  }

  /** Per buffer, Buffer::push has returned true at most once, and has done so exactly when every slot
      has been counted, which takes every slot to be published. */
  lemma SwitchedOnce(c: Config, run: seq<State>, i: nat, b: nat)
    requires c.Valid() && IsRun(c, run) && i < |run| && b < |run[i].q.bufs|
    ensures b < |run[i].q.switched| && run[i].q.switched[b] <= 1
    ensures run[i].q.switched[b] == 1 <==> forall w | 0 <= w < |run[i].q.bufs[b].counted| :: run[i].q.bufs[b].counted[w]
    ensures run[i].q.switched[b] == 1 ==> forall w | 0 <= w < |run[i].q.bufs[b].flags| :: run[i].q.bufs[b].flags[w]
  {
    hide Next, ProducersOk, IndexOk, SlotsOwned, InstallersOk, QueueOk, ReaderOk, PoppedOk, FilesOk, CallsOk;
    RunKeeps(c, run, i);
    assert BufferOk(c, run[i].q.bufs[b], run[i].q.resv[b]);
    CountTrueFull(run[i].q.bufs[b].counted);
  }

  /** m_write_index never exceeds the size plus the number of waiting producers, so it cannot wrap. */
  lemma WriteIndexBound(c: Config, run: seq<State>, i: nat)
    requires c.Valid() && IsRun(c, run) && i < |run|
    ensures run[i].q.writeIndex <= c.size + Spinners(run[i].pcs) <= c.size + c.producers < UINT32
  {
    hide Next, ProducersOk, SlotsOwned, InstallersOk, QueueOk, ReaderOk, PoppedOk, FilesOk, CallsOk;
    RunKeeps(c, run, i);
    SpinnersBound(run[i].pcs);
  }
}
