/** RingBuffer, the lossy alternative: any number of producers and one reader over a ring whose items
    are guarded by one spin lock each.  One step per atomic operation; what happens under an item's
    lock, between two atomic operations, is one step. */
module RingBuffers {
  import opened Common
  import opened LogEntries

  // size is the number of items; producers is the number of threads that may push.
  datatype Config = Config(size: nat, producers: nat) {
    ghost predicate Valid() {
      size >= 1
    }
  }

  datatype Owner = Free | Producer(p: nat) | Reader

  // ticket is history: which push wrote the line.
  datatype Item = Item(lock: Owner, written: bool, line: Line, ticket: nat)

  // ticket is history: how many pushes were before this one.
  datatype Pc =
    | Idle
    | Start(line: Line)                         // about to fetch_add m_write_index
    | Wait(line: Line, slot: nat, ticket: nat)  // waiting for the item's lock
    | Store(line: Line, slot: nat, ticket: nat) // about to store the line and set written
    | Unlock(slot: nat)                         // about to release the item's lock

  // Where the reader stands in try_pop, with the slot it looked up on entry.
  datatype ReaderPc = RIdle | RWait(slot: nat) | RLook(slot: nat) | RUnlock(slot: nat)

  // calls, log, popped and overwritten are history: per producer the lines it has passed to push, all lines
  // by ticket, the lines handed over, and the lines stored over.
  datatype State = State(
    items: seq<Item>,
    writeIndex: nat,
    readIndex: nat,
    pcs: seq<Pc>,
    reader: ReaderPc,
    calls: seq<seq<Line>>,
    log: seq<Entry>,
    popped: seq<Line>,
    overwritten: seq<Line>)

  /** The number of items a logger gives its ring, in uint32_t arithmetic. */
  function RingSize(sizeMb: nat): nat {
    (Max(1, sizeMb) * 1024 * 4) % UINT32
  }

  /** The wrap-around leaves the ring without an item, and every push dividing by zero, exactly when a
      multiple of 2^20 megabytes was asked for. */
  lemma RingSizeUsable(sizeMb: nat)
    requires sizeMb < UINT32
    ensures RingSize(sizeMb) == Max(1, sizeMb) % 0x10_0000 * 4096
    ensures RingSize(sizeMb) >= 1 <==> sizeMb == 0 || sizeMb % 0x10_0000 != 0
  {
    var q, r := Max(1, sizeMb) / 0x10_0000, Max(1, sizeMb) % 0x10_0000;
    assert Max(1, sizeMb) * 1024 * 4 == q * UINT32 + r * 4096;
  }

  /** It is the documented number of items, one for every 256 bytes, exactly below 2^20 megabytes. */
  lemma RingSizeDocumented(sizeMb: nat)
    requires sizeMb < UINT32
    ensures RingSize(sizeMb) == Max(1, sizeMb) * 1024 * 1024 / 256 <==> sizeMb < 0x10_0000
  {
    var n := Max(1, sizeMb) * 1024 * 4;
    assert Max(1, sizeMb) * 1024 * 1024 / 256 == n;
    assert n < UINT32 <==> sizeMb < 0x10_0000;
  }

  /** Asked for 2^20 megabytes the ring has no item. */
  lemma RingSizeWraps()
    ensures RingSize(0x10_0000) == 0
  {
  }

  function InitState(c: Config): State {
    State(seq(c.size, _ => Item(Free, false, "", 0)), 0, 0, seq(c.producers, _ => Idle), RIdle,
          seq(c.producers, _ => []), [], [], [])
  }

  /** The ring keeps its size and every slot in hand is one of its items. */
  ghost predicate Shape(c: Config, s: State) {
    && c.Valid() && |s.items| == c.size && |s.pcs| == |s.calls| == c.producers
    && (forall p | 0 <= p < |s.pcs| && (s.pcs[p].Wait? || s.pcs[p].Store? || s.pcs[p].Unlock?) ::
          s.pcs[p].slot < c.size)
    && (!s.reader.RIdle? ==> s.reader.slot < c.size)
  }

  /** A producer calls push with a line. */
  function Begin(s: State, p: nat, line: Line): State
    requires p < |s.pcs| == |s.calls|
  {
    s.(pcs := s.pcs[p := Start(line)], calls := s.calls[p := s.calls[p] + [line]])
  }

  /** Storing a line in an item; a line still there is lost. */
  function StoreLine(s: State, i: nat, line: Line, ticket: nat): State
    requires i < |s.items|
  {
    var item := s.items[i];
    s.(items := s.items[i := item.(written := true, line := line, ticket := ticket)],
       overwritten := if item.written then s.overwritten + [item.line] else s.overwritten)
  }

  ghost function ProducerStep(c: Config, s: State, p: nat): State
    requires Shape(c, s) && p < |s.pcs|
  {
    match s.pcs[p]
    case Idle => s
    case Start(line) =>
      s.(pcs := s.pcs[p := Wait(line, s.writeIndex % c.size, |s.log|)],
         writeIndex := (s.writeIndex + 1) % UINT32,
         log := s.log + [Entry(p, line)])
    case Wait(line, i, t) =>
      if s.items[i].lock != Free then s else
      s.(pcs := s.pcs[p := Store(line, i, t)], items := s.items[i := s.items[i].(lock := Producer(p))])
    case Store(line, i, t) =>
      StoreLine(s, i, line, t).(pcs := s.pcs[p := Unlock(i)])
    case Unlock(i) =>
      s.(pcs := s.pcs[p := Idle], items := s.items[i := s.items[i].(lock := Free)])
  }

  /** try_pop: look up the item under the read index, lock it, take its line if there is one, unlock. */
  ghost function ReaderStep(c: Config, s: State): (r: State)
    requires Shape(c, s)
    ensures Shape(c, r)
  {
    match s.reader
    case RIdle => s.(reader := RWait(s.readIndex % c.size))
    case RWait(i) =>
      if s.items[i].lock != Free then s else
      s.(reader := RLook(i), items := s.items[i := s.items[i].(lock := Reader)])
    case RLook(i) =>
      if s.items[i].written then
        s.(reader := RUnlock(i),
           items := s.items[i := s.items[i].(written := false)],
           popped := s.popped + [s.items[i].line],
           readIndex := (s.readIndex + 1) % UINT32)
      else
        s.(reader := RUnlock(i))
    case RUnlock(i) =>
      s.(reader := RIdle, items := s.items[i := s.items[i].(lock := Free)])
  }

  ghost predicate BeginStep(s: State, s': State) {
    exists p: nat, line: Line :: p < |s.pcs| == |s.calls| && s.pcs[p].Idle? && s' == Begin(s, p, line)
  }

  ghost predicate AnyProducerStep(c: Config, s: State, s': State)
    requires Shape(c, s)
  {
    exists p: nat :: p < |s.pcs| && s' == ProducerStep(c, s, p)
  }

  ghost predicate Next(c: Config, s: State, s': State) {
    && Shape(c, s)
    && (BeginStep(s, s') || AnyProducerStep(c, s, s') || s' == ReaderStep(c, s))
  }

  ghost predicate IsRun(c: Config, run: seq<State>) {
    && run != []
    && run[0] == InitState(c)
    && forall i | 0 <= i < |run| - 1 :: Next(c, run[i], run[i + 1])
  }

  // ----- conservation, under any schedule

  /** Some(x) counts the copies of line x, None counts all lines. */
  function Hit(x: Option<Line>, line: Line): nat {
    if x.None? || x.value == line then 1 else 0
  }

  function Copies(x: Option<Line>, lines: seq<Line>): nat {
    if lines == [] then 0 else Copies(x, lines[..|lines| - 1]) + Hit(x, lines[|lines| - 1])
  }

  function InItem(x: Option<Line>, item: Item): nat {
    if item.written then Hit(x, item.line) else 0
  }

  /** Counting the items whose written flag is set. */
  function InRing(x: Option<Line>, items: seq<Item>): nat {
    if items == [] then 0 else InRing(x, items[..|items| - 1]) + InItem(x, items[|items| - 1])
  }

  lemma CopiesSnoc(x: Option<Line>, lines: seq<Line>, line: Line)
    ensures Copies(x, lines + [line]) == Copies(x, lines) + Hit(x, line)
  {
    assert (lines + [line])[..|lines|] == lines;
  }

  lemma {:induction false} CopiesAll(lines: seq<Line>)
    ensures Copies(None, lines) == |lines|
  {
    if lines != [] {
      CopiesAll(lines[..|lines| - 1]);
    }
  }

  lemma {:induction false} InRingSet(x: Option<Line>, items: seq<Item>, i: nat, item: Item)
    requires i < |items|
    ensures InRing(x, items[i := item]) == InRing(x, items) - InItem(x, items[i]) + InItem(x, item)
  {
    var last := |items| - 1;
    if i == last {
      assert items[i := item][..last] == items[..last];
    } else {
      assert items[i := item][..last] == items[..last][i := item];
      InRingSet(x, items[..last], i, item);
    }
  }

  lemma {:induction false} InRingNone(x: Option<Line>, items: seq<Item>)
    requires forall k | 0 <= k < |items| :: !items[k].written
    ensures InRing(x, items) == 0
  {
    if items != [] {
      InRingNone(x, items[..|items| - 1]);
    }
  }

  /** A ticket in hand: issued, and its line not stored yet. */
  predicate Holding(pc: Pc) {
    pc.Wait? || pc.Store?
  }

  function InPc(x: Option<Line>, pc: Pc): nat {
    if Holding(pc) then Hit(x, pc.line) else 0
  }

  /** Counting the lines of the tickets in hand. */
  function InHand(x: Option<Line>, pcs: seq<Pc>): nat {
    if pcs == [] then 0 else InHand(x, pcs[..|pcs| - 1]) + InPc(x, pcs[|pcs| - 1])
  }

  lemma {:induction false} InHandSet(x: Option<Line>, pcs: seq<Pc>, p: nat, pc: Pc)
    requires p < |pcs|
    ensures InHand(x, pcs[p := pc]) == InHand(x, pcs) - InPc(x, pcs[p]) + InPc(x, pc)
  {
    var last := |pcs| - 1;
    if p == last {
      assert pcs[p := pc][..last] == pcs[..last];
    } else {
      assert pcs[p := pc][..last] == pcs[..last][p := pc];
      InHandSet(x, pcs[..last], p, pc);
    }
  }

  lemma {:induction false} InHandNone(x: Option<Line>, pcs: seq<Pc>)
    requires forall p | 0 <= p < |pcs| :: !Holding(pcs[p])
    ensures InHand(x, pcs) == 0
  {
    if pcs != [] {
      InHandNone(x, pcs[..|pcs| - 1]);
    }
  }

  lemma LinesSnoc(es: seq<Entry>, e: Entry)
    ensures Lines(es + [e]) == Lines(es) + [e.line]
  {
  }

  /** Every line with a ticket is popped, stored over, still in the ring, or in hand. */
  ghost predicate Conserved(x: Option<Line>, s: State) {
    Copies(x, Lines(s.log)) ==
      Copies(x, s.popped) + Copies(x, s.overwritten) + InRing(x, s.items) + InHand(x, s.pcs)
  }

  lemma TicketConserves(x: Option<Line>, c: Config, s: State, p: nat)
    requires Shape(c, s) && Conserved(x, s) && p < |s.pcs| && s.pcs[p].Start?
    ensures Conserved(x, ProducerStep(c, s, p))
  {
    hide Copies, InRing, InHand, Lines;
    var line := s.pcs[p].line;
    LinesSnoc(s.log, Entry(p, line));
    CopiesSnoc(x, Lines(s.log), line);
    InHandSet(x, s.pcs, p, Wait(line, s.writeIndex % c.size, |s.log|));
  }

  lemma LockConserves(x: Option<Line>, c: Config, s: State, p: nat)
    requires Shape(c, s) && Conserved(x, s) && p < |s.pcs| && (s.pcs[p].Wait? || s.pcs[p].Unlock?)
    ensures Conserved(x, ProducerStep(c, s, p))
  {
    hide Copies, InRing, InHand, Lines;
    match s.pcs[p]
    case Wait(line, i, t) =>
      InRingSet(x, s.items, i, s.items[i].(lock := Producer(p)));
      InHandSet(x, s.pcs, p, Store(line, i, t));
    case Unlock(i) =>
      InRingSet(x, s.items, i, s.items[i].(lock := Free));
      InHandSet(x, s.pcs, p, Idle);
  }

  lemma StoreConserves(x: Option<Line>, c: Config, s: State, p: nat)
    requires Shape(c, s) && Conserved(x, s) && p < |s.pcs| && s.pcs[p].Store?
    ensures Conserved(x, ProducerStep(c, s, p))
  {
    hide Copies, InRing, InHand, Lines;
    var line, i, t := s.pcs[p].line, s.pcs[p].slot, s.pcs[p].ticket;
    InRingSet(x, s.items, i, s.items[i].(written := true, line := line, ticket := t));
    CopiesSnoc(x, s.overwritten, s.items[i].line);
    InHandSet(x, s.pcs, p, Unlock(i));
  }

  lemma ProducerConserves(x: Option<Line>, c: Config, s: State, p: nat)
    requires Shape(c, s) && Conserved(x, s) && p < |s.pcs|
    ensures Conserved(x, ProducerStep(c, s, p))
  {
    match s.pcs[p]
    case Idle =>
    case Start(_) => TicketConserves(x, c, s, p);
    case Store(_, _, _) => StoreConserves(x, c, s, p);
    case _ => LockConserves(x, c, s, p);
  }

  lemma BeginConserves(x: Option<Line>, s: State, p: nat, line: Line)
    requires p < |s.pcs| == |s.calls| && s.pcs[p].Idle? && Conserved(x, s)
    ensures Conserved(x, Begin(s, p, line))
  {
    InHandSet(x, s.pcs, p, Start(line));
    hide Copies, InRing, InHand, Lines;
  }

  lemma ReaderConserves(x: Option<Line>, c: Config, s: State)
    requires Shape(c, s) && Conserved(x, s)
    ensures Conserved(x, ReaderStep(c, s))
  {
    hide Copies, InRing, InHand, Lines;
    match s.reader
    case RIdle =>
    case RWait(i) => InRingSet(x, s.items, i, s.items[i].(lock := Reader));
    case RLook(i) =>
      InRingSet(x, s.items, i, s.items[i].(written := false));
      CopiesSnoc(x, s.popped, s.items[i].line);
    case RUnlock(i) => InRingSet(x, s.items, i, s.items[i].(lock := Free));
  }

  // ----- what the callers of push asked for

  /** The line of a call without a ticket yet. */
  function Unticketed(pc: Pc): seq<Line> {
    if pc.Start? then [pc.line] else []
  }

  /** Every call has a ticket, in the caller's own order, unless it is about to get one. */
  ghost predicate Ticketed(log: seq<Entry>, pcs: seq<Pc>, calls: seq<seq<Line>>) {
    && |calls| == |pcs|
    && forall p | 0 <= p < |pcs| :: calls[p] == Project(log, p) + Unticketed(pcs[p])
  }

  /** From its ticket on a call has its own line and, once that is stored, has it in its item. */
  predicate CallOk(items: seq<Item>, pc: Pc, calls: seq<Line>) {
    && (Holding(pc) ==> calls != [] && pc.line == calls[|calls| - 1])
    && (pc.Unlock? ==>
          pc.slot < |items| && items[pc.slot].written && calls != [] &&
          items[pc.slot].line == calls[|calls| - 1])
  }

  ghost predicate CallsOk(items: seq<Item>, pcs: seq<Pc>, calls: seq<seq<Line>>) {
    |calls| == |pcs| && forall p | 0 <= p < |pcs| :: CallOk(items, pcs[p], calls[p])
  }

  /** Which item a ticket's line goes to. */
  function Slot(c: Config, ticket: nat): nat
    requires c.size > 0
  {
    ticket % UINT32 % c.size
  }

  /** The indices count tickets and lines popped, modulo 2^32, and say which item is whose. */
  ghost predicate Indexed(c: Config, s: State) {
    && c.size > 0 && s.writeIndex == |s.log| % UINT32 && s.readIndex == |s.popped| % UINT32
    && (forall p | 0 <= p < |s.pcs| && Holding(s.pcs[p]) :: s.pcs[p].slot == Slot(c, s.pcs[p].ticket))
  }

  // ----- one thread at a time inside an item

  predicate Inside(pc: Pc) {
    pc.Store? || pc.Unlock?
  }

  predicate ReaderInside(pc: ReaderPc) {
    pc.RLook? || pc.RUnlock?
  }

  predicate PcLocks(items: seq<Item>, p: nat, pc: Pc) {
    Inside(pc) ==> pc.slot < |items| && items[pc.slot].lock == Producer(p)
  }

  predicate LockHeld(i: nat, lock: Owner, pcs: seq<Pc>, reader: ReaderPc) {
    match lock
    case Free => true
    case Producer(p) => p < |pcs| && Inside(pcs[p]) && pcs[p].slot == i
    case Reader => ReaderInside(reader) && reader.slot == i
  }

  /** The lock of an item names the thread inside it, and is free if there is none. */
  ghost predicate LocksOk(items: seq<Item>, pcs: seq<Pc>, reader: ReaderPc) {
    && (forall p | 0 <= p < |pcs| :: PcLocks(items, p, pcs[p]))
    && (ReaderInside(reader) ==> reader.slot < |items| && items[reader.slot].lock == Reader)
    && (forall i | 0 <= i < |items| :: LockHeld(i, items[i].lock, pcs, reader))
  }

  lemma ProducerShape(c: Config, s: State, p: nat)
    requires Shape(c, s) && p < |s.pcs|
    ensures Shape(c, ProducerStep(c, s, p))
  {
  }

  lemma ProducerPcLocks(c: Config, s: State, p: nat, r: nat)
    requires Shape(c, s) && p < |s.pcs| && r < |s.pcs|
    requires PcLocks(s.items, r, s.pcs[r]) && PcLocks(s.items, p, s.pcs[p])
    ensures var s' := ProducerStep(c, s, p); |s'.pcs| == |s.pcs| && PcLocks(s'.items, r, s'.pcs[r])
  {
  }

  lemma ProducerHolds(c: Config, s: State, p: nat, i: nat)
    requires Shape(c, s) && p < |s.pcs| && i < |s.items|
    requires LockHeld(i, s.items[i].lock, s.pcs, s.reader) && PcLocks(s.items, p, s.pcs[p])
    ensures var s' := ProducerStep(c, s, p);
      |s'.items| == |s.items| && s'.reader == s.reader && LockHeld(i, s'.items[i].lock, s'.pcs, s'.reader)
  {
  }

  lemma ProducerReader(c: Config, s: State, p: nat)
    requires Shape(c, s) && LocksOk(s.items, s.pcs, s.reader) && p < |s.pcs|
    ensures var s' := ProducerStep(c, s, p);
      s'.reader == s.reader && (ReaderInside(s.reader) ==> s'.items[s.reader.slot].lock == Reader)
  {
    assert PcLocks(s.items, p, s.pcs[p]);
  }

  lemma ProducerLocks(c: Config, s: State, p: nat)
    requires Shape(c, s) && LocksOk(s.items, s.pcs, s.reader) && p < |s.pcs|
    ensures var s' := ProducerStep(c, s, p); LocksOk(s'.items, s'.pcs, s'.reader)
  {
    hide ProducerStep, PcLocks, LockHeld;
    var s' := ProducerStep(c, s, p);
    ProducerShape(c, s, p);
    forall r | 0 <= r < |s'.pcs| ensures PcLocks(s'.items, r, s'.pcs[r]) {
      ProducerPcLocks(c, s, p, r);
    }
    forall i | 0 <= i < |s'.items| ensures LockHeld(i, s'.items[i].lock, s'.pcs, s'.reader) {
      ProducerHolds(c, s, p, i);
    }
    ProducerReader(c, s, p);
  }

  lemma ReaderLocks(c: Config, s: State)
    requires Shape(c, s) && LocksOk(s.items, s.pcs, s.reader)
    ensures var s' := ReaderStep(c, s); Shape(c, s') && LocksOk(s'.items, s'.pcs, s'.reader)
  {
    var s' := ReaderStep(c, s);
    forall r | 0 <= r < |s'.pcs| ensures PcLocks(s'.items, r, s'.pcs[r]) {
      assert PcLocks(s.items, r, s.pcs[r]);
    }
    forall i | 0 <= i < |s'.items| ensures LockHeld(i, s'.items[i].lock, s'.pcs, s'.reader) {
      assert LockHeld(i, s.items[i].lock, s.pcs, s.reader);
    }
  }

  // ----- what every step keeps

  lemma ProducerTicketed(c: Config, s: State, p: nat)
    requires Shape(c, s) && Ticketed(s.log, s.pcs, s.calls) && p < |s.pcs|
    ensures var s' := ProducerStep(c, s, p); Ticketed(s'.log, s'.pcs, s'.calls)
  {
    hide Project, Shape;
    var s' := ProducerStep(c, s, p);
    forall r | 0 <= r < |s'.pcs| ensures s'.calls[r] == Project(s'.log, r) + Unticketed(s'.pcs[r]) {
      assert s.calls[r] == Project(s.log, r) + Unticketed(s.pcs[r]);
      if s.pcs[p].Start? {
        ProjectSnoc(s.log, Entry(p, s.pcs[p].line), r);
        assert Project(s'.log, r) + [] == Project(s'.log, r) && Project(s.log, r) + [] == Project(s.log, r);
      }
    }
  }

  lemma IndexAdds(i: nat, n: nat)
    requires i == n % UINT32
    ensures (i + 1) % UINT32 == (n + 1) % UINT32
  {
  }

  lemma ProducerIndexed(c: Config, s: State, p: nat)
    requires Shape(c, s) && Indexed(c, s) && p < |s.pcs|
    ensures Indexed(c, ProducerStep(c, s, p))
  {
    IndexAdds(s.writeIndex, |s.log|);
    var s' := ProducerStep(c, s, p);
    assert s.pcs[p].Start? ==> s'.pcs[p].slot == Slot(c, |s.log|);
    hide Slot;
    assert forall r | 0 <= r < |s.pcs| && r != p :: s'.pcs[r] == s.pcs[r];
  }

  lemma ProducerCalls(c: Config, s: State, p: nat)
    requires Shape(c, s) && LocksOk(s.items, s.pcs, s.reader) && p < |s.pcs|
    requires Ticketed(s.log, s.pcs, s.calls) && CallsOk(s.items, s.pcs, s.calls)
    ensures var s' := ProducerStep(c, s, p); CallsOk(s'.items, s'.pcs, s'.calls)
  {
    hide Project;
    var s' := ProducerStep(c, s, p);
    assert s.calls[p] == Project(s.log, p) + Unticketed(s.pcs[p]);
    assert PcLocks(s.items, p, s.pcs[p]);
    hide Ticketed;
    forall r | 0 <= r < |s'.pcs| ensures CallOk(s'.items, s'.pcs[r], s'.calls[r]) {
      assert CallOk(s.items, s.pcs[r], s.calls[r]);
      assert PcLocks(s.items, r, s.pcs[r]);
    }
  }

  lemma BeginCalls(s: State, p: nat, line: Line)
    requires p < |s.pcs| && s.pcs[p].Idle?
    requires Ticketed(s.log, s.pcs, s.calls) && CallsOk(s.items, s.pcs, s.calls)
    ensures var s' := Begin(s, p, line);
      Ticketed(s'.log, s'.pcs, s'.calls) && CallsOk(s'.items, s'.pcs, s'.calls)
  {
    hide Project;
    var s' := Begin(s, p, line);
    assert s.calls[p] == Project(s.log, p) + [] == Project(s.log, p);
    assert forall r | 0 <= r < |s.pcs| && r != p :: s'.pcs[r] == s.pcs[r] && s'.calls[r] == s.calls[r];
  }

  lemma BeginIndexed(c: Config, s: State, p: nat, line: Line)
    requires p < |s.pcs| == |s.calls| && Indexed(c, s)
    ensures Indexed(c, Begin(s, p, line))
  {
    hide Slot;
    assert forall r | 0 <= r < |s.pcs| && r != p :: Begin(s, p, line).pcs[r] == s.pcs[r];
  }

  lemma ReaderIndexed(c: Config, s: State)
    requires Shape(c, s) && Indexed(c, s)
    ensures Indexed(c, ReaderStep(c, s))
  {
    IndexAdds(s.readIndex, |s.popped|);
    hide Slot;
  }

  lemma ReaderCalls(c: Config, s: State)
    requires Shape(c, s) && LocksOk(s.items, s.pcs, s.reader) && CallsOk(s.items, s.pcs, s.calls)
    ensures var s' := ReaderStep(c, s); CallsOk(s'.items, s'.pcs, s'.calls) && s'.log == s.log
    ensures ReaderStep(c, s).pcs == s.pcs && ReaderStep(c, s).calls == s.calls
  {
    var s' := ReaderStep(c, s);
    forall r | 0 <= r < |s'.pcs| ensures CallOk(s'.items, s'.pcs[r], s'.calls[r]) {
      assert CallOk(s.items, s.pcs[r], s.calls[r]);
      assert PcLocks(s.items, r, s.pcs[r]);
    }
  }

  ghost predicate Inv(x: Option<Line>, c: Config, s: State) {
    && Shape(c, s) && LocksOk(s.items, s.pcs, s.reader) && Conserved(x, s) && Indexed(c, s)
    && Ticketed(s.log, s.pcs, s.calls) && CallsOk(s.items, s.pcs, s.calls)
  }

  lemma BeginLocks(s: State, p: nat, line: Line)
    requires p < |s.pcs| == |s.calls| && s.pcs[p].Idle? && LocksOk(s.items, s.pcs, s.reader)
    ensures var s' := Begin(s, p, line); LocksOk(s'.items, s'.pcs, s'.reader)
  {
    var s' := Begin(s, p, line);
    forall r | 0 <= r < |s'.pcs| ensures PcLocks(s'.items, r, s'.pcs[r]) {
      assert PcLocks(s.items, r, s.pcs[r]);
    }
    forall i | 0 <= i < |s'.items| ensures LockHeld(i, s'.items[i].lock, s'.pcs, s'.reader) {
      assert LockHeld(i, s.items[i].lock, s.pcs, s.reader);
    }
  }

  lemma BeginKeeps(x: Option<Line>, c: Config, s: State, p: nat, line: Line)
    requires Inv(x, c, s) && p < |s.pcs| && s.pcs[p].Idle?
    ensures Inv(x, c, Begin(s, p, line))
  {
    hide Conserved, CallsOk, Ticketed, Indexed, LocksOk;
    BeginConserves(x, s, p, line);
    BeginCalls(s, p, line);
    BeginIndexed(c, s, p, line);
    BeginLocks(s, p, line);
  }

  lemma StepKeeps(x: Option<Line>, c: Config, s: State, s': State)
    requires Next(c, s, s') && Inv(x, c, s)
    ensures Inv(x, c, s')
  {
    hide ProducerStep, ReaderStep, Conserved, CallsOk, Ticketed, Indexed, LocksOk, Begin;
    if BeginStep(s, s') {
      var p: nat, line: Line :| p < |s.pcs| == |s.calls| && s.pcs[p].Idle? && s' == Begin(s, p, line);
      BeginKeeps(x, c, s, p, line);
    } else if AnyProducerStep(c, s, s') {
      var p: nat :| p < |s.pcs| && s' == ProducerStep(c, s, p);
      ProducerConserves(x, c, s, p);
      ProducerShape(c, s, p);
      ProducerLocks(c, s, p);
      ProducerTicketed(c, s, p);
      ProducerIndexed(c, s, p);
      ProducerCalls(c, s, p);
    } else {
      ReaderConserves(x, c, s);
      ReaderLocks(c, s);
      ReaderIndexed(c, s);
      ReaderCalls(c, s);
    }
  }

  lemma InitInv(x: Option<Line>, c: Config)
    requires c.Valid()
    ensures Inv(x, c, InitState(c))
  {
    InRingNone(x, InitState(c).items);
    InHandNone(x, InitState(c).pcs);
  }

  lemma {:induction false} RunKeeps(x: Option<Line>, c: Config, run: seq<State>, i: nat)
    requires c.Valid() && IsRun(c, run) && i < |run|
    ensures Inv(x, c, run[i])
  {
    hide Inv, Next;
    if i == 0 {
      InitInv(x, c);
    } else {
      RunKeeps(x, c, run, i - 1);
      assert Next(c, run[i - 1], run[i - 1 + 1]);
      StepKeeps(x, c, run[i - 1], run[i]);
    }
  }

  /** In every reachable state, for every line and for lines in all: those with a ticket are popped, stored
      over, in an item with written set, or in hand; and no two threads are inside the same item. */
  lemma RingConserves(c: Config, run: seq<State>, i: nat, line: Line)
    requires c.Valid() && IsRun(c, run) && i < |run|
    ensures var s := run[i];
      && |s.log| == |s.popped| + |s.overwritten| + InRing(None, s.items) + InHand(None, s.pcs)
      && Copies(Some(line), Lines(s.log)) ==
         Copies(Some(line), s.popped) + Copies(Some(line), s.overwritten) + InRing(Some(line), s.items)
         + InHand(Some(line), s.pcs)
    ensures forall p, p' | 0 <= p < p' < |run[i].pcs| && Inside(run[i].pcs[p]) && Inside(run[i].pcs[p']) ::
              run[i].pcs[p].slot != run[i].pcs[p'].slot
    ensures forall p | 0 <= p < |run[i].pcs| && Inside(run[i].pcs[p]) && ReaderInside(run[i].reader) ::
              run[i].pcs[p].slot != run[i].reader.slot
  {
    hide CallsOk, Ticketed, Indexed;
    RunKeeps(None, c, run, i);
    RunKeeps(Some(line), c, run, i);
    CopiesAll(Lines(run[i].log));
    CopiesAll(run[i].popped);
    CopiesAll(run[i].overwritten);
    forall p | 0 <= p < |run[i].pcs| ensures PcLocks(run[i].items, p, run[i].pcs[p]) {
    }
  }

  /** Every call of push gets a ticket, in the caller's order; and when it leaves its item behind, before it
      unlocks it, its own line is there to be popped. */
  lemma CallsAreStored(c: Config, run: seq<State>, i: nat, p: nat)
    requires c.Valid() && IsRun(c, run) && i < |run| && p < c.producers
    ensures |run[i].pcs| == |run[i].calls| == c.producers
    ensures run[i].calls[p] == Project(run[i].log, p) + Unticketed(run[i].pcs[p])
    ensures CallOk(run[i].items, run[i].pcs[p], run[i].calls[p])
  {
    hide Conserved, LocksOk, Indexed, Project;
    RunKeeps(None, c, run, i);
  }

  // ----- every push and every try_pop comes to its end

  /** Steps left to a push. */
  function PushLeft(pc: Pc): nat {
    match pc
    case Idle => 0
    case Unlock(_) => 1
    case Store(_, _, _) => 2
    case Wait(_, _, _) => 3
    case Start(_) => 4
  }

  /** A step of a push brings it one step nearer to its end, unless it waits for an item that a thread is
      inside of. */
  lemma PushMoves(c: Config, s: State, p: nat)
    requires Shape(c, s) && p < |s.pcs|
    ensures var s' := ProducerStep(c, s, p);
      && |s'.pcs| == |s.pcs| && s'.pcs == s.pcs[p := s'.pcs[p]]
      && if s.pcs[p].Idle? || (s.pcs[p].Wait? && s.items[s.pcs[p].slot].lock != Free) then s' == s
         else PushLeft(s'.pcs[p]) == PushLeft(s.pcs[p]) - 1
  {
    hide Lines;
  }

  /** Nobody waits for nobody: while a push has not ended, some push can move or the reader can, which is
      inside an item. */
  lemma NoDeadlock(c: Config, run: seq<State>, i: nat)
    requires c.Valid() && IsRun(c, run) && i < |run|
    requires exists p :: 0 <= p < |run[i].pcs| && !run[i].pcs[p].Idle?
    ensures Shape(c, run[i])
    ensures ReaderInside(run[i].reader)
         || exists p: nat :: p < |run[i].pcs| && PushLeft(ProducerStep(c, run[i], p).pcs[p]) < PushLeft(run[i].pcs[p])
  {
    hide Conserved, CallsOk, Ticketed, Indexed, ProducerStep, InitState, Next, PushLeft;
    RunKeeps(None, c, run, i);
    var s := run[i];
    var p: nat :| p < |s.pcs| && !s.pcs[p].Idle?;
    if s.pcs[p].Wait? && s.items[s.pcs[p].slot].lock != Free {
      assert LockHeld(s.pcs[p].slot, s.items[s.pcs[p].slot].lock, s.pcs, s.reader);
      if s.items[s.pcs[p].slot].lock.Producer? {
        p := s.items[s.pcs[p].slot].lock.p;
      }
    }
    PushMoves(c, s, p);
  }

  // ----- order, while no store laps the reader

  /** The step from s to s' stores no ticket that is a lap or more ahead of the lines popped, and leaves the
      tickets within 32 bits. */
  ghost predicate InLap(c: Config, s: State, s': State) {
    && |s'.log| < UINT32
    && forall p | 0 <= p < |s.pcs| && p < |s'.pcs| && s.pcs[p].Store? && s'.pcs[p] != s.pcs[p] ::
         s.pcs[p].ticket < |s.popped| + c.size
  }

  /** A ticket that has been issued and not yet popped. */
  predicate Live(s: State, t: int) {
    |s.popped| <= t < |s.log|
  }

  /** A ticket in hand is its producer's, live, and not in the ring. */
  ghost predicate HolderOk(c: Config, s: State, p: nat)
    requires c.size > 0 && p < |s.pcs| && Holding(s.pcs[p])
  {
    var pc := s.pcs[p];
    && Live(s, pc.ticket) && s.log[pc.ticket] == Entry(p, pc.line)
    && pc.slot == pc.ticket % c.size && pc.slot < |s.items|
    && (s.items[pc.slot].written ==> s.items[pc.slot].ticket != pc.ticket)
  }

  /** A line in the ring is in its ticket's item, and its ticket is live and less than a lap ahead. */
  ghost predicate ItemOk(c: Config, s: State, i: nat)
    requires c.size > 0 && i < |s.items|
  {
    var item := s.items[i];
    && Live(s, item.ticket) && item.ticket < |s.popped| + c.size
    && s.log[item.ticket].line == item.line && i == item.ticket % c.size
  }

  ghost predicate Ordered(c: Config, s: State) {
    && c.size > 0
    && s.writeIndex == |s.log| && s.readIndex == |s.popped| <= |s.log|
    && s.overwritten == [] && s.popped == Lines(s.log[..|s.popped|])
    && (forall p | 0 <= p < |s.pcs| && Holding(s.pcs[p]) :: HolderOk(c, s, p))
    && (forall i | 0 <= i < |s.items| && s.items[i].written :: ItemOk(c, s, i))
    && (!s.reader.RIdle? && !s.reader.RUnlock? ==> s.reader.slot == s.readIndex % c.size)
  }

  lemma Multiples(k: int, m: nat)
    ensures k >= 1 ==> k * m >= m
    ensures k <= 0 ==> k * m <= 0
  {
  }

  lemma Distribute(a: int, b: int, m: int)
    ensures (a - b) * m == a * m - b * m
  {
  }

  /** Two different tickets within one lap use different items. */
  lemma SlotsDiffer(m: nat, t: nat, t': nat)
    requires m > 0 && t < t' < t + m
    ensures t % m != t' % m
  {
    var q, q' := t / m, t' / m;
    Distribute(q', q, m);
    Multiples(q' - q, m);
  }

  /** Tickets within one lap are told apart by their items. */
  lemma LapSlots(m: nat, low: nat, t: nat, t': nat)
    requires m > 0 && low <= t < low + m && low <= t' < low + m && t % m == t' % m
    ensures t == t'
  {
    if t < t' {
      SlotsDiffer(m, t, t');
    } else if t' < t {
      SlotsDiffer(m, t', t);
    }
  }

  lemma BeginOrdered(c: Config, s: State, s': State)
    requires Ordered(c, s) && BeginStep(s, s')
    ensures Ordered(c, s')
  {
    forall i | 0 <= i < |s'.items| && s'.items[i].written ensures ItemOk(c, s', i) {
      assert ItemOk(c, s, i);
    }
    forall p | 0 <= p < |s'.pcs| && Holding(s'.pcs[p]) ensures HolderOk(c, s', p) {
      assert HolderOk(c, s, p);
    }
  }

  lemma TicketOrdered(c: Config, s: State, p: nat)
    requires Shape(c, s) && Ordered(c, s) && p < |s.pcs| && s.pcs[p].Start? && |s.log| + 1 < UINT32
    ensures Ordered(c, ProducerStep(c, s, p))
  {
    var s' := ProducerStep(c, s, p);
    assert s'.log[..|s.popped|] == s.log[..|s.popped|];
    forall k | 0 <= k < |s'.items| && s'.items[k].written ensures ItemOk(c, s', k) {
      assert ItemOk(c, s, k);
    }
    forall r | 0 <= r < |s'.pcs| && Holding(s'.pcs[r]) ensures HolderOk(c, s', r) {
      assert r != p ==> HolderOk(c, s, r);
      assert r == p && s.items[s'.pcs[p].slot].written ==> ItemOk(c, s, s'.pcs[p].slot);
    }
  }

  /** Taking or releasing the lock of an item. */
  lemma LockOrdered(c: Config, s: State, p: nat)
    requires Shape(c, s) && Ordered(c, s) && p < |s.pcs| && (s.pcs[p].Idle? || s.pcs[p].Wait? || s.pcs[p].Unlock?)
    ensures Ordered(c, ProducerStep(c, s, p))
  {
    var s' := ProducerStep(c, s, p);
    forall k | 0 <= k < |s'.items| && s'.items[k].written ensures ItemOk(c, s', k) {
      assert ItemOk(c, s, k);
    }
    forall r | 0 <= r < |s'.pcs| && Holding(s'.pcs[r]) ensures HolderOk(c, s', r) {
      assert HolderOk(c, s, r);
    }
  }

  /** A store within the lap finds its item empty. */
  lemma StoreFindsEmpty(c: Config, s: State, p: nat)
    requires Ordered(c, s) && p < |s.pcs| && s.pcs[p].Store? && s.pcs[p].ticket < |s.popped| + c.size
    ensures s.pcs[p].slot < |s.items| && !s.items[s.pcs[p].slot].written
  {
    var i, t := s.pcs[p].slot, s.pcs[p].ticket;
    assert HolderOk(c, s, p);
    if s.items[i].written {
      assert ItemOk(c, s, i);
      LapSlots(c.size, |s.popped|, s.items[i].ticket, t);
    }
  }

  lemma StoreOrdered(c: Config, s: State, p: nat)
    requires Shape(c, s) && Ordered(c, s) && p < |s.pcs| && s.pcs[p].Store?
    requires s.pcs[p].ticket < |s.popped| + c.size
    ensures Ordered(c, ProducerStep(c, s, p))
  {
    var s' := ProducerStep(c, s, p);
    StoreFindsEmpty(c, s, p);
    assert HolderOk(c, s, p);
    forall k | 0 <= k < |s'.items| && s'.items[k].written ensures ItemOk(c, s', k) {
      assert k != s.pcs[p].slot ==> ItemOk(c, s, k);
    }
    forall r | 0 <= r < |s'.pcs| && Holding(s'.pcs[r]) ensures HolderOk(c, s', r) {
      assert HolderOk(c, s, r);
    }
  }

  lemma ReaderMoves(c: Config, s: State)
    requires Shape(c, s) && Ordered(c, s)
    requires s.reader.RLook? ==> !s.items[s.reader.slot].written
    ensures Ordered(c, ReaderStep(c, s))
  {
    var s' := ReaderStep(c, s);
    forall j | 0 <= j < |s'.items| && s'.items[j].written ensures ItemOk(c, s', j) {
      assert ItemOk(c, s, j);
    }
    forall r | 0 <= r < |s'.pcs| && Holding(s'.pcs[r]) ensures HolderOk(c, s', r) {
      assert HolderOk(c, s, r);
    }
  }

  /** The line under the read index is the next ticket's. */
  lemma NextTicket(c: Config, s: State)
    requires Shape(c, s) && Ordered(c, s)
    requires s.reader.RLook? && s.items[s.reader.slot].written
    ensures s.items[s.reader.slot].ticket == |s.popped| < |s.log|
    ensures s.items[s.reader.slot].line == s.log[|s.popped|].line
    ensures Lines(s.log[..|s.popped| + 1]) == s.popped + [s.items[s.reader.slot].line]
  {
    var i, k := s.reader.slot, |s.popped|;
    assert ItemOk(c, s, i);
    LapSlots(c.size, k, s.items[i].ticket, k);
    assert s.log[..k + 1] == s.log[..k] + [s.log[k]];
    assert Lines(s.log[..k + 1]) == Lines(s.log[..k]) + [s.log[k].line];
  }

  lemma TakeOrdered(c: Config, s: State)
    requires Shape(c, s) && Ordered(c, s) && |s.log| < UINT32
    requires s.reader.RLook? && s.items[s.reader.slot].written
    ensures Ordered(c, ReaderStep(c, s))
  {
    NextTicket(c, s);
    hide Lines;
    var s' := ReaderStep(c, s);
    forall j | 0 <= j < |s'.items| && s'.items[j].written ensures ItemOk(c, s', j) {
      assert ItemOk(c, s, j);
    }
    forall r | 0 <= r < |s'.pcs| && Holding(s'.pcs[r]) ensures HolderOk(c, s', r) {
      assert HolderOk(c, s, r);
    }
  }

  // ----- no ticket is lost, while no store laps the reader

  /** A producer has the ticket in hand. */
  ghost predicate HeldAt(s: State, t: int) {
    exists p :: 0 <= p < |s.pcs| && Holding(s.pcs[p]) && s.pcs[p].ticket == t
  }

  /** The ticket's line is in its item. */
  predicate StoredAt(c: Config, s: State, t: int)
    requires c.size > 0
  {
    var i := t % c.size;
    i < |s.items| && s.items[i].written && s.items[i].ticket == t
  }

  /** Every live ticket is with its producer or in its item. */
  ghost predicate Placed(c: Config, s: State) {
    c.size > 0 && forall t | Live(s, t) :: HeldAt(s, t) || StoredAt(c, s, t)
  }

  lemma HeldStays(s: State, s': State, t: int)
    requires |s'.pcs| == |s.pcs| && HeldAt(s, t)
    requires forall r | 0 <= r < |s.pcs| && Holding(s.pcs[r]) && s.pcs[r].ticket == t ::
               Holding(s'.pcs[r]) && s'.pcs[r].ticket == t
    ensures HeldAt(s', t)
  {
    var r :| 0 <= r < |s.pcs| && Holding(s.pcs[r]) && s.pcs[r].ticket == t;
    assert Holding(s'.pcs[r]);
  }

  /** Steps that store nothing, take nothing and give no ticket. */
  lemma PlacedStays(c: Config, s: State, s': State)
    requires Placed(c, s) && |s'.pcs| == |s.pcs| && |s'.items| == |s.items|
    requires |s'.log| == |s.log| && |s'.popped| == |s.popped|
    requires forall r | 0 <= r < |s.pcs| && Holding(s.pcs[r]) ::
               Holding(s'.pcs[r]) && s'.pcs[r].ticket == s.pcs[r].ticket
    requires forall i | 0 <= i < |s.items| && s.items[i].written ::
               s'.items[i].written && s'.items[i].ticket == s.items[i].ticket
    ensures Placed(c, s')
  {
    forall t | Live(s', t) ensures HeldAt(s', t) || StoredAt(c, s', t) {
      assert Live(s, t);
      if HeldAt(s, t) {
        HeldStays(s, s', t);
      }
    }
  }

  lemma TicketPlaced(c: Config, s: State, p: nat)
    requires Shape(c, s) && Placed(c, s) && p < |s.pcs| && s.pcs[p].Start?
    ensures Placed(c, ProducerStep(c, s, p))
  {
    var s' := ProducerStep(c, s, p);
    forall t | Live(s', t) ensures HeldAt(s', t) || StoredAt(c, s', t) {
      if t == |s.log| {
        assert Holding(s'.pcs[p]) && s'.pcs[p].ticket == t;
      } else {
        assert Live(s, t);
        if HeldAt(s, t) {
          HeldStays(s, s', t);
        }
      }
    }
  }

  lemma StorePlaced(c: Config, s: State, p: nat)
    requires Shape(c, s) && Ordered(c, s) && Placed(c, s) && p < |s.pcs| && s.pcs[p].Store?
    requires s.pcs[p].ticket < |s.popped| + c.size
    ensures Placed(c, ProducerStep(c, s, p))
  {
    var s', i, u := ProducerStep(c, s, p), s.pcs[p].slot, s.pcs[p].ticket;
    StoreFindsEmpty(c, s, p);
    assert HolderOk(c, s, p);
    hide Ordered;
    forall t | Live(s', t) ensures HeldAt(s', t) || StoredAt(c, s', t) {
      assert Live(s, t);
      if t == u {
        assert StoredAt(c, s', t);
      } else if HeldAt(s, t) {
        HeldStays(s, s', t);
      } else {
        assert t % c.size != i;
      }
    }
  }

  lemma TakePlaced(c: Config, s: State)
    requires Shape(c, s) && Ordered(c, s) && Placed(c, s) && s.reader.RLook? && s.items[s.reader.slot].written
    ensures Placed(c, ReaderStep(c, s))
  {
    var s' := ReaderStep(c, s);
    NextTicket(c, s);
    hide Ordered;
    forall t | Live(s', t) ensures HeldAt(s', t) || StoredAt(c, s', t) {
      assert Live(s, t);
      if HeldAt(s, t) {
        HeldStays(s, s', t);
      }
    }
  }

  lemma LockPlaced(c: Config, s: State, p: nat)
    requires Shape(c, s) && Placed(c, s) && p < |s.pcs| && (s.pcs[p].Idle? || s.pcs[p].Wait? || s.pcs[p].Unlock?)
    ensures Placed(c, ProducerStep(c, s, p))
  {
    hide Placed;
    var s' := ProducerStep(c, s, p);
    assert forall r | 0 <= r < |s.pcs| && r != p :: s'.pcs[r] == s.pcs[r];
    PlacedStays(c, s, s');
  }

  lemma ReaderPlaced(c: Config, s: State)
    requires Shape(c, s) && Placed(c, s) && (s.reader.RLook? ==> !s.items[s.reader.slot].written)
    ensures Placed(c, ReaderStep(c, s))
  {
    hide Placed;
    PlacedStays(c, s, ReaderStep(c, s));
  }

  lemma BeginPlaced(c: Config, s: State, p: nat, line: Line)
    requires Placed(c, s) && p < |s.pcs| == |s.calls| && s.pcs[p].Idle?
    ensures Placed(c, Begin(s, p, line))
  {
    hide Placed;
    PlacedStays(c, s, Begin(s, p, line));
  }

  lemma StoreMoves(c: Config, s: State, p: nat)
    requires Shape(c, s) && p < |s.pcs| && s.pcs[p].Store?
    ensures p < |ProducerStep(c, s, p).pcs| && ProducerStep(c, s, p).pcs[p] != s.pcs[p]
  {
  }

  lemma StepPlaced(c: Config, s: State, s': State)
    requires Next(c, s, s') && Ordered(c, s) && Placed(c, s) && InLap(c, s, s')
    ensures Placed(c, s')
  {
    hide Ordered, Placed, ProducerStep, ReaderStep, Begin;
    if BeginStep(s, s') {
      var p: nat, line: Line :| p < |s.pcs| == |s.calls| && s.pcs[p].Idle? && s' == Begin(s, p, line);
      BeginPlaced(c, s, p, line);
    } else if AnyProducerStep(c, s, s') {
      var p: nat :| p < |s.pcs| && s' == ProducerStep(c, s, p);
      match s.pcs[p]
      case Start(_) => TicketPlaced(c, s, p);
      case Store(_, _, _) => StoreMoves(c, s, p); StorePlaced(c, s, p);
      case _ => LockPlaced(c, s, p);
    } else if s.reader.RLook? && s.items[s.reader.slot].written {
      TakePlaced(c, s);
    } else {
      ReaderPlaced(c, s);
    }
  }

  lemma StepOrdered(c: Config, s: State, s': State)
    requires Next(c, s, s') && Ordered(c, s) && InLap(c, s, s') && |s.log| < UINT32
    ensures Ordered(c, s')
  {
    hide Ordered, ReaderStep, BeginStep;
    if BeginStep(s, s') {
      BeginOrdered(c, s, s');
    } else if AnyProducerStep(c, s, s') {
      var p: nat :| p < |s.pcs| && s' == ProducerStep(c, s, p);
      match s.pcs[p]
      case Start(_) => TicketOrdered(c, s, p);
      case Store(_, _, _) => StoreOrdered(c, s, p);
      case _ => LockOrdered(c, s, p);
    } else if s.reader.RLook? && s.items[s.reader.slot].written {
      TakeOrdered(c, s);
    } else {
      ReaderMoves(c, s);
    }
  }

  /** While no store laps the reader, nothing is overwritten and the popped lines are exactly the first
      ones in ticket order, however far ahead tickets are issued. */
  lemma {:induction false} RingOrdered(c: Config, run: seq<State>, i: nat)
    requires c.Valid() && IsRun(c, run) && i < |run|
    requires forall k | 0 <= k < i :: InLap(c, run[k], run[k + 1])
    ensures Ordered(c, run[i]) && Placed(c, run[i]) && |run[i].log| < UINT32
    ensures run[i].overwritten == []
    ensures |run[i].popped| <= |run[i].log| && run[i].popped == Lines(run[i].log[..|run[i].popped|])
  {
    if i > 0 {
      hide Next;
      RingOrdered(c, run, i - 1);
      assert Next(c, run[i - 1], run[i - 1 + 1]) && InLap(c, run[i - 1], run[i - 1 + 1]);
      hide Ordered, Placed;
      StepOrdered(c, run[i - 1], run[i]);
      StepPlaced(c, run[i - 1], run[i]);
    }
  }

  // ----- the ring is emptied

  ghost predicate AllIdle(s: State) {
    forall p | 0 <= p < |s.pcs| :: s.pcs[p].Idle?
  }

  /** One call of try_pop, when no push is under way. */
  ghost function TryPop(c: Config, s: State): State
    requires Shape(c, s)
  {
    ReaderStep(c, ReaderStep(c, ReaderStep(c, ReaderStep(c, s))))
  }

  /** All that holds between two calls of try_pop when no push is under way. */
  ghost predicate AtRest(c: Config, s: State) {
    && Shape(c, s) && LocksOk(s.items, s.pcs, s.reader) && Ordered(c, s) && Placed(c, s)
    && AllIdle(s) && s.reader.RIdle? && |s.log| < UINT32
  }

  lemma ReaderKeeps(c: Config, s: State)
    requires Shape(c, s) && LocksOk(s.items, s.pcs, s.reader) && Ordered(c, s) && Placed(c, s) && |s.log| < UINT32
    ensures var s' := ReaderStep(c, s);
      && LocksOk(s'.items, s'.pcs, s'.reader) && Ordered(c, s') && Placed(c, s')
      && s'.pcs == s.pcs && s'.log == s.log
  {
    hide Ordered, Placed, LocksOk, Lines;
    var s' := ReaderStep(c, s);
    ReaderLocks(c, s);
    if s.reader.RLook? && s.items[s.reader.slot].written {
      TakeOrdered(c, s);
      TakePlaced(c, s);
    } else {
      ReaderMoves(c, s);
      ReaderPlaced(c, s);
    }
  }

  lemma NextIsStored(c: Config, s: State)
    requires AtRest(c, s) && |s.popped| < |s.log|
    ensures var i := s.readIndex % c.size;
      i < |s.items| && s.items[i].lock == Free && s.items[i].written
  {
    var t := |s.popped|;
    assert Live(s, t);
    assert StoredAt(c, s, t);
    assert LockHeld(t % c.size, s.items[t % c.size].lock, s.pcs, s.reader);
    hide Lines;
  }

  lemma LastStep(c: Config, s: State)
    requires Shape(c, s) && s.reader.RUnlock?
    ensures ReaderStep(c, s).reader.RIdle? && ReaderStep(c, s).popped == s.popped
  {
  }

  /** A try_pop pops the next line if there is one. */
  lemma TryPopPops(c: Config, s: State)
    requires AtRest(c, s) && |s.popped| < |s.log|
    ensures AtRest(c, TryPop(c, s)) && TryPop(c, s).log == s.log
    ensures |TryPop(c, s).popped| == |s.popped| + 1
  {
    NextIsStored(c, s);
    var s1 := ReaderStep(c, s);
    var s2 := ReaderStep(c, s1);
    var s3 := ReaderStep(c, s2);
    var i := s.readIndex % c.size;
    assert s1.reader == RWait(i) && s2.reader == RLook(i) && s3.reader == RUnlock(i);
    assert |s3.popped| == |s.popped| + 1;
    hide ReaderStep, Ordered, Placed, LocksOk;
    ReaderKeeps(c, s);
    ReaderKeeps(c, s1);
    ReaderKeeps(c, s2);
    ReaderKeeps(c, s3);
    LastStep(c, s3);
  }

  ghost function TryPops(c: Config, s: State, n: nat): State
    requires Shape(c, s)
    decreases n
  {
    if n == 0 then s else TryPops(c, TryPop(c, s), n - 1)
  }

  /** So, as long as no store laps the reader, every line gets out: as many calls as there are tickets not
      popped yet pop the rest of the lines. */
  lemma {:induction false} RingEmpties(c: Config, s: State)
    requires AtRest(c, s)
    ensures |s.popped| <= |s.log|
    ensures TryPops(c, s, |s.log| - |s.popped|).popped == Lines(s.log)
    decreases |s.log| - |s.popped|
  {
    hide ReaderStep, Placed, LocksOk, TryPop, AllIdle;
    if |s.popped| < |s.log| {
      TryPopPops(c, s);
      RingEmpties(c, TryPop(c, s));
    } else {
      assert s.log[..|s.popped|] == s.log;
    }
  }
}
