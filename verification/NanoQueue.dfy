/** QueueBuffer, its chain of Buffers, the producers in NanoLogger::add and the thread in
    NanoLogger::pop, as a transition system with one step per atomic operation.

    Buffers live on a garbage-collected heap and are addressed by allocation number.  A step is a
    total function into Option<State>; None is a memory fault (a wild pointer, a slot outside its
    buffer, a move out of a slot that holds no line, a pop of an empty queue).  */
module NanoQueue {
  import opened Common
  import opened FileWriters
  import opened LogEntries

  // size is Buffer::size; producers is the number of threads that may call add.
  datatype Config = Config(size: nat, producers: nat, rollLimit: nat) {
    ghost predicate Valid() {
      size >= 1 && size + producers < UINT32
    }
  }

  // Raw memory, a constructed item, or an item whose line was moved out by the reader.
  datatype Slot = Raw | Full(line: Line) | Moved

  // flags are m_write_state[0..size), count is m_write_state[size].
  // counted is history: which slots the count stands for.
  datatype Buffer = Buffer(slots: seq<Slot>, flags: seq<bool>, count: nat, counted: seq<bool>)

  datatype Lock = Free | HeldByProducer(p: nat) | HeldByLogger

  // resv is history: per buffer, the reservations won on it, in slot order.
  // switched is history: per buffer, how many Buffer::push calls returned true.
  datatype Queue = Queue(
    bufs: seq<Buffer>,
    current: nat,
    writeIndex: nat,
    queue: seq<nat>,
    lock: Lock,
    resv: seq<seq<Entry>>,
    switched: seq<nat>)

  // Where a producer stands in QueueBuffer::push.
  datatype Pc =
    | Idle
    | Start(line: Line)                          // about to fetch_add m_write_index
    | Spin(line: Line)                           // waiting for m_write_index to drop below size
    | HasSlot(line: Line, slot: nat)             // about to load m_current_write_buffer
    | HasBuffer(line: Line, slot: nat, buf: nat) // about to construct the item
    | Built(slot: nat, buf: nat)                 // about to publish the slot
    | Published(slot: nat, buf: nat)             // about to count the slot
    | Install0                                   // about to allocate and store the next write buffer
    | Install1(buf: nat)                         // waiting for the spin lock
    | Install2(buf: nat)                         // about to enqueue the buffer
    | Install3                                   // about to reset m_write_index
    | Install4                                   // about to release the spin lock

  // Where the logger thread stands in NanoLogger::pop and QueueBuffer::try_pop.
  // drain says which of the two loops it is in.
  datatype LoggerPc =
    | WaitInit
    | CheckMode
    | PopStart(drain: bool)
    | FrontWait(drain: bool)
    | FrontLocked(drain: bool)
    | FrontUnlock(drain: bool)
    | Probe(drain: bool)
    | Take(drain: bool)
    | PopWait(drain: bool, line: Line)
    | PopLocked(drain: bool, line: Line)
    | PopUnlock(drain: bool, line: Line)
    | Write(drain: bool, line: Line)
    | Finished

  datatype Mode = Init | Ready | Shutdown

  // base is history: how many buffers have been read to their end.
  // popped is history: every line try_pop has handed over.
  datatype Logger = Logger(
    pc: LoggerPc,
    readBuf: Option<nat>,
    readIndex: nat,
    base: nat,
    popped: seq<Line>,
    files: seq<seq<Line>>)

  // calls is history: per producer, the lines it has passed to add, in its program order.
  datatype State = State(mode: Mode, q: Queue, pcs: seq<Pc>, lg: Logger, calls: seq<seq<Line>>)

  function NewBuffer(c: Config): Buffer {
    Buffer(seq(c.size, _ => Raw), seq(c.size, _ => false), 0, seq(c.size, _ => false))
  }

  function InitState(c: Config): State {
    State(
      Init,
      Queue([NewBuffer(c)], 0, 0, [0], Free, [[]], [0]),
      seq(c.producers, _ => Idle),
      Logger(WaitInit, None, 0, 0, [], [[]]),
      seq(c.producers, _ => []))
  }

  function WithPc(s: State, p: nat, pc: Pc): State
    requires p < |s.pcs|
  {
    s.(pcs := s.pcs[p := pc])
  }

  function WithBuffer(q: Queue, b: nat, buf: Buffer): Queue
    requires b < |q.bufs|
  {
    q.(bufs := q.bufs[b := buf])
  }

  /** A producer calls add with a line. */
  function Begin(s: State, p: nat, line: Line): State
    requires p < |s.pcs| && |s.calls| == |s.pcs|
  {
    WithPc(s, p, Start(line)).(calls := s.calls[p := s.calls[p] + [line]])
  }

  /** m_write_index.fetch_add(1), and the choice it decides. */
  function FetchAdd(c: Config, s: State, p: nat, line: Line): Option<State>
    requires p < |s.pcs|
  {
    var w := s.q.writeIndex;
    var q := s.q.(writeIndex := (w + 1) % UINT32);
    if w < c.size then
      if s.q.resv == [] then None else
      var last := |q.resv| - 1;
      Some(WithPc(s.(q := q.(resv := q.resv[last := q.resv[last] + [Entry(p, line)]])), p, HasSlot(line, w)))
    else
      Some(WithPc(s.(q := q), p, Spin(line)))
  }

  /** Whether b and w name a slot of a buffer. */
  predicate ValidSlot(q: Queue, b: nat, w: nat) {
    && b < |q.bufs| && b < |q.switched|
    && w < |q.bufs[b].slots| && w < |q.bufs[b].flags| && w < |q.bufs[b].counted|
  }

  /** m_write_state[size].fetch_add(1), and whether this push must switch buffers. */
  function Count(c: Config, s: State, p: nat, w: nat, b: nat): State
    requires p < |s.pcs| && ValidSlot(s.q, b, w)
  {
    var buf := s.q.bufs[b];
    var q := WithBuffer(s.q, b, buf.(count := buf.count + 1, counted := buf.counted[w := true]));
    if buf.count + 1 == c.size then
      WithPc(s.(q := q.(switched := q.switched[b := q.switched[b] + 1])), p, Install0)
    else
      WithPc(s.(q := q), p, Idle)
  }

  /** The next atomic operation of producer p; a blocked or idle producer stutters. */
  function ProducerStep(c: Config, s: State, p: nat): Option<State>
    requires p < |s.pcs|
  {
    match s.pcs[p]
    case Idle => Some(s)
    case Start(line) => FetchAdd(c, s, p, line)
    case Spin(line) =>
      Some(if s.q.writeIndex >= c.size then s else WithPc(s, p, Start(line)))
    case HasSlot(line, w) => Some(WithPc(s, p, HasBuffer(line, w, s.q.current)))
    case HasBuffer(line, w, b) =>
      if !ValidSlot(s.q, b, w) then None else
      var buf := s.q.bufs[b];
      Some(WithPc(s.(q := WithBuffer(s.q, b, buf.(slots := buf.slots[w := Full(line)]))), p, Built(w, b)))
    case Built(w, b) =>
      if !ValidSlot(s.q, b, w) then None else
      var buf := s.q.bufs[b];
      Some(WithPc(s.(q := WithBuffer(s.q, b, buf.(flags := buf.flags[w := true]))), p, Published(w, b)))
    case Published(w, b) =>
      if !ValidSlot(s.q, b, w) then None else Some(Count(c, s, p, w, b))
    case Install0 =>
      var q := s.q.(
        bufs := s.q.bufs + [NewBuffer(c)],
        current := |s.q.bufs|,
        resv := s.q.resv + [[]],
        switched := s.q.switched + [0]);
      Some(WithPc(s.(q := q), p, Install1(|s.q.bufs|)))
    case Install1(b) =>
      Some(if s.q.lock != Free then s
           else WithPc(s.(q := s.q.(lock := HeldByProducer(p))), p, Install2(b)))
    case Install2(b) => Some(WithPc(s.(q := s.q.(queue := s.q.queue + [b])), p, Install3))
    case Install3 => Some(WithPc(s.(q := s.q.(writeIndex := 0)), p, Install4))
    case Install4 => Some(WithPc(s.(q := s.q.(lock := Free)), p, Idle))
  }

  function GoTo(s: State, pc: LoggerPc): State {
    s.(lg := s.lg.(pc := pc))
  }

  /** try_pop returned false: sleep and look at the mode again, or leave the draining loop. */
  function Missed(s: State, drain: bool): State {
    GoTo(s, if drain then Finished else CheckMode)
  }

  function TakeLock(s: State, pc: LoggerPc): State {
    if s.q.lock != Free then s else GoTo(s.(q := s.q.(lock := HeldByLogger)), pc)
  }

  /** Moving the line out of the slot under the read index, and advancing the index. */
  function TakeLine(c: Config, s: State, drain: bool): Option<State> {
    if s.lg.readBuf.None? || !ValidSlot(s.q, s.lg.readBuf.value, s.lg.readIndex) then None else
    var b, r := s.lg.readBuf.value, s.lg.readIndex;
    var buf := s.q.bufs[b];
    if !buf.slots[r].Full? then None else
    var line := buf.slots[r].line;
    var q := WithBuffer(s.q, b, buf.(slots := buf.slots[r := Moved]));
    var lg := s.lg.(popped := s.lg.popped + [line]);
    Some(s.(q := q,
            lg := if r + 1 == c.size then
                    lg.(readIndex := 0, readBuf := None, base := lg.base + 1, pc := PopWait(drain, line))
                  else
                    lg.(readIndex := r + 1, pc := Write(drain, line))))
  }

  /** The next atomic operation of the logger thread; a blocked or finished thread stutters. */
  function LoggerStep(c: Config, s: State): Option<State> {
    match s.lg.pc
    case WaitInit => Some(if s.mode.Init? then s else GoTo(s, CheckMode))
    case CheckMode => Some(GoTo(s, PopStart(!s.mode.Ready?)))
    case PopStart(drain) =>
      Some(GoTo(s, if s.lg.readBuf.None? then FrontWait(drain) else Probe(drain)))
    case FrontWait(drain) => Some(TakeLock(s, FrontLocked(drain)))
    case FrontLocked(drain) =>
      var front := if s.q.queue == [] then None else Some(s.q.queue[0]);
      Some(s.(lg := s.lg.(readBuf := front, pc := FrontUnlock(drain))))
    case FrontUnlock(drain) =>
      var unlocked := s.(q := s.q.(lock := Free));
      Some(if s.lg.readBuf.None? then Missed(unlocked, drain) else GoTo(unlocked, Probe(drain)))
    case Probe(drain) =>
      if s.lg.readBuf.None? || !ValidSlot(s.q, s.lg.readBuf.value, s.lg.readIndex) then None else
      Some(if s.q.bufs[s.lg.readBuf.value].flags[s.lg.readIndex] then GoTo(s, Take(drain)) else Missed(s, drain))
    case Take(drain) => TakeLine(c, s, drain)
    case PopWait(drain, line) => Some(TakeLock(s, PopLocked(drain, line)))
    case PopLocked(drain, line) =>
      if s.q.queue == [] then None else
      Some(GoTo(s.(q := s.q.(queue := s.q.queue[1..])), PopUnlock(drain, line)))
    case PopUnlock(drain, line) => Some(GoTo(s.(q := s.q.(lock := Free)), Write(drain, line)))
    case Write(drain, line) =>
      if s.lg.files == [] then None else
      var files := AppendLine(c.rollLimit, s.lg.files, line);
      Some(s.(lg := s.lg.(files := files, pc := if drain then PopStart(true) else CheckMode)))
    case Finished => Some(s)
  }

  /** NanoLogger's constructor stores READY once, its destructor stores SHUTDOWN once. */
  ghost predicate ModeStep(s: State, s': State) {
    || (s.mode.Init? && s' == s.(mode := Ready))
    || (s.mode.Ready? && s' == s.(mode := Shutdown))
  }

  ghost predicate BeginStep(s: State, s': State) {
    exists p: nat, line: Line ::
      p < |s.pcs| == |s.calls| && s.pcs[p].Idle? && s' == Begin(s, p, line)
  }

  ghost predicate AnyProducerStep(c: Config, s: State, s': State) {
    exists p: nat :: p < |s.pcs| && ProducerStep(c, s, p) == Some(s')
  }

  ghost predicate Next(c: Config, s: State, s': State) {
    || ModeStep(s, s')
    || BeginStep(s, s')
    || AnyProducerStep(c, s, s')
    || LoggerStep(c, s) == Some(s')
  }

  /** The states a run passes through, from the constructor on, under any schedule. */
  ghost predicate IsRun(c: Config, run: seq<State>) {
    && run != []
    && run[0] == InitState(c)
    && forall i | 0 <= i < |run| - 1 :: Next(c, run[i], run[i + 1])
  }
}
