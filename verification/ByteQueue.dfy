/** The simple form of the producer/consumer buffer: a byte queue with waiting read requests.
    Each operation is what the buffer does in one hold of its lock. */
module ByteQueues {
  import opened Common

  // What a reader may ask for.  Peek is _scopy; Released is a release after an acquire.
  datatype Kind =
    | Getn(count: nat)
    | Bumpc
    | Getc
    | Nextc
    | Peek(count: nat)
    | Released(count: nat)

  // An answered request: what the caller was given and what left the queue, with what held when it
  // was answered: whether writing was open and whether flushed bytes were left.
  datatype Answer = Answer(kind: Kind, given: seq<Byte>, taken: seq<Byte>, open: bool, flushed: bool)

  // stored is history: every byte written or committed.
  datatype Q = Q(
    unread: seq<Byte>,
    synced: nat,
    open: bool,
    readable: bool,
    pending: seq<Kind>,
    answers: seq<Answer>,
    stored: seq<Byte>)

  const EMPTY: Q := Q([], 0, true, true, [], [], [])

  /** How many characters a request waits for: one, unless it counts. */
  function Wanted(k: Kind): nat {
    match k
    case Getn(n) => n
    case Peek(n) => n
    case _ => 1
  }

  /** can_satisfy. */
  predicate CanSatisfy(q: Q, count: nat) {
    q.synced > 0 || |q.unread| >= count || !q.open
  }

  function Upto(bs: seq<Byte>, n: nat): seq<Byte> {
    if n <= |bs| then bs[..n] else bs
  }

  function Beyond(bs: seq<Byte>, n: nat): seq<Byte> {
    if n <= |bs| then bs[n..] else []
  }

  /** What a request hands to its caller. */
  function Given(k: Kind, unread: seq<Byte>): seq<Byte> {
    match k
    case Getn(n) => Upto(unread, n)
    case Bumpc => Upto(unread, 1)
    case Getc => Upto(unread, 1)
    case Nextc => Upto(Beyond(unread, 1), 1)
    case Peek(n) => Upto(unread, n)
    case Released(n) => Upto(unread, n)
  }

  /** How many characters a request removes. */
  function Taken(k: Kind): nat {
    match k
    case Getn(n) => n
    case Bumpc => 1
    case Getc => 0
    case Nextc => 1
    case Peek(_) => 0
    case Released(n) => n
  }

  /** Removing up to n characters; the flushed ones go first. */
  function Drop(q: Q, n: nat): Q {
    var gone := |Upto(q.unread, n)|;
    q.(unread := Beyond(q.unread, n), synced := if q.synced > gone then q.synced - gone else 0)
  }

  function Complete(q: Q, k: Kind): Q {
    Drop(q, Taken(k)).(
      answers := q.answers + [Answer(k, Given(k, q.unread), Upto(q.unread, Taken(k)), q.open, q.synced > 0)])
  }

  /** Answer waiting requests, in order, until one cannot be satisfied. */
  function Fulfill(q: Q): Q
    decreases |q.pending|
  {
    if q.pending == [] || !CanSatisfy(q, Wanted(q.pending[0])) then q else
    Fulfill(Complete(q, q.pending[0]).(pending := q.pending[1..]))
  }

  function Store(q: Q, bs: seq<Byte>): Q {
    Fulfill(q.(unread := q.unread + bs, stored := q.stored + bs))
  }

  // One hold of the lock, or one store to a flag outside it.
  datatype Op =
    | Write(data: seq<Byte>)   // a write that found the buffer writable and readable, or a commit
    | Request(kind: Kind)      // an asynchronous read
    | SyncRead(kind: Kind)     // a synchronous read: answered now or not at all
    | Release(count: nat)
    | Sync
    | StopWriting              // _close_write before it takes the lock
    | FlushReaders             // _close_write under the lock
    | StopReading

  function Apply(q: Q, op: Op): Q {
    match op
    case Write(data) => Store(q, data)
    case Request(k) => if CanSatisfy(q, Wanted(k)) then Complete(q, k) else q.(pending := q.pending + [k])
    case SyncRead(k) => if CanSatisfy(q, Wanted(k)) then Complete(q, k) else q
    case Release(n) => Complete(q, Released(n))
    case Sync => Fulfill(q.(synced := |q.unread|))
    case StopWriting => q.(open := false)
    case FlushReaders => Fulfill(q)
    case StopReading => q.(readable := false)
  }

  function Run(q: Q, ops: seq<Op>): Q {
    if ops == [] then q else Apply(Run(q, ops[..|ops| - 1]), ops[|ops| - 1])
  }

  // ----- who has to wait

  /** There is less than the request asks for. */
  predicate Short(k: Kind, unread: seq<Byte>) {
    match k
    case Getn(n) => |unread| < n
    case Peek(n) => |unread| < n
    case _ => unread == []
  }

  /** A request has to wait while more may come, nothing is flushed and there is less than it asks for. */
  predicate MustWait(q: Q, k: Kind) {
    q.open && q.synced == 0 && Short(k, q.unread)
  }

  lemma MustWaitIs(q: Q, k: Kind)
    ensures MustWait(q, k) <==> !CanSatisfy(q, Wanted(k))
  {
  }

  // ----- what an answer is

  lemma UptoBeyond(bs: seq<Byte>, n: nat)
    ensures Upto(bs, n) + Beyond(bs, n) == bs
    ensures |Upto(bs, n)| == Min(n, |bs|)
  {
  }

  /** bs is the first n elements of s, or all of s if there are fewer. */
  predicate FirstOf(bs: seq<Byte>, s: seq<Byte>, n: nat) {
    bs <= s && |bs| <= n && (|bs| < n ==> bs == s)
  }

  /** What a request in front of unread characters must give and take, and what it must leave. */
  predicate Exact(a: Answer, unread: seq<Byte>, left: seq<Byte>) {
    && unread == a.taken + left
    && match a.kind
       case Getn(n) => FirstOf(a.given, unread, n) && a.taken == a.given
       case Bumpc => FirstOf(a.given, unread, 1) && a.taken == a.given
       case Getc => FirstOf(a.given, unread, 1) && a.taken == []
       case Nextc => FirstOf(a.taken, unread, 1) && FirstOf(a.given, left, 1)
       case Peek(n) => FirstOf(a.given, unread, n) && a.taken == []
       case Released(n) => FirstOf(a.given, unread, n) && a.taken == a.given
  }

  lemma UptoIsFirst(s: seq<Byte>, n: nat)
    ensures FirstOf(Upto(s, n), s, n)
    ensures Upto(s, 0) == []
  {
  }

  lemma GivenExact(k: Kind, unread: seq<Byte>, open: bool, flushed: bool)
    ensures Exact(Answer(k, Given(k, unread), Upto(unread, Taken(k)), open, flushed), unread, Beyond(unread, Taken(k)))
  {
    UptoBeyond(unread, Taken(k));
    UptoIsFirst(unread, Taken(k));
    UptoIsFirst(unread, Wanted(k));
    UptoIsFirst(Beyond(unread, 1), 1);
    hide Upto, Beyond, FirstOf;
  }

  /** Answering a request adds one answer, its own and exactly what it must be, and no more; the flushed
      characters go first. */
  lemma CompleteExact(q: Q, k: Kind)
    requires q.synced <= |q.unread|
    ensures var q' := Complete(q, k);
      && |q'.answers| == |q.answers| + 1 && q'.answers[..|q.answers|] == q.answers
      && var a := q'.answers[|q.answers|];
      && a.kind == k && a.open == q.open && (a.flushed <==> q.synced > 0)
      && Exact(a, q.unread, q'.unread)
      && q'.synced == Max(0, q.synced - |a.taken|)
      && q' == q.(unread := q'.unread, synced := q'.synced, answers := q'.answers)
  {
    UptoBeyond(q.unread, Taken(k));
    GivenExact(k, q.unread, q.open, q.synced > 0);
    hide Upto, Beyond, Exact, Given, Taken;
  }

  // ----- what every operation keeps

  /** The bytes that left the queue, in the order of the answers. */
  function Consumed(answers: seq<Answer>): seq<Byte> {
    if answers == [] then [] else Consumed(answers[..|answers| - 1]) + answers[|answers| - 1].taken
  }

  /** A read that reports less than it was asked for has a reason: nothing at all only after writing has
      closed, less than the count only after a sync or the close. */
  predicate Truthful(a: Answer) {
    match a.kind
    case Getn(n) => (a.given == [] && n >= 1 ==> !a.open) && (|a.given| < n ==> a.flushed || !a.open)
    case Peek(n) => (a.given == [] && n >= 1 ==> !a.open) && (|a.given| < n ==> a.flushed || !a.open)
    case Bumpc => a.given == [] ==> !a.open
    case Getc => a.given == [] ==> !a.open
    case _ => true
  }

  /** A read gives what stands at the reading position: right behind what the answers before it took;
      _nextc one further on. */
  predicate InPlace(a: Answer, at: nat, stored: seq<Byte>) {
    && at + |a.taken| <= |stored| && a.taken <= stored[at..]
    && a.given <= if a.kind.Nextc? then stored[at + |a.taken|..] else stored[at..]
  }

  ghost predicate AllInPlace(answers: seq<Answer>, stored: seq<Byte>) {
    forall i | 0 <= i < |answers| :: InPlace(answers[i], |Consumed(answers[..i])|, stored)
  }

  ghost predicate AllTruthful(answers: seq<Answer>) {
    forall i | 0 <= i < |answers| :: Truthful(answers[i])
  }

  /** While writing is open, the request at the head of the line is one that has to wait. */
  predicate HeadWaits(q: Q) {
    q.open && q.pending != [] ==> MustWait(q, q.pending[0])
  }

  /** The invariant without the part that a write or a sync breaks until requests are fulfilled. */
  ghost predicate Loose(q: Q) {
    && q.synced <= |q.unread|
    && Consumed(q.answers) + q.unread == q.stored
    && AllTruthful(q.answers) && AllInPlace(q.answers, q.stored)
  }

  ghost predicate Inv(q: Q) {
    Loose(q) && HeadWaits(q)
  }

  lemma ConsumedSnoc(answers: seq<Answer>, a: Answer)
    ensures Consumed(answers + [a]) == Consumed(answers) + a.taken
  {
    assert (answers + [a])[..|answers|] == answers;
  }

  /** A request that can be satisfied is answered truthfully. */
  lemma ExactTruthful(q: Q, a: Answer, left: seq<Byte>)
    requires q.synced <= |q.unread| && (!MustWait(q, a.kind) || a.kind.Released?)
    requires Exact(a, q.unread, left) && a.open == q.open && (a.flushed <==> q.synced > 0)
    ensures Truthful(a)
  {
  }

  lemma PrefixBehind(consumed: seq<Byte>, unread: seq<Byte>, bs: seq<Byte>)
    requires bs <= unread
    ensures bs <= (consumed + unread)[|consumed|..]
  {
    assert (consumed + unread)[|consumed|..] == unread;
  }

  lemma ExactInPlace(consumed: seq<Byte>, a: Answer, unread: seq<Byte>, left: seq<Byte>)
    requires Exact(a, unread, left)
    ensures InPlace(a, |consumed|, consumed + unread)
  {
    PrefixBehind(consumed, unread, a.taken);
    if a.kind.Nextc? {
      assert consumed + unread == (consumed + a.taken) + left;
      PrefixBehind(consumed + a.taken, left, a.given);
    } else {
      PrefixBehind(consumed, unread, a.given);
    }
    hide FirstOf;
  }

  /** Bytes that go from the queue to an answer stay accounted for. */
  lemma AccountKept(answers: seq<Answer>, a: Answer, unread: seq<Byte>, left: seq<Byte>, stored: seq<Byte>)
    requires Consumed(answers) + unread == stored && a.taken + left == unread
    ensures Consumed(answers + [a]) + left == stored
  {
    ConsumedSnoc(answers, a);
    hide Consumed;
    assert Consumed(answers) + (a.taken + left) == (Consumed(answers) + a.taken) + left;
  }

  lemma TruthKept(answers: seq<Answer>, a: Answer)
    requires Truthful(a) && AllTruthful(answers)
    ensures AllTruthful(answers + [a])
  {
    hide Truthful;
  }

  lemma PlaceKept(answers: seq<Answer>, a: Answer, stored: seq<Byte>)
    requires InPlace(a, |Consumed(answers)|, stored) && AllInPlace(answers, stored)
    ensures AllInPlace(answers + [a], stored)
  {
    hide InPlace, Consumed;
    var more := answers + [a];
    forall i | 0 <= i < |more| ensures InPlace(more[i], |Consumed(more[..i])|, stored) {
      assert more[..i] == if i < |answers| then answers[..i] else answers;
    }
  }

  lemma InPlaceGrows(a: Answer, at: nat, stored: seq<Byte>, bs: seq<Byte>)
    requires InPlace(a, at, stored)
    ensures InPlace(a, at, stored + bs)
  {
    assert (stored + bs)[at..] == stored[at..] + bs;
    assert (stored + bs)[at + |a.taken|..] == stored[at + |a.taken|..] + bs;
  }

  lemma PlacesGrow(answers: seq<Answer>, stored: seq<Byte>, bs: seq<Byte>)
    requires AllInPlace(answers, stored)
    ensures AllInPlace(answers, stored + bs)
  {
    forall i | 0 <= i < |answers| ensures InPlace(answers[i], |Consumed(answers[..i])|, stored + bs) {
      InPlaceGrows(answers[i], |Consumed(answers[..i])|, stored, bs);
    }
    hide InPlace, Consumed;
  }

  lemma TakenOff(a: Answer, unread: seq<Byte>, left: seq<Byte>)
    requires Exact(a, unread, left)
    ensures unread == a.taken + left
  {
  }

  /** Answering a request that can be satisfied tells the truth and moves bytes, but loses none. */
  lemma CompleteKeeps(q: Q, k: Kind)
    requires Loose(q)
    requires !MustWait(q, k) || k.Released?
    ensures Loose(Complete(q, k))
  {
    hide Truthful, AllTruthful, InPlace, AllInPlace, Exact, MustWait, Consumed, Complete;
    var q' := Complete(q, k);
    CompleteExact(q, k);
    var a := q'.answers[|q.answers|];
    assert q'.answers == q.answers + [a];
    assert a.taken + q'.unread == q.unread by {
      TakenOff(a, q.unread, q'.unread);
    }
    ExactTruthful(q, a, q'.unread);
    TruthKept(q.answers, a);
    ExactInPlace(Consumed(q.answers), a, q.unread, q'.unread);
    PlaceKept(q.answers, a, q.stored);
    AccountKept(q.answers, a, q.unread, q'.unread, q.stored);
    assert |a.taken| + |q'.unread| == |q.unread|;
  }

  /** Taking bytes away cannot satisfy a request that was waiting. */
  lemma HeadWaitsOn(q: Q, k: Kind)
    requires q.synced <= |q.unread| && HeadWaits(q)
    ensures HeadWaits(Complete(q, k))
  {
  }

  // ----- fulfilling

  /** From q to q' the first n requests of the line have been answered, in order, and no other. */
  ghost predicate AnsweredFirst(q: Q, q': Q, n: nat) {
    && n <= |q.pending| && q'.pending == q.pending[n..]
    && |q'.answers| == |q.answers| + n && q'.answers[..|q.answers|] == q.answers
    && forall i | 0 <= i < n :: q'.answers[|q.answers| + i].kind == q.pending[i]
  }

  lemma NoneAnswered(q: Q)
    ensures AnsweredFirst(q, q, 0)
  {
  }

  lemma CompleteFrame(q: Q, k: Kind)
    ensures var q' := Complete(q, k);
      q' == q.(unread := q'.unread, synced := q'.synced, answers := q'.answers)
    ensures q.synced <= |q.unread| ==> Complete(q, k).synced <= |Complete(q, k).unread|
  {
  }

  lemma ClosedServes(q: Q, k: Kind)
    ensures !q.open ==> !MustWait(q, k)
  {
  }

  lemma LooseLine(q: Q, line: seq<Kind>)
    requires Loose(q)
    ensures Loose(q.(pending := line))
  {
  }

  lemma FirstAnswered(q: Q, q1: Q, q': Q, n: nat)
    requires q.pending != [] && q1.pending == q.pending[1..] && AnsweredFirst(q1, q', n)
    requires |q1.answers| == |q.answers| + 1 && q1.answers[..|q.answers|] == q.answers
    requires q1.answers[|q.answers|].kind == q.pending[0]
    ensures AnsweredFirst(q, q', n + 1)
  {
    assert q'.answers[..|q.answers|] == q'.answers[..|q1.answers|][..|q.answers|];
    assert q'.answers[|q.answers|] == q'.answers[..|q1.answers|][|q.answers|];
    forall i | 0 < i < n + 1 ensures q'.answers[|q.answers| + i].kind == q.pending[i] {
      assert q'.answers[|q1.answers| + (i - 1)].kind == q1.pending[i - 1];
    }
  }

  /** Fulfilling answers requests from the front of the line. */
  lemma {:induction false} FulfillAnswers(q: Q) returns (n: nat)
    requires q.synced <= |q.unread|
    ensures AnsweredFirst(q, Fulfill(q), n)
    decreases |q.pending|
  {
    hide AnsweredFirst, Complete, Exact;
    if q.pending == [] || !CanSatisfy(q, Wanted(q.pending[0])) {
      n := 0;
      assert AnsweredFirst(q, q, 0) by {
        NoneAnswered(q);
      }
    } else {
      CompleteExact(q, q.pending[0]);
      CompleteFrame(q, q.pending[0]);
      var q1 := Complete(q, q.pending[0]).(pending := q.pending[1..]);
      n := FulfillAnswers(q1);
      FirstAnswered(q, q1, Fulfill(q1), n);
      n := n + 1;
    }
  }

  /** Fulfilling restores the waiting head, and empties the line once writing has closed. */
  lemma {:induction false} FulfillKeeps(q: Q)
    requires Loose(q)
    ensures Inv(Fulfill(q)) && Fulfill(q).open == q.open
    ensures !q.open ==> Fulfill(q).pending == []
    decreases |q.pending|
  {
    hide Loose, Complete, MustWait, CanSatisfy, Wanted, Exact;
    if q.pending != [] {
      MustWaitIs(q, q.pending[0]);
      assert !q.open ==> !MustWait(q, q.pending[0]) by {
        ClosedServes(q, q.pending[0]);
      }
      if !MustWait(q, q.pending[0]) {
        var q1 := Complete(q, q.pending[0]);
        CompleteKeeps(q, q.pending[0]);
        CompleteFrame(q, q.pending[0]);
        LooseLine(q1, q.pending[1..]);
        FulfillKeeps(q1.(pending := q.pending[1..]));
      }
    }
  }

  lemma InvLoose(q: Q)
    ensures Inv(q) ==> Loose(q)
    ensures Loose(q) ==> q.synced <= |q.unread|
  {
  }

  lemma StoreKeeps(q: Q, bs: seq<Byte>)
    requires Inv(q)
    ensures Inv(Store(q, bs))
  {
    hide AllTruthful, AllInPlace, HeadWaits, Fulfill, Consumed;
    assert Consumed(q.answers) + (q.unread + bs) == Consumed(q.answers) + q.unread + bs;
    PlacesGrow(q.answers, q.stored, bs);
    FulfillKeeps(q.(unread := q.unread + bs, stored := q.stored + bs));
  }

  lemma AnswerKeeps(q: Q, k: Kind)
    requires Inv(q) && (CanSatisfy(q, Wanted(k)) || k.Released?)
    ensures Inv(Complete(q, k))
  {
    hide Loose, HeadWaits, Complete, MustWait;
    InvLoose(q);
    MustWaitIs(q, k);
    CompleteKeeps(q, k);
    HeadWaitsOn(q, k);
  }

  lemma ApplyKeeps(q: Q, op: Op)
    requires Inv(q)
    ensures Inv(Apply(q, op))
  {
    hide AllTruthful, AllInPlace, Complete, Fulfill, Store, Consumed;
    match op
    case Write(data) => StoreKeeps(q, data);
    case Request(k) => if CanSatisfy(q, Wanted(k)) { AnswerKeeps(q, k); } else { MustWaitIs(q, k); }
    case SyncRead(k) => if CanSatisfy(q, Wanted(k)) { AnswerKeeps(q, k); }
    case Release(n) => AnswerKeeps(q, Released(n));
    case Sync => FulfillKeeps(q.(synced := |q.unread|));
    case FlushReaders => FulfillKeeps(q);
    case _ =>
  }

  /** Under any interleaving: the bytes consumed, in the order of the answers, followed by the unread
      ones are all the bytes stored; each answer gives what stands at the reading position; no request
      that need not wait is left waiting at the head while writing is open; every answer is truthful. */
  lemma {:induction false} EveryRunKeeps(ops: seq<Op>)
    ensures Inv(Run(EMPTY, ops))
  {
    if ops != [] {
      hide Inv, Apply;
      EveryRunKeeps(ops[..|ops| - 1]);
      ApplyKeeps(Run(EMPTY, ops[..|ops| - 1]), ops[|ops| - 1]);
    }
  }

  // ----- what was written, and whether more may come

  /** The bytes of the writes. */
  function Written(ops: seq<Op>): seq<Byte> {
    if ops == [] then [] else
    Written(ops[..|ops| - 1]) + if ops[|ops| - 1].Write? then ops[|ops| - 1].data else []
  }

  lemma {:induction false} FulfillFrame(q: Q)
    ensures Fulfill(q).stored == q.stored && Fulfill(q).open == q.open && Fulfill(q).readable == q.readable
    decreases |q.pending|
  {
    if q.pending != [] && CanSatisfy(q, Wanted(q.pending[0])) {
      CompleteFrame(q, q.pending[0]);
      FulfillFrame(Complete(q, q.pending[0]).(pending := q.pending[1..]));
    }
  }

  lemma ApplyFrame(q: Q, op: Op)
    ensures var q' := Apply(q, op);
      && q'.stored == q.stored + (if op.Write? then op.data else [])
      && (q'.open <==> q.open && op != StopWriting)
      && (q'.readable <==> q.readable && op != StopReading)
  {
    hide Fulfill, Complete;
    match op
    case Write(data) => FulfillFrame(q.(unread := q.unread + data, stored := q.stored + data));
    case Request(k) => CompleteFrame(q, k);
    case SyncRead(k) => CompleteFrame(q, k);
    case Release(n) => CompleteFrame(q, Released(n));
    case Sync => FulfillFrame(q.(synced := |q.unread|));
    case FlushReaders => FulfillFrame(q);
    case _ =>
  }

  /** What is stored is what was written, and the two flags say whether the close has come. */
  lemma {:induction false} RunFrame(ops: seq<Op>)
    ensures Run(EMPTY, ops).stored == Written(ops)
    ensures Run(EMPTY, ops).open <==> StopWriting !in ops
    ensures Run(EMPTY, ops).readable <==> StopReading !in ops
  {
    if ops != [] {
      hide Apply;
      var front, op := ops[..|ops| - 1], ops[|ops| - 1];
      RunFrame(front);
      ApplyFrame(Run(EMPTY, front), op);
      assert ops == front + [op];
    }
  }

  lemma ClosedLineStays(q: Q, op: Op)
    requires !q.open && q.pending == []
    ensures !Apply(q, op).open && Apply(q, op).pending == []
  {
  }

  /** Once _close_write has returned nobody waits, then or ever after. */
  lemma {:induction false} NobodyWaitsAfterClose(before: seq<Op>, after: seq<Op>)
    requires StopWriting in before
    ensures Run(EMPTY, before + [FlushReaders] + after).pending == []
    ensures !Run(EMPTY, before + [FlushReaders] + after).open
  {
    hide Inv, Loose, Fulfill, Complete;
    var ops := before + [FlushReaders] + after;
    if after == [] {
      assert ops[..|ops| - 1] == before;
      EveryRunKeeps(before);
      RunFrame(before);
      InvLoose(Run(EMPTY, before));
      FulfillKeeps(Run(EMPTY, before));
    } else {
      var front, op := after[..|after| - 1], after[|after| - 1];
      assert ops[..|ops| - 1] == before + [FlushReaders] + front;
      NobodyWaitsAfterClose(before, front);
      ClosedLineStays(Run(EMPTY, before + [FlushReaders] + front), op);
    }
  }

  // ----- what a flush does

  /** How many bytes had been written when the stream was last flushed. */
  function Flushed(ops: seq<Op>): nat {
    if ops == [] then 0 else
    if ops[|ops| - 1] == Sync then |Written(ops[..|ops| - 1])| else Flushed(ops[..|ops| - 1])
  }

  /** Of the first m bytes written, those not consumed are flushed, and no others. */
  predicate Marked(q: Q, m: nat) {
    q.synced == Max(0, m - |Consumed(q.answers)|)
  }

  lemma CompleteMarked(q: Q, k: Kind, m: nat)
    requires q.synced <= |q.unread| && Marked(q, m)
    ensures Marked(Complete(q, k), m) && Complete(q, k).synced <= |Complete(q, k).unread|
  {
    hide Complete, Exact, Consumed;
    CompleteExact(q, k);
    CompleteFrame(q, k);
    var q' := Complete(q, k);
    ConsumedSnoc(q.answers, q'.answers[|q.answers|]);
    assert q'.answers == q.answers + [q'.answers[|q.answers|]];
  }

  lemma {:induction false} FulfillMarked(q: Q, m: nat)
    requires q.synced <= |q.unread| && Marked(q, m)
    ensures Marked(Fulfill(q), m)
    decreases |q.pending|
  {
    hide Complete, Consumed, CanSatisfy, Wanted;
    if q.pending != [] && CanSatisfy(q, Wanted(q.pending[0])) {
      CompleteMarked(q, q.pending[0], m);
      CompleteFrame(q, q.pending[0]);
      FulfillMarked(Complete(q, q.pending[0]).(pending := q.pending[1..]), m);
    }
  }

  lemma ApplyMarked(q: Q, op: Op, m: nat)
    requires Loose(q) && Marked(q, m)
    ensures Marked(Apply(q, op), if op == Sync then |q.stored| else m)
  {
    hide Complete, Consumed, CanSatisfy, Wanted, Fulfill, AllTruthful, AllInPlace;
    assert |q.stored| == |Consumed(q.answers)| + |q.unread|;
    match op
    case Write(data) => FulfillMarked(q.(unread := q.unread + data, stored := q.stored + data), m);
    case Request(k) => CompleteMarked(q, k, m);
    case SyncRead(k) => CompleteMarked(q, k, m);
    case Release(n) => CompleteMarked(q, Released(n), m);
    case Sync => FulfillMarked(q.(synced := |q.unread|), |q.stored|);
    case FlushReaders => FulfillMarked(q, m);
    case _ =>
  }

  lemma {:induction false} RunMarked(ops: seq<Op>)
    ensures Marked(Run(EMPTY, ops), Flushed(ops))
  {
    if ops != [] {
      var front := ops[..|ops| - 1];
      var q := Run(EMPTY, front);
      RunMarked(front);
      EveryRunKeeps(front);
      InvLoose(q);
      RunFrame(front);
      hide Inv, Loose, Apply, Consumed, Written, Marked;
      ApplyMarked(q, ops[|ops| - 1], Flushed(front));
    }
  }

  /** At any time of any run the flushed characters are those, of what had been written at the last flush,
      that have not been consumed. */
  lemma FlushedStays(ops: seq<Op>)
    ensures Run(EMPTY, ops).synced == Max(0, Flushed(ops) - |Consumed(Run(EMPTY, ops).answers)|)
  {
    hide Run, Flushed, Consumed;
    RunMarked(ops);
  }

  lemma ClosedSync(q: Q)
    requires Inv(q) && !q.open
    ensures Apply(q, Sync).pending == []
  {
    hide AllTruthful, AllInPlace, Fulfill, Consumed;
    FulfillKeeps(q.(synced := |q.unread|));
  }

  /** After a flush nobody waits while there is anything to read, and whoever asks is answered. */
  lemma SyncReleases(ops: seq<Op>)
    ensures var q := Run(EMPTY, ops + [Sync]);
      && (q.pending != [] ==> q.unread == [])
      && (q.unread != [] ==> forall k :: !MustWait(q, k))
  {
    hide Apply, Written, AllTruthful, AllInPlace;
    var all := ops + [Sync];
    assert all[..|all| - 1] == ops;
    var q := Run(EMPTY, all);
    FlushedStays(all);
    EveryRunKeeps(all);
    RunFrame(all);
    RunFrame(ops);
    assert |q.stored| == |Consumed(q.answers)| + |q.unread|;
    ApplyFrame(Run(EMPTY, ops), Sync);
    if !q.open {
      EveryRunKeeps(ops);
      ClosedSync(Run(EMPTY, ops));
    }
  }

  // ----- who is answered, and in which order

  function Kinds(answers: seq<Answer>): (r: seq<Kind>)
    ensures |r| == |answers| && forall i | 0 <= i < |r| :: r[i] == answers[i].kind
  {
    seq(|answers|, i requires 0 <= i < |answers| => answers[i].kind)
  }

  /** Who joins the line. */
  function Joins(q: Q, op: Op): seq<Kind> {
    if op.Request? && MustWait(q, op.kind) then [op.kind] else []
  }

  /** Who is answered at once. */
  function Direct(q: Q, op: Op): seq<Kind> {
    match op
    case Request(k) => if MustWait(q, k) then [] else [k]
    case SyncRead(k) => if MustWait(q, k) then [] else [k]
    case Release(n) => [Released(n)]
    case _ => []
  }

  /** After these waiting requests are served. */
  predicate Serves(op: Op) {
    op.Write? || op.Sync? || op.FlushReaders?
  }

  /** The requests of a run that had to wait when they were asked, in the order they were asked. */
  function Joined(ops: seq<Op>): seq<Kind> {
    if ops == [] then [] else
    Joined(ops[..|ops| - 1]) + Joins(Run(EMPTY, ops[..|ops| - 1]), ops[|ops| - 1])
  }

  /** The others, with the releases. */
  function AtOnce(ops: seq<Op>): seq<Kind> {
    if ops == [] then [] else
    AtOnce(ops[..|ops| - 1]) + Direct(Run(EMPTY, ops[..|ops| - 1]), ops[|ops| - 1])
  }

  /** The answers from number n on. */
  function Later(answers: seq<Answer>, n: nat): seq<Answer> {
    if n <= |answers| then answers[n..] else []
  }

  /** The answers given while the line was served, or else those given at once. */
  function AnswersOf(ops: seq<Op>, served: bool): seq<Answer> {
    if ops == [] then [] else
    var front, op := ops[..|ops| - 1], ops[|ops| - 1];
    AnswersOf(front, served)
    + if Serves(op) == served then Later(Run(EMPTY, ops).answers, |Run(EMPTY, front).answers|) else []
  }

  /** One operation adds answers: of the front of the line, or of the one who asks. */
  ghost predicate Answers(q: Q, op: Op, q': Q) {
    && |q.answers| <= |q'.answers| && q'.answers[..|q.answers|] == q.answers
    && if Serves(op) then Kinds(q'.answers[|q.answers|..]) + q'.pending == q.pending
       else Kinds(q'.answers[|q.answers|..]) == Direct(q, op) && q'.pending == q.pending + Joins(q, op)
  }

  lemma ServedAnswers(q0: Q, q: Q, q': Q, op: Op, n: nat)
    requires AnsweredFirst(q, q', n) && Serves(op) && q0.pending == q.pending && q0.answers == q.answers
    ensures Answers(q0, op, q')
  {
    var more := q'.answers[|q.answers|..];
    assert forall i | 0 <= i < n :: more[i] == q'.answers[|q.answers| + i];
    assert Kinds(more) == q.pending[..n];
  }

  lemma OneAnswer(q: Q, k: Kind)
    requires q.synced <= |q.unread|
    ensures var q' := Complete(q, k);
      && |q.answers| <= |q'.answers| && q'.answers[..|q.answers|] == q.answers && q'.pending == q.pending
      && Kinds(q'.answers[|q.answers|..]) == [k]
  {
    hide Complete, Exact;
    CompleteExact(q, k);
    CompleteFrame(q, k);
    var q' := Complete(q, k);
    assert q'.answers[|q.answers|..] == [q'.answers[|q.answers|]];
  }

  lemma NoAnswer(q: Q)
    ensures q.answers[..|q.answers|] == q.answers && Kinds(q.answers[|q.answers|..]) == []
    ensures q.pending + [] == q.pending
  {
  }

  lemma ApplyAnswers(q: Q, op: Op)
    requires q.synced <= |q.unread|
    ensures Answers(q, op, Apply(q, op))
  {
    hide Complete, Fulfill, CanSatisfy, Wanted, MustWait, AnsweredFirst, Kinds;
    NoAnswer(q);
    match op
    case Write(data) => {
      var q1 := q.(unread := q.unread + data, stored := q.stored + data);
      var n := FulfillAnswers(q1);
      hide Answers;
      ServedAnswers(q, q1, Fulfill(q1), op, n);
    }
    case Request(k) => MustWaitIs(q, k); OneAnswer(q, k);
    case SyncRead(k) => MustWaitIs(q, k); OneAnswer(q, k);
    case Release(n) => OneAnswer(q, Released(n));
    case Sync => {
      var q1 := q.(synced := |q.unread|);
      var n := FulfillAnswers(q1);
      hide Answers;
      ServedAnswers(q, q1, Fulfill(q1), op, n);
    }
    case FlushReaders => {
      var n := FulfillAnswers(q);
      hide Answers;
      ServedAnswers(q, q, Fulfill(q), op, n);
    }
    case _ =>
  }

  lemma KindsConcat(a: seq<Answer>, b: seq<Answer>)
    ensures Kinds(a + b) == Kinds(a) + Kinds(b)
  {
  }

  lemma LineMoves(served: seq<Kind>, more: seq<Kind>, line: seq<Kind>, line': seq<Kind>, joins: seq<Kind>)
    requires more + line' == line + joins
    ensures (served + more) + line' == (served + line) + joins
  {
    assert (served + more) + line' == served + (more + line');
    assert (served + line) + joins == served + (line + joins);
  }

  /** Over any run: the requests answered from the line, in the order of their answers, followed by those
      still waiting are the ones that had to wait, in the order they were asked; and every other request
      has its one answer. */
  lemma {:induction false} LineInOrder(ops: seq<Op>)
    ensures Kinds(AnswersOf(ops, true)) + Run(EMPTY, ops).pending == Joined(ops)
    ensures Kinds(AnswersOf(ops, false)) == AtOnce(ops)
    ensures |Run(EMPTY, ops).answers| == |AnswersOf(ops, true)| + |AnswersOf(ops, false)|
  {
    if ops != [] {
      var front, op := ops[..|ops| - 1], ops[|ops| - 1];
      var q, q' := Run(EMPTY, front), Run(EMPTY, ops);
      LineInOrder(front);
      EveryRunKeeps(front);
      InvLoose(q);
      ApplyAnswers(q, op);
      var more := Later(q'.answers, |q.answers|);
      assert Joins(q, op) == [] || !Serves(op);
      assert Direct(q, op) == [] || !Serves(op);
      hide Apply, Inv, Loose, Kinds, Joins, Direct, Serves;
      KindsConcat(AnswersOf(front, true), more);
      KindsConcat(AnswersOf(front, false), more);
      KindsConcat(AnswersOf(front, true), []);
      KindsConcat(AnswersOf(front, false), []);
      LineMoves(Kinds(AnswersOf(front, true)), if Serves(op) then Kinds(more) else [], q.pending, q'.pending,
                Joins(q, op));
    }
  }

  /** _nextc waits for one character but needs two: it reports the end of an open stream just when
      exactly one character is left. */
  lemma NextcReportsEndEarly(q: Q)
    requires Inv(q) && q.open && CanSatisfy(q, Wanted(Nextc))
    ensures Given(Nextc, q.unread) == [] <==> |q.unread| == 1
  {
  }

  /** It says so of an open stream in which one byte was written and never read. */
  lemma NextcAfterOneByte(b: Byte)
    ensures var q := Run(EMPTY, [Write([b]), Request(Nextc)]);
      q.open && q.answers == [Answer(Nextc, [], [b], true, false)]
  {
    var ops := [Write([b]), Request(Nextc)];
    assert ops[..1] == [Write([b])] && ops[..1][..0] == [];
    var one := Store(EMPTY, [b]);
    assert [] + [b] == [b];
    assert one == EMPTY.(unread := [b], stored := [b]);
    assert Run(EMPTY, ops[..1]) == one;
    assert Upto([b], 1) == [b] && Beyond([b], 1) == [];
    assert Run(EMPTY, ops) == Complete(one, Nextc);
    assert [] + [Answer(Nextc, [], [b], true, false)] == [Answer(Nextc, [], [b], true, false)];
  }
}
