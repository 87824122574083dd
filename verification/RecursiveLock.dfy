/** recursive_lock_impl: any number of threads locking and unlocking, one step per access to the
    shared fields _M_cs, _M_owner and _M_recursionCount. */
module RecursiveLocks {
  import opened Common

  const NOBODY: int := -1

  // ids are what GetCurrentThreadId returns to each thread.
  datatype Config = Config(ids: seq<int>) {
    ghost predicate Valid() {
      && (forall t | 0 <= t < |ids| :: ids[t] != NOBODY)
      && (forall t, u | 0 <= t < u < |ids| :: ids[t] != ids[u])
    }
  }

  // Where a thread stands in lock or unlock.
  datatype Pc =
    | Out
    | TestOwner             // lock: about to load _M_owner
    | IncLoad               // lock: owner already, about to read the count
    | IncStore(count: int)  // lock: about to write the count back plus one
    | WaitMutex             // lock: about to lock _M_cs
    | SetOwner              // lock: about to store _M_owner
    | SetCount              // lock: about to set the count to one
    | DecLoad               // unlock: about to read the count
    | DecStore(count: int)  // unlock: about to write the count back minus one
    | TestCount             // unlock: about to compare the count with zero
    | ClearOwner            // unlock: about to store -1 in _M_owner
    | Release               // unlock: about to unlock _M_cs

  // depth is history: per thread, the calls of lock made so far minus those of unlock.
  datatype State = State(mutex: Option<nat>, owner: int, count: int, pcs: seq<Pc>, depth: seq<nat>)

  function InitState(c: Config): State {
    State(None, NOBODY, 0, seq(|c.ids|, _ => Out), seq(|c.ids|, _ => 0))
  }

  function At(s: State, t: nat, pc: Pc): State
    requires t < |s.pcs|
  {
    s.(pcs := s.pcs[t := pc])
  }

  function Step(c: Config, s: State, t: nat): State
    requires t < |s.pcs| == |s.depth| == |c.ids|
  {
    match s.pcs[t]
    case Out => s
    case TestOwner => At(s, t, if s.owner == c.ids[t] then IncLoad else WaitMutex)
    case IncLoad => At(s, t, IncStore(s.count))
    case IncStore(n) => At(s, t, Out).(count := n + 1)
    case WaitMutex => if s.mutex.Some? then s else At(s, t, SetOwner).(mutex := Some(t))
    case SetOwner => At(s, t, SetCount).(owner := c.ids[t])
    case SetCount => At(s, t, Out).(count := 1)
    case DecLoad => At(s, t, DecStore(s.count))
    case DecStore(n) => At(s, t, TestCount).(count := n - 1)
    case TestCount => At(s, t, if s.count == 0 then ClearOwner else Out)
    case ClearOwner => At(s, t, Release).(owner := NOBODY)
    case Release => At(s, t, Out).(mutex := None)
  }

  function LockCall(s: State, t: nat): State
    requires t < |s.pcs| == |s.depth|
  {
    At(s, t, TestOwner).(depth := s.depth[t := s.depth[t] + 1])
  }

  function UnlockCall(s: State, t: nat): State
    requires t < |s.pcs| == |s.depth| && s.depth[t] > 0
  {
    At(s, t, DecLoad).(depth := s.depth[t := s.depth[t] - 1])
  }

  /** A thread calls lock, or calls unlock if it has called lock more often than unlock. */
  ghost predicate Call(s: State, s': State) {
    exists t: nat :: t < |s.pcs| == |s.depth| && s.pcs[t].Out? &&
      (s' == LockCall(s, t) || (s.depth[t] > 0 && s' == UnlockCall(s, t)))
  }

  ghost predicate AnyStep(c: Config, s: State, s': State) {
    exists t: nat :: t < |s.pcs| == |s.depth| == |c.ids| && s' == Step(c, s, t)
  }

  ghost predicate IsRun(c: Config, run: seq<State>) {
    && run != []
    && run[0] == InitState(c)
    && forall i | 0 <= i < |run| - 1 :: Call(run[i], run[i + 1]) || AnyStep(c, run[i], run[i + 1])
  }

  /** What the holder of the mutex sees at each point of its way in and out. */
  predicate HolderOk(id: int, pc: Pc, depth: nat, owner: int, count: int) {
    match pc
    case Out => depth >= 1 && owner == id && count == depth
    case TestOwner => depth >= 2 && owner == id && count == depth - 1
    case IncLoad => depth >= 2 && owner == id && count == depth - 1
    case IncStore(n) => depth >= 2 && owner == id && n == count == depth - 1
    case WaitMutex => false
    case SetOwner => depth == 1 && owner == NOBODY
    case SetCount => depth == 1 && owner == id
    case DecLoad => owner == id && count == depth + 1
    case DecStore(n) => owner == id && n == count == depth + 1
    case TestCount => owner == id && count == depth
    case ClearOwner => depth == 0 && owner == id && count == 0
    case Release => depth == 0 && owner == NOBODY && count == 0
  }

  /** A thread without the mutex has all its locks matched, or waits with its first. */
  predicate OutsiderOk(pc: Pc, depth: nat) {
    if pc.Out? then depth == 0 else depth == 1 && (pc.TestOwner? || pc.WaitMutex?)
  }

  ghost predicate Inv(c: Config, s: State) {
    && |s.pcs| == |s.depth| == |c.ids|
    && (s.mutex.None? ==> s.owner == NOBODY && s.count == 0)
    && (s.mutex.Some? ==>
          var t := s.mutex.value; t < |c.ids| && HolderOk(c.ids[t], s.pcs[t], s.depth[t], s.owner, s.count))
    && (forall t | 0 <= t < |c.ids| && s.mutex != Some(t) :: OutsiderOk(s.pcs[t], s.depth[t]))
  }

  lemma NewOutsider(pc: Pc, depth: nat)
    ensures pc.Out? && depth == 0 ==> OutsiderOk(pc, depth)
  {
  }

  lemma HolderKeeps(c: Config, s: State, t: nat)
    requires c.Valid() && Inv(c, s) && t < |c.ids| && s.mutex == Some(t)
    ensures Inv(c, Step(c, s, t))
  {
    var s' := Step(c, s, t);
    hide OutsiderOk;
    assert forall u | 0 <= u < |c.ids| && u != t :: s'.pcs[u] == s.pcs[u] && s'.depth[u] == s.depth[u];
    assert forall u | 0 <= u < |c.ids| && u != t :: OutsiderOk(s.pcs[u], s.depth[u]);
    assert s'.mutex == None ==> OutsiderOk(s'.pcs[t], s'.depth[t]) by {
      NewOutsider(s'.pcs[t], s'.depth[t]);
    }
  }

  lemma OutsiderKeeps(c: Config, s: State, t: nat)
    requires c.Valid() && Inv(c, s) && t < |c.ids| && s.mutex != Some(t)
    ensures Inv(c, Step(c, s, t))
  {
    var s' := Step(c, s, t);
    assert forall u | 0 <= u < |c.ids| && u != t :: s'.pcs[u] == s.pcs[u] && s'.depth[u] == s.depth[u];
    assert OutsiderOk(s.pcs[t], s.depth[t]);
    assert s.pcs[t].TestOwner? && s.mutex.Some? ==> s.owner != c.ids[t];
  }

  lemma StepKeeps(c: Config, s: State, t: nat)
    requires c.Valid() && Inv(c, s) && t < |c.ids|
    ensures Inv(c, Step(c, s, t))
  {
    hide Inv, Step;
    if s.mutex == Some(t) {
      HolderKeeps(c, s, t);
    } else {
      OutsiderKeeps(c, s, t);
    }
  }

  lemma InvSizes(c: Config, s: State)
    requires Inv(c, s)
    ensures |s.pcs| == |s.depth| == |c.ids|
  {
  }

  lemma CallKeeps(c: Config, s: State, t: nat)
    requires Inv(c, s) && t < |c.ids| && s.pcs[t].Out?
    ensures Inv(c, LockCall(s, t))
    ensures s.depth[t] > 0 ==> Inv(c, UnlockCall(s, t))
  {
    assert s.mutex != Some(t) ==> OutsiderOk(s.pcs[t], s.depth[t]);
    assert forall u | 0 <= u < |c.ids| && u != t && s.mutex != Some(u) :: OutsiderOk(s.pcs[u], s.depth[u]);
  }

  lemma {:induction false} RunKeeps(c: Config, run: seq<State>, i: nat)
    requires c.Valid() && IsRun(c, run) && i < |run|
    ensures Inv(c, run[i])
  {
    if i > 0 {
      RunKeeps(c, run, i - 1);
      var s, s' := run[i - 1], run[i];
      assert Call(s, run[i - 1 + 1]) || AnyStep(c, s, run[i - 1 + 1]);
      hide Inv, Step, LockCall, UnlockCall;
      assert |s.pcs| == |s.depth| == |c.ids| by {
        InvSizes(c, s);
      }
      if AnyStep(c, s, s') {
        var t: nat :| t < |s.pcs| == |s.depth| == |c.ids| && s' == Step(c, s, t);
        StepKeeps(c, s, t);
      } else {
        var t: nat :| t < |s.pcs| == |s.depth| && s.pcs[t].Out? &&
          (s' == LockCall(s, t) || (s.depth[t] > 0 && s' == UnlockCall(s, t)));
        CallKeeps(c, s, t);
      }
    }
  }

  /** An owner field naming a thread means that thread holds the mutex, so the unlocked test in lock
      succeeds for thread t exactly when t holds the mutex. */
  lemma OwnerTestIsExact(c: Config, run: seq<State>, i: nat, t: nat)
    requires c.Valid() && IsRun(c, run) && i < |run| && t < |c.ids|
    ensures run[i].owner == c.ids[t] ==> run[i].mutex == Some(t)
    ensures t < |run[i].pcs| && (run[i].pcs[t].TestOwner? ==>
              (run[i].owner == c.ids[t] <==> run[i].mutex == Some(t)))
  {
    RunKeeps(c, run, i);
  }

  /** Mutual exclusion: a thread whose calls have all returned, with more locks than unlocks, has the
      mutex, so there is only one; and the count is its locks minus its unlocks. */
  lemma OneThreadInside(c: Config, run: seq<State>, i: nat)
    requires c.Valid() && IsRun(c, run) && i < |run|
    ensures |run[i].depth| == |run[i].pcs| == |c.ids|
    ensures forall t | 0 <= t < |c.ids| && run[i].depth[t] > 0 && run[i].pcs[t].Out? ::
              run[i].mutex == Some(t) && run[i].count == run[i].depth[t] && run[i].owner == c.ids[t]
    ensures forall t | 0 <= t < |c.ids| && run[i].depth[t] > 1 :: run[i].mutex == Some(t)
  {
    RunKeeps(c, run, i);
    assert forall t | 0 <= t < |c.ids| && run[i].mutex != Some(t) :: OutsiderOk(run[i].pcs[t], run[i].depth[t]);
  }

  /** The mutex is released exactly with the last lock: a thread between calls has it just when it has
      locks left, and the step that releases it is taken only when it has none. */
  lemma ReleasedAtDepthZero(c: Config, run: seq<State>, i: nat, t: nat)
    requires c.Valid() && IsRun(c, run) && i < |run| && t < |c.ids|
    ensures t < |run[i].pcs| && t < |run[i].depth|
    ensures run[i].pcs[t].Out? ==> (run[i].mutex == Some(t) <==> run[i].depth[t] > 0)
    ensures run[i].pcs[t].Release? ==> run[i].depth[t] == 0 && run[i].mutex == Some(t)
  {
    RunKeeps(c, run, i);
    assert run[i].mutex != Some(t) ==> OutsiderOk(run[i].pcs[t], run[i].depth[t]);
  }

  /** With every lock matched and every thread out, the lock is as it was constructed. */
  lemma BalancedMeansFree(c: Config, run: seq<State>, i: nat)
    requires c.Valid() && IsRun(c, run) && i < |run|
    requires forall t | 0 <= t < |run[i].pcs| && t < |run[i].depth| :: run[i].pcs[t].Out? && run[i].depth[t] == 0
    ensures run[i].mutex == None && run[i].owner == NOBODY && run[i].count == 0
  {
    RunKeeps(c, run, i);
  }

  // ----- every call comes to its end

  /** Steps left to a call, at most. */
  function Left(pc: Pc): nat {
    match pc
    case Out => 0
    case TestOwner => 4
    case IncLoad => 2
    case IncStore(_) => 1
    case WaitMutex => 3
    case SetOwner => 2
    case SetCount => 1
    case DecLoad => 5
    case DecStore(_) => 4
    case TestCount => 3
    case ClearOwner => 2
    case Release => 1
  }

  /** Each step brings the call of its thread nearer to the end and leaves the others where they are,
      except that a thread waits for the mutex while it is locked; a free mutex goes to the one who takes
      the step. */
  lemma StepMoves(c: Config, s: State, t: nat)
    requires t < |s.pcs| == |s.depth| == |c.ids|
    ensures var s' := Step(c, s, t);
      && |s'.pcs| == |s.pcs| && s'.pcs == s.pcs[t := s'.pcs[t]] && s'.depth == s.depth
      && if s.pcs[t].Out? || (s.pcs[t].WaitMutex? && s.mutex.Some?) then s' == s
         else Left(s'.pcs[t]) < Left(s.pcs[t])
    ensures s.pcs[t].WaitMutex? && s.mutex == None ==> Step(c, s, t).mutex == Some(t)
  {
  }

  /** No deadlock: while some call has not returned, some call can take a step, unless they all wait for a
      thread that has called lock and not yet unlock. */
  lemma NoDeadlock(c: Config, run: seq<State>, i: nat, t: nat)
    requires c.Valid() && IsRun(c, run) && i < |run| && t < |c.ids|
    requires t < |run[i].pcs| && !run[i].pcs[t].Out?
    ensures |run[i].pcs| == |run[i].depth| == |c.ids|
    ensures (exists u: nat :: u < |c.ids| && Left(Step(c, run[i], u).pcs[u]) < Left(run[i].pcs[u]))
         || (exists u: nat :: u < |c.ids| && run[i].mutex == Some(u) && run[i].pcs[u].Out? && run[i].depth[u] > 0)
  {
    RunKeeps(c, run, i);
    var s := run[i];
    var u := if s.pcs[t].WaitMutex? && s.mutex.Some? then s.mutex.value else t;
    StepMoves(c, s, u);
    hide Step;
  }
}
