/** The bounded queue between request threads and notification workers
    (`SyncQOverflow`), as a transition system over any number of threads.

    A thread is a position in `pcs`. Every blocking point of the code is a program
    counter of its own: the mutex, the condition variable, and the gap between
    releasing the mutex and calling `notify_one`. */
module NotificationQueue {

  import opened Wrappers

  datatype Pc<T> =
    | Idle
    | PushBlocked(element: T)  // try_push: waiting for the mutex
    | PushLocked(element: T)   // try_push: mutex held, size not yet tested
    | PushStored(element: T)   // try_push: element queued, mutex still held
    | PushNotifying(element: T)// try_push: mutex released, notify_one still to be called
    | PushRefused(element: T)  // try_push: queue full, mutex still held
    | PopBlocked               // pop: waiting for the mutex for the first time
    | PopLocked(woken: bool)   // pop: mutex held, about to test queue.empty()
    | PopAsleep                // pop: blocked on the condition variable
    | PopWoken                 // pop: woken, must take the mutex again
    | PopTaken(element: T)     // pop: front element taken, mutex still held
    | SizeBlocked              // size: waiting for the mutex
    | SizeLocked               // size: mutex held
    | SizeRead(size: nat)      // size: value read, mutex still held

  /** What an operation did at its locked step; also what it returned to its caller. */
  datatype Event<T> =
    | Accepted(thread: nat, element: T)
    | Refused(thread: nat, element: T)
    | Popped(thread: nat, element: T)
    | Measured(thread: nat, size: nat)

  /** `log` records the locked steps in the order in which the mutex was held,
      `returned` the completed calls in the order in which they returned. */
  datatype State<T> = State(
    maxSize: nat,
    queue: seq<T>,
    owner: Option<nat>,
    pcs: seq<Pc<T>>,
    log: seq<Event<T>>,
    returned: seq<Event<T>>)

  datatype Step<T> =
    | CallPush(thread: nat, element: T)
    | CallPop(thread: nat)
    | CallSize(thread: nat)
    | Lock(thread: nat)
    | Act(thread: nat)
    | Unlock(thread: nat)
    | Notify(thread: nat, chosen: Option<nat>)
    | SpuriousWake(thread: nat)

  predicate WantsLock<T>(pc: Pc<T>) {
    pc.PushBlocked? || pc.PopBlocked? || pc.PopWoken? || pc.SizeBlocked?
  }

  predicate HoldsLock<T>(pc: Pc<T>) {
    pc.PushLocked? || pc.PushStored? || pc.PushRefused? || pc.PopLocked? || pc.PopTaken?
    || pc.SizeLocked? || pc.SizeRead?
  }

  predicate AtTest<T>(pc: Pc<T>) {
    pc.PushLocked? || pc.PopLocked? || pc.SizeLocked?
  }

  predicate Enabled<T>(s: State<T>, step: Step<T>) {
    step.thread < |s.pcs| &&
    var pc := s.pcs[step.thread];
    match step
    case CallPush(_, _) => pc.Idle?
    case CallPop(_) => pc.Idle?
    case CallSize(_) => pc.Idle?
    case Lock(_) => WantsLock(pc) && s.owner.None?
    case Act(_) => AtTest(pc)
    case Unlock(_) => HoldsLock(pc) && !AtTest(pc)
    case Notify(_, None) => pc.PushNotifying? && forall u | 0 <= u < |s.pcs| :: !s.pcs[u].PopAsleep?
    case Notify(_, Some(u)) => pc.PushNotifying? && u < |s.pcs| && s.pcs[u].PopAsleep?
    case SpuriousWake(_) => pc.PopAsleep?
  }

  function AfterLock<T>(pc: Pc<T>): Pc<T>
    requires WantsLock(pc)
  {
    match pc
    case PushBlocked(e) => PushLocked(e)
    case PopBlocked => PopLocked(false)
    case PopWoken => PopLocked(true)
    case SizeBlocked => SizeLocked
  }

  /** The step taken with the mutex held: test the queue, then store, refuse, take, wait or read. */
  function DoAct<T>(s: State<T>, t: nat): State<T>
    requires t < |s.pcs| && AtTest(s.pcs[t])
  {
    match s.pcs[t]
    case PushLocked(e) =>
      if |s.queue| < s.maxSize then
        s.(queue := s.queue + [e], pcs := s.pcs[t := PushStored(e)], log := s.log + [Accepted(t, e)])
      else
        s.(pcs := s.pcs[t := PushRefused(e)], log := s.log + [Refused(t, e)])
    case PopLocked(_) =>
      if s.queue == [] then
        s.(owner := None, pcs := s.pcs[t := PopAsleep])   // wait() releases the mutex and blocks in one step
      else
        s.(queue := s.queue[1..], pcs := s.pcs[t := PopTaken(s.queue[0])],
           log := s.log + [Popped(t, s.queue[0])])
    case SizeLocked =>
      s.(pcs := s.pcs[t := SizeRead(|s.queue|)], log := s.log + [Measured(t, |s.queue|)])
  }

  function DoUnlock<T>(s: State<T>, t: nat): State<T>
    requires t < |s.pcs| && HoldsLock(s.pcs[t]) && !AtTest(s.pcs[t])
  {
    match s.pcs[t]
    case PushStored(e) => s.(owner := None, pcs := s.pcs[t := PushNotifying(e)])
    case PushRefused(e) => s.(owner := None, pcs := s.pcs[t := Idle], returned := s.returned + [Refused(t, e)])
    case PopTaken(e) => s.(owner := None, pcs := s.pcs[t := Idle], returned := s.returned + [Popped(t, e)])
    case SizeRead(n) => s.(owner := None, pcs := s.pcs[t := Idle], returned := s.returned + [Measured(t, n)])
  }

  function DoNotify<T>(s: State<T>, t: nat, chosen: Option<nat>): State<T>
    requires t < |s.pcs| && s.pcs[t].PushNotifying?
    requires chosen.Some? ==> chosen.value < |s.pcs|
  {
    var woken := if chosen.Some? then s.pcs[chosen.value := PopWoken] else s.pcs;
    s.(pcs := woken[t := Idle], returned := s.returned + [Accepted(t, s.pcs[t].element)])
  }

  function Apply<T>(s: State<T>, step: Step<T>): State<T>
    requires Enabled(s, step)
  {
    var t := step.thread;
    match step
    case CallPush(_, e) => s.(pcs := s.pcs[t := PushBlocked(e)])
    case CallPop(_) => s.(pcs := s.pcs[t := PopBlocked])
    case CallSize(_) => s.(pcs := s.pcs[t := SizeBlocked])
    case Lock(_) => s.(owner := Some(t), pcs := s.pcs[t := AfterLock(s.pcs[t])])
    case Act(_) => DoAct(s, t)
    case Unlock(_) => DoUnlock(s, t)
    case Notify(_, chosen) => DoNotify(s, t, chosen)
    case SpuriousWake(_) => s.(pcs := s.pcs[t := PopWoken])
  }

  ghost predicate Initial<T>(s: State<T>) {
    && s.queue == [] && s.owner == None && s.log == [] && s.returned == []
    && forall t | 0 <= t < |s.pcs| :: s.pcs[t].Idle?
  }

  /** `steps` is a schedule that can be executed from `s`. */
  ghost predicate Runs<T(!new)>(s: State<T>, steps: seq<Step<T>>)
    decreases |steps|
  {
    steps == [] || (Enabled(s, steps[0]) && Runs(Apply(s, steps[0]), steps[1..]))
  }

  ghost function After<T(!new)>(s: State<T>, steps: seq<Step<T>>): State<T>
    requires Runs(s, steps)
    decreases |steps|
  {
    if steps == [] then s else After(Apply(s, steps[0]), steps[1..])
  }

  // ---------------------------------------------------------------------------
  // The sequential bounded queue that the concurrent one must look like

  /** The queue after the logged operations run one at a time, or `None` if some
      logged result is not what a bounded FIFO queue would have answered. */
  ghost function Replay<T>(maxSize: nat, log: seq<Event<T>>): (r: Option<seq<T>>) {
    if log == [] then Some([]) else
    match Replay(maxSize, log[..|log| - 1])
    case None => None
    case Some(q) =>
      match log[|log| - 1]
      case Accepted(_, e) => if |q| < maxSize then Some(q + [e]) else None
      case Refused(_, _) => if |q| == maxSize then Some(q) else None
      case Popped(_, e) => if q != [] && q[0] == e then Some(q[1..]) else None
      case Measured(_, n) => if |q| == n then Some(q) else None
  }

  function AcceptedElements<T>(log: seq<Event<T>>): seq<T> {
    if log == [] then [] else
    AcceptedElements(log[..|log| - 1]) +
    (if log[|log| - 1].Accepted? then [log[|log| - 1].element] else [])
  }

  function PoppedElements<T>(log: seq<Event<T>>): seq<T> {
    if log == [] then [] else
    PoppedElements(log[..|log| - 1]) +
    (if log[|log| - 1].Popped? then [log[|log| - 1].element] else [])
  }

  /** The events of one thread, in order. */
  function ByThread<T>(log: seq<Event<T>>, t: nat): seq<Event<T>> {
    if log == [] then [] else
    var before, last := ByThread(log[..|log| - 1], t), log[|log| - 1];
    if last.thread == t then before + [last] else before
  }

  lemma ByThreadAppend<T>(log: seq<Event<T>>, e: Event<T>, t: nat)
    ensures ByThread(log + [e], t) == if e.thread == t then ByThread(log, t) + [e] else ByThread(log, t)
  {
    assert (log + [e])[..|log|] == log;
  }

  lemma ReplayAppend<T>(maxSize: nat, log: seq<Event<T>>, e: Event<T>)
    ensures Replay(maxSize, log).Some? ==>
      var q := Replay(maxSize, log).value;
      Replay(maxSize, log + [e]) ==
      match e
      case Accepted(_, x) => if |q| < maxSize then Some(q + [x]) else None
      case Refused(_, _) => if |q| == maxSize then Some(q) else None
      case Popped(_, x) => if q != [] && q[0] == x then Some(q[1..]) else None
      case Measured(_, n) => if |q| == n then Some(q) else None
  {
    assert (log + [e])[..|log|] == log;
  }

  /** A legal sequential history is FIFO: what was accepted is what was popped followed
      by what is still queued, and the bound is respected. */
  lemma {:induction false} ReplayIsFifo<T>(maxSize: nat, log: seq<Event<T>>)
    requires Replay(maxSize, log).Some?
    ensures AcceptedElements(log) == PoppedElements(log) + Replay(maxSize, log).value
    ensures |Replay(maxSize, log).value| <= maxSize
  {
    if log != [] {
      ReplayIsFifo(maxSize, log[..|log| - 1]);
    }
  }

  // ---------------------------------------------------------------------------
  // Invariant

  /** The event an operation has logged but not yet returned. */
  function Unreturned<T>(t: nat, pc: Pc<T>): Option<Event<T>> {
    match pc
    case PushStored(e) => Some(Accepted(t, e))
    case PushNotifying(e) => Some(Accepted(t, e))
    case PushRefused(e) => Some(Refused(t, e))
    case PopTaken(e) => Some(Popped(t, e))
    case SizeRead(n) => Some(Measured(t, n))
    case _ => None
  }

  /** A thread that owes a wake-up (an element is stored and notify_one not yet called)
      or a consumer that was woken and has not tested the queue since. */
  predicate IsCredit<T>(pc: Pc<T>) {
    pc.PushStored? || pc.PushNotifying? || pc.PopWoken? || (pc.PopLocked? && pc.woken)
  }

  /** Pending notifications plus woken consumers that have not re-checked. */
  function Credits<T>(pcs: seq<Pc<T>>): nat {
    if pcs == [] then 0 else
    (if IsCredit(pcs[0]) then 1 else 0) + Credits(pcs[1..])
  }

  lemma {:induction false} CreditsUpdate<T>(pcs: seq<Pc<T>>, t: nat, pc: Pc<T>)
    requires t < |pcs|
    ensures Credits(pcs[t := pc]) ==
            Credits(pcs) - (if IsCredit(pcs[t]) then 1 else 0) + (if IsCredit(pc) then 1 else 0)
  {
    if t == 0 {
      assert pcs[t := pc][1..] == pcs[1..];
    } else {
      assert pcs[t := pc][1..] == pcs[1..][t - 1 := pc];
      CreditsUpdate(pcs[1..], t - 1, pc);
    }
  }

  lemma {:induction false} NoCredits<T>(pcs: seq<Pc<T>>)
    requires forall t | 0 <= t < |pcs| :: !IsCredit(pcs[t])
    ensures Credits(pcs) == 0
  {
    if pcs != [] {
      NoCredits(pcs[1..]);
    }
  }

  ghost predicate MutexInv<T>(s: State<T>) {
    forall t | 0 <= t < |s.pcs| :: HoldsLock(s.pcs[t]) <==> s.owner == Some(t)
  }

  ghost predicate HistoryInv<T>(s: State<T>) {
    && Replay(s.maxSize, s.log) == Some(s.queue)
    && forall t | 0 <= t < |s.pcs| :: ThreadOrder(s, t)
  }

  /** If a consumer sleeps, every queued element is covered by an outstanding wake-up. */
  ghost predicate WakeInv<T>(s: State<T>) {
    (exists t | 0 <= t < |s.pcs| :: s.pcs[t].PopAsleep?) ==> |s.queue| <= Credits(s.pcs)
  }

  ghost predicate Inv<T>(s: State<T>) {
    MutexInv(s) && HistoryInv(s) && WakeInv(s) && |s.queue| <= s.maxSize
    && (s.owner.Some? ==> s.owner.value < |s.pcs|)
  }

  lemma MutexPreserved<T>(s: State<T>, step: Step<T>)
    requires Inv(s) && Enabled(s, step)
    ensures MutexInv(Apply(s, step))
    ensures Apply(s, step).owner.Some? ==> Apply(s, step).owner.value < |s.pcs|
  {
    var s' := Apply(s, step);
    forall u | 0 <= u < |s'.pcs|
      ensures HoldsLock(s'.pcs[u]) <==> s'.owner == Some(u)
    {
      assert HoldsLock(s.pcs[u]) <==> s.owner == Some(u);
      assert HoldsLock(s.pcs[step.thread]) <==> s.owner == Some(step.thread);
      if u != step.thread && !step.Notify? {
        assert s'.pcs[u] == s.pcs[u];
      }
    }
  }

  lemma ReplayPreserved<T>(s: State<T>, step: Step<T>)
    requires Inv(s) && Enabled(s, step)
    ensures var s' := Apply(s, step);
            Replay(s'.maxSize, s'.log) == Some(s'.queue) && |s'.queue| <= s'.maxSize
  {
    var s' := Apply(s, step);
    if s'.log != s.log {
      ReplayAppend(s.maxSize, s.log, s'.log[|s.log|]);
    }
  }

  /** A thread's log is its returned results followed by what it has not returned yet. */
  ghost predicate ThreadOrder<T>(s: State<T>, t: nat)
    requires t < |s.pcs|
  {
    match Unreturned(t, s.pcs[t])
    case None => ByThread(s.log, t) == ByThread(s.returned, t)
    case Some(e) => ByThread(s.log, t) == ByThread(s.returned, t) + [e]
  }

  lemma ActKeepsOrder<T>(s: State<T>, a: nat, t: nat)
    requires a < |s.pcs| && t < |s.pcs| && AtTest(s.pcs[a]) && ThreadOrder(s, t)
    ensures ThreadOrder(DoAct(s, a), t)
  {
    match s.pcs[a]
    case PushLocked(e) =>
      ByThreadAppend(s.log, if |s.queue| < s.maxSize then Accepted(a, e) else Refused(a, e), t);
    case PopLocked(_) =>
      if s.queue != [] {
        ByThreadAppend(s.log, Popped(a, s.queue[0]), t);
      }
    case SizeLocked =>
      ByThreadAppend(s.log, Measured(a, |s.queue|), t);
  }

  lemma UnlockKeepsOrder<T>(s: State<T>, a: nat, t: nat)
    requires a < |s.pcs| && t < |s.pcs| && HoldsLock(s.pcs[a]) && !AtTest(s.pcs[a]) && ThreadOrder(s, t)
    ensures ThreadOrder(DoUnlock(s, a), t)
  {
    match s.pcs[a]
    case PushStored(e) =>
    case PushRefused(e) => ByThreadAppend(s.returned, Refused(a, e), t);
    case PopTaken(e) => ByThreadAppend(s.returned, Popped(a, e), t);
    case SizeRead(n) => ByThreadAppend(s.returned, Measured(a, n), t);
  }

  lemma NotifyKeepsOrder<T>(s: State<T>, a: nat, chosen: Option<nat>, t: nat)
    requires a < |s.pcs| && t < |s.pcs| && s.pcs[a].PushNotifying? && ThreadOrder(s, t)
    requires chosen.Some? ==> chosen.value < |s.pcs| && s.pcs[chosen.value].PopAsleep?
    ensures ThreadOrder(DoNotify(s, a, chosen), t)
  {
    var s' := DoNotify(s, a, chosen);
    ByThreadAppend(s.returned, s'.returned[|s.returned|], t);
  }

  lemma ThreadOrderPreserved<T>(s: State<T>, step: Step<T>, t: nat)
    requires Enabled(s, step) && t < |s.pcs| && ThreadOrder(s, t)
    ensures ThreadOrder(Apply(s, step), t)
  {
    match step
    case Act(a) => ActKeepsOrder(s, a, t);
    case Unlock(a) => UnlockKeepsOrder(s, a, t);
    case Notify(a, chosen) => NotifyKeepsOrder(s, a, chosen, t);
    case _ =>
  }

  /** The credits after a notify: at least one less per notifier, one more per woken consumer. */
  lemma NotifyCredits<T>(s: State<T>, t: nat, chosen: Option<nat>)
    requires Enabled(s, Notify(t, chosen))
    ensures Credits(DoNotify(s, t, chosen).pcs) == Credits(s.pcs) - (if chosen.Some? then 0 else 1)
  {
    var woken := if chosen.Some? then s.pcs[chosen.value := PopWoken] else s.pcs;
    if chosen.Some? {
      CreditsUpdate(s.pcs, chosen.value, PopWoken);
    }
    CreditsUpdate(woken, t, Idle);
  }

  lemma NotifyKeepsWake<T>(s: State<T>, step: Step<T>)
    requires WakeInv(s) && Enabled(s, step) && step.Notify?
    ensures WakeInv(Apply(s, step))
  {
    NotifyCredits(s, step.thread, step.chosen);
    var s' := Apply(s, step);
    if u: nat :| u < |s'.pcs| && s'.pcs[u].PopAsleep? {
      assert s.pcs[u].PopAsleep?;
    }
  }

  lemma WakePreserved<T>(s: State<T>, step: Step<T>)
    requires Inv(s) && Enabled(s, step)
    ensures WakeInv(Apply(s, step))
  {
    if step.Notify? {
      NotifyKeepsWake(s, step);
    } else {
      var s', t := Apply(s, step), step.thread;
      assert s'.pcs == s.pcs[t := s'.pcs[t]];
      CreditsUpdate(s.pcs, t, s'.pcs[t]);
      if u: nat :| u < |s'.pcs| && s'.pcs[u].PopAsleep? {
        if u == t {
          assert s'.queue == [];
        } else {
          assert s.pcs[u].PopAsleep?;
        }
      }
    }
  }

  lemma InvPreserved<T>(s: State<T>, step: Step<T>)
    requires Inv(s) && Enabled(s, step)
    ensures Inv(Apply(s, step)) && |Apply(s, step).pcs| == |s.pcs| && Apply(s, step).maxSize == s.maxSize
  {
    MutexPreserved(s, step);
    ReplayPreserved(s, step);
    WakePreserved(s, step);
    forall t | 0 <= t < |s.pcs|
      ensures ThreadOrder(Apply(s, step), t)
    {
      ThreadOrderPreserved(s, step, t);
    }
  }

  lemma {:induction false} InvOverRuns<T(!new)>(s: State<T>, steps: seq<Step<T>>)
    requires Inv(s) && Runs(s, steps)
    ensures Inv(After(s, steps))
    ensures |After(s, steps).pcs| == |s.pcs| && After(s, steps).maxSize == s.maxSize
    decreases |steps|
  {
    if steps != [] {
      InvPreserved(s, steps[0]);
      InvOverRuns(Apply(s, steps[0]), steps[1..]);
    }
  }

  lemma InitialInv<T>(s: State<T>)
    requires Initial(s)
    ensures Inv(s)
  {
  }

  // ---------------------------------------------------------------------------
  // Main results

  lemma {:induction false} LogGrows<T(!new)>(s: State<T>, steps: seq<Step<T>>)
    requires Runs(s, steps)
    ensures s.log <= After(s, steps).log
    decreases |steps|
  {
    if steps != [] {
      LogGrows(Apply(s, steps[0]), steps[1..]);
    }
  }

  lemma {:induction false} ByThreadConcat<T>(xs: seq<Event<T>>, ys: seq<Event<T>>, t: nat)
    ensures ByThread(xs + ys, t) == ByThread(xs, t) + ByThread(ys, t)
  {
    if ys == [] {
      assert xs + ys == xs;
    } else {
      var n := |ys| - 1;
      ByThreadConcat(xs, ys[..n], t);
      assert xs + ys == (xs + ys[..n]) + [ys[n]] && ys == ys[..n] + [ys[n]];
      ByThreadAppend(xs + ys[..n], ys[n], t);
      ByThreadAppend(ys[..n], ys[n], t);
    }
  }

  /** From `r` to the later `r'`: what thread `t` had returned is in the history up to then, and if
      it was outside, what it calls later is behind that history. */
  ghost predicate RealTime<T>(r: State<T>, r': State<T>, t: nat)
    requires t < |r.pcs| && r.log <= r'.log
  {
    && ByThread(r.returned, t) <= ByThread(r.log, t)
    && (r.pcs[t].Idle? ==> ByThread(r'.log, t) == ByThread(r.returned, t) + ByThread(r'.log[|r.log|..], t))
  }

  lemma OrderIsRealTime<T>(r: State<T>, r': State<T>, t: nat)
    requires t < |r.pcs| && r.log <= r'.log && ThreadOrder(r, t)
    ensures RealTime(r, r', t)
  {
    ByThreadConcat(r.log, r'.log[|r.log|..], t);
    assert r'.log == r.log + r'.log[|r.log|..];
  }

  // ---------------------------------------------------------------------------
  // Every call is answered, with its own element

  datatype Request<T> = TryPush(element: T) | Pop | Size

  /** The calls that a thread makes in a schedule, in order. */
  function Requests<T>(steps: seq<Step<T>>, t: nat): seq<Request<T>> {
    if steps == [] then [] else Made(steps[0], t) + Requests(steps[1..], t)
  }

  /** The call that an event answers. */
  function Answered<T>(e: Event<T>): Request<T> {
    match e
    case Accepted(_, x) => TryPush(x)
    case Refused(_, x) => TryPush(x)
    case Popped(_, _) => Pop
    case Measured(_, _) => Size
  }

  function AllAnswered<T>(es: seq<Event<T>>): seq<Request<T>> {
    if es == [] then [] else AllAnswered(es[..|es| - 1]) + [Answered(es[|es| - 1])]
  }

  lemma AllAnsweredAppend<T>(es: seq<Event<T>>, e: Event<T>)
    ensures AllAnswered(es + [e]) == AllAnswered(es) + [Answered(e)]
  {
    assert (es + [e])[..|es|] == es;
  }

  /** The call that a thread has made and that has not reached its locked step. */
  function Open<T>(pc: Pc<T>): seq<Request<T>> {
    match pc
    case PushBlocked(e) => [TryPush(e)]
    case PushLocked(e) => [TryPush(e)]
    case PopBlocked => [Pop]
    case PopLocked(_) => [Pop]
    case PopAsleep => [Pop]
    case PopWoken => [Pop]
    case SizeBlocked => [Size]
    case SizeLocked => [Size]
    case _ => []
  }

  function AnsweredBy<T>(log: seq<Event<T>>, t: nat): seq<Request<T>> {
    AllAnswered(ByThread(log, t))
  }

  lemma AnsweredByAppend<T>(log: seq<Event<T>>, e: Event<T>, t: nat)
    ensures AnsweredBy(log + [e], t) == AnsweredBy(log, t) + if e.thread == t then [Answered(e)] else []
  {
    ByThreadAppend(log, e, t);
    if e.thread == t {
      AllAnsweredAppend(ByThread(log, t), e);
    }
  }

  /** A thread's calls so far: those answered in the history, then the open one. */
  ghost function Known<T>(s: State<T>, t: nat): seq<Request<T>>
    requires t < |s.pcs|
  {
    AnsweredBy(s.log, t) + Open(s.pcs[t])
  }

  /** A locked step moves the open call of its thread to the history. */
  lemma LoggedKnown<T>(s: State<T>, s': State<T>, a: nat, t: nat, e: Event<T>)
    requires a < |s.pcs| && t < |s.pcs| == |s'.pcs| && s'.log == s.log + [e] && e.thread == a
    requires Open(s.pcs[a]) == [Answered(e)] && Open(s'.pcs[a]) == [] && (t != a ==> s'.pcs[t] == s.pcs[t])
    ensures Known(s', t) == Known(s, t)
  {
    AnsweredByAppend(s.log, e, t);
  }

  lemma ActKnown<T>(s: State<T>, a: nat, t: nat)
    requires a < |s.pcs| && t < |s.pcs| && AtTest(s.pcs[a])
    ensures Known(DoAct(s, a), t) == Known(s, t)
  {
    var s' := DoAct(s, a);
    match s.pcs[a]
    case PushLocked(e) => LoggedKnown(s, s', a, t, if |s.queue| < s.maxSize then Accepted(a, e) else Refused(a, e));
    case PopLocked(_) =>
      if s.queue == [] {
        assert s'.log == s.log && Open(s'.pcs[t]) == Open(s.pcs[t]);
      } else {
        LoggedKnown(s, s', a, t, Popped(a, s.queue[0]));
      }
    case SizeLocked => LoggedKnown(s, s', a, t, Measured(a, |s.queue|));
  }

  /** The call that a step makes for a thread. */
  function Made<T>(step: Step<T>, t: nat): seq<Request<T>> {
    match step
    case CallPush(u, e) => if u == t then [TryPush(e)] else []
    case CallPop(u) => if u == t then [Pop] else []
    case CallSize(u) => if u == t then [Size] else []
    case _ => []
  }

  /** Outside the locked steps the history stays, and only a call opens a call. */
  lemma StepOpens<T>(s: State<T>, step: Step<T>, t: nat)
    requires Enabled(s, step) && t < |s.pcs| && !step.Act?
    ensures Apply(s, step).log == s.log && |Apply(s, step).pcs| == |s.pcs|
    ensures Open(Apply(s, step).pcs[t]) == Open(s.pcs[t]) + Made(step, t)
  {
    if !(step.CallPush? || step.CallPop? || step.CallSize?) {
      assert Open(Apply(s, step).pcs[t]) == Open(s.pcs[t]);
    }
  }

  lemma StepKnown<T>(s: State<T>, step: Step<T>, t: nat)
    requires Enabled(s, step) && t < |s.pcs|
    ensures |Apply(s, step).pcs| == |s.pcs|
    ensures Known(Apply(s, step), t) == Known(s, t) + Made(step, t)
  {
    if step.Act? {
      ActKnown(s, step.thread, t);
    } else {
      StepOpens(s, step, t);
      Regroup(AnsweredBy(s.log, t), Open(s.pcs[t]), Made(step, t));
    }
  }

  lemma {:induction false} RequestsKnown<T(!new)>(s: State<T>, steps: seq<Step<T>>, t: nat)
    requires Runs(s, steps) && t < |s.pcs|
    ensures t < |After(s, steps).pcs| && Known(After(s, steps), t) == Known(s, t) + Requests(steps, t)
    decreases |steps|
  {
    if steps != [] {
      StepKnown(s, steps[0], t);
      RequestsKnown(Apply(s, steps[0]), steps[1..], t);
      Regroup(Known(s, t), Made(steps[0], t), Requests(steps[1..], t));
    }
  }

  lemma Regroup<T>(a: seq<Request<T>>, b: seq<Request<T>>, c: seq<Request<T>>)
    ensures a + b + c == a + (b + c)
  {
  }

  /** The calls that a thread has made are, one for one and in order, those that its events in the
      history answer, a push with the very element it was called with, followed by at most one
      call that has not reached its locked step; none if the thread is outside. */
  ghost predicate CallsAnswered<T>(r: State<T>, made: seq<Request<T>>, t: nat)
    requires t < |r.pcs|
  {
    && AllAnswered(ByThread(r.log, t)) <= made
    && |made| <= |ByThread(r.log, t)| + 1
    && (r.pcs[t].Idle? ==> made == AllAnswered(ByThread(r.log, t)) == AllAnswered(ByThread(r.returned, t)))
  }

  lemma EveryCallIsAnswered<T(!new)>(s: State<T>, steps: seq<Step<T>>, t: nat)
    requires Initial(s) && Runs(s, steps) && t < |s.pcs|
    ensures t < |After(s, steps).pcs| && CallsAnswered(After(s, steps), Requests(steps, t), t)
  {
    InitialInv(s);
    InvOverRuns(s, steps);
    RequestsKnown(s, steps, t);
    InitialKnown(s, t);
    var r := After(s, steps);
    assert ThreadOrder(r, t);
    assert Requests(steps, t) == AnsweredBy(r.log, t) + Open(r.pcs[t]);
    AllAnsweredLength(ByThread(r.log, t));
  }

  lemma InitialKnown<T>(s: State<T>, t: nat)
    requires Initial(s) && t < |s.pcs|
    ensures Known(s, t) == []
  {
    assert ByThread(s.log, t) == [];
  }

  lemma {:induction false} AllAnsweredLength<T>(es: seq<Event<T>>)
    ensures |AllAnswered(es)| == |es|
  {
    if es != [] {
      AllAnsweredLength(es[..|es| - 1]);
    }
  }

  // ---------------------------------------------------------------------------
  // Histories

  /** Every schedule is linearisable: the locked steps form a legal history of a sequential
      bounded FIFO queue whose contents are the actual queue, and each thread's returned
      results are exactly its logged ones, in order, up to one call that has not returned.
      Every call that a thread makes is answered in the history, with its own element.
      And however the run goes on, the history respects real time: a call that has returned
      precedes every call that is made later. */
  lemma Linearizable<T(!new)>(s: State<T>, steps: seq<Step<T>>, more: seq<Step<T>>)
    requires Initial(s) && Runs(s, steps) && Runs(After(s, steps), more)
    ensures var r := After(s, steps);
            && Replay(s.maxSize, r.log) == Some(r.queue) && |r.pcs| == |s.pcs|
            && forall t | 0 <= t < |r.pcs| :: ThreadOrder(r, t) && CallsAnswered(r, Requests(steps, t), t)
    ensures var (r, r') := (After(s, steps), After(After(s, steps), more));
            r.log <= r'.log && forall t | 0 <= t < |r.pcs| :: RealTime(r, r', t)
  {
    InitialInv(s);
    InvOverRuns(s, steps);
    var r := After(s, steps);
    LogGrows(r, more);
    forall t | 0 <= t < |r.pcs|
      ensures RealTime(r, After(r, more), t) && CallsAnswered(r, Requests(steps, t), t)
    {
      EveryCallIsAnswered(s, steps, t);
      OrderIsRealTime(r, After(r, more), t);
    }
  }

  /** FIFO delivery with nothing lost, duplicated or invented, within the bound. */
  lemma FifoWithinBound<T(!new)>(s: State<T>, steps: seq<Step<T>>)
    requires Initial(s) && Runs(s, steps)
    ensures var r := After(s, steps);
            && AcceptedElements(r.log) == PoppedElements(r.log) + r.queue
            && |r.queue| <= s.maxSize
  {
    Linearizable(s, steps, []);
    ReplayIsFifo(s.maxSize, After(s, steps).log);
  }

  /** No lost wake-up: as long as a consumer sleeps, each queued element has a pending
      notify_one or a woken consumer that has yet to look at the queue. */
  lemma NoLostWakeup<T(!new)>(s: State<T>, steps: seq<Step<T>>)
    requires Initial(s) && Runs(s, steps)
    ensures var r := After(s, steps);
            (exists t | 0 <= t < |r.pcs| :: r.pcs[t].PopAsleep?) ==> |r.queue| <= Credits(r.pcs)
  {
    InitialInv(s);
    InvOverRuns(s, steps);
  }

  /** A step that is neither a new call nor a wake-up nobody asked for. */
  predicate IsProgress<T>(step: Step<T>) {
    step.Lock? || step.Act? || step.Unlock? || step.Notify?
  }

  /** Every thread is outside the queue, or sleeps and the queue is empty. */
  ghost predicate AtRest<T>(s: State<T>) {
    forall t | 0 <= t < |s.pcs| :: s.pcs[t].Idle? || (s.pcs[t].PopAsleep? && s.queue == [])
  }

  lemma SomeoneCanMove<T>(s: State<T>) returns (step: Step<T>)
    requires Inv(s) && !AtRest(s)
    ensures IsProgress(step) && Enabled(s, step)
  {
    if s.owner.Some? {
      var t := s.owner.value;
      assert HoldsLock(s.pcs[t]);
      return if AtTest(s.pcs[t]) then Act(t) else Unlock(t);
    }
    if t: nat :| t < |s.pcs| && WantsLock(s.pcs[t]) {
      return Lock(t);
    }
    if t: nat :| t < |s.pcs| && s.pcs[t].PushNotifying? {
      if u: nat :| u < |s.pcs| && s.pcs[u].PopAsleep? {
        return Notify(t, Some(u));
      }
      return Notify(t, None);
    }
    forall t | 0 <= t < |s.pcs|
      ensures s.pcs[t].Idle? || s.pcs[t].PopAsleep?
      ensures !IsCredit(s.pcs[t])
    {
      assert !HoldsLock(s.pcs[t]);
    }
    NoCredits(s.pcs);
    assert false;
  }

  /** How many progress steps a thread may still take before it is idle or asleep. The
      notifier's share pays for the consumer it wakes. */
  function Work<T>(pc: Pc<T>): nat {
    match pc
    case Idle => 0
    case PushBlocked(_) => 8
    case PushLocked(_) => 7
    case PushStored(_) => 6
    case PushNotifying(_) => 5
    case PushRefused(_) => 1
    case PopBlocked => 3
    case PopLocked(_) => 2
    case PopAsleep => 0
    case PopWoken => 3
    case PopTaken(_) => 1
    case SizeBlocked => 3
    case SizeLocked => 2
    case SizeRead(_) => 1
  }

  function TotalWork<T>(pcs: seq<Pc<T>>): nat {
    if pcs == [] then 0 else Work(pcs[0]) + TotalWork(pcs[1..])
  }

  lemma {:induction false} TotalWorkUpdate<T>(pcs: seq<Pc<T>>, t: nat, pc: Pc<T>)
    requires t < |pcs|
    ensures TotalWork(pcs[t := pc]) == TotalWork(pcs) - Work(pcs[t]) + Work(pc)
  {
    if t == 0 {
      assert pcs[t := pc][1..] == pcs[1..];
    } else {
      assert pcs[t := pc][1..] == pcs[1..][t - 1 := pc];
      TotalWorkUpdate(pcs[1..], t - 1, pc);
    }
  }

  lemma ProgressUsesWork<T>(s: State<T>, step: Step<T>)
    requires Enabled(s, step) && IsProgress(step)
    ensures TotalWork(Apply(s, step).pcs) < TotalWork(s.pcs)
  {
    var s', t := Apply(s, step), step.thread;
    if step.Notify? {
      var woken := if step.chosen.Some? then s.pcs[step.chosen.value := PopWoken] else s.pcs;
      if step.chosen.Some? {
        TotalWorkUpdate(s.pcs, step.chosen.value, PopWoken);
      }
      TotalWorkUpdate(woken, t, Idle);
    } else {
      assert s'.pcs == s.pcs[t := s'.pcs[t]];
      TotalWorkUpdate(s.pcs, t, s'.pcs[t]);
    }
  }

  /** Once no further call is made, every schedule of progress steps is finite ... */
  lemma {:induction false} ProgressIsBounded<T(!new)>(s: State<T>, steps: seq<Step<T>>)
    requires Runs(s, steps)
    requires forall i | 0 <= i < |steps| :: IsProgress(steps[i])
    ensures |steps| + TotalWork(After(s, steps).pcs) <= TotalWork(s.pcs)
    decreases |steps|
  {
    if steps != [] {
      ProgressUsesWork(s, steps[0]);
      ProgressIsBounded(Apply(s, steps[0]), steps[1..]);
    }
  }

  /** ... and it can only stop with all threads outside the queue, or with consumers
      asleep on an empty queue: no element is left behind while a consumer waits. */
  lemma StuckMeansServed<T(!new)>(s: State<T>, steps: seq<Step<T>>)
    requires Initial(s) && Runs(s, steps)
    requires forall step | IsProgress(step) :: !Enabled(After(s, steps), step)
    ensures AtRest(After(s, steps))
  {
    InitialInv(s);
    InvOverRuns(s, steps);
    if !AtRest(After(s, steps)) {
      var step := SomeoneCanMove(After(s, steps));
    }
  }
}
