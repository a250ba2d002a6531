/** Persistent curl contexts: one curl handle and one mutex per key in a global map that has
    a mutex of its own (`contexts_mutex`). Getting a context takes the global mutex, then the
    key's mutex, and, when waiting times are being measured, the global mutex once more while
    the key's mutex is held.

    A transition system over any number of threads, each using one context at a time.
    pthread calls and malloc succeed; `curl_easy_init` may fail. */
module CurlContexts {
  import opened Wrappers

  type Key = string

  /** Addresses of a curl handle and of the mutex that guards it. */
  datatype Context = Context(curl: nat, mutex: nat)

  datatype Pc =
    | Idle
    | GetBlocked(key: Key)                    // waiting for contexts_mutex
    | GetLooking(key: Key)                    // contexts_mutex held, map not yet consulted
    | GetFound(key: Key, found: Option<Context>)  // contexts_mutex held, result copied out
    | KeyBlocked(key: Key, context: Context)  // waiting for the key's mutex
    | KeyLocked(key: Key, context: Context)   // key's mutex held
    | StatBlocked(key: Key, context: Context) // key's mutex held, waiting for contexts_mutex
    | StatLocked(key: Key, context: Context)  // both mutexes held
    | Using(key: Key, context: Context)       // get returned, context in use
    | UsingNothing(key: Key)                  // get returned an empty context

  datatype State = State(
    contexts: map<Key, Context>,
    globalOwner: Option<nat>,
    keyOwner: map<nat, nat>,                  // mutex -> thread that holds it
    nextAddress: nat,                         // addresses from here on are unused
    pcs: seq<Pc>)

  datatype Step =
    | CallGet(thread: nat, key: Key)
    | LockGlobal(thread: nat)
    | Look(thread: nat, initOk: bool)
    | UnlockGlobal(thread: nat)
    | LockKey(thread: nat)
    | TestStatistics(thread: nat, on: bool)
    | LockStat(thread: nat)
    | UnlockStat(thread: nat)
    | Release(thread: nat)

  predicate HoldsGlobal(pc: Pc) {
    pc.GetLooking? || pc.GetFound? || pc.StatLocked?
  }

  predicate HoldsKey(pc: Pc) {
    pc.KeyLocked? || pc.StatBlocked? || pc.StatLocked? || pc.Using?
  }

  predicate Enabled(s: State, step: Step) {
    step.thread < |s.pcs| &&
    var pc := s.pcs[step.thread];
    match step
    case CallGet(_, _) => pc.Idle?
    case LockGlobal(_) => pc.GetBlocked? && s.globalOwner.None?
    case Look(_, _) => pc.GetLooking?
    case UnlockGlobal(_) => pc.GetFound?
    case LockKey(_) => pc.KeyBlocked? && pc.context.mutex !in s.keyOwner
    case TestStatistics(_, _) => pc.KeyLocked?
    case LockStat(_) => pc.StatBlocked? && s.globalOwner.None?
    case UnlockStat(_) => pc.StatLocked?
    case Release(_) => pc.Using? || pc.UsingNothing?
  }

  /** Find the key's context, or create and store it; an empty context if curl gives no handle. */
  function DoLook(s: State, t: nat, initOk: bool): State
    requires t < |s.pcs| && s.pcs[t].GetLooking?
  {
    var key := s.pcs[t].key;
    if key in s.contexts then
      s.(pcs := s.pcs[t := GetFound(key, Some(s.contexts[key]))])
    else if initOk then
      var c := Context(s.nextAddress, s.nextAddress + 1);
      s.(contexts := s.contexts[key := c], nextAddress := s.nextAddress + 2,
         pcs := s.pcs[t := GetFound(key, Some(c))])
    else
      s.(pcs := s.pcs[t := GetFound(key, None)])
  }

  function Apply(s: State, step: Step): State
    requires Enabled(s, step)
  {
    var t := step.thread;
    var pc := s.pcs[t];
    match step
    case CallGet(_, key) => s.(pcs := s.pcs[t := GetBlocked(key)])
    case LockGlobal(_) => s.(globalOwner := Some(t), pcs := s.pcs[t := GetLooking(pc.key)])
    case Look(_, initOk) => DoLook(s, t, initOk)
    case UnlockGlobal(_) =>
      s.(globalOwner := None,
         pcs := s.pcs[t := if pc.found.Some? then KeyBlocked(pc.key, pc.found.value) else UsingNothing(pc.key)])
    case LockKey(_) =>
      s.(keyOwner := s.keyOwner[pc.context.mutex := t], pcs := s.pcs[t := KeyLocked(pc.key, pc.context)])
    case TestStatistics(_, on) =>
      s.(pcs := s.pcs[t := if on then StatBlocked(pc.key, pc.context) else Using(pc.key, pc.context)])
    case LockStat(_) => s.(globalOwner := Some(t), pcs := s.pcs[t := StatLocked(pc.key, pc.context)])
    case UnlockStat(_) => s.(globalOwner := None, pcs := s.pcs[t := Using(pc.key, pc.context)])
    case Release(_) =>
      s.(keyOwner := if pc.Using? then s.keyOwner - {pc.context.mutex} else s.keyOwner,
         pcs := s.pcs[t := Idle])
  }

  ghost predicate Initial(s: State) {
    && s.contexts == map[] && s.globalOwner == None && s.keyOwner == map[]
    && forall t | 0 <= t < |s.pcs| :: s.pcs[t].Idle?
  }

  ghost predicate Runs(s: State, steps: seq<Step>)
    decreases |steps|
  {
    steps == [] || (Enabled(s, steps[0]) && Runs(Apply(s, steps[0]), steps[1..]))
  }

  ghost function After(s: State, steps: seq<Step>): State
    requires Runs(s, steps)
    decreases |steps|
  {
    if steps == [] then s else After(Apply(s, steps[0]), steps[1..])
  }

  // ---------------------------------------------------------------------------
  // Invariant

  /** The context a thread has copied out of the map. */
  function Copied(pc: Pc): Option<Context> {
    match pc
    case GetFound(_, found) => found
    case KeyBlocked(_, c) => Some(c)
    case KeyLocked(_, c) => Some(c)
    case StatBlocked(_, c) => Some(c)
    case StatLocked(_, c) => Some(c)
    case Using(_, c) => Some(c)
    case _ => None
  }

  ghost predicate GlobalInv(s: State) {
    && (s.globalOwner.Some? ==> s.globalOwner.value < |s.pcs|)
    && forall t | 0 <= t < |s.pcs| :: HoldsGlobal(s.pcs[t]) <==> s.globalOwner == Some(t)
  }

  ghost predicate KeyInv(s: State) {
    && (forall t | 0 <= t < |s.pcs| && HoldsKey(s.pcs[t]) ::
          s.pcs[t].context.mutex in s.keyOwner && s.keyOwner[s.pcs[t].context.mutex] == t)
    && (forall m | m in s.keyOwner ::
          s.keyOwner[m] < |s.pcs| && HoldsKey(s.pcs[s.keyOwner[m]]) && s.pcs[s.keyOwner[m]].context.mutex == m)
  }

  ghost predicate CopyInv(s: State) {
    forall t | 0 <= t < |s.pcs| && Copied(s.pcs[t]).Some? ::
      s.pcs[t].key in s.contexts && s.contexts[s.pcs[t].key] == Copied(s.pcs[t]).value
  }

  ghost predicate MapInv(s: State) {
    && (forall k | k in s.contexts :: s.contexts[k].curl < s.nextAddress && s.contexts[k].mutex < s.nextAddress)
    && (forall j, k | j in s.contexts && k in s.contexts && j != k ::
          s.contexts[j].curl != s.contexts[k].curl && s.contexts[j].mutex != s.contexts[k].mutex)
  }

  ghost predicate Inv(s: State) {
    GlobalInv(s) && KeyInv(s) && CopyInv(s) && MapInv(s)
  }

  lemma GlobalPreserved(s: State, step: Step)
    requires GlobalInv(s) && Enabled(s, step)
    ensures GlobalInv(Apply(s, step))
  {
    var s' := Apply(s, step);
    forall u | 0 <= u < |s'.pcs|
      ensures HoldsGlobal(s'.pcs[u]) <==> s'.globalOwner == Some(u)
    {
      assert HoldsGlobal(s.pcs[step.thread]) <==> s.globalOwner == Some(step.thread);
    }
  }

  lemma KeyPreserved(s: State, step: Step)
    requires KeyInv(s) && Enabled(s, step)
    ensures KeyInv(Apply(s, step))
  {
    var s' := Apply(s, step);
    assert s'.pcs == s.pcs[step.thread := s'.pcs[step.thread]];
    forall m | m in s'.keyOwner
      ensures s'.keyOwner[m] < |s'.pcs| && HoldsKey(s'.pcs[s'.keyOwner[m]]) && s'.pcs[s'.keyOwner[m]].context.mutex == m
    {
      if m in s.keyOwner {
        assert s'.keyOwner[m] == s.keyOwner[m];
      }
    }
  }

  lemma CopyPreserved(s: State, step: Step)
    requires CopyInv(s) && Enabled(s, step)
    ensures CopyInv(Apply(s, step))
  {
    var s' := Apply(s, step);
    assert s'.pcs == s.pcs[step.thread := s'.pcs[step.thread]];
    assert forall k | k in s.contexts :: k in s'.contexts && s'.contexts[k] == s.contexts[k];
  }

  lemma InvPreserved(s: State, step: Step)
    requires Inv(s) && Enabled(s, step)
    ensures Inv(Apply(s, step))
  {
    GlobalPreserved(s, step);
    KeyPreserved(s, step);
    CopyPreserved(s, step);
  }

  lemma {:induction false} InvOverRuns(s: State, steps: seq<Step>)
    requires Inv(s) && Runs(s, steps)
    ensures Inv(After(s, steps))
    decreases |steps|
  {
    if steps != [] {
      InvPreserved(s, steps[0]);
      InvOverRuns(Apply(s, steps[0]), steps[1..]);
    }
  }

  // ---------------------------------------------------------------------------
  // Main results

  /** In every reachable state two threads that hold a context hold different keys,
      different curl handles and different mutexes. */
  lemma MutualExclusion(s: State, steps: seq<Step>, t: nat, u: nat)
    requires Initial(s) && Runs(s, steps)
    requires var r := After(s, steps);
             t < u < |r.pcs| && HoldsKey(r.pcs[t]) && HoldsKey(r.pcs[u])
    ensures var r := After(s, steps);
            && r.pcs[t].key != r.pcs[u].key
            && r.pcs[t].context.curl != r.pcs[u].context.curl
            && r.pcs[t].context.mutex != r.pcs[u].context.mutex
  {
    InvOverRuns(s, steps);
    var r := After(s, steps);
    assert Copied(r.pcs[t]) == Some(r.pcs[t].context) && Copied(r.pcs[u]) == Some(r.pcs[u].context);
  }

  /** A key's stored context never changes once created, over every schedule. */
  lemma {:induction false} StoredContextIsForever(s: State, steps: seq<Step>, key: Key)
    requires Runs(s, steps) && key in s.contexts
    ensures key in After(s, steps).contexts && After(s, steps).contexts[key] == s.contexts[key]
    decreases |steps|
  {
    if steps != [] {
      StoredContextIsForever(Apply(s, steps[0]), steps[1..], key);
    }
  }

  // ---------------------------------------------------------------------------
  // Every get yields the key's context

  /** What a thread's call of get is owed: nothing is known before it looks; then the key's context,
      unless there was none and curl gave no handle. */
  datatype Promise = NoCall | Asked(key: Key) | Owed(key: Key) | Denied(key: Key)

  function NextPromise(s: State, p: Promise, step: Step, t: nat): Promise {
    if step.thread != t then p else
    match step
    case CallGet(_, key) => Asked(key)
    case Look(_, initOk) =>
      if !p.Asked? then p else if p.key in s.contexts || initOk then Owed(p.key) else Denied(p.key)
    case Release(_) => NoCall
    case _ => p
  }

  ghost function PromiseAfter(s: State, p: Promise, steps: seq<Step>, t: nat): Promise
    requires Runs(s, steps)
    decreases |steps|
  {
    if steps == [] then p else PromiseAfter(Apply(s, steps[0]), NextPromise(s, p, steps[0], t), steps[1..], t)
  }

  /** The promise is kept: a thread that is owed the key's context has it or waits for its mutex, and
      once past that it holds the mutex; a thread that is denied one gets nothing. */
  ghost predicate Keeps(s: State, t: nat, p: Promise)
    requires t < |s.pcs|
  {
    var pc := s.pcs[t];
    match p
    case NoCall => pc == Idle
    case Asked(key) => pc == GetBlocked(key) || pc == GetLooking(key)
    case Denied(key) => pc == GetFound(key, None) || pc == UsingNothing(key)
    case Owed(key) =>
      key in s.contexts &&
      var c := s.contexts[key];
      || pc == GetFound(key, Some(c)) || pc == KeyBlocked(key, c)
      || (&& c.mutex in s.keyOwner && s.keyOwner[c.mutex] == t
          && (pc == KeyLocked(key, c) || pc == StatBlocked(key, c) || pc == StatLocked(key, c) || pc == Using(key, c)))
  }

  lemma OthersKeep(s: State, step: Step, t: nat, p: Promise)
    requires Inv(s) && Enabled(s, step) && t < |s.pcs| && step.thread != t && Keeps(s, t, p)
    ensures |Apply(s, step).pcs| == |s.pcs| && Keeps(Apply(s, step), t, p)
  {
    var s' := Apply(s, step);
    assert s'.pcs[t] == s.pcs[t];
    assert forall k | k in s.contexts :: k in s'.contexts && s'.contexts[k] == s.contexts[k];
    InvPreserved(s, step);
    if HoldsKey(s.pcs[t]) {
      assert s'.keyOwner[s'.pcs[t].context.mutex] == t;
    }
  }

  lemma OwnKeeps(s: State, step: Step, p: Promise)
    requires Inv(s) && Enabled(s, step) && Keeps(s, step.thread, p)
    ensures |Apply(s, step).pcs| == |s.pcs| && Keeps(Apply(s, step), step.thread, NextPromise(s, p, step, step.thread))
  {
  }

  lemma KeepsStep(s: State, step: Step, t: nat, p: Promise)
    requires Inv(s) && Enabled(s, step) && t < |s.pcs| && Keeps(s, t, p)
    ensures |Apply(s, step).pcs| == |s.pcs| && Keeps(Apply(s, step), t, NextPromise(s, p, step, t))
  {
    if step.thread == t {
      OwnKeeps(s, step, p);
    } else {
      OthersKeep(s, step, t, p);
    }
  }

  lemma {:induction false} KeepsOverRuns(s: State, p: Promise, steps: seq<Step>, t: nat)
    requires Inv(s) && Runs(s, steps) && t < |s.pcs| && Keeps(s, t, p)
    ensures t < |After(s, steps).pcs| && Keeps(After(s, steps), t, PromiseAfter(s, p, steps, t))
    decreases |steps|
  {
    if steps != [] {
      KeepsStep(s, steps[0], t, p);
      InvPreserved(s, steps[0]);
      KeepsOverRuns(Apply(s, steps[0]), NextPromise(s, p, steps[0], t), steps[1..], t);
    }
  }

  /** Over every run, every call of get keeps its promise: the context it yields is the key's stored
      one, with the mutex held, unless at its look there was none and curl gave no handle. */
  lemma GetYieldsTheContext(s: State, steps: seq<Step>, t: nat)
    requires Initial(s) && Runs(s, steps) && t < |s.pcs|
    ensures t < |After(s, steps).pcs| && Keeps(After(s, steps), t, PromiseAfter(s, NoCall, steps, t))
  {
    KeepsOverRuns(s, NoCall, steps, t);
  }

  lemma Prolong(s: State, steps: seq<Step>, step: Step) returns (more: seq<Step>)
    requires Runs(s, steps) && Enabled(After(s, steps), step)
    ensures Runs(s, more) && After(s, more) == Apply(After(s, steps), step)
    decreases |steps|
  {
    if steps == [] {
      more := [step];
      assert more[1..] == [];
    } else {
      var rest := Prolong(Apply(s, steps[0]), steps[1..], step);
      more := [steps[0]] + rest;
      assert more[1..] == rest;
    }
  }

  lemma LockReachable(s: State, t: nat, key: Key) returns (steps: seq<Step>)
    requires Initial(s) && t < |s.pcs|
    ensures Runs(s, steps)
    ensures var r := After(s, steps);
            t < |r.pcs| && r.globalOwner == None && r.pcs[t].KeyLocked? && r.pcs[t].key == key
  {
    steps := Prolong(s, [], CallGet(t, key));
    steps := Prolong(s, steps, LockGlobal(t));
    steps := Prolong(s, steps, Look(t, true));
    steps := Prolong(s, steps, UnlockGlobal(t));
    assert After(s, steps).keyOwner == map[];
    steps := Prolong(s, steps, LockKey(t));
  }

  /** Contexts are really obtained: from every initial state every thread can get every key's, with
      or without the statistics branch. */
  lemma UsingIsReachable(s: State, t: nat, key: Key, statistics: bool) returns (steps: seq<Step>)
    requires Initial(s) && t < |s.pcs|
    ensures Runs(s, steps)
    ensures var r := After(s, steps);
            t < |r.pcs| && key in r.contexts && r.pcs[t] == Using(key, r.contexts[key])
  {
    steps := LockReachable(s, t, key);
    steps := Prolong(s, steps, TestStatistics(t, statistics));
    if statistics {
      steps := Prolong(s, steps, LockStat(t));
      steps := Prolong(s, steps, UnlockStat(t));
    }
    InvOverRuns(s, steps);
    assert Copied(After(s, steps).pcs[t]).Some?;
  }

  /** The thread that a blocked thread waits for. */
  function Blocker(s: State, t: nat): Option<nat>
    requires t < |s.pcs|
  {
    match s.pcs[t]
    case GetBlocked(_) => s.globalOwner
    case StatBlocked(_, _) => s.globalOwner
    case KeyBlocked(_, c) => if c.mutex in s.keyOwner then Some(s.keyOwner[c.mutex]) else None
    case _ => None
  }

  /** The next step of a thread inside get or holding a context. */
  function NextStep(pc: Pc, t: nat): Step
    requires !pc.Idle?
  {
    match pc
    case GetBlocked(_) => LockGlobal(t)
    case GetLooking(_) => Look(t, true)
    case GetFound(_, _) => UnlockGlobal(t)
    case KeyBlocked(_, _) => LockKey(t)
    case KeyLocked(_, _) => TestStatistics(t, true)
    case StatBlocked(_, _) => LockStat(t)
    case StatLocked(_, _) => UnlockStat(t)
    case Using(_, _) => Release(t)
    case UsingNothing(_) => Release(t)
  }

  ghost predicate CanMove(s: State, t: nat) {
    t < |s.pcs| && !s.pcs[t].Idle? && Enabled(s, NextStep(s.pcs[t], t))
  }

  lemma GlobalOwnerCanMove(s: State)
    requires GlobalInv(s) && s.globalOwner.Some?
    ensures CanMove(s, s.globalOwner.value)
  {
    assert HoldsGlobal(s.pcs[s.globalOwner.value]);
  }

  /** A thread that holds a key's mutex can move, or waits for contexts_mutex. */
  lemma KeyOwnerCanMove(s: State, m: nat)
    requires GlobalInv(s) && KeyInv(s) && m in s.keyOwner
    ensures s.keyOwner[m] < |s.pcs|
    ensures CanMove(s, s.keyOwner[m]) || (s.globalOwner.Some? && Blocker(s, s.keyOwner[m]) == s.globalOwner)
  {
    assert HoldsKey(s.pcs[s.keyOwner[m]]);
  }

  /** The thread can move, or waits for one that can, or waits for one that waits for one that can. */
  ghost predicate Unstuck(s: State, t: nat) {
    t < |s.pcs| &&
    (|| CanMove(s, t)
     || (&& Blocker(s, t).Some? && Blocker(s, t).value < |s.pcs|
         && var u := Blocker(s, t).value;
            CanMove(s, u) || (Blocker(s, u).Some? && CanMove(s, Blocker(s, u).value))))
  }

  lemma BusyIsUnstuck(s: State, t: nat)
    requires GlobalInv(s) && KeyInv(s) && t < |s.pcs| && !s.pcs[t].Idle?
    ensures Unstuck(s, t)
  {
    if s.globalOwner.Some? {
      GlobalOwnerCanMove(s);
    }
    if s.pcs[t].KeyBlocked? && s.pcs[t].context.mutex in s.keyOwner {
      KeyOwnerCanMove(s, s.pcs[t].context.mutex);
    }
  }

  /** No deadlock, not even among some of the threads: every busy thread can move, or waits
      for one that can, or waits for one (blocked in the statistics branch) that waits for
      one that can. So waiting never forms a cycle although the global mutex is requested
      while a key's mutex is held. */
  lemma WaitChainsEnd(s: State, steps: seq<Step>, t: nat)
    requires Initial(s) && Runs(s, steps)
    requires t < |After(s, steps).pcs| && !After(s, steps).pcs[t].Idle?
    ensures Unstuck(After(s, steps), t)
  {
    InvOverRuns(s, steps);
    BusyIsUnstuck(After(s, steps), t);
  }

  function Work(pc: Pc): nat {
    match pc
    case Idle => 0
    case GetBlocked(_) => 8
    case GetLooking(_) => 7
    case GetFound(_, _) => 6
    case KeyBlocked(_, _) => 5
    case KeyLocked(_, _) => 4
    case StatBlocked(_, _) => 3
    case StatLocked(_, _) => 2
    case Using(_, _) => 1
    case UsingNothing(_) => 1
  }

  function TotalWork(pcs: seq<Pc>): nat {
    if pcs == [] then 0 else Work(pcs[0]) + TotalWork(pcs[1..])
  }

  lemma {:induction false} TotalWorkUpdate(pcs: seq<Pc>, t: nat, pc: Pc)
    requires t < |pcs|
    ensures TotalWork(pcs[t := pc]) == TotalWork(pcs) - Work(pcs[t]) + Work(pc)
  {
    if t == 0 {
      assert pcs[t := pc][1..] == pcs[1..];
    } else {
      assert pcs[t := pc][1..] == pcs[1..][t - 1 := pc];
      TotalWorkUpdate(pcs[1..], t - 1, pc);
    }
  }

  lemma StepUsesWork(s: State, step: Step)
    requires Enabled(s, step) && !step.CallGet?
    ensures TotalWork(Apply(s, step).pcs) < TotalWork(s.pcs)
  {
    var s' := Apply(s, step);
    assert s'.pcs == s.pcs[step.thread := s'.pcs[step.thread]];
    TotalWorkUpdate(s.pcs, step.thread, s'.pcs[step.thread]);
  }

  /** Without new calls every schedule is finite: at most eight steps per thread. */
  lemma {:induction false} SchedulesAreBounded(s: State, steps: seq<Step>)
    requires Runs(s, steps)
    requires forall i | 0 <= i < |steps| :: !steps[i].CallGet?
    ensures |steps| + TotalWork(After(s, steps).pcs) <= TotalWork(s.pcs)
    decreases |steps|
  {
    if steps != [] {
      StepUsesWork(s, steps[0]);
      SchedulesAreBounded(Apply(s, steps[0]), steps[1..]);
    }
  }

  /** ... and such a schedule can only stop when every thread has released its context. */
  lemma StuckMeansReleased(s: State, steps: seq<Step>)
    requires Initial(s) && Runs(s, steps)
    requires forall step: Step | !step.CallGet? :: !Enabled(After(s, steps), step)
    ensures forall t | 0 <= t < |After(s, steps).pcs| :: After(s, steps).pcs[t].Idle?
    ensures After(s, steps).keyOwner == map[] && After(s, steps).globalOwner == None
  {
    InvOverRuns(s, steps);
    var r := After(s, steps);
    forall u: nat
      ensures !CanMove(r, u)
    {
    }
    forall t | 0 <= t < |r.pcs|
      ensures r.pcs[t].Idle?
    {
      if !r.pcs[t].Idle? {
        WaitChainsEnd(s, steps, t);
      }
    }
    assert forall m :: m !in r.keyOwner;
  }
}
