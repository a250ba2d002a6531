/** The alarm manager under any number of threads. Its semaphore guards the counters and the
    maps of active alarms; the database alarm's state is tested before the semaphore is taken.

    Inside a critical section every statement is a step of its own. */
module Alarms {
  import opened Wrappers

  type Key = string

  /** The two families of alarms that are active per key: failed notifications per URL and bad
      inputs per IP address. */
  datatype Family = Notifications | BadInputs

  datatype Op =
    | Raise(family: Family, key: Key)
    | Release(family: Family, key: Key)
    | DbError
    | DbReset

  datatype Pc =
    | Idle
    | Waiting(op: Op)    // before semTake
    | Inside(op: Op)     // semaphore held, nothing changed yet
    | Halfway(op: Op)    // one of the section's two updates made
    | Leaving            // before semGive

  /** The active alarms of a family, with the number of times each was reported. */
  datatype Table = Table(active: map<Key, int>, raised: int, released: int)

  /** The database alarm: the flag and its counters. */
  datatype Db = Db(ok: bool, errors: int, resets: int)

  /** `log` lists the sections entered, in semaphore order. */
  datatype State = State(
    owner: Option<nat>,
    pcs: seq<Pc>,
    badInputSeen: seq<bool>,
    notifications: Table,
    badInputs: Table,
    db: Db,
    log: seq<Op>)

  datatype Step =
    | NewRequest(thread: nat)
    | Call(thread: nat, op: Op)
    | Take(thread: nat)
    | First(thread: nat)
    | Second(thread: nat)
    | Give(thread: nat)

  predicate Holds(pc: Pc) {
    pc.Inside? || pc.Halfway? || pc.Leaving?
  }

  predicate Enabled(s: State, step: Step) {
    step.thread < |s.pcs| == |s.badInputSeen| &&
    var pc := s.pcs[step.thread];
    match step
    case NewRequest(_) => pc.Idle?
    case Call(_, _) => pc.Idle?
    case Take(_) => pc.Waiting? && s.owner.None?
    case First(_) => pc.Inside?
    case Second(_) => pc.Halfway?
    case Give(_) => pc.Leaving?
  }

  function TableOf(s: State, family: Family): Table {
    if family.Notifications? then s.notifications else s.badInputs
  }

  function WithTable(s: State, family: Family, tab: Table): State {
    if family.Notifications? then s.(notifications := tab) else s.(badInputs := tab)
  }

  predicate IsBadInput(op: Op) {
    op.Raise? && op.family.BadInputs?
  }

  /** The tests made before the semaphore: a request counts at most one bad input, and database
      calls return at once unless they would change the flag. */
  function DoCall(s: State, t: nat, op: Op): State
    requires t < |s.pcs| == |s.badInputSeen|
  {
    if (IsBadInput(op) && s.badInputSeen[t]) || (op.DbError? && !s.db.ok) || (op.DbReset? && s.db.ok) then s
    else s.(pcs := s.pcs[t := Waiting(op)],
            badInputSeen := if IsBadInput(op) then s.badInputSeen[t := true] else s.badInputSeen)
  }

  /** The section ends after its first update when the alarm's state does not change. */
  predicate OneUpdate(tab: Table, op: Op)
    requires op.Raise? || op.Release?
  {
    op.Raise? <==> op.key in tab.active
  }

  function FirstUpdate(tab: Table, op: Op): Table
    requires op.Raise? || op.Release?
  {
    if op.Raise? then
      if op.key in tab.active then tab.(active := tab.active[op.key := tab.active[op.key] + 1])
      else tab.(raised := tab.raised + 1)
    else
      tab.(active := tab.active - {op.key})
  }

  function SecondUpdate(tab: Table, op: Op): Table
    requires op.Raise? || op.Release?
  {
    if op.Raise? then tab.(active := tab.active[op.key := 1]) else tab.(released := tab.released + 1)
  }

  function DoFirst(s: State, t: nat): State
    requires t < |s.pcs| && s.pcs[t].Inside?
  {
    var op := s.pcs[t].op;
    var half := s.(log := s.log + [op], pcs := s.pcs[t := Halfway(op)]);
    match op
    case DbError => half.(db := s.db.(errors := s.db.errors + 1))
    case DbReset => half.(db := s.db.(resets := s.db.resets + 1))
    case _ =>
      var tab := TableOf(s, op.family);
      var half' := if OneUpdate(tab, op) then half.(pcs := s.pcs[t := Leaving]) else half;
      WithTable(half', op.family, FirstUpdate(tab, op))
  }

  function DoSecond(s: State, t: nat): State
    requires t < |s.pcs| && s.pcs[t].Halfway?
  {
    var op, done := s.pcs[t].op, s.(pcs := s.pcs[t := Leaving]);
    match op
    case DbError => done.(db := s.db.(ok := false))
    case DbReset => done.(db := s.db.(ok := true))
    case _ => WithTable(done, op.family, SecondUpdate(TableOf(s, op.family), op))
  }

  function Apply(s: State, step: Step): State
    requires Enabled(s, step)
  {
    var t := step.thread;
    match step
    case NewRequest(_) => s.(badInputSeen := s.badInputSeen[t := false])
    case Call(_, op) => DoCall(s, t, op)
    case Take(_) => s.(owner := Some(t), pcs := s.pcs[t := Inside(s.pcs[t].op)])
    case First(_) => DoFirst(s, t)
    case Second(_) => DoSecond(s, t)
    case Give(_) => s.(owner := None, pcs := s.pcs[t := Idle])
  }

  const NO_ALARMS := Table(map[], 0, 0)

  ghost predicate Initial(s: State) {
    && s.owner == None && s.log == [] && s.db == Db(true, 0, 0)
    && s.notifications == NO_ALARMS && s.badInputs == NO_ALARMS
    && |s.pcs| == |s.badInputSeen| && forall t | 0 <= t < |s.pcs| :: s.pcs[t].Idle?
  }

  ghost predicate Runs(s: State, steps: seq<Step>)
    decreases |steps|
  {
    steps == [] || (Enabled(s, steps[0]) && Runs(Apply(s, steps[0]), steps[1..]))
  }

  ghost function After(s: State, steps: seq<Step>): State
    requires Runs(s, steps)
    decreases |steps|
  {
    if steps == [] then s else After(Apply(s, steps[0]), steps[1..])
  }

  // ---------------------------------------------------------------------------
  // The semaphore

  ghost predicate MutexInv(s: State) {
    && |s.pcs| == |s.badInputSeen| && (s.owner.Some? ==> s.owner.value < |s.pcs|)
    && forall t | 0 <= t < |s.pcs| :: Holds(s.pcs[t]) <==> s.owner == Some(t)
  }

  /** The program counter of the thread inside, or Idle. */
  function OwnerPc(s: State): Pc {
    if s.owner.Some? && s.owner.value < |s.pcs| then s.pcs[s.owner.value] else Idle
  }

  lemma MutexPreserved(s: State, step: Step)
    requires MutexInv(s) && Enabled(s, step)
    ensures MutexInv(Apply(s, step))
  {
    var s' := Apply(s, step);
    forall u | 0 <= u < |s'.pcs|
      ensures Holds(s'.pcs[u]) <==> s'.owner == Some(u)
    {
      assert Holds(s.pcs[u]) <==> s.owner == Some(u);
      assert Holds(s.pcs[step.thread]) <==> s.owner == Some(step.thread);
    }
  }

  /** What a step does to the thread inside: only the statements of a section change it. */
  lemma OwnerMoves(s: State, step: Step)
    requires MutexInv(s) && Enabled(s, step)
    ensures step.First? || step.Second? || step.Give? ==> s.owner == Some(step.thread) && OwnerPc(s) == s.pcs[step.thread]
    ensures step.Call? || step.NewRequest? ==> OwnerPc(Apply(s, step)) == OwnerPc(s)
    ensures step.Take? ==> OwnerPc(s) == Idle && OwnerPc(Apply(s, step)) == Inside(s.pcs[step.thread].op)
    ensures step.First? || step.Second? ==> OwnerPc(Apply(s, step)) == Apply(s, step).pcs[step.thread]
    ensures step.Give? ==> OwnerPc(Apply(s, step)) == Idle
  {
    assert Holds(s.pcs[step.thread]) <==> s.owner == Some(step.thread);
  }

  // ---------------------------------------------------------------------------
  // What the log says about a family of alarms

  /** How often an alarm was reported since its last release. */
  function Reports(log: seq<Op>, family: Family, key: Key): nat {
    if log == [] then 0 else
    var last, before := log[|log| - 1], log[..|log| - 1];
    if last == Raise(family, key) then Reports(before, family, key) + 1
    else if last == Release(family, key) then 0
    else Reports(before, family, key)
  }

  lemma ReportsAppend(log: seq<Op>, op: Op, family: Family, key: Key)
    ensures Reports(log + [op], family, key) ==
            if op == Raise(family, key) then Reports(log, family, key) + 1
            else if op == Release(family, key) then 0
            else Reports(log, family, key)
  {
    assert (log + [op])[..|log|] == log;
  }

  function Entry(tab: Table, k: Key): int {
    if k in tab.active then tab.active[k] else 0
  }

  /** A table agrees with the log: exactly the alarms reported since their last release are
      active, each with the number of those reports, and raised minus released is their number. */
  ghost predicate Agrees(tab: Table, log: seq<Op>, family: Family) {
    && (forall k :: Entry(tab, k) == Reports(log, family, k))
    && (forall k | k in tab.active :: tab.active[k] > 0)
    && tab.raised - tab.released == |tab.active|
  }

  lemma ActiveIffReported(tab: Table, log: seq<Op>, family: Family, k: Key)
    requires Agrees(tab, log, family)
    ensures k in tab.active <==> Reports(log, family, k) > 0
  {
    assert Entry(tab, k) == Reports(log, family, k);
  }

  lemma NoAlarmsAgree(tab: Table, log: seq<Op>, family: Family)
    requires tab.active == map[] && tab.raised == tab.released && log == []
    ensures Agrees(tab, log, family)
  {
    assert forall k :: Reports(log, family, k) == 0;
  }

  /** A whole section on a table. */
  function Section(tab: Table, op: Op): Table
    requires op.Raise? || op.Release?
  {
    if OneUpdate(tab, op) then FirstUpdate(tab, op) else SecondUpdate(FirstUpdate(tab, op), op)
  }

  lemma RaiseAgrees(tab: Table, log: seq<Op>, op: Op)
    requires op.Raise? && Agrees(tab, log, op.family)
    ensures Agrees(Section(tab, op), log + [op], op.family)
  {
    var tab' := Section(tab, op);
    forall k: Key
      ensures Reports(log + [op], op.family, k) == Reports(log, op.family, k) + if k == op.key then 1 else 0
    {
      ReportsAppend(log, op, op.family, k);
    }
    assert tab'.active.Keys == tab.active.Keys + {op.key};
  }

  lemma ReleaseAgrees(tab: Table, log: seq<Op>, op: Op)
    requires op.Release? && Agrees(tab, log, op.family)
    ensures Agrees(Section(tab, op), log + [op], op.family)
  {
    forall k: Key
      ensures Reports(log + [op], op.family, k) == if k == op.key then 0 else Reports(log, op.family, k)
    {
      ReportsAppend(log, op, op.family, k);
    }
    assert (tab.active - {op.key}).Keys == tab.active.Keys - {op.key};
  }

  predicate Concerns(op: Op, family: Family) {
    (op.Raise? || op.Release?) && op.family == family
  }

  lemma OtherAgrees(tab: Table, log: seq<Op>, op: Op, family: Family)
    requires Agrees(tab, log, family) && !Concerns(op, family)
    ensures Agrees(tab, log + [op], family)
  {
    forall k: Key
      ensures Reports(log + [op], family, k) == Reports(log, family, k)
    {
      ReportsAppend(log, op, family, k);
    }
  }

  lemma SectionAgrees(tab: Table, log: seq<Op>, op: Op, family: Family)
    requires Agrees(tab, log, family)
    ensures Agrees(if Concerns(op, family) then Section(tab, op) else tab, log + [op], family)
  {
    if !Concerns(op, family) {
      OtherAgrees(tab, log, op, family);
    } else if op.Raise? {
      RaiseAgrees(tab, log, op);
    } else {
      ReleaseAgrees(tab, log, op);
    }
  }

  /** The table once the section in progress has made its second update. */
  function Settled(tab: Table, pc: Pc, family: Family): Table {
    if pc.Halfway? && Concerns(pc.op, family) then SecondUpdate(tab, pc.op) else tab
  }

  ghost predicate FamilyInv(s: State, family: Family) {
    Agrees(Settled(TableOf(s, family), OwnerPc(s), family), s.log, family)
  }

  lemma FirstSettles(s: State, step: Step, family: Family)
    requires MutexInv(s) && Enabled(s, step) && step.First?
    ensures var s', op, tab := Apply(s, step), s.pcs[step.thread].op, TableOf(s, family);
            && s'.log == s.log + [op] && Settled(tab, OwnerPc(s), family) == tab
            && Settled(TableOf(s', family), OwnerPc(s'), family) == if Concerns(op, family) then Section(tab, op) else tab
  {
    OwnerMoves(s, step);
  }

  lemma OtherStepsSettle(s: State, step: Step, family: Family)
    requires MutexInv(s) && Enabled(s, step) && !step.First?
    ensures var s' := Apply(s, step);
            && s'.log == s.log
            && Settled(TableOf(s', family), OwnerPc(s'), family) == Settled(TableOf(s, family), OwnerPc(s), family)
  {
    OwnerMoves(s, step);
  }

  lemma InvPreserved(s: State, step: Step, family: Family)
    requires MutexInv(s) && FamilyInv(s, family) && Enabled(s, step)
    ensures FamilyInv(Apply(s, step), family)
  {
    if step.First? {
      FirstSettles(s, step, family);
      var op := s.pcs[step.thread].op;
      SectionAgrees(TableOf(s, family), s.log, op, family);
    } else {
      OtherStepsSettle(s, step, family);
    }
  }

  lemma InvInitially(s: State, family: Family)
    requires Initial(s)
    ensures MutexInv(s) && FamilyInv(s, family)
  {
    NoAlarmsAgree(TableOf(s, family), s.log, family);
  }

  lemma {:induction false} InvOverRuns(s: State, steps: seq<Step>, family: Family)
    requires MutexInv(s) && FamilyInv(s, family) && Runs(s, steps)
    ensures MutexInv(After(s, steps)) && FamilyInv(After(s, steps), family)
    decreases |steps|
  {
    if steps != [] {
      MutexPreserved(s, steps[0]);
      InvPreserved(s, steps[0], family);
      InvOverRuns(Apply(s, steps[0]), steps[1..], family);
    }
  }

  /** Over every interleaving, whenever the semaphore is free: exactly the alarms reported since
      their last release are active, each with the number of those reports, and raised minus
      released is the number of active alarms. */
  lemma AlarmsAreAccounted(s: State, steps: seq<Step>, family: Family)
    requires Initial(s) && Runs(s, steps) && After(s, steps).owner == None
    ensures Agrees(TableOf(After(s, steps), family), After(s, steps).log, family)
  {
    InvInitially(s, family);
    InvOverRuns(s, steps, family);
  }

  // ---------------------------------------------------------------------------
  // Which calls enter a section

  /** How many sections of the log were this one. */
  function Entered(log: seq<Op>, op: Op): nat {
    if log == [] then 0 else Entered(log[..|log| - 1], op) + if log[|log| - 1] == op then 1 else 0
  }

  lemma EnteredAppend(log: seq<Op>, last: Op, op: Op)
    ensures Entered(log + [last], op) == Entered(log, op) + if last == op then 1 else 0
  {
    assert (log + [last])[..|log|] == log;
  }

  /** The thread is on its way to this section. */
  predicate At(pc: Pc, op: Op) {
    pc == Waiting(op) || pc == Inside(op)
  }

  /** Threads that are to run this section. */
  function Pending(pcs: seq<Pc>, op: Op): nat {
    if pcs == [] then 0 else (if At(pcs[0], op) then 1 else 0) + Pending(pcs[1..], op)
  }

  lemma {:induction false} PendingUpdate(pcs: seq<Pc>, t: nat, pc: Pc, op: Op)
    requires t < |pcs|
    ensures Pending(pcs[t := pc], op) == Pending(pcs, op)
            - (if At(pcs[t], op) then 1 else 0)
            + (if At(pc, op) then 1 else 0)
  {
    if t == 0 {
      assert pcs[t := pc][1..] == pcs[1..];
    } else {
      assert pcs[t := pc][1..] == pcs[1..][t - 1 := pc];
      PendingUpdate(pcs[1..], t - 1, pc, op);
    }
  }

  lemma {:induction false} NothingPending(pcs: seq<Pc>, op: Op)
    requires forall t | 0 <= t < |pcs| :: pcs[t].Idle?
    ensures Pending(pcs, op) == 0
  {
    if pcs != [] {
      NothingPending(pcs[1..], op);
    }
  }

  /** A call that is not turned away: a bad input only if it is the request's first, the database
      calls only if they change the flag, all others always. */
  predicate GoesIn(s: State, step: Step, op: Op) {
    && step.Call? && step.op == op && step.thread < |s.badInputSeen|
    && match op
       case Raise(family, _) => family == BadInputs ==> !s.badInputSeen[step.thread]
       case Release(_, _) => true
       case DbError => s.db.ok
       case DbReset => !s.db.ok
  }

  ghost function CallsIn(s: State, steps: seq<Step>, op: Op): nat
    requires Runs(s, steps)
    decreases |steps|
  {
    if steps == [] then 0 else (if GoesIn(s, steps[0], op) then 1 else 0) + CallsIn(Apply(s, steps[0]), steps[1..], op)
  }

  /** Only the acting thread moves, and only the first statement of a section is logged. */
  lemma StepMoves(s: State, step: Step)
    requires Enabled(s, step)
    ensures var s', t := Apply(s, step), step.thread;
            && t < |s'.pcs| && s'.pcs == s.pcs[t := s'.pcs[t]]
            && s'.log == if step.First? then s.log + [s.pcs[t].op] else s.log
  {
  }

  lemma StepComesAndGoes(s: State, step: Step, op: Op)
    requires Enabled(s, step) && step.thread < |Apply(s, step).pcs|
    ensures var (pc, pc') := (s.pcs[step.thread], Apply(s, step).pcs[step.thread]);
            (if At(pc', op) then 1 else 0) + (if step.First? && pc == Inside(op) then 1 else 0) ==
            (if At(pc, op) then 1 else 0) + (if GoesIn(s, step, op) then 1 else 0)
  {
  }

  lemma StepEnters(s: State, step: Step, op: Op)
    requires Enabled(s, step)
    ensures var s' := Apply(s, step);
            Entered(s'.log, op) + Pending(s'.pcs, op) ==
            Entered(s.log, op) + Pending(s.pcs, op) + if GoesIn(s, step, op) then 1 else 0
  {
    StepMoves(s, step);
    StepComesAndGoes(s, step, op);
    var s', t := Apply(s, step), step.thread;
    PendingUpdate(s.pcs, t, s'.pcs[t], op);
    if step.First? {
      EnteredAppend(s.log, s.pcs[t].op, op);
    }
  }

  lemma {:induction false} RunEnters(s: State, steps: seq<Step>, op: Op)
    requires Runs(s, steps)
    ensures Entered(After(s, steps).log, op) + Pending(After(s, steps).pcs, op) ==
            Entered(s.log, op) + Pending(s.pcs, op) + CallsIn(s, steps, op)
    decreases |steps|
  {
    if steps != [] {
      StepEnters(s, steps[0], op);
      RunEnters(Apply(s, steps[0]), steps[1..], op);
    }
  }

  /** Over every run: each call that is not turned away enters its section exactly once, or is still
      on its way. */
  lemma EveryCallEnters(s: State, steps: seq<Step>, op: Op)
    requires Initial(s) && Runs(s, steps)
    ensures Entered(After(s, steps).log, op) + Pending(After(s, steps).pcs, op) == CallsIn(s, steps, op)
  {
    NothingPending(s.pcs, op);
    RunEnters(s, steps, op);
  }

  /** Whether the thread has reported a bad input since its last new request. */
  function Reported(seen: bool, steps: seq<Step>, t: nat): bool
    decreases |steps|
  {
    if steps == [] then seen else
    Reported(if steps[0] == NewRequest(t) then false
             else if steps[0].Call? && steps[0].thread == t && IsBadInput(steps[0].op) then true else seen,
             steps[1..], t)
  }

  lemma {:induction false} SeenMeansReported(s: State, steps: seq<Step>, t: nat)
    requires Runs(s, steps) && t < |s.badInputSeen|
    ensures t < |After(s, steps).badInputSeen| && After(s, steps).badInputSeen[t] == Reported(s.badInputSeen[t], steps, t)
    decreases |steps|
  {
    if steps != [] {
      SeenMeansReported(Apply(s, steps[0]), steps[1..], t);
    }
  }

  // ---------------------------------------------------------------------------
  // The database alarm

  /** Whether the last section about the database raised its alarm. */
  predicate DbActive(log: seq<Op>) {
    log != [] &&
    var last, before := log[|log| - 1], log[..|log| - 1];
    last.DbError? || (!last.DbReset? && DbActive(before))
  }

  /** Sections that raised an active database alarm, minus those that released an inactive one. */
  function Repeats(log: seq<Op>): int {
    if log == [] then 0 else
    var last, before := log[|log| - 1], log[..|log| - 1];
    Repeats(before) +
    if last.DbError? && DbActive(before) then 1 else if last.DbReset? && !DbActive(before) then -1 else 0
  }

  lemma DbAppend(log: seq<Op>, op: Op)
    ensures DbActive(log + [op]) == (op.DbError? || (!op.DbReset? && DbActive(log)))
    ensures Repeats(log + [op]) ==
            Repeats(log) + if op.DbError? && DbActive(log) then 1 else if op.DbReset? && !DbActive(log) then -1 else 0
  {
    assert (log + [op])[..|log|] == log;
  }

  /** The database alarm once the section in progress has made its second update. */
  function SettledDb(db: Db, pc: Pc): Db {
    if pc == Halfway(DbError) then db.(ok := false) else if pc == Halfway(DbReset) then db.(ok := true) else db
  }

  ghost predicate DbAgrees(db: Db, log: seq<Op>) {
    && db.ok == !DbActive(log) && db.errors - db.resets == (if db.ok then 0 else 1) + Repeats(log)
    && db.errors == Entered(log, DbError) && db.resets == Entered(log, DbReset)
  }

  function DbSection(db: Db, op: Op): Db {
    match op
    case DbError => Db(false, db.errors + 1, db.resets)
    case DbReset => Db(true, db.errors, db.resets + 1)
    case _ => db
  }

  lemma DbSectionAgrees(db: Db, log: seq<Op>, op: Op)
    requires DbAgrees(db, log)
    ensures DbAgrees(DbSection(db, op), log + [op])
  {
    DbAppend(log, op);
    EnteredAppend(log, op, DbError);
    EnteredAppend(log, op, DbReset);
  }

  ghost predicate DbInv(s: State) {
    DbAgrees(SettledDb(s.db, OwnerPc(s)), s.log)
  }

  lemma DbSettles(s: State, step: Step)
    requires MutexInv(s) && Enabled(s, step)
    ensures var s' := Apply(s, step);
            && SettledDb(s'.db, OwnerPc(s')) ==
               (if step.First? then DbSection(s.db, s.pcs[step.thread].op) else SettledDb(s.db, OwnerPc(s)))
            && s'.log == (if step.First? then s.log + [s.pcs[step.thread].op] else s.log)
            && (step.First? ==> SettledDb(s.db, OwnerPc(s)) == s.db)
  {
    OwnerMoves(s, step);
  }

  lemma DbPreserved(s: State, step: Step)
    requires MutexInv(s) && DbInv(s) && Enabled(s, step)
    ensures DbInv(Apply(s, step))
  {
    DbSettles(s, step);
    if step.First? {
      DbSectionAgrees(s.db, s.log, s.pcs[step.thread].op);
    }
  }

  lemma {:induction false} DbOverRuns(s: State, steps: seq<Step>)
    requires MutexInv(s) && DbInv(s) && Runs(s, steps)
    ensures MutexInv(After(s, steps)) && DbInv(After(s, steps))
    decreases |steps|
  {
    if steps != [] {
      MutexPreserved(s, steps[0]);
      DbPreserved(s, steps[0]);
      DbOverRuns(Apply(s, steps[0]), steps[1..]);
    }
  }

  /** Over every interleaving, whenever the semaphore is free: raised minus released is one for an
      active alarm and zero otherwise, plus the surplus of raises that found the alarm active over
      releases that found it inactive. It tells whether the alarm is active iff that surplus is 0. */
  lemma DbAccounting(s: State, steps: seq<Step>)
    requires Initial(s) && Runs(s, steps) && After(s, steps).owner == None
    ensures var end := After(s, steps); var balance := end.db.errors - end.db.resets;
            && end.db.ok == !DbActive(end.log)
            && balance == (if end.db.ok then 0 else 1) + Repeats(end.log)
            && (balance == (if end.db.ok then 0 else 1) <==> Repeats(end.log) == 0)
  {
    DbOverRuns(s, steps);
  }

  /** After the logged sections, raised minus released tells whether the alarm is active. */
  predicate Right(log: seq<Op>) {
    Entered(log, DbError) - Entered(log, DbReset) == if DbActive(log) then 1 else 0
  }

  /** Section `n` was entered although the test made before the semaphore no longer held. */
  predicate Stale(log: seq<Op>, n: nat) {
    n < |log| && ((log[n].DbError? && DbActive(log[..n])) || (log[n].DbReset? && !DbActive(log[..n])))
  }

  lemma RightAppend(log: seq<Op>, op: Op)
    requires Right(log)
    ensures Right(log + [op]) <==> !((op.DbError? && DbActive(log)) || (op.DbReset? && !DbActive(log)))
  {
    DbAppend(log, op);
    EnteredAppend(log, op, DbError);
    EnteredAppend(log, op, DbReset);
  }

  ghost predicate AlwaysRight(log: seq<Op>) {
    forall n | 0 <= n <= |log| :: Right(log[..n])
  }

  ghost predicate NeverStale(log: seq<Op>) {
    forall n | 0 <= n < |log| :: !Stale(log, n)
  }

  lemma AlwaysRightAppend(log: seq<Op>, op: Op)
    ensures AlwaysRight(log + [op]) <==> AlwaysRight(log) && Right(log + [op])
    ensures AlwaysRight(log) ==> Right(log)
  {
    var all := log + [op];
    assert all[..|all|] == all && log[..|log|] == log;
    assert forall n | 0 <= n <= |log| :: all[..n] == log[..n];
  }

  lemma NeverStaleAppend(log: seq<Op>, op: Op)
    ensures NeverStale(log + [op]) <==>
            NeverStale(log) && !((op.DbError? && DbActive(log)) || (op.DbReset? && !DbActive(log)))
  {
    var all := log + [op];
    assert forall n | 0 <= n <= |log| :: all[..n] == log[..n];
    assert log[..|log|] == log && all[|log|] == op;
    assert forall n | 0 <= n < |log| :: Stale(all, n) <==> Stale(log, n);
    assert Stale(all, |log|) <==> (op.DbError? && DbActive(log)) || (op.DbReset? && !DbActive(log));
  }

  lemma {:induction false} RightIffNeverStale(log: seq<Op>)
    ensures AlwaysRight(log) <==> NeverStale(log)
  {
    if log != [] {
      var before, op := log[..|log| - 1], log[|log| - 1];
      assert before + [op] == log;
      RightIffNeverStale(before);
      AlwaysRightAppend(before, op);
      NeverStaleAppend(before, op);
      if Right(before) {
        RightAppend(before, op);
      }
    }
  }

  /** Over every interleaving: after each of its sections the balance was right, if and only if no
      section about the database was entered with a stale test. (The counters are those of the log.) */
  lemma DbAlwaysRightIff(s: State, steps: seq<Step>)
    requires Initial(s) && Runs(s, steps) && After(s, steps).owner == None
    ensures var end := After(s, steps);
            && end.db == Db(!DbActive(end.log), Entered(end.log, DbError), Entered(end.log, DbReset))
            && (AlwaysRight(end.log) <==> NeverStale(end.log))
  {
    DbOverRuns(s, steps);
    RightIffNeverStale(After(s, steps).log);
  }

  /** No thread but `t` is in a call. */
  ghost predicate Alone(s: State, t: nat) {
    forall u | 0 <= u < |s.pcs| && u != t :: s.pcs[u].Idle?
  }

  ghost predicate OneAtATime(s: State, steps: seq<Step>)
    requires Runs(s, steps)
    decreases |steps|
  {
    steps == [] || (Alone(s, steps[0].thread) && OneAtATime(Apply(s, steps[0]), steps[1..]))
  }

  /** The test made before the semaphore still holds. */
  ghost predicate TestStillHolds(s: State) {
    forall t | 0 <= t < |s.pcs| ::
      && (s.pcs[t] in {Waiting(DbError), Inside(DbError)} ==> s.db.ok)
      && (s.pcs[t] in {Waiting(DbReset), Inside(DbReset)} ==> !s.db.ok)
  }

  lemma TestPreserved(s: State, step: Step)
    requires MutexInv(s) && TestStillHolds(s) && Enabled(s, step) && Alone(s, step.thread)
    ensures TestStillHolds(Apply(s, step))
  {
    var t, s' := step.thread, Apply(s, step);
    forall u | 0 <= u < |s'.pcs| && u != t
      ensures s'.pcs[u].Idle?
    {
      assert s.pcs[u].Idle? && s'.pcs[u] == s.pcs[u];
    }
  }

  lemma NoRepeatAlone(s: State, step: Step)
    requires MutexInv(s) && DbInv(s) && TestStillHolds(s) && Repeats(s.log) == 0 && Enabled(s, step)
    ensures Repeats(Apply(s, step).log) == 0
  {
    DbSettles(s, step);
    if step.First? {
      DbAppend(s.log, s.pcs[step.thread].op);
    }
  }

  lemma {:induction false} AloneOverRuns(s: State, steps: seq<Step>)
    requires MutexInv(s) && DbInv(s) && TestStillHolds(s) && Repeats(s.log) == 0 && Runs(s, steps) && OneAtATime(s, steps)
    ensures Repeats(After(s, steps).log) == 0
    decreases |steps|
  {
    if steps != [] {
      MutexPreserved(s, steps[0]);
      DbPreserved(s, steps[0]);
      TestPreserved(s, steps[0]);
      NoRepeatAlone(s, steps[0]);
      AloneOverRuns(Apply(s, steps[0]), steps[1..]);
    }
  }

  /** When calls run one at a time, the database alarm is active exactly if it was raised once
      more than released. */
  lemma DbAlarmOneAtATime(s: State, steps: seq<Step>)
    requires Initial(s) && Runs(s, steps) && OneAtATime(s, steps) && After(s, steps).owner == None
    ensures After(s, steps).db.errors - After(s, steps).db.resets == if After(s, steps).db.ok then 0 else 1
  {
    AloneOverRuns(s, steps);
    DbAccounting(s, steps);
  }

  // ---------------------------------------------------------------------------
  // The race

  lemma RunsAppend(s: State, steps: seq<Step>, step: Step)
    requires Runs(s, steps) && Enabled(After(s, steps), step)
    ensures Runs(s, steps + [step]) && After(s, steps + [step]) == Apply(After(s, steps), step)
    decreases |steps|
  {
    if steps == [] {
      assert [step][1..] == [];
      assert steps + [step] == [step];
    } else {
      assert (steps + [step])[1..] == steps[1..] + [step];
      RunsAppend(Apply(s, steps[0]), steps[1..], step);
    }
  }

  /** A thread that waits to raise the database alarm gets through its section. */
  lemma RaiseSection(s: State, steps: seq<Step>, t: nat) returns (more: seq<Step>)
    requires Runs(s, steps)
    requires var mid := After(s, steps); t < |mid.pcs| == |mid.badInputSeen| && mid.owner == None && mid.pcs[t] == Waiting(DbError)
    ensures Runs(s, more)
    ensures var mid, end := After(s, steps), After(s, more);
            end == mid.(pcs := mid.pcs[t := Idle], db := Db(false, mid.db.errors + 1, mid.db.resets), log := mid.log + [DbError])
  {
    var mid := After(s, steps);
    RunsAppend(s, steps, Take(t));
    more := steps + [Take(t)];
    RunsAppend(s, more, First(t));
    more := more + [First(t)];
    RunsAppend(s, more, Second(t));
    more := more + [Second(t)];
    RunsAppend(s, more, Give(t));
    more := more + [Give(t)];
    assert After(s, more).pcs == mid.pcs[t := Idle];
  }

  /** Two threads that both pass the test before the semaphore raise the alarm twice. */
  lemma DbAlarmRace(s: State) returns (steps: seq<Step>)
    requires Initial(s) && |s.pcs| >= 2
    ensures Runs(s, steps) && After(s, steps).owner == None
    ensures After(s, steps).db.errors == 2 && After(s, steps).db.resets == 0 && !After(s, steps).db.ok
  {
    RunsAppend(s, [], Call(0, DbError));
    RunsAppend(s, [] + [Call(0, DbError)], Call(1, DbError));
    steps := RaiseSection(s, [] + [Call(0, DbError)] + [Call(1, DbError)], 0);
    steps := RaiseSection(s, steps, 1);
  }

  // ---------------------------------------------------------------------------
  // One call at a time: the manager itself

  ghost predicate AllAgree(notifications: Table, badInputs: Table, db: Db, log: seq<Op>) {
    && Agrees(notifications, log, Notifications) && Agrees(badInputs, log, BadInputs)
    && DbAgrees(db, log) && Repeats(log) == 0
  }

  lemma NothingAgrees(notifications: Table, badInputs: Table, db: Db, log: seq<Op>)
    requires notifications.active == badInputs.active == map[] && log == [] && db == Db(true, 0, 0)
    requires notifications.raised == notifications.released && badInputs.raised == badInputs.released
    ensures AllAgree(notifications, badInputs, db, log)
  {
    NoAlarmsAgree(notifications, log, Notifications);
    NoAlarmsAgree(badInputs, log, BadInputs);
  }

  lemma AllSection(notifications: Table, badInputs: Table, db: Db, log: seq<Op>, op: Op)
    requires AllAgree(notifications, badInputs, db, log) && (op.DbError? ==> db.ok) && (op.DbReset? ==> !db.ok)
    ensures AllAgree(if Concerns(op, Notifications) then Section(notifications, op) else notifications,
                     if Concerns(op, BadInputs) then Section(badInputs, op) else badInputs,
                     DbSection(db, op), log + [op])
    ensures op.Raise? || op.Release? ==>
              (Reports(log, op.family, op.key) > 0 <==>
               op.key in (if op.family.Notifications? then notifications.active else badInputs.active))
  {
    SectionAgrees(notifications, log, op, Notifications);
    SectionAgrees(badInputs, log, op, BadInputs);
    DbSectionAgrees(db, log, op);
    DbAppend(log, op);
    if op.Raise? || op.Release? {
      ActiveIffReported(if op.family.Notifications? then notifications else badInputs, log, op.family, op.key);
    }
  }

  /** The alarm manager's fields; `entered` lists the sections run so far. */
  class Manager {
    var notifications: Table
    var badInputs: Table
    var badInputSeen: bool
    var db: Db
    ghost var entered: seq<Op>

    ghost predicate Valid()
      reads this
    {
      AllAgree(notifications, badInputs, db, entered)
    }

    constructor ()
      ensures Valid() && entered == [] && !badInputSeen
    {
      notifications, badInputs, badInputSeen, db := NO_ALARMS, NO_ALARMS, false, Db(true, 0, 0);
      entered := [];
      new;
      NothingAgrees(notifications, badInputs, db, entered);
    }

    method NotificationError(url: Key) returns (transition: bool)
      requires Valid()
      modifies this`notifications, this`entered
      ensures Valid()
      ensures entered == old(entered) + [Raise(Notifications, url)]
      ensures transition <==> Reports(old(entered), Notifications, url) == 0
    {
      ghost var op := Raise(Notifications, url);
      AllSection(notifications, badInputs, db, entered, op);
      transition := url !in notifications.active;
      if transition {
        notifications := notifications.(raised := notifications.raised + 1);
        notifications := notifications.(active := notifications.active[url := 1]);
      } else {
        notifications := notifications.(active := notifications.active[url := notifications.active[url] + 1]);
      }
      entered := entered + [op];
    }

    method NotificationErrorReset(url: Key) returns (transition: bool)
      requires Valid()
      modifies this`notifications, this`entered
      ensures Valid() && entered == old(entered) + [Release(Notifications, url)]
      ensures transition <==> Reports(old(entered), Notifications, url) > 0
    {
      ghost var op := Release(Notifications, url);
      AllSection(notifications, badInputs, db, entered, op);
      transition := url in notifications.active;
      if transition {
        notifications := notifications.(active := notifications.active - {url});
        notifications := notifications.(released := notifications.released + 1);
      } else {
        assert notifications.active - {url} == notifications.active;
      }
      entered := entered + [op];
    }

    method BadInput(ip: Key) returns (transition: bool)
      requires Valid()
      modifies this`badInputs, this`badInputSeen, this`entered
      ensures Valid() && badInputSeen
      ensures entered == old(entered) + if old(badInputSeen) then [] else [Raise(BadInputs, ip)]
      ensures transition <==> !old(badInputSeen) && Reports(old(entered), BadInputs, ip) == 0
    {
      if badInputSeen {
        return false;
      }
      badInputSeen := true;
      ghost var op := Raise(BadInputs, ip);
      AllSection(notifications, badInputs, db, entered, op);
      transition := ip !in badInputs.active;
      if transition {
        badInputs := badInputs.(raised := badInputs.raised + 1);
        badInputs := badInputs.(active := badInputs.active[ip := 1]);
      } else {
        badInputs := badInputs.(active := badInputs.active[ip := badInputs.active[ip] + 1]);
      }
      entered := entered + [op];
    }

    method BadInputReset(ip: Key) returns (transition: bool)
      requires Valid()
      modifies this`badInputs, this`entered
      ensures Valid() && entered == old(entered) + [Release(BadInputs, ip)]
      ensures transition <==> Reports(old(entered), BadInputs, ip) > 0
    {
      ghost var op := Release(BadInputs, ip);
      AllSection(notifications, badInputs, db, entered, op);
      transition := ip in badInputs.active;
      if transition {
        badInputs := badInputs.(active := badInputs.active - {ip});
        badInputs := badInputs.(released := badInputs.released + 1);
      } else {
        assert badInputs.active - {ip} == badInputs.active;
      }
      entered := entered + [op];
    }

    method RaiseDbError() returns (transition: bool)
      requires Valid()
      modifies this`db, this`entered
      ensures Valid() && !db.ok
      ensures entered == old(entered) + if transition then [DbError] else []
      ensures transition <==> !DbActive(old(entered))
    {
      if !db.ok {
        return false;
      }
      AllSection(notifications, badInputs, db, entered, DbError);
      db := db.(errors := db.errors + 1);
      db := db.(ok := false);
      entered := entered + [DbError];
      return true;
    }

    method ReleaseDbError() returns (transition: bool)
      requires Valid()
      modifies this`db, this`entered
      ensures Valid() && db.ok
      ensures entered == old(entered) + if transition then [DbReset] else []
      ensures transition <==> DbActive(old(entered))
    {
      if db.ok {
        return false;
      }
      AllSection(notifications, badInputs, db, entered, DbReset);
      db := db.(resets := db.resets + 1);
      db := db.(ok := true);
      entered := entered + [DbReset];
      return true;
    }
  }
}
