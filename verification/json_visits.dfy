/** When does the parser use a NULL cursor? The visits of a walk depend on the property tree
    alone; what each visit uses and sets depends on the table alone. */
module JsonVisits {
  import opened Wrappers
  import opened PropertyTree
  import opened CompoundValue
  import opened JsonWalk

  /** A node with its composed path, or a named member where an array element belongs. */
  datatype Visit = Visit(path: string, entry: Entry) | Misnamed

  /** The visits below a node at `path`, in document order. Nothing below a compound is visited. */
  function Visits(e: Entry, path: string): seq<Visit>
    decreases e, 1
  {
    var element := ArrayElementName(path);
    if e.key != "" && e.key == element then [Misnamed] else
    var path' := path + "/" + (if e.key != "" then e.key else element);
    [Visit(path', e)] + if GoesToEatCompound(path', e) then [] else VisitsAll(e.children, path')
  }

  function VisitsAll(es: seq<Entry>, path: string): seq<Visit>
    decreases es, 0
  {
    if es == [] then [] else Visits(es[0], path) + VisitsAll(es[1..], path)
  }

  // ---------------------------------------------------------------------------
  // The walk, visit by visit

  predicate IsCompound(v: Visit) {
    v.Visit? && GoesToEatCompound(v.path, v.entry)
  }

  /** The handler that a visit calls. */
  function ActionAt(rows: seq<Row>, v: Visit): Option<Action> {
    if v.Misnamed? || (!IsScopeValue(v.path) && ForbiddenChars(v.entry.data)) then None else Lookup(rows, v.path)
  }

  function Step(rows: seq<Row>, st: State, v: Visit): Outcome<State> {
    if v.Misnamed? then Threw else
    match ActionAt(rows, v)
    case None => if IsCompound(v) then EndCompound(st, v.entry) else Rejected
    case Some(action) =>
      var treated := Handle(st, action, v.entry.data);
      if treated.Done? && IsCompound(v) then EndCompound(treated.value, v.entry) else treated
  }

  function Run(rows: seq<Row>, st: State, vs: seq<Visit>): Outcome<State>
    decreases |vs|
  {
    if vs == [] then Done(st) else
    var first := Step(rows, st, vs[0]);
    if first.Done? then Run(rows, first.value, vs[1..]) else first
  }

  /** Go on with further visits, unless the run has ended. */
  function Resume(rows: seq<Row>, r: Outcome<State>, vs: seq<Visit>): Outcome<State> {
    if r.Done? then Run(rows, r.value, vs) else r
  }

  lemma {:induction false} RunConcat(rows: seq<Row>, st: State, xs: seq<Visit>, ys: seq<Visit>)
    ensures Run(rows, st, xs + ys) == Resume(rows, Run(rows, st, xs), ys)
    decreases |xs|
  {
    if xs == [] {
      assert xs + ys == ys;
    } else {
      assert (xs + ys)[1..] == xs[1..] + ys;
      var first := Step(rows, st, xs[0]);
      if first.Done? {
        RunConcat(rows, first.value, xs[1..], ys);
      }
    }
  }

  lemma RunCons(rows: seq<Row>, st: State, v: Visit, vs: seq<Visit>)
    ensures Run(rows, st, [v] + vs) == Resume(rows, Step(rows, st, v), vs)
  {
    assert ([v] + vs)[1..] == vs;
  }

  lemma WalkAtIsStep(rows: seq<Row>, st: State, e: Entry, path: string)
    ensures var step := Step(rows, st, Visit(path, e));
            WalkAt(rows, st, e, path) ==
            if step.Done? && !GoesToEatCompound(path, e) then WalkAll(rows, step.value, e.children, path) else step
  {
  }

  lemma {:induction false} WalkIsRun(rows: seq<Row>, st: State, e: Entry, path: string)
    ensures Walk(rows, st, e, path) == Run(rows, st, Visits(e, path))
    decreases e, 1
  {
    var element := ArrayElementName(path);
    if e.key != "" && e.key == element {
      RunCons(rows, st, Misnamed, []);
      assert [Misnamed] + [] == [Misnamed];
    } else {
      var path' := path + "/" + (if e.key != "" then e.key else element);
      var v := Visit(path', e);
      var below := if GoesToEatCompound(path', e) then [] else VisitsAll(e.children, path');
      WalkAtIsStep(rows, st, e, path');
      RunCons(rows, st, v, below);
      var step := Step(rows, st, v);
      if step.Done? {
        WalkAllIsRun(rows, step.value, e.children, path');
      }
      assert Visits(e, path) == [v] + below;
    }
  }

  lemma {:induction false} WalkAllIsRun(rows: seq<Row>, st: State, es: seq<Entry>, path: string)
    ensures WalkAll(rows, st, es, path) == Run(rows, st, VisitsAll(es, path))
    decreases es, 0
  {
    if es != [] {
      WalkIsRun(rows, st, es[0], path);
      RunConcat(rows, st, Visits(es[0], path), VisitsAll(es[1..], path));
      var first := Walk(rows, st, es[0], path);
      if first.Done? {
        WalkAllIsRun(rows, first.value, es[1..], path);
      }
    }
  }

  // ---------------------------------------------------------------------------
  // What a visit needs, sets and ends, by the table alone

  function CursorUsed(action: Action): Option<string> {
    match action
    case Skip => None
    case New(_, parent) => Some(parent)
    case Set(kind, _, _) => Some(kind)
    case SetValue(kind) => Some(kind)
  }

  /** The visit ends the run with an error or an exception, if its cursors are set. */
  predicate Stops(rows: seq<Row>, v: Visit) {
    || v.Misnamed?
    || (if IsCompound(v) then !Accepts(v.entry) else ActionAt(rows, v).None?)
  }

  predicate Opens(rows: seq<Row>, v: Visit, c: Cursor) {
    var action := ActionAt(rows, v);
    action.Some? && match c
                    case Kind(name) => action.value.New? && action.value.kind == name
                    case Last => action.value.SetValue?
  }

  /** Some visit before number `i` sets the cursor, or it is the request's, set from the start. */
  ghost predicate OpenBefore(rows: seq<Row>, vs: seq<Visit>, i: nat, c: Cursor)
    requires i <= |vs|
  {
    c == Kind(ROOT) || exists j :: 0 <= j < i && Opens(rows, vs[j], c)
  }

  /** The visit calls a handler that uses the cursor, or is a compound that needs
      lastContextAttribute, which its own handler does not set. */
  predicate Needs(rows: seq<Row>, v: Visit, c: Cursor) {
    v.Visit? &&
    var action := ActionAt(rows, v);
    match c
    case Kind(name) => action.Some? && CursorUsed(action.value) == Some(name)
    case Last => IsCompound(v) && !(action.Some? && action.value.SetValue?)
  }

  ghost predicate Reached(rows: seq<Row>, vs: seq<Visit>, i: nat)
    requires i <= |vs|
  {
    forall j | 0 <= j < i :: !Stops(rows, vs[j])
  }

  /** Visit `i` is reached without a stop and needs a cursor that no visit before it has set. */
  ghost predicate Dangles(rows: seq<Row>, vs: seq<Visit>, i: nat, c: Cursor) {
    i < |vs| && Reached(rows, vs, i) && Needs(rows, vs[i], c) && !OpenBefore(rows, vs, i, c)
  }

  // ---------------------------------------------------------------------------
  // Exactly these visits crash

  ghost predicate InRange(st: State) {
    && (st.last.Some? ==> st.last.value < |st.store|)
    && forall k | k in st.cursors :: st.cursors[k] < |st.store|
  }

  predicate IsOpen(st: State, c: Cursor) {
    match c
    case Kind(name) => name in st.cursors
    case Last => st.last.Some?
  }

  lemma HandleOutcome(st: State, action: Action, value: string)
    requires InRange(st)
    ensures var (r, used) := (Handle(st, action, value), CursorUsed(action));
            if used.Some? && used.value !in st.cursors then r == Crashed(Kind(used.value))
            else
              && r.Done? && InRange(r.value)
              && r.value.cursors.Keys == st.cursors.Keys + (if action.New? then {action.kind} else {})
              && (r.value.last.Some? <==> st.last.Some? || action.SetValue?)
  {
  }

  lemma StepOutcome(rows: seq<Row>, st: State, v: Visit)
    requires InRange(st)
    ensures Step(rows, st, v).Crashed? ==>
              Needs(rows, v, Step(rows, st, v).cursor) && !IsOpen(st, Step(rows, st, v).cursor)
    ensures Step(rows, st, v).Done? ==>
              && InRange(Step(rows, st, v).value) && !Stops(rows, v)
              && forall c :: IsOpen(Step(rows, st, v).value, c) <==> IsOpen(st, c) || Opens(rows, v, c)
    ensures !Step(rows, st, v).Done? ==> Step(rows, st, v).Crashed? || Stops(rows, v)
  {
    var action := ActionAt(rows, v);
    if action.Some? {
      HandleOutcome(st, action.value, v.entry.data);
    }
  }

  lemma NeedsMeansCrash(rows: seq<Row>, st: State, v: Visit, c: Cursor)
    requires InRange(st) && Needs(rows, v, c) && !IsOpen(st, c)
    ensures Step(rows, st, v).Crashed?
  {
    var action := ActionAt(rows, v);
    if action.Some? {
      HandleOutcome(st, action.value, v.entry.data);
    }
  }

  /** The cursors open at visit `i` of a run from `st`. */
  ghost predicate OpenAt(rows: seq<Row>, st: State, vs: seq<Visit>, i: nat, c: Cursor)
    requires i <= |vs|
  {
    IsOpen(st, c) || exists j :: 0 <= j < i && Opens(rows, vs[j], c)
  }

  ghost predicate DanglesFrom(rows: seq<Row>, st: State, vs: seq<Visit>, i: nat, c: Cursor) {
    i < |vs| && Reached(rows, vs, i) && Needs(rows, vs[i], c) && !OpenAt(rows, st, vs, i, c)
  }

  lemma ShiftDangles(rows: seq<Row>, st: State, st': State, vs: seq<Visit>, i: nat, c: Cursor)
    requires 0 < i < |vs| && !Stops(rows, vs[0])
    requires forall k :: IsOpen(st', k) <==> IsOpen(st, k) || Opens(rows, vs[0], k)
    ensures DanglesFrom(rows, st, vs, i, c) <==> DanglesFrom(rows, st', vs[1..], i - 1, c)
  {
    var ws := vs[1..];
    assert forall j | 0 <= j < |ws| :: ws[j] == vs[j + 1];
    if j :| 0 <= j < i && Opens(rows, vs[j], c) && j > 0 {
      assert Opens(rows, ws[j - 1], c);
    }
    if j :| 0 <= j < i - 1 && Opens(rows, ws[j], c) {
      assert Opens(rows, vs[j + 1], c);
    }
    assert Reached(rows, vs, i) <==> Reached(rows, ws, i - 1) by {
      if Reached(rows, vs, i) {
        forall j | 0 <= j < i - 1 ensures !Stops(rows, ws[j]) { assert !Stops(rows, vs[j + 1]); }
      }
      if Reached(rows, ws, i - 1) {
        forall j | 0 <= j < i ensures !Stops(rows, vs[j]) { assert j > 0 ==> !Stops(rows, ws[j - 1]); }
      }
    }
  }

  lemma {:induction false} CrashMeansDangling(rows: seq<Row>, st: State, vs: seq<Visit>) returns (i: nat)
    requires InRange(st) && Run(rows, st, vs).Crashed?
    ensures DanglesFrom(rows, st, vs, i, Run(rows, st, vs).cursor)
    decreases |vs|
  {
    StepOutcome(rows, st, vs[0]);
    var first := Step(rows, st, vs[0]);
    if first.Done? {
      i := CrashMeansDangling(rows, first.value, vs[1..]);
      i := i + 1;
      ShiftDangles(rows, st, first.value, vs, i, Run(rows, st, vs).cursor);
    } else {
      i := 0;
    }
  }

  lemma {:induction false} DanglingMeansCrash(rows: seq<Row>, st: State, vs: seq<Visit>, i: nat, c: Cursor)
    requires InRange(st) && DanglesFrom(rows, st, vs, i, c)
    ensures Run(rows, st, vs).Crashed?
    decreases |vs|
  {
    StepOutcome(rows, st, vs[0]);
    var first := Step(rows, st, vs[0]);
    if i == 0 {
      NeedsMeansCrash(rows, st, vs[0], c);
    } else {
      assert !Stops(rows, vs[0]);
      if first.Done? {
        ShiftDangles(rows, st, first.value, vs, i, c);
        DanglingMeansCrash(rows, first.value, vs[1..], i - 1, c);
      }
    }
  }

  /** For every table and every tree, whatever its keys: the parser uses a NULL cursor if and only
      if some visit, reached without error or exception, needs a cursor that no earlier visit has
      set; and the cursor it crashes on is one of these. */
  lemma CrashIff(rows: seq<Row>, es: seq<Entry>)
    ensures Parse(rows, es).Crashed? <==> exists i: nat, c :: Dangles(rows, VisitsAll(es, ""), i, c)
    ensures Parse(rows, es).Crashed? ==>
              exists i: nat :: Dangles(rows, VisitsAll(es, ""), i, Parse(rows, es).cursor)
  {
    var vs := VisitsAll(es, "");
    WalkAllIsRun(rows, START, es, "");
    forall i: nat, c
      ensures Dangles(rows, vs, i, c) <==> DanglesFrom(rows, START, vs, i, c)
    {
      assert IsOpen(START, c) <==> c == Kind(ROOT);
    }
    if Parse(rows, es).Crashed? {
      var i := CrashMeansDangling(rows, START, vs);
      assert Dangles(rows, vs, i, Parse(rows, es).cursor);
    }
    if i: nat, c :| Dangles(rows, vs, i, c) {
      DanglingMeansCrash(rows, START, vs, i, c);
    }
  }
}
