/** The table-driven JSON v1 parser. A property tree is walked top down; each node's path is
    looked up in a table of handlers, and handlers write through cursors ("current attribute",
    "current metadata", ...) into objects that are already linked into the request.

    Objects live in a store and cursors are positions in it: an unset cursor is a NULL pointer
    and using one is a crash. */
module JsonWalk {
  import opened Wrappers
  import opened PropertyTree
  import opened CompoundValue

  /** What a handler does. `kind` names the cursor it uses. */
  datatype Action =
    | Skip                                             // jsonNullTreat
    | New(kind: string, parent: string)                // allocate, set the cursor, push onto the parent's vector
    | Set(kind: string, field: string, boolOnly: bool) // write the value (boolOnly: unless it is no boolean)
    | SetValue(kind: string)                           // an attribute's value: also set lastContextAttribute

  /** A row of the parse vector. */
  datatype Row = Row(path: string, action: Action)

  const ROOT := ""

  /** An allocated object: its string fields, its vectors of pointers and its compound value. */
  datatype Cell = Cell(fields: map<string, string>, vectors: map<string, seq<nat>>, compound: Option<Compound>)

  const EMPTY_CELL := Cell(map[], map[], None)

  /** `last` is lastContextAttribute. */
  datatype State = State(store: seq<Cell>, cursors: map<string, nat>, last: Option<nat>)

  /** The request object exists from the start; all other cursors are NULL. */
  const START := State([EMPTY_CELL], map[ROOT := 0], None)

  datatype Cursor = Kind(name: string) | Last

  datatype Outcome<+T> =
    | Done(value: T)
    | Rejected                // an error text was returned: unknown path, forbidden characters, bad compound
    | Threw                   // std::logic_error: an object where a one-element array is expected
    | Crashed(cursor: Cursor) // this cursor was used while NULL

  // ---------------------------------------------------------------------------
  // Path and value tests

  function LastSegment(path: string): string {
    if path == "" || path[|path| - 1] == '/' then "" else
    LastSegment(path[..|path| - 1]) + [path[|path| - 1]]
  }

  /** Drop the last letter; then "ie" at the end becomes "y". */
  function Singular(name: string): string {
    var cut := if name == "" then "" else name[..|name| - 1];
    if |cut| > 2 && cut[|cut| - 2..] == "ie" then cut[..|cut| - 2] + "y" else cut
  }

  lemma SingularOfPlural(name: string)
    requires name != "" && !(|name| > 2 && name[|name| - 2] == 'i' && name[|name| - 1] == 'e')
    ensures Singular(name + "s") == name
  {
    assert (name + "s")[..|name|] == name;
    assert |name| > 2 ==> name[|name| - 2..] == [name[|name| - 2], name[|name| - 1]];
  }

  lemma SingularOfIes(stem: string)
    requires stem != ""
    ensures Singular(stem + "ies") == stem + "y"
  {
    var cut := stem + "ie";
    assert (stem + "ies")[..|cut|] == cut && cut[|cut| - 2..] == "ie" && cut[..|cut| - 2] == stem;
  }

  function ArrayElementName(path: string): string {
    Singular(LastSegment(path))
  }

  predicate IsScopeValue(path: string) {
    var end := "/scopes/scope/value";
    |end| <= |path| && path[|path| - |end|..] == end
  }

  const COMPOUND_ROOTS: seq<string> := [
    "/" + "contextElements" + "/" + "contextElement" + "/" + "attributes" + "/" + "attribute" + "/" + "value",
    "/" + "attributes" + "/" + "attribute" + "/" + "value",
    "/" + "contextResponses" + "/" + "contextResponse" + "/" + "contextElement"
    + "/" + "attributes" + "/" + "attribute" + "/" + "value",
    "/" + "value"]

  predicate IsCompoundPath(path: string) {
    exists r | r in COMPOUND_ROOTS :: r <= path
  }

  predicate GoesToEatCompound(path: string, e: Entry) {
    IsCompoundPath(path) && e.data == "" && e.children != []
  }

  predicate IsBoolText(s: string) {
    s == "true" || s == "1" || s == "false" || s == "0"
  }

  // ---------------------------------------------------------------------------
  // The walk

  function Lookup(rows: seq<Row>, path: string): Option<Action> {
    if rows == [] then None
    else if rows[0].path == path then Some(rows[0].action)
    else Lookup(rows[1..], path)
  }

  function Vector(c: Cell, kind: string): seq<nat> {
    if kind in c.vectors then c.vectors[kind] else []
  }

  const VALUE := "value"

  function WithField(c: Cell, field: string, value: string): Cell {
    c.(fields := c.fields[field := value])
  }

  function Handle(st: State, action: Action, value: string): Outcome<State> {
    match action
    case Skip => Done(st)
    case New(kind, parent) =>
      if parent !in st.cursors || st.cursors[parent] >= |st.store| then Crashed(Kind(parent)) else
      var p, at := st.cursors[parent], |st.store|;
      var cell := st.store[p];
      Done(st.(store := st.store[p := cell.(vectors := cell.vectors[kind := Vector(cell, kind) + [at]])] + [EMPTY_CELL],
               cursors := st.cursors[kind := at]))
    case Set(kind, field, boolOnly) =>
      if kind !in st.cursors || st.cursors[kind] >= |st.store| then Crashed(Kind(kind)) else
      if boolOnly && !IsBoolText(value) then Done(st) else
      var r := st.cursors[kind];
      Done(st.(store := st.store[r := WithField(st.store[r], field, value)]))
    case SetValue(kind) =>
      if kind !in st.cursors || st.cursors[kind] >= |st.store| then Crashed(Kind(kind)) else
      var r := st.cursors[kind];
      Done(st.(store := st.store[r := WithField(st.store[r], VALUE, value)], last := Some(r)))
  }

  /** `treat`: None if the path is unknown or the value is refused. */
  function Treat(rows: seq<Row>, st: State, path: string, value: string): Option<Outcome<State>> {
    if !IsScopeValue(path) && ForbiddenChars(value) then None else
    match Lookup(rows, path)
    case None => None
    case Some(action) => Some(Handle(st, action, value))
  }

  /** `eatCompound` and `compoundValueEnd`: the compound goes to the last attribute whose value
      was set, whatever the path; the verdict on the compound comes after that. */
  function EndCompound(st: State, e: Entry): Outcome<State> {
    if st.last.None? || st.last.value >= |st.store| then Crashed(Last)
    else if !Accepts(e) then Rejected
    else
      var r := st.last.value;
      Done(st.(store := st.store[r := st.store[r].(compound := Some(EatRoot(e).0))]))
  }

  /** The recursive `jsonParse`. */
  function Walk(rows: seq<Row>, st: State, e: Entry, path: string): Outcome<State>
    decreases e, 3
  {
    var element := ArrayElementName(path);
    if e.key != "" && e.key == element then Threw
    else WalkAt(rows, st, e, path + "/" + (if e.key != "" then e.key else element))
  }

  function WalkAt(rows: seq<Row>, st: State, e: Entry, path: string): Outcome<State>
    decreases e, 2
  {
    match Treat(rows, st, path, e.data)
    case None => if GoesToEatCompound(path, e) then EndCompound(st, e) else Rejected
    case Some(treated) => if treated.Done? then WalkBelow(rows, treated.value, e, path) else treated
  }

  /** Once the node itself is treated. */
  function WalkBelow(rows: seq<Row>, st: State, e: Entry, path: string): Outcome<State>
    decreases e, 1
  {
    if GoesToEatCompound(path, e) then EndCompound(st, e) else WalkAll(rows, st, e.children, path)
  }

  function WalkAll(rows: seq<Row>, st: State, es: seq<Entry>, path: string): Outcome<State>
    decreases es, 0
  {
    if es == [] then Done(st) else
    match Walk(rows, st, es[0], path)
    case Done(st') => WalkAll(rows, st', es[1..], path)
    case other => other
  }

  /** The top-level `jsonParse`, on the tree that read_json produced. */
  function Parse(rows: seq<Row>, es: seq<Entry>): Outcome<State> {
    WalkAll(rows, START, es, "")
  }
}
