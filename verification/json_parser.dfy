/** The parser on heap objects: handlers write through references, as the source does through
    pointers. Each method keeps `st`, the store-and-cursor state of the walk, in step with the
    objects. */
module JsonParser {
  import opened Wrappers
  import opened PropertyTree
  import opened CompoundNodes
  import opened JsonWalk
  import CompoundValue
  import JsonDecode
  import JsonRefinement

  /** A request, attribute or metadata object: string fields, vectors of pointers, and the root
      of a compound value. */
  class Record {
    var fields: map<string, string>
    var vectors: map<string, seq<Record>>
    var compoundValueP: Node?

    constructor ()
      ensures fields == map[] && vectors == map[] && compoundValueP == null
    {
      fields, vectors, compoundValueP := map[], map[], null;
    }
  }

  /** An object's contents are what a cell of the store says; pointers are positions in `heap`. */
  ghost predicate Shows(heap: seq<Record>, fields: map<string, string>, vectors: map<string, seq<Record>>, c: Cell) {
    && fields == c.fields
    && vectors.Keys == c.vectors.Keys
    && forall kind | kind in c.vectors ::
         && |vectors[kind]| == |c.vectors[kind]|
         && forall j | 0 <= j < |c.vectors[kind]| ::
              c.vectors[kind][j] < |heap| && vectors[kind][j] == heap[c.vectors[kind][j]]
  }

  lemma ShowsAfterAllocation(heap: seq<Record>, o: Record, fields: map<string, string>, vectors: map<string, seq<Record>>, c: Cell)
    requires Shows(heap, fields, vectors, c)
    ensures Shows(heap + [o], fields, vectors, c)
  {
  }

  lemma ShowsAfterPush(heap: seq<Record>, n: nat, fields: map<string, string>, vectors: map<string, seq<Record>>, c: Cell,
                       kind: string)
    requires Shows(heap, fields, vectors, c) && n < |heap|
    ensures Shows(heap, fields, vectors[kind := (if kind in vectors then vectors[kind] else []) + [heap[n]]],
                  c.(vectors := c.vectors[kind := Vector(c, kind) + [n]]))
  {
  }

  /** Allocating and pushing, in two steps. */
  lemma PushInTwoSteps(st: State, kind: string, parent: string)
    requires parent in st.cursors && st.cursors[parent] < |st.store|
    ensures var (at, n) := (st.cursors[parent], |st.store|);
            var st1 := st.(store := st.store + [EMPTY_CELL], cursors := st.cursors[kind := n]);
            var cell := st1.store[at];
            Handle(st, New(kind, parent), "") ==
            Done(st1.(store := st1.store[at := cell.(vectors := cell.vectors[kind := Vector(cell, kind) + [n]])]))
  {
    var (at, n) := (st.cursors[parent], |st.store|);
    var cell := st.store[at];
    var cell' := cell.(vectors := cell.vectors[kind := Vector(cell, kind) + [n]]);
    assert (st.store + [EMPTY_CELL])[at := cell'] == st.store[at := cell'] + [EMPTY_CELL];
  }

  /** The outcome without its value. */
  function Verdict<T>(r: Outcome<T>): Outcome<()> {
    match r
    case Done(_) => Done(())
    case Rejected => Rejected
    case Threw => Threw
    case Crashed(c) => Crashed(c)
  }

  class ParseData {
    const res: Record
    var cursors: map<string, Record>
    var lastContextAttribute: Record?

    /** Objects in order of allocation, the nodes of compound values, and the abstract state
        they show. */
    ghost var heap: seq<Record>
    ghost var repr: set<Record>
    ghost var nodes: set<Node>
    ghost var st: State

    /** Object number `i` shows cell number `i`. */
    ghost predicate Shown(i: nat)
      requires i < |heap| == |st.store| && heap[i] in repr
      reads this, repr
    {
      Shows(heap, heap[i].fields, heap[i].vectors, st.store[i])
    }

    /** A compound value is shown by a valid tree of nodes. */
    ghost predicate CompoundShown(i: nat)
      requires i < |heap| == |st.store| && heap[i] in repr
      reads this, repr, nodes
    {
      var (p, c) := (heap[i].compoundValueP, st.store[i].compound);
      if c.None? then p == null else p != null && p in nodes && p.repr <= nodes && p.Valid() && p.tree == c.value
    }

    ghost predicate Valid()
      reads this, repr, nodes
    {
      && |heap| == |st.store| > 0 && heap[0] == res && (forall i | 0 <= i < |heap| :: heap[i] in repr)
      && (forall i, j | 0 <= i < j < |heap| :: heap[i] != heap[j])
      && (forall i {:trigger Shown(i)} | 0 <= i < |heap| :: Shown(i))
      && (forall i {:trigger CompoundShown(i)} | 0 <= i < |heap| :: CompoundShown(i))
      && (lastContextAttribute == null <==> st.last.None?)
      && (st.last.Some? ==> st.last.value < |heap| && lastContextAttribute == heap[st.last.value])
      && cursors.Keys == st.cursors.Keys
      && (forall k | k in cursors :: st.cursors[k] < |heap| && cursors[k] == heap[st.cursors[k]])
    }

    constructor ()
      ensures Valid() && st == START && fresh(repr)
    {
      res := new Record();
      lastContextAttribute := null;
      new;
      cursors := map[ROOT := res];
      heap, repr, nodes := [res], {res}, {};
      st := START;
    }

    /** `new`, and set the cursor. */
    method Allocate(kind: string) returns (o: Record)
      requires Valid()
      modifies this
      ensures Valid() && st == old(st).(store := old(st).store + [EMPTY_CELL], cursors := old(st).cursors[kind := |old(st).store|])
      ensures heap == old(heap) + [o] && fresh(o) && repr == old(repr) + {o}
    {
      o := new Record();
      forall i | 0 <= i < |heap|
        ensures Shows(heap + [o], heap[i].fields, heap[i].vectors, st.store[i])
      {
        assert Shown(i);
        ShowsAfterAllocation(heap, o, heap[i].fields, heap[i].vectors, st.store[i]);
      }
      cursors := cursors[kind := o];
      st := st.(store := st.store + [EMPTY_CELL], cursors := st.cursors[kind := |st.store|]);
      heap, repr := heap + [o], repr + {o};
      forall i | 0 <= i < |heap|
        ensures CompoundShown(i)
      {
        assert i < |old(heap)| ==> old(CompoundShown(i));
      }
    }

    /** Push object number `n` onto a vector of object number `at`. */
    method PushBack(p: Record, kind: string, o: Record, ghost at: nat, ghost n: nat)
      requires Valid() && at < |heap| && n < |heap| && heap[at] == p && heap[n] == o
      modifies p, this`st
      ensures Valid()
      ensures var cell := old(st).store[at];
              st == old(st).(store := old(st).store[at := cell.(vectors := cell.vectors[kind := Vector(cell, kind) + [n]])])
    {
      assert Shown(at);
      ShowsAfterPush(heap, n, p.fields, p.vectors, st.store[at], kind);
      var vector := if kind in p.vectors then p.vectors[kind] else [];
      p.vectors := p.vectors[kind := vector + [o]];
      ghost var cell := st.store[at];
      st := st.(store := st.store[at := cell.(vectors := cell.vectors[kind := Vector(cell, kind) + [n]])]);
      forall i | 0 <= i < |heap|
        ensures Shown(i) && CompoundShown(i)
      {
        assert old(Shown(i)) && old(CompoundShown(i));
      }
    }

    /** Allocate, set the cursor, push onto the parent's vector. */
    method Push(kind: string, parent: string)
      requires Valid() && parent in cursors
      modifies this, repr
      ensures Valid() && Done(st) == Handle(old(st), New(kind, parent), "")
      ensures fresh(repr - old(repr))
    {
      ghost var (st0, at, n) := (st, st.cursors[parent], |heap|);
      var p := cursors[parent];
      var o := Allocate(kind);
      assert heap[at] == p && heap[n] == o;
      ghost var cell := st.store[at];
      PushBack(p, kind, o, at, n);
      assert st.store == (st0.store + [EMPTY_CELL])[at := cell.(vectors := cell.vectors[kind := Vector(cell, kind) + [n]])];
      PushInTwoSteps(st0, kind, parent);
    }

    /** Write a field through a cursor. */
    method Assign(kind: string, field: string, value: string)
      requires Valid() && kind in cursors
      modifies this, repr
      ensures Valid() && Done(st) == Handle(old(st), Set(kind, field, false), value)
      ensures repr == old(repr)
    {
      var o := cursors[kind];
      o.fields := o.fields[field := value];
      st := Handle(st, Set(kind, field, false), value).value;
      forall i | 0 <= i < |heap|
        ensures Shown(i) && CompoundShown(i)
      {
        assert old(Shown(i)) && old(CompoundShown(i));
      }
    }

    /** Write an attribute's value and remember the attribute. */
    method AssignValue(kind: string, value: string)
      requires Valid() && kind in cursors
      modifies this, repr
      ensures Valid() && Done(st) == Handle(old(st), SetValue(kind), value)
      ensures repr == old(repr)
    {
      Assign(kind, VALUE, value);
      label Before:
      lastContextAttribute := cursors[kind];
      st := st.(last := Some(st.cursors[kind]));
      forall i | 0 <= i < |heap|
        ensures Shown(i) && CompoundShown(i)
      {
        assert old@Before(Shown(i)) && old@Before(CompoundShown(i));
      }
    }

    /** The cursor that is NULL, if the handler uses one. */
    method CallHandler(action: Action, value: string) returns (crashed: Option<Cursor>)
      requires Valid()
      modifies this, repr
      ensures Valid() && fresh(repr - old(repr))
      ensures crashed.Some? ==> Handle(old(st), action, value) == Crashed(crashed.value)
      ensures crashed.None? ==> Done(st) == Handle(old(st), action, value)
    {
      crashed := None;
      match action
      case Skip =>
      case New(kind, parent) =>
        if parent !in cursors {
          return Some(Kind(parent));
        }
        Push(kind, parent);
      case Set(kind, field, boolOnly) =>
        if kind !in cursors {
          return Some(Kind(kind));
        }
        if !(boolOnly && !IsBoolText(value)) {
          Assign(kind, field, value);
        }
      case SetValue(kind) =>
        if kind !in cursors {
          return Some(Kind(kind));
        }
        AssignValue(kind, value);
    }

    /** Let an object point to a compound value. */
    method Attach(o: Record, root: Node, ghost at: nat)
      requires Valid() && at < |heap| && heap[at] == o && root.Valid()
      modifies this`st, this`nodes, o
      ensures Valid() && heap == old(heap) && repr == old(repr)
      ensures st == old(st).(store := old(st).store[at := old(st).store[at].(compound := Some(root.tree))])
    {
      o.compoundValueP := root;
      nodes := nodes + root.repr;
      st := st.(store := st.store[at := st.store[at].(compound := Some(root.tree))]);
      forall i | 0 <= i < |heap|
        ensures Shown(i) && CompoundShown(i)
      {
        assert old(Shown(i)) && old(CompoundShown(i));
      }
    }

    /** `eatCompound` and `compoundValueEnd`; a faulty compound is attached all the same. */
    method TakeCompound(e: Entry) returns (r: Outcome<()>)
      requires Valid()
      modifies this, repr
      ensures Valid() && repr == old(repr)
      ensures r == Verdict(EndCompound(old(st), e))
      ensures r.Done? ==> Done(st) == EndCompound(old(st), e)
    {
      var root := new Node(CompoundValue.TOPLEVEL, CompoundValue.KObject, "");
      var ok := root.TakeAll(e.children);
      var finding := root.Check();
      if lastContextAttribute == null {
        return Crashed(Last);
      }
      Attach(lastContextAttribute, root, st.last.value);
      return if ok && finding != CompoundValue.Flawed then Done(()) else Rejected;
    }

    /** `treat`: whether a handler was called, and the cursor that was NULL if it used one. */
    method Treat(rows: seq<Row>, path: string, value: string) returns (treated: bool, crashed: Option<Cursor>)
      requires Valid()
      modifies this, repr
      ensures Valid() && fresh(repr - old(repr))
      ensures var t := JsonWalk.Treat(rows, old(st), path, value);
              && treated == t.Some?
              && (t.None? ==> crashed.None? && st == old(st))
              && (t.Some? ==> if crashed.Some? then t.value == Crashed(crashed.value) else t.value == Done(st))
    {
      treated, crashed := false, None;
      if !(!IsScopeValue(path) && ForbiddenChars(value)) {
        var action := Lookup(rows, path);
        if action.Some? {
          treated := true;
          crashed := CallHandler(action.value, value);
        }
      }
    }

    /** `jsonParse` on one node. */
    method ParseNode(rows: seq<Row>, e: Entry, path: string) returns (r: Outcome<()>)
      requires Valid()
      modifies this, repr
      ensures Valid() && fresh(repr - old(repr))
      ensures r == Verdict(Walk(rows, old(st), e, path))
      ensures r.Done? ==> Done(st) == Walk(rows, old(st), e, path)
      decreases e, 2
    {
      var element := ArrayElementName(path);
      if e.key != "" && e.key == element {
        return Threw;
      }
      r := ParseAt(rows, e, path + "/" + (if e.key != "" then e.key else element));
    }

    /** ... once its path is known. */
    method ParseAt(rows: seq<Row>, e: Entry, path: string) returns (r: Outcome<()>)
      requires Valid()
      modifies this, repr
      ensures Valid() && fresh(repr - old(repr))
      ensures r == Verdict(WalkAt(rows, old(st), e, path))
      ensures r.Done? ==> Done(st) == WalkAt(rows, old(st), e, path)
      decreases e, 1
    {
      var treated, crashed := Treat(rows, path, e.data);
      if crashed.Some? {
        return Crashed(crashed.value);
      }
      if GoesToEatCompound(path, e) {
        r := TakeCompound(e);
      } else if !treated {
        r := Rejected;
      } else {
        r := ParseNodes(rows, e.children, path);
      }
    }

    method ParseNodes(rows: seq<Row>, es: seq<Entry>, path: string) returns (r: Outcome<()>)
      requires Valid()
      modifies this, repr
      ensures Valid() && fresh(repr - old(repr))
      ensures r == Verdict(WalkAll(rows, old(st), es, path))
      ensures r.Done? ==> Done(st) == WalkAll(rows, old(st), es, path)
      decreases es, 0
    {
      r := Done(());
      if es != [] {
        r := ParseNode(rows, es[0], path);
        if r.Done? {
          r := ParseNodes(rows, es[1..], path);
        }
      }
    }
  }

  /** Parse a whole document into fresh objects, whatever its keys: the verdict and the objects are
      those of the walk. With slash-free keys the verdict is the decoder's, and on success the
      request object and the compound values show what was decoded. */
  method ParseDocument(kids: seq<JsonDecode.Schema>, es: seq<Entry>) returns (r: Outcome<()>, data: ParseData)
    requires JsonDecode.NamesOk(kids) && JsonRefinement.CursorsOk(kids, ROOT)
    ensures data.Valid() && fresh(data) && fresh(data.repr)
    ensures r == Verdict(Parse(JsonDecode.Rows(kids, ""), es))
    ensures r.Done? ==> Done(data.st) == Parse(JsonDecode.Rows(kids, ""), es)
    ensures (forall i | 0 <= i < |es| :: JsonRefinement.KeysSlashFree(es[i])) ==>
      && r == Verdict(JsonDecode.DecodeAll(kids, [], JsonDecode.BEGIN, es))
      && (r.Crashed? ==> r == Crashed(Last))
      && (r.Done? ==>
            && JsonRefinement.StateOk(data.st)
            && Done(JsonRefinement.Abstract(data.st, 0)) == JsonDecode.DecodeAll(kids, [], JsonDecode.BEGIN, es))
  {
    if forall i | 0 <= i < |es| :: JsonRefinement.KeysSlashFree(es[i]) {
      JsonRefinement.ParserRefinesDecoder(kids, es);
    }
    data := new ParseData();
    r := data.ParseNodes(JsonDecode.Rows(kids, ""), es, "");
  }
}
