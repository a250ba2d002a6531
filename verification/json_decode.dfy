/** A recursive decoder for the same documents: each entry is decoded into the object that encloses
    it, without cursors for the current attribute or metadata. Of the parser's pointers it keeps
    only lastContextAttribute, as the number of an object, since the parser attaches a compound
    value there from whatever path. */
module JsonDecode {
  import opened Wrappers
  import opened SlashPaths
  import opened PropertyTree
  import opened CompoundValue
  import opened JsonWalk

  /** A parse vector as the tree of its paths. */
  datatype Schema = Schema(name: string, action: Action, kids: seq<Schema>)

  /** The parse vector: one row per node, each node before its descendants. */
  function Rows(kids: seq<Schema>, prefix: string): seq<Row>
    decreases kids
  {
    if kids == [] then [] else
    var path := prefix + "/" + kids[0].name;
    [Row(path, kids[0].action)] + Rows(kids[0].kids, path) + Rows(kids[1..], prefix)
  }

  function FindKid(kids: seq<Schema>, name: string): (r: Option<Schema>)
    ensures r.Some? ==> r.value in kids && r.value.name == name
    ensures r.None? ==> forall k | k in kids :: k.name != name
  {
    if kids == [] then None
    else if kids[0].name == name then Some(kids[0])
    else FindKid(kids[1..], name)
  }

  /** The action at a component path below the given nodes. */
  function Descend(kids: seq<Schema>, cs: seq<string>): Option<Action>
    requires cs != []
    decreases |cs|
  {
    match FindKid(kids, cs[0])
    case None => None
    case Some(k) => if |cs| == 1 then Some(k.action) else Descend(k.kids, cs[1..])
  }

  /** Names are slash-free and different among siblings. */
  predicate NamesOk(kids: seq<Schema>) {
    && (forall i | 0 <= i < |kids| :: NoSlash(kids[i].name) && NamesOk(kids[i].kids))
    && (forall i, j | 0 <= i < j < |kids| :: kids[i].name != kids[j].name)
  }

  // ---------------------------------------------------------------------------
  // Looking a path up in the rows is descending in the tree

  lemma JoinInjective(xs: seq<string>, ys: seq<string>)
    requires (forall x | x in xs :: NoSlash(x)) && (forall y | y in ys :: NoSlash(y))
    requires Join(xs) == Join(ys)
    ensures xs == ys
  {
    ComponentsJoin(xs);
    ComponentsJoin(ys);
  }

  lemma LookupConcat(xs: seq<Row>, ys: seq<Row>, path: string)
    ensures Lookup(xs + ys, path) == if Lookup(xs, path).Some? then Lookup(xs, path) else Lookup(ys, path)
  {
    if xs == [] {
      assert xs + ys == ys;
    } else {
      assert (xs + ys)[1..] == xs[1..] + ys;
      LookupConcat(xs[1..], ys, path);
    }
  }

  lemma JoinSnoc(ps: seq<string>, c: string)
    ensures Join(ps + [c]) == Join(ps) + "/" + c
  {
    JoinConcat(ps, [c]);
  }

  ghost predicate SlashFree(cs: seq<string>) {
    forall c | c in cs :: NoSlash(c)
  }

  lemma {:induction false} LookupIsDescend(kids: seq<Schema>, ps: seq<string>, cs: seq<string>)
    requires NamesOk(kids) && SlashFree(ps) && SlashFree(cs)
    ensures Lookup(Rows(kids, Join(ps)), Join(cs)) ==
            if |ps| < |cs| && ps == cs[..|ps|] then Descend(kids, cs[|ps|..]) else None
    decreases kids
  {
    if kids != [] {
      var k, rest := kids[0], kids[1..];
      var ks := ps + [k.name];
      JoinSnoc(ps, k.name);
      var first, below, after := [Row(Join(ks), k.action)], Rows(k.kids, Join(ks)), Rows(rest, Join(ps));
      LookupConcat(first, below, Join(cs));
      LookupConcat(first + below, after, Join(cs));
      LookupIsDescend(k.kids, ks, cs);
      LookupIsDescend(rest, ps, cs);
      if Join(ks) == Join(cs) {
        JoinInjective(ks, cs);
      }
      DescendStep(kids, ps, cs);
    }
  }

  lemma DescendStep(kids: seq<Schema>, ps: seq<string>, cs: seq<string>)
    requires kids != [] && NamesOk(kids)
    ensures var k := kids[0];
            var ks := ps + [k.name];
            (if |ps| < |cs| && ps == cs[..|ps|] then Descend(kids, cs[|ps|..]) else None) ==
            if ks == cs then Some(k.action)
            else if |ks| < |cs| && ks == cs[..|ks|] && Descend(k.kids, cs[|ks|..]).Some? then Descend(k.kids, cs[|ks|..])
            else if |ps| < |cs| && ps == cs[..|ps|] then Descend(kids[1..], cs[|ps|..]) else None
  {
    var k := kids[0];
    var ks := ps + [k.name];
    if |ps| < |cs| && ps == cs[..|ps|] {
      var qs := cs[|ps|..];
      assert qs[1..] == cs[|ks|..];
      assert cs[..|ks|] == ps + [qs[0]];
      if qs[0] == k.name {
        assert FindKid(kids[1..], k.name).None?;
        assert cs[..|ks|] == ks;
        if |qs| == 1 {
          assert cs == ks;
        }
      } else {
        assert ks[|ps|] != cs[..|ks|][|ps|];
      }
    } else {
      assert |ks| <= |cs| ==> cs[..|ks|][..|ps|] == cs[..|ps|] && ks[..|ps|] == ps;
    }
  }

  // ---------------------------------------------------------------------------
  // The decoder

  /** A decoded object: its number in document order, its fields and its lists of sub-objects. */
  datatype Obj = Obj(id: nat, fields: map<string, string>, lists: map<string, seq<Obj>>)

  /** How far decoding has come: the next number, the last object whose value was set, and the
      compound values by the number of the object they belong to. */
  datatype Progress = Progress(next: nat, last: Option<nat>, compounds: map<nat, Compound>)

  datatype Decoded = Decoded(o: Obj, at: Progress)

  function NewObj(id: nat): Obj {
    Obj(id, map[], map[])
  }

  const BEGIN := Decoded(NewObj(0), Progress(1, None, map[]))

  function List(o: Obj, kind: string): seq<Obj> {
    if kind in o.lists then o.lists[kind] else []
  }

  /** The name under which an entry of the node at `cs` is decoded, or None if it is a named
      member where an array element belongs. */
  function EntryName(cs: seq<string>, key: string): Option<string> {
    var element := if cs == [] then "" else Singular(cs[|cs| - 1]);
    if key == "" then Some(element) else if key == element then None else Some(key)
  }

  function WithObjField(d: Decoded, field: string, value: string): Decoded {
    d.(o := d.o.(fields := d.o.fields[field := value]))
  }

  /** A compound value, at an attribute's own value path or elsewhere. */
  function DecodeCompound(d: Decoded, e: Entry): Outcome<Decoded> {
    if d.at.last.None? then Crashed(Last)
    else if !Accepts(e) then Rejected
    else Done(d.(at := d.at.(compounds := d.at.compounds[d.at.last.value := EatRoot(e).0])))
  }

  /** Decode one entry of the object `d.o`, whose schema node has children `kids` at path `cs`. */
  function Decode(kids: seq<Schema>, cs: seq<string>, d: Decoded, e: Entry): Outcome<Decoded>
    decreases e, 4
  {
    match EntryName(cs, e.key)
    case None => Threw
    case Some(name) => DecodeAt(FindKid(kids, name), cs + [name], d, e)
  }

  function DecodeAt(node: Option<Schema>, cs: seq<string>, d: Decoded, e: Entry): Outcome<Decoded>
    decreases e, 3
  {
    if node.None? || (!IsScopeValue(Join(cs)) && ForbiddenChars(e.data)) then
      if GoesToEatCompound(Join(cs), e) then DecodeCompound(d, e) else Rejected
    else DecodeKnown(node.value, cs, d, e)
  }

  function DecodeKnown(k: Schema, cs: seq<string>, d: Decoded, e: Entry): Outcome<Decoded>
    decreases e, 2
  {
    match k.action
    case Skip => DecodeBelow(k, cs, d, e)
    case Set(_, field, boolOnly) =>
      DecodeBelow(k, cs, if boolOnly && !IsBoolText(e.data) then d else WithObjField(d, field, e.data), e)
    case SetValue(_) =>
      var d' := WithObjField(d, VALUE, e.data);
      DecodeBelow(k, cs, d'.(at := d.at.(last := Some(d.o.id))), e)
    case New(kind, _) =>
      match DecodeBelow(k, cs, Decoded(NewObj(d.at.next), d.at.(next := d.at.next + 1)), e)
      case Done(inner) => Done(Decoded(d.o.(lists := d.o.lists[kind := List(d.o, kind) + [inner.o]]), inner.at))
      case other => other
  }

  function DecodeBelow(k: Schema, cs: seq<string>, d: Decoded, e: Entry): Outcome<Decoded>
    decreases e, 1
  {
    if GoesToEatCompound(Join(cs), e) then DecodeCompound(d, e) else DecodeAll(k.kids, cs, d, e.children)
  }

  function DecodeAll(kids: seq<Schema>, cs: seq<string>, d: Decoded, es: seq<Entry>): Outcome<Decoded>
    decreases es, 0
  {
    if es == [] then Done(d) else
    match Decode(kids, cs, d, es[0])
    case Done(d') => DecodeAll(kids, cs, d', es[1..])
    case other => other
  }

  // ---------------------------------------------------------------------------
  // Reading an object out of the store

  /** Pointers lead to objects allocated later (so there are no cycles). */
  ghost predicate Ordered(store: seq<Cell>) {
    forall r, kind, i | 0 <= r < |store| && kind in store[r].vectors && 0 <= i < |store[r].vectors[kind]| ::
      r < store[r].vectors[kind][i] < |store|
  }

  function Compounds(store: seq<Cell>): map<nat, Compound> {
    map i: nat | i < |store| && store[i].compound.Some? :: store[i].compound.value
  }

  ghost function Value(store: seq<Cell>, r: nat): (o: Obj)
    requires Ordered(store) && r < |store|
    decreases |store| - r, 1
  {
    Obj(r, store[r].fields, map kind | kind in store[r].vectors :: Values(store, r, store[r].vectors[kind]))
  }

  ghost function Values(store: seq<Cell>, r: nat, refs: seq<nat>): (vs: seq<Obj>)
    requires Ordered(store) && r < |store| && forall i | 0 <= i < |refs| :: r < refs[i] < |store|
    ensures |vs| == |refs| && forall i | 0 <= i < |refs| :: vs[i] == Value(store, refs[i])
    decreases |store| - r, 0
  {
    seq(|refs|, i requires 0 <= i < |refs| => Value(store, refs[i]))
  }

  /** The same but for the compound value. */
  predicate SameLinks(c: Cell, c': Cell) {
    c'.fields == c.fields && c'.vectors == c.vectors
  }

  /** An object's value depends only on cells at or after it, up to a bound that no pointer
      from there crosses. */
  lemma {:induction false} ValueFrame(store: seq<Cell>, store': seq<Cell>, r: nat, hi: nat)
    requires Ordered(store) && Ordered(store') && r < hi <= |store| && hi <= |store'|
    requires forall i | r <= i < hi :: SameLinks(store[i], store'[i])
    requires forall j, kind, i | r <= j < hi && kind in store[j].vectors && 0 <= i < |store[j].vectors[kind]| ::
      store[j].vectors[kind][i] < hi
    ensures Value(store', r) == Value(store, r)
    decreases hi - r
  {
    assert SameLinks(store[r], store'[r]);
    forall kind | kind in store[r].vectors
      ensures Values(store', r, store[r].vectors[kind]) == Values(store, r, store[r].vectors[kind])
    {
      var refs := store[r].vectors[kind];
      forall i | 0 <= i < |refs|
        ensures Value(store', refs[i]) == Value(store, refs[i])
      {
        ValueFrame(store, store', refs[i], hi);
      }
    }
  }
}
