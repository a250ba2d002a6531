/** The cursor-based parser refines the recursive decoder, for every parse vector whose
    handlers use the cursor of the innermost enclosing object. */
module JsonRefinement {
  import opened Wrappers
  import opened SlashPaths
  import opened PropertyTree
  import opened CompoundValue
  import opened JsonWalk
  import opened JsonDecode

  /** The cursors that handlers below these nodes may set. */
  function Kinds(kids: seq<Schema>): set<string> {
    if kids == [] then {} else
    (if kids[0].action.New? then {kids[0].action.kind} else {}) + Kinds(kids[0].kids) + Kinds(kids[1..])
  }

  /** Each handler uses the cursor of the innermost object that encloses its path, and nothing
      below an object's path sets that object's own cursor. */
  predicate CursorsOk(kids: seq<Schema>, owner: string) {
    && owner !in Kinds(kids)
    && forall i | 0 <= i < |kids| ::
         match kids[i].action
         case Skip => CursorsOk(kids[i].kids, owner)
         case Set(kind, _, _) => kind == owner && CursorsOk(kids[i].kids, owner)
         case SetValue(kind) => kind == owner && CursorsOk(kids[i].kids, owner)
         case New(kind, parent) => parent == owner && CursorsOk(kids[i].kids, kind)
  }

  predicate KeysSlashFree(e: Entry) {
    NoSlash(e.key) && forall i | 0 <= i < |e.children| :: KeysSlashFree(e.children[i])
  }

  // ---------------------------------------------------------------------------
  // Paths

  lemma LastSegmentOfJoin(s: string, c: string)
    requires NoSlash(c)
    ensures LastSegment(s + "/" + c) == c
  {
    var path := s + "/" + c;
    if c != "" {
      var n := |c| - 1;
      assert path[..|path| - 1] == s + "/" + c[..n];
      LastSegmentOfJoin(s, c[..n]);
      assert path[|path| - 1] == c[n];
      assert c == c[..n] + [c[n]];
    }
  }

  function ElementName(cs: seq<string>): string {
    if cs == [] then "" else Singular(cs[|cs| - 1])
  }

  lemma ElementNameAgrees(cs: seq<string>)
    requires SlashFree(cs)
    ensures ArrayElementName(Join(cs)) == ElementName(cs) && NoSlash(ElementName(cs))
  {
    if cs != [] {
      var n := |cs| - 1;
      assert cs == cs[..n] + [cs[n]];
      JoinSnoc(cs[..n], cs[n]);
      LastSegmentOfJoin(Join(cs[..n]), cs[n]);
    }
  }

  /** The rows answer for every path below `cs` what the schema nodes `kids` say. */
  ghost predicate Covers(rows: seq<Row>, cs: seq<string>, kids: seq<Schema>) {
    SlashFree(cs) && forall qs | qs != [] && SlashFree(qs) :: Lookup(rows, Join(cs + qs)) == Descend(kids, qs)
  }

  lemma RootCovers(kids: seq<Schema>)
    requires NamesOk(kids)
    ensures Covers(Rows(kids, ""), [], kids)
  {
    forall qs | qs != [] && SlashFree(qs)
      ensures Lookup(Rows(kids, ""), Join([] + qs)) == Descend(kids, qs)
    {
      assert [] + qs == qs && Join([]) == "" && qs[0..] == qs;
      LookupIsDescend(kids, [], qs);
    }
  }

  lemma KidCovers(rows: seq<Row>, cs: seq<string>, kids: seq<Schema>, name: string)
    requires Covers(rows, cs, kids) && NoSlash(name)
    ensures Lookup(rows, Join(cs + [name])) == (match FindKid(kids, name) case None => None case Some(k) => Some(k.action))
    ensures FindKid(kids, name).Some? ==> Covers(rows, cs + [name], FindKid(kids, name).value.kids)
  {
    assert SlashFree([name]) && Descend(kids, [name]) == Lookup(rows, Join(cs + [name]));
    if FindKid(kids, name).Some? {
      var k := FindKid(kids, name).value;
      forall qs | qs != [] && SlashFree(qs)
        ensures Lookup(rows, Join(cs + [name] + qs)) == Descend(k.kids, qs)
      {
        var all := [name] + qs;
        assert SlashFree(all) && all[1..] == qs && cs + [name] + qs == cs + all;
        assert Lookup(rows, Join(cs + all)) == Descend(kids, all);
      }
    }
  }

  lemma {:induction false} KindsOfKid(kids: seq<Schema>, i: nat)
    requires i < |kids|
    ensures Kinds(kids[i].kids) <= Kinds(kids)
    ensures kids[i].action.New? ==> kids[i].action.kind in Kinds(kids)
  {
    if i > 0 {
      KindsOfKid(kids[1..], i - 1);
    }
  }

  // ---------------------------------------------------------------------------
  // One handler

  ghost predicate StateOk(st: State) {
    && Ordered(st.store) && (st.last.Some? ==> st.last.value < |st.store|)
    && forall k | k in st.cursors :: st.cursors[k] < |st.store|
  }

  /** Of the objects that existed before, only `r` may have changed, apart from compound values. */
  ghost predicate OnlyTouches(st: State, st': State, r: nat) {
    |st.store| <= |st'.store| && forall i | 0 <= i < |st.store| && i != r :: SameLinks(st.store[i], st'.store[i])
  }

  ghost predicate CursorsKept(st: State, st': State, except: set<string>) {
    forall k | k in st.cursors && k !in except :: k in st'.cursors && st'.cursors[k] == st.cursors[k]
  }

  /** What the decoder knows when the parser is in this state, inside object `r`. */
  ghost function Abstract(st: State, r: nat): Decoded
    requires StateOk(st) && r < |st.store|
  {
    Decoded(Value(st.store, r), Progress(|st.store|, st.last, Compounds(st.store)))
  }

  lemma SetField(st: State, r: nat, field: string, value: string)
    requires StateOk(st) && r < |st.store|
    ensures var st' := st.(store := st.store[r := WithField(st.store[r], field, value)]);
            StateOk(st') && Abstract(st', r) == WithObjField(Abstract(st, r), field, value)
  {
    var st' := st.(store := st.store[r := WithField(st.store[r], field, value)]);
    LaterValuesKept(st.store, st'.store, r);
    assert Compounds(st'.store) == Compounds(st.store);
  }

  /** If nothing after `r` changes, the values that `r` points to do not change. */
  lemma LaterValuesKept(store: seq<Cell>, store': seq<Cell>, r: nat)
    requires Ordered(store) && Ordered(store') && r < |store| <= |store'|
    requires forall i | r < i < |store| :: SameLinks(store[i], store'[i])
    ensures forall c | r < c < |store| :: Value(store', c) == Value(store, c)
    ensures forall kind | kind in store[r].vectors ::
              Values(store', r, store[r].vectors[kind]) == Values(store, r, store[r].vectors[kind])
  {
    forall c | r < c < |store|
      ensures Value(store', c) == Value(store, c)
    {
      ValueFrame(store, store', c, |store|);
    }
  }

  /** A compound value goes to the same object, and no other part of any object changes. */
  lemma CompoundAgrees(st: State, r: nat, e: Entry)
    requires StateOk(st) && r < |st.store|
    ensures Agrees(st, r, {}, EndCompound(st, e), DecodeCompound(Abstract(st, r), e))
  {
    var walked := EndCompound(st, e);
    if walked.Done? {
      var st' := walked.value;
      assert forall i | 0 <= i < |st.store| :: SameLinks(st.store[i], st'.store[i]);
      ValueFrame(st.store, st'.store, r, |st.store|);
      assert Compounds(st'.store) == Compounds(st.store)[st.last.value := EatRoot(e).0];
    }
  }

  lemma ValuesSnoc(store: seq<Cell>, r: nat, refs: seq<nat>, at: nat)
    requires Ordered(store) && r < at < |store| && forall i | 0 <= i < |refs| :: r < refs[i] < |store|
    ensures Values(store, r, refs + [at]) == Values(store, r, refs) + [Value(store, at)]
  {
  }

  /** The state after allocating an object of the kind and pushing it onto `r`'s vector. */
  function Pushed(st: State, r: nat, kind: string): State
    requires r < |st.store|
  {
    var cell := st.store[r];
    st.(store := st.store[r := cell.(vectors := cell.vectors[kind := Vector(cell, kind) + [|st.store|]])] + [EMPTY_CELL],
        cursors := st.cursors[kind := |st.store|])
  }

  lemma PushedOk(st: State, r: nat, kind: string)
    requires StateOk(st) && r < |st.store|
    ensures StateOk(Pushed(st, r, kind))
    ensures Abstract(Pushed(st, r, kind), |st.store|) ==
            Decoded(NewObj(|st.store|), Abstract(st, r).at.(next := |st.store| + 1))
  {
    var st' := Pushed(st, r, kind);
    forall j, kd, i | 0 <= j < |st'.store| && kd in st'.store[j].vectors && 0 <= i < |st'.store[j].vectors[kd]|
      ensures j < st'.store[j].vectors[kd][i] < |st'.store|
    {
      if j == r && kd == kind && i == |Vector(st.store[r], kind)| {
      } else if j < |st.store| {
        assert st'.store[j].vectors[kd][i] == st.store[j].vectors[kd][i];
      }
    }
    assert st'.store[|st.store|] == EMPTY_CELL;
    assert Value(st'.store, |st.store|).lists == map[];
    assert Compounds(st'.store) == Compounds(st.store);
  }

  /** Once the new object is filled, the enclosing one has gained exactly it. */
  lemma FilledOk(st: State, r: nat, kind: string, st': State)
    requires StateOk(st) && r < |st.store| && StateOk(st')
    requires OnlyTouches(Pushed(st, r, kind), st', |st.store|)
    ensures var (o, inner) := (Value(st.store, r), Value(st'.store, |st.store|));
            Value(st'.store, r) == o.(lists := o.lists[kind := List(o, kind) + [inner]])
  {
    var at, st1 := |st.store|, Pushed(st, r, kind);
    assert SameLinks(st1.store[r], st'.store[r]);
    forall i | r < i < at
      ensures SameLinks(st.store[i], st'.store[i])
    {
      assert SameLinks(st1.store[i], st'.store[i]);
    }
    LaterValuesKept(st.store, st'.store, r);
    var (o, o', inner) := (Value(st.store, r), Value(st'.store, r), Value(st'.store, at));
    var refs := Vector(st.store[r], kind);
    assert st'.store[r].vectors == st.store[r].vectors[kind := refs + [at]];
    ValuesSnoc(st'.store, r, refs, at);
    assert Values(st'.store, r, refs) == List(o, kind);
  }

  // ---------------------------------------------------------------------------
  // The whole walk

  /** The parser's outcome in a state that the decoder knows as `d` is the decoder's on `d`: same
      verdict, and on success the same new knowledge; of the old objects only `r` has changed
      (apart from compound values), and no cursor outside `kinds`. The only cursor that may be
      used while NULL is lastContextAttribute, and then the decoder says so too. */
  ghost predicate Agrees(st: State, r: nat, kinds: set<string>, walked: Outcome<State>, decoded: Outcome<Decoded>) {
    match walked
    case Done(st') =>
      && StateOk(st') && OnlyTouches(st, st', r) && CursorsKept(st, st', kinds)
      && r < |st'.store| && decoded == Done(Abstract(st', r))
    case Crashed(c) => c == Last && decoded == Crashed(Last)
    case Rejected => decoded.Rejected?
    case Threw => decoded.Threw?
  }

  ghost predicate Ready(rows: seq<Row>, kids: seq<Schema>, cs: seq<string>, owner: string, st: State) {
    Covers(rows, cs, kids) && CursorsOk(kids, owner) && StateOk(st) && owner in st.cursors
  }

  lemma {:induction false} WalkAgrees(rows: seq<Row>, kids: seq<Schema>, cs: seq<string>, owner: string, st: State, e: Entry)
    requires Ready(rows, kids, cs, owner, st) && KeysSlashFree(e)
    ensures var r := st.cursors[owner];
            Agrees(st, r, Kinds(kids), Walk(rows, st, e, Join(cs)), Decode(kids, cs, Abstract(st, r), e))
    decreases e, 3
  {
    ElementNameAgrees(cs);
    var named := EntryName(cs, e.key);
    if named.Some? {
      JoinSnoc(cs, named.value);
      WalkAtAgrees(rows, kids, cs, owner, st, e, named.value);
    }
  }

  lemma {:induction false} WalkAtAgrees(rows: seq<Row>, kids: seq<Schema>, cs: seq<string>, owner: string, st: State, e: Entry,
                                        name: string)
    requires Ready(rows, kids, cs, owner, st) && KeysSlashFree(e) && NoSlash(name)
    ensures var r, cs' := st.cursors[owner], cs + [name];
            Agrees(st, r, Kinds(kids), WalkAt(rows, st, e, Join(cs')),
                   DecodeAt(FindKid(kids, name), cs', Abstract(st, r), e))
    decreases e, 2
  {
    KidCovers(rows, cs, kids, name);
    CompoundAgrees(st, st.cursors[owner], e);
    var k := FindKid(kids, name);
    if k.Some? {
      var i :| 0 <= i < |kids| && kids[i] == k.value;
      KindsOfKid(kids, i);
      TreatedAgrees(rows, kids, i, cs, owner, st, e);
    }
  }

  /** The case of a known path and an acceptable value. */
  lemma {:induction false} TreatedAgrees(rows: seq<Row>, kids: seq<Schema>, i: nat, cs: seq<string>, owner: string,
                                         st: State, e: Entry)
    requires Ready(rows, kids, cs, owner, st) && KeysSlashFree(e) && i < |kids|
    requires Covers(rows, cs + [kids[i].name], kids[i].kids)
    requires Kinds(kids[i].kids) <= Kinds(kids) && (kids[i].action.New? ==> kids[i].action.kind in Kinds(kids))
    ensures var r, cs' := st.cursors[owner], cs + [kids[i].name];
            var k := kids[i];
            var treated := Handle(st, k.action, e.data);
            && treated.Done?
            && Agrees(st, r, Kinds(kids), WalkBelow(rows, treated.value, e, Join(cs')),
                 DecodeKnown(k, cs', Abstract(st, r), e))
    decreases e, 1
  {
    var r, cs' := st.cursors[owner], cs + [kids[i].name];
    var k := kids[i];
    match k.action
    case Skip =>
      BelowAgrees(rows, k, cs', owner, st, e);
    case Set(_, field, boolOnly) =>
      SetField(st, r, field, e.data);
      BelowAgrees(rows, k, cs', owner, Handle(st, k.action, e.data).value, e);
    case SetValue(_) =>
      SetField(st, r, VALUE, e.data);
      BelowAgrees(rows, k, cs', owner, Handle(st, k.action, e.data).value, e);
    case New(kind, _) =>
      NewAgrees(rows, k, cs', owner, st, e, Kinds(kids));
  }

  lemma {:induction false} NewAgrees(rows: seq<Row>, k: Schema, cs: seq<string>, owner: string, st: State, e: Entry,
                                     kinds: set<string>)
    requires StateOk(st) && owner in st.cursors && KeysSlashFree(e) && k.action.New?
    requires Covers(rows, cs, k.kids) && CursorsOk(k.kids, k.action.kind)
    requires Kinds(k.kids) <= kinds && k.action.kind in kinds
    ensures var r := st.cursors[owner];
            Agrees(st, r, kinds, WalkBelow(rows, Pushed(st, r, k.action.kind), e, Join(cs)),
                 DecodeKnown(k, cs, Abstract(st, r), e))
    decreases e, 0, 1
  {
    var r, kind := st.cursors[owner], k.action.kind;
    var st1 := Pushed(st, r, kind);
    PushedOk(st, r, kind);
    BelowAgrees(rows, k, cs, kind, st1, e);
    var walked := WalkBelow(rows, st1, e, Join(cs));
    if walked.Done? {
      FilledOk(st, r, kind, walked.value);
      FilledFrame(st, r, kind, walked.value, Kinds(k.kids), kinds);
    }
  }

  lemma FilledFrame(st: State, r: nat, kind: string, st': State, inner: set<string>, kinds: set<string>)
    requires StateOk(st) && r < |st.store| && inner <= kinds && kind in kinds
    requires OnlyTouches(Pushed(st, r, kind), st', |st.store|) && CursorsKept(Pushed(st, r, kind), st', inner)
    ensures OnlyTouches(st, st', r) && CursorsKept(st, st', kinds)
  {
    var st1 := Pushed(st, r, kind);
    forall i | 0 <= i < |st.store| && i != r
      ensures SameLinks(st.store[i], st'.store[i])
    {
      assert st1.store[i] == st.store[i];
    }
    forall c | c in st.cursors && c !in kinds
      ensures c in st'.cursors && st'.cursors[c] == st.cursors[c]
    {
      assert c in st1.cursors && st1.cursors[c] == st.cursors[c];
    }
  }

  lemma {:induction false} BelowAgrees(rows: seq<Row>, k: Schema, cs: seq<string>, owner: string, st: State, e: Entry)
    requires Ready(rows, k.kids, cs, owner, st) && KeysSlashFree(e)
    ensures var r := st.cursors[owner];
            Agrees(st, r, Kinds(k.kids), WalkBelow(rows, st, e, Join(cs)), DecodeBelow(k, cs, Abstract(st, r), e))
    decreases e, 0, 0
  {
    CompoundAgrees(st, st.cursors[owner], e);
    WalkAllAgrees(rows, k.kids, cs, owner, st, e.children);
  }

  lemma {:induction false} WalkAllAgrees(rows: seq<Row>, kids: seq<Schema>, cs: seq<string>, owner: string, st: State,
                                         es: seq<Entry>)
    requires Ready(rows, kids, cs, owner, st) && forall i | 0 <= i < |es| :: KeysSlashFree(es[i])
    ensures var r := st.cursors[owner];
            Agrees(st, r, Kinds(kids), WalkAll(rows, st, es, Join(cs)), DecodeAll(kids, cs, Abstract(st, r), es))
    decreases es, 0
  {
    if es != [] {
      WalkAgrees(rows, kids, cs, owner, st, es[0]);
      var walked := Walk(rows, st, es[0], Join(cs));
      if walked.Done? {
        WalkAllAgrees(rows, kids, cs, owner, walked.value, es[1..]);
      }
    }
  }

  /** What the parser's outcome must be, given the decoder's: on success the request object and
      the compound values are the decoded ones, and the only cursor ever used while NULL is
      lastContextAttribute. */
  ghost predicate Refines(walked: Outcome<State>, decoded: Outcome<Decoded>) {
    match walked
    case Done(st) => StateOk(st) && |st.store| > 0 && decoded == Done(Abstract(st, 0))
    case Crashed(c) => c == Last && decoded == Crashed(Last)
    case Rejected => decoded.Rejected?
    case Threw => decoded.Threw?
  }

  lemma StartIsBegin()
    ensures StateOk(START) && Abstract(START, 0) == BEGIN
  {
    assert Value(START.store, 0).lists == map[];
    assert Compounds(START.store) == map[];
  }

  /** Main result, over every run on every property tree whose keys contain no slash, for every
      schema with sound cursors: the parser does what the recursive decoder does. */
  lemma ParserRefinesDecoder(kids: seq<Schema>, es: seq<Entry>)
    requires NamesOk(kids) && CursorsOk(kids, ROOT)
    requires forall i | 0 <= i < |es| :: KeysSlashFree(es[i])
    ensures Refines(Parse(Rows(kids, ""), es), DecodeAll(kids, [], BEGIN, es))
  {
    RootCovers(kids);
    StartIsBegin();
    WalkAllAgrees(Rows(kids, ""), kids, [], ROOT, START, es);
  }
}
