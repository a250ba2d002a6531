/** A plain recursive decoder, without cursors and without numbering: a compound value belongs to
    the object whose value it is, and is refused anywhere else. When does the parser, which finds
    the object through lastContextAttribute, give the same? */
module OwnCompounds {
  import opened Wrappers
  import opened SlashPaths
  import opened PropertyTree
  import opened CompoundValue
  import opened JsonWalk
  import opened JsonDecode
  import opened JsonRefinement
  import opened JsonVisits
  import opened RequestTables
  import opened RequestCrashes

  /** An object with its own compound value. */
  datatype Plain = Plain(fields: map<string, string>, lists: map<string, seq<Plain>>, compound: Option<Compound>)

  const NOTHING := Plain(map[], map[], None)

  function PlainList(o: Plain, kind: string): seq<Plain> {
    if kind in o.lists then o.lists[kind] else []
  }

  function PlainEntry(kids: seq<Schema>, cs: seq<string>, o: Plain, e: Entry): Outcome<Plain>
    decreases e, 3
  {
    match EntryName(cs, e.key)
    case None => Threw
    case Some(name) => PlainAt(FindKid(kids, name), cs + [name], o, e)
  }

  function PlainAt(node: Option<Schema>, cs: seq<string>, o: Plain, e: Entry): Outcome<Plain>
    decreases e, 2
  {
    if GoesToEatCompound(Join(cs), e) then PlainCompound(node, o, e)
    else if node.None? || (!IsScopeValue(Join(cs)) && ForbiddenChars(e.data)) then Rejected
    else PlainKnown(node.value, cs, o, e)
  }

  /** The compound belongs to the object at hand, if this is its value. */
  function PlainCompound(node: Option<Schema>, o: Plain, e: Entry): Outcome<Plain> {
    if node.Some? && node.value.action.SetValue? && Accepts(e)
    then Done(o.(fields := o.fields[VALUE := e.data], compound := Some(EatRoot(e).0)))
    else Rejected
  }

  function PlainKnown(k: Schema, cs: seq<string>, o: Plain, e: Entry): Outcome<Plain>
    decreases e, 1
  {
    match k.action
    case Skip => PlainAll(k.kids, cs, o, e.children)
    case Set(_, field, boolOnly) =>
      PlainAll(k.kids, cs, if boolOnly && !IsBoolText(e.data) then o else o.(fields := o.fields[field := e.data]), e.children)
    case SetValue(_) => PlainAll(k.kids, cs, o.(fields := o.fields[VALUE := e.data]), e.children)
    case New(kind, _) =>
      match PlainAll(k.kids, cs, NOTHING, e.children)
      case Done(inner) => Done(o.(lists := o.lists[kind := PlainList(o, kind) + [inner]]))
      case other => other
  }

  function PlainAll(kids: seq<Schema>, cs: seq<string>, o: Plain, es: seq<Entry>): Outcome<Plain>
    decreases es, 0
  {
    if es == [] then Done(o) else
    match PlainEntry(kids, cs, o, es[0])
    case Done(o') => PlainAll(kids, cs, o', es[1..])
    case other => other
  }

  // ---------------------------------------------------------------------------
  // Stray compounds, by the paths of the document alone

  predicate IsStray(own: string, v: Visit) {
    IsCompound(v) && v.path != own
  }

  /** Some compound value is not at the path `own`. */
  predicate HasStray(own: string, vs: seq<Visit>) {
    exists i | 0 <= i < |vs| :: IsStray(own, vs[i])
  }

  lemma StrayConcat(own: string, xs: seq<Visit>, ys: seq<Visit>)
    ensures HasStray(own, xs + ys) <==> HasStray(own, xs) || HasStray(own, ys)
  {
    var all := xs + ys;
    if i :| 0 <= i < |all| && IsStray(own, all[i]) {
      assert if i < |xs| then IsStray(own, xs[i]) else IsStray(own, ys[i - |xs|]);
    }
    if i :| 0 <= i < |xs| && IsStray(own, xs[i]) {
      assert IsStray(own, all[i]);
    }
    if i :| 0 <= i < |ys| && IsStray(own, ys[i]) {
      assert IsStray(own, all[|xs| + i]);
    }
  }

  // ---------------------------------------------------------------------------
  // Reading an object out of the store, compound values included

  ghost function Full(store: seq<Cell>, r: nat): (o: Plain)
    requires Ordered(store) && r < |store|
    decreases |store| - r, 1
  {
    Plain(store[r].fields, map kind | kind in store[r].vectors :: Fulls(store, r, store[r].vectors[kind]), store[r].compound)
  }

  ghost function Fulls(store: seq<Cell>, r: nat, refs: seq<nat>): (os: seq<Plain>)
    requires Ordered(store) && r < |store| && forall i | 0 <= i < |refs| :: r < refs[i] < |store|
    ensures |os| == |refs| && forall i | 0 <= i < |refs| :: os[i] == Full(store, refs[i])
    decreases |store| - r, 0
  {
    seq(|refs|, i requires 0 <= i < |refs| => Full(store, refs[i]))
  }

  /** If nothing from `r` on changes, the object does not change. */
  lemma {:induction false} FullFrame(store: seq<Cell>, store': seq<Cell>, r: nat)
    requires Ordered(store) && Ordered(store') && r < |store| <= |store'|
    requires forall i | r <= i < |store| :: store'[i] == store[i]
    ensures Full(store', r) == Full(store, r)
    decreases |store| - r
  {
    forall kind | kind in store[r].vectors
      ensures Fulls(store', r, store[r].vectors[kind]) == Fulls(store, r, store[r].vectors[kind])
    {
      var refs := store[r].vectors[kind];
      forall i | 0 <= i < |refs|
        ensures Full(store', refs[i]) == Full(store, refs[i])
      {
        FullFrame(store, store', refs[i]);
      }
    }
  }

  lemma LaterFullsKept(store: seq<Cell>, store': seq<Cell>, r: nat)
    requires Ordered(store) && Ordered(store') && r < |store| <= |store'|
    requires forall i | r < i < |store| :: store'[i] == store[i]
    ensures forall kind | kind in store[r].vectors ::
              Fulls(store', r, store[r].vectors[kind]) == Fulls(store, r, store[r].vectors[kind])
  {
    forall c | r < c < |store|
      ensures Full(store', c) == Full(store, c)
    {
      FullFrame(store, store', c);
    }
  }

  /** An object whose cell changes in fields or compound value only. */
  lemma FullEdit(st: State, st': State, r: nat)
    requires StateOk(st) && r < |st.store| && st'.cursors == st.cursors && (st'.last == st.last || st'.last == Some(r))
    requires |st'.store| == |st.store| && st'.store[r].vectors == st.store[r].vectors
    requires forall i | 0 <= i < |st.store| && i != r :: st'.store[i] == st.store[i]
    ensures StateOk(st')
    ensures Full(st'.store, r) == Plain(st'.store[r].fields, Full(st.store, r).lists, st'.store[r].compound)
  {
    assert Ordered(st'.store);
    LaterFullsKept(st.store, st'.store, r);
  }

  lemma FullPushed(st: State, r: nat, kind: string)
    requires StateOk(st) && r < |st.store|
    ensures StateOk(Pushed(st, r, kind)) && Full(Pushed(st, r, kind).store, |st.store|) == NOTHING
  {
    PushedOk(st, r, kind);
    assert Pushed(st, r, kind).store[|st.store|] == EMPTY_CELL;
    assert Full(Pushed(st, r, kind).store, |st.store|).lists == map[];
  }

  /** Of the objects that existed before, only `r` may have changed. */
  ghost predicate OnlyChanges(st: State, st': State, r: nat) {
    |st.store| <= |st'.store| && forall i | 0 <= i < |st.store| && i != r :: st'.store[i] == st.store[i]
  }

  /** Once the new object is filled, the enclosing one has gained exactly it. */
  lemma FullFilled(st: State, r: nat, kind: string, st': State)
    requires StateOk(st) && r < |st.store| && StateOk(st')
    requires OnlyChanges(Pushed(st, r, kind), st', |st.store|)
    ensures var (o, inner) := (Full(st.store, r), Full(st'.store, |st.store|));
            Full(st'.store, r) == o.(lists := o.lists[kind := PlainList(o, kind) + [inner]])
    ensures OnlyChanges(st, st', r)
  {
    var at, st1 := |st.store|, Pushed(st, r, kind);
    assert st'.store[r] == st1.store[r];
    forall i | 0 <= i < at && i != r
      ensures st'.store[i] == st.store[i]
    {
      assert st'.store[i] == st1.store[i];
    }
    LaterFullsKept(st.store, st'.store, r);
    var (o, inner) := (Full(st.store, r), Full(st'.store, at));
    var refs := Vector(st.store[r], kind);
    assert st'.store[r].vectors == st.store[r].vectors[kind := refs + [at]];
    assert Fulls(st'.store, r, refs + [at]) == Fulls(st'.store, r, refs) + [inner];
    assert Fulls(st'.store, r, refs) == PlainList(o, kind);
  }

  // ---------------------------------------------------------------------------
  // The parser against the plain decoder

  /** If there is a stray compound the plain decoder does not succeed. Otherwise both give the same
      verdict, on success object `r` is the decoded one and no other old object has changed, and
      there is no crash. */
  ghost predicate Own(st: State, r: nat, kinds: set<string>, walked: Outcome<State>, plain: Outcome<Plain>, stray: bool) {
    if stray then !plain.Done? else
    match walked
    case Done(st') =>
      && StateOk(st') && OnlyChanges(st, st', r) && CursorsKept(st, st', kinds)
      && r < |st'.store| && plain == Done(Full(st'.store, r))
    case Rejected => plain.Rejected?
    case Threw => plain.Threw?
    case Crashed(_) => false
  }

  /** An object's own compound value. */
  lemma OwnValue(st: State, owner: string, k: Schema, e: Entry)
    requires StateOk(st) && owner in st.cursors && k.action == SetValue(owner)
    ensures var (r, treated) := (st.cursors[owner], Handle(st, k.action, e.data));
            treated.Done? && Own(st, r, {}, EndCompound(treated.value, e), PlainCompound(Some(k), Full(st.store, r), e), false)
  {
    var r := st.cursors[owner];
    var st1 := Handle(st, k.action, e.data).value;
    FullEdit(st, st1, r);
    var walked := EndCompound(st1, e);
    if walked.Done? {
      FullEdit(st1, walked.value, r);
    }
  }

  /** The visits of a node at its own path. */
  function NodeVisits(e: Entry, path: string): seq<Visit> {
    [Visit(path, e)] + if GoesToEatCompound(path, e) then [] else VisitsAll(e.children, path)
  }

  lemma StrayNode(own: string, e: Entry, path: string)
    ensures HasStray(own, NodeVisits(e, path)) <==>
            if GoesToEatCompound(path, e) then path != own else HasStray(own, VisitsAll(e.children, path))
  {
    StrayConcat(own, [Visit(path, e)], if GoesToEatCompound(path, e) then [] else VisitsAll(e.children, path));
    assert IsStray(own, Visit(path, e)) <==> GoesToEatCompound(path, e) && path != own;
    assert HasStray(own, [Visit(path, e)]) <==> IsStray(own, [Visit(path, e)][0]);
  }

  ghost predicate Prepared(rows: seq<Row>, kids: seq<Schema>, cs: seq<string>, owner: string, st: State, own: string) {
    Ready(rows, kids, cs, owner, st) && ValueRowIs(rows, own)
  }

  lemma {:induction false} EntryOwn(rows: seq<Row>, kids: seq<Schema>, cs: seq<string>, owner: string, st: State, e: Entry,
                                    own: string)
    requires Prepared(rows, kids, cs, owner, st, own) && KeysSlashFree(e)
    ensures var r := st.cursors[owner];
            Own(st, r, Kinds(kids), Walk(rows, st, e, Join(cs)), PlainEntry(kids, cs, Full(st.store, r), e),
                HasStray(own, Visits(e, Join(cs))))
    decreases e, 3
  {
    ElementNameAgrees(cs);
    var named := EntryName(cs, e.key);
    if named.Some? {
      JoinSnoc(cs, named.value);
      NodeOwn(rows, kids, cs, owner, st, e, named.value, own);
      assert Visits(e, Join(cs)) == NodeVisits(e, Join(cs + [named.value]));
    }
  }

  /** At a compound, whatever the node. */
  lemma CompoundOwn(rows: seq<Row>, kids: seq<Schema>, owner: string, st: State, e: Entry, k: Option<Schema>, path: string,
                    own: string)
    requires StateOk(st) && owner in st.cursors && CursorsOk(kids, owner) && (k.Some? ==> k.value in kids)
    requires Lookup(rows, path) == (if k.None? then None else Some(k.value.action))
    requires GoesToEatCompound(path, e) && (path == own <==> k.Some? && k.value.action.SetValue?)
    ensures var r := st.cursors[owner];
            Own(st, r, {}, WalkAt(rows, st, e, path), PlainCompound(k, Full(st.store, r), e), path != own)
  {
    if path == own {
      var i :| 0 <= i < |kids| && kids[i] == k.value;
      OwnValue(st, owner, k.value, e);
      assert !ForbiddenChars(e.data);
      assert WalkAt(rows, st, e, path) == EndCompound(Handle(st, k.value.action, e.data).value, e);
    }
  }

  lemma {:induction false} NodeOwn(rows: seq<Row>, kids: seq<Schema>, cs: seq<string>, owner: string, st: State, e: Entry,
                                   name: string, own: string)
    requires Prepared(rows, kids, cs, owner, st, own) && KeysSlashFree(e) && NoSlash(name)
    ensures var r, cs' := st.cursors[owner], cs + [name];
            Own(st, r, Kinds(kids), WalkAt(rows, st, e, Join(cs')), PlainAt(FindKid(kids, name), cs', Full(st.store, r), e),
                HasStray(own, NodeVisits(e, Join(cs'))))
    decreases e, 2
  {
    var path, k := Join(cs + [name]), FindKid(kids, name);
    KidCovers(rows, cs, kids, name);
    StrayNode(own, e, path);
    if GoesToEatCompound(path, e) {
      assert (Lookup(rows, path).Some? && Lookup(rows, path).value.SetValue?) <==> path == own;
      CompoundOwn(rows, kids, owner, st, e, k, path, own);
    } else if k.Some? {
      var i :| 0 <= i < |kids| && kids[i] == k.value;
      KindsOfKid(kids, i);
      KnownOwn(rows, kids, i, cs + [name], owner, st, e, own);
    }
  }

  /** A known path, an acceptable value and no compound. */
  lemma {:induction false} KnownOwn(rows: seq<Row>, kids: seq<Schema>, i: nat, cs: seq<string>, owner: string, st: State,
                                    e: Entry, own: string)
    requires StateOk(st) && owner in st.cursors && CursorsOk(kids, owner) && ValueRowIs(rows, own)
    requires KeysSlashFree(e) && i < |kids| && Covers(rows, cs, kids[i].kids)
    requires Kinds(kids[i].kids) <= Kinds(kids) && (kids[i].action.New? ==> kids[i].action.kind in Kinds(kids))
    ensures var r, treated := st.cursors[owner], Handle(st, kids[i].action, e.data);
            && treated.Done?
            && Own(st, r, Kinds(kids), WalkAll(rows, treated.value, e.children, Join(cs)),
                   PlainKnown(kids[i], cs, Full(st.store, r), e), HasStray(own, VisitsAll(e.children, Join(cs))))
    decreases e, 1
  {
    var r, k := st.cursors[owner], kids[i];
    match k.action
    case New(kind, _) => NewOwn(rows, k, cs, owner, st, e, Kinds(kids), own);
    case Skip => AllOwn(rows, k.kids, cs, owner, st, e.children, own);
    case _ =>
      var st1 := Handle(st, k.action, e.data).value;
      FullEdit(st, st1, r);
      AllOwn(rows, k.kids, cs, owner, st1, e.children, own);
  }

  lemma {:induction false} NewOwn(rows: seq<Row>, k: Schema, cs: seq<string>, owner: string, st: State, e: Entry,
                                  kinds: set<string>, own: string)
    requires StateOk(st) && owner in st.cursors && KeysSlashFree(e) && k.action.New? && ValueRowIs(rows, own)
    requires Covers(rows, cs, k.kids) && CursorsOk(k.kids, k.action.kind)
    requires Kinds(k.kids) <= kinds && k.action.kind in kinds
    ensures var r := st.cursors[owner];
            Own(st, r, kinds, WalkAll(rows, Pushed(st, r, k.action.kind), e.children, Join(cs)),
                PlainKnown(k, cs, Full(st.store, r), e), HasStray(own, VisitsAll(e.children, Join(cs))))
    decreases e, 0
  {
    var r, kind := st.cursors[owner], k.action.kind;
    var st1 := Pushed(st, r, kind);
    FullPushed(st, r, kind);
    AllOwn(rows, k.kids, cs, kind, st1, e.children, own);
    var walked := WalkAll(rows, st1, e.children, Join(cs));
    if walked.Done? && !HasStray(own, VisitsAll(e.children, Join(cs))) {
      FullFilled(st, r, kind, walked.value);
      NewCursorsKept(st, r, kind, walked.value, Kinds(k.kids), kinds);
    }
  }

  lemma NewCursorsKept(st: State, r: nat, kind: string, st': State, inner: set<string>, kinds: set<string>)
    requires r < |st.store| && inner <= kinds && kind in kinds && CursorsKept(Pushed(st, r, kind), st', inner)
    ensures CursorsKept(st, st', kinds)
  {
    var st1 := Pushed(st, r, kind);
    forall c | c in st.cursors && c !in kinds
      ensures c in st'.cursors && st'.cursors[c] == st.cursors[c]
    {
      assert c in st1.cursors && st1.cursors[c] == st.cursors[c];
    }
  }

  lemma {:induction false} AllOwn(rows: seq<Row>, kids: seq<Schema>, cs: seq<string>, owner: string, st: State,
                                  es: seq<Entry>, own: string)
    requires Prepared(rows, kids, cs, owner, st, own) && forall i | 0 <= i < |es| :: KeysSlashFree(es[i])
    ensures var r := st.cursors[owner];
            Own(st, r, Kinds(kids), WalkAll(rows, st, es, Join(cs)), PlainAll(kids, cs, Full(st.store, r), es),
                HasStray(own, VisitsAll(es, Join(cs))))
    decreases es, 0
  {
    if es != [] {
      EntryOwn(rows, kids, cs, owner, st, es[0], own);
      StrayConcat(own, Visits(es[0], Join(cs)), VisitsAll(es[1..], Join(cs)));
      var walked := Walk(rows, st, es[0], Join(cs));
      if walked.Done? && !HasStray(own, Visits(es[0], Join(cs))) {
        AllOwn(rows, kids, cs, owner, walked.value, es[1..], own);
      }
    }
  }

  // ---------------------------------------------------------------------------
  // Main results

  /** What the plain decoder is to the parser. It succeeds exactly if the parser does and there is
      no stray compound; a request that the parser accepts is the decoded one, every compound on
      the attribute whose value it is, if and only if there is no stray compound; and without one
      the verdicts agree throughout. */
  ghost predicate PlainlyDecoded(walked: Outcome<State>, plain: Outcome<Plain>, stray: bool) {
    && (plain.Done? <==> walked.Done? && !stray)
    && (walked.Done? ==>
          && StateOk(walked.value) && |walked.value.store| > 0
          && (plain == Done(Full(walked.value.store, 0)) <==> !stray))
    && (!stray ==> !walked.Crashed? && (walked.Rejected? <==> plain.Rejected?) && (walked.Threw? <==> plain.Threw?))
  }

  /** For every schema with sound cursors, one value path, and every tree with slash-free keys. */
  lemma CompoundsAreOwnIff(kids: seq<Schema>, own: string, es: seq<Entry>)
    requires NamesOk(kids) && CursorsOk(kids, ROOT) && ValueRowIs(Rows(kids, ""), own)
    requires forall i | 0 <= i < |es| :: KeysSlashFree(es[i])
    ensures PlainlyDecoded(Parse(Rows(kids, ""), es), PlainAll(kids, [], NOTHING, es), HasStray(own, VisitsAll(es, "")))
  {
    RootCovers(kids);
    StartIsBegin();
    StartIsNothing(START);
    ParserRefinesDecoder(kids, es);
    AllOwn(Rows(kids, ""), kids, [], ROOT, START, es, own);
  }

  lemma StartIsNothing(st: State)
    requires st == START && StateOk(st)
    ensures Full(st.store, 0) == NOTHING
  {
    assert Full(st.store, 0).lists == map[];
  }

  lemma AppendCompoundsAreOwnIff(es: seq<Entry>)
    requires forall i | 0 <= i < |es| :: KeysSlashFree(es[i])
    ensures PlainlyDecoded(Parse(AppendVector("", ROOT), es), PlainAll(AppendSchema(ROOT), [], NOTHING, es),
                           HasStray(AttributeValuePath(""), VisitsAll(es, "")))
  {
    AppendVectorIsSchema("", ROOT);
    AppendSchemaIsSound(ROOT);
    AppendValueRow("", ROOT);
    CompoundsAreOwnIff(AppendSchema(ROOT), AttributeValuePath(""), es);
  }

  lemma NotifyCompoundsAreOwnIff(es: seq<Entry>)
    requires forall i | 0 <= i < |es| :: KeysSlashFree(es[i])
    ensures PlainlyDecoded(Parse(NotifyVector("", ROOT), es), PlainAll(NotifySchema(ROOT), [], NOTHING, es),
                           HasStray(AttributeValuePath(ELEMENT), VisitsAll(es, "")))
  {
    NotifyVectorIsSchema("", ROOT);
    NotifySchemaIsSound(ROOT);
    NotifyValueRow(ROOT);
    CompoundsAreOwnIff(NotifySchema(ROOT), AttributeValuePath(ELEMENT), es);
  }
}
