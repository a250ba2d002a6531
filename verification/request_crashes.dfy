/** When the parsers of the two requests use a NULL cursor, by the paths of the document. */
module RequestCrashes {
  import opened Wrappers
  import opened PropertyTree
  import opened CompoundValue
  import opened JsonWalk
  import opened JsonDecode
  import opened JsonRefinement
  import opened JsonVisits
  import opened RequestTables

  /** Visit `i` is reached, is a compound value, and neither it nor a visit before it is at the
      path `own`. */
  ghost predicate StrayCompound(rows: seq<Row>, vs: seq<Visit>, own: string, i: nat) {
    && i < |vs| && Reached(rows, vs, i) && IsCompound(vs[i])
    && forall j | 0 <= j <= i :: vs[j].Visit? && vs[j].path != own
  }

  /** The table sets lastContextAttribute at this path and nowhere else. */
  ghost predicate ValueRowIs(rows: seq<Row>, own: string) {
    forall path: string :: (Lookup(rows, path).Some? && Lookup(rows, path).value.SetValue?) <==> path == own
  }

  lemma OpensLastIff(rows: seq<Row>, own: string, v: Visit)
    requires ValueRowIs(rows, own) && v.Visit? && (IsCompound(v) || !Stops(rows, v))
    ensures Opens(rows, v, Last) <==> v.path == own
  {
    assert v.path == own ==> Lookup(rows, v.path).Some?;
  }

  lemma StrayDangles(rows: seq<Row>, vs: seq<Visit>, own: string, i: nat)
    requires ValueRowIs(rows, own)
    ensures StrayCompound(rows, vs, own, i) <==> Dangles(rows, vs, i, Last)
  {
    if i < |vs| && Reached(rows, vs, i) && IsCompound(vs[i]) {
      OpensLastIff(rows, own, vs[i]);
      forall j | 0 <= j < i
        ensures vs[j].Visit? && (Opens(rows, vs[j], Last) <==> vs[j].path == own)
      {
        assert !Stops(rows, vs[j]);
        OpensLastIff(rows, own, vs[j]);
      }
    }
  }

  /** With slash-free keys the parser uses a NULL cursor if and only if it reaches a compound
      value before any visit at the attributes' own value path. */
  lemma SlashFreeCrashIff(kids: seq<Schema>, own: string, es: seq<Entry>)
    requires NamesOk(kids) && CursorsOk(kids, ROOT) && ValueRowIs(Rows(kids, ""), own)
    requires forall i | 0 <= i < |es| :: KeysSlashFree(es[i])
    ensures Parse(Rows(kids, ""), es).Crashed? <==>
            exists i: nat :: StrayCompound(Rows(kids, ""), VisitsAll(es, ""), own, i)
  {
    var rows, vs := Rows(kids, ""), VisitsAll(es, "");
    ParserRefinesDecoder(kids, es);
    CrashIff(rows, es);
    if Parse(rows, es).Crashed? {
      var i: nat :| Dangles(rows, vs, i, Last);
      StrayDangles(rows, vs, own, i);
    }
    if i: nat :| StrayCompound(rows, vs, own, i) {
      StrayDangles(rows, vs, own, i);
    }
  }

  // ---------------------------------------------------------------------------
  // The two tables

  function AttributeValuePath(p: string): string {
    p + "/" + "attributes" + "/" + "attribute" + "/" + "value"
  }

  const ELEMENT := "/" + "contextResponses" + "/" + "contextResponse" + "/" + "contextElement"

  lemma {:induction false} LookupIsRow(rows: seq<Row>, path: string)
    ensures Lookup(rows, path).Some? ==>
              exists i :: 0 <= i < |rows| && rows[i].path == path && Lookup(rows, path) == Some(rows[i].action)
  {
    if rows != [] && rows[0].path != path {
      LookupIsRow(rows[1..], path);
      if Lookup(rows[1..], path).Some? {
        var i :| 0 <= i < |rows[1..]| && rows[1..][i].path == path && Lookup(rows[1..], path) == Some(rows[1..][i].action);
        assert rows[i + 1].path == path;
      }
    }
  }

  lemma {:induction false} LookupFirst(rows: seq<Row>, i: nat)
    requires i < |rows| && forall j | 0 <= j < i :: rows[j].path != rows[i].path
    ensures Lookup(rows, rows[i].path) == Some(rows[i].action)
  {
    if i > 0 {
      LookupFirst(rows[1..], i - 1);
    }
  }

  lemma ValueRowAt(rows: seq<Row>, at: nat, own: string)
    requires at < |rows| && rows[at].path == own && rows[at].action.SetValue?
    requires forall j | 0 <= j < at :: |rows[j].path| < |own|
    requires forall i | 0 <= i < |rows| && rows[i].action.SetValue? :: i == at
    ensures ValueRowIs(rows, own)
  {
    LookupFirst(rows, at);
    forall path | Lookup(rows, path).Some? && Lookup(rows, path).value.SetValue?
      ensures path == own
    {
      LookupIsRow(rows, path);
    }
  }

  lemma AttributeRowsShape(p: string, parent: string)
    ensures var rows := AttributeRows(p, parent);
            && |rows| == 10 && rows[4] == Row(AttributeValuePath(p), SetValue("attribute"))
            && (forall j | 0 <= j < 4 :: |rows[j].path| < |AttributeValuePath(p)|)
            && (forall i | 0 <= i < 10 && rows[i].action.SetValue? :: i == 4)
  {
  }

  lemma MetadataRowsShape(p: string, kind: string, parent: string)
    ensures forall i | 0 <= i < |MetadataRows(p, kind, parent)| :: !MetadataRows(p, kind, parent)[i].action.SetValue?
  {
  }

  /** Rows before and after the attributes' rows. */
  lemma ValueRowBetween(before: seq<Row>, p: string, parent: string, after: seq<Row>)
    requires forall j | 0 <= j < |before| :: |before[j].path| < |AttributeValuePath(p)| && !before[j].action.SetValue?
    requires forall j | 0 <= j < |after| :: !after[j].action.SetValue?
    ensures ValueRowIs(before + AttributeRows(p, parent) + after, AttributeValuePath(p))
  {
    AttributeRowsShape(p, parent);
    var mid, n := AttributeRows(p, parent), |before|;
    var rows := before + mid + after;
    assert rows[n + 4] == mid[4];
    forall j | 0 <= j < n + 4
      ensures |rows[j].path| < |AttributeValuePath(p)|
    {
      assert rows[j] == if j < n then before[j] else mid[j - n];
    }
    assert forall i | 0 <= i < n :: rows[i] == before[i];
    assert forall i | n + 10 <= i < |rows| :: rows[i] == after[i - n - 10];
    assert forall i | n <= i < n + 10 :: rows[i] == mid[i - n];
    ValueRowAt(rows, n + 4, AttributeValuePath(p));
  }

  lemma AppendValueRow(p: string, root: string)
    ensures ValueRowIs(AppendVector(p, root), AttributeValuePath(p))
  {
    MetadataRowsShape(p, "domainMetadata", root);
    ValueRowBetween(AppendVector(p, root)[..4], p, root, MetadataRows(p, "domainMetadata", root));
    assert AppendVector(p, root) ==
           AppendVector(p, root)[..4] + AttributeRows(p, root) + MetadataRows(p, "domainMetadata", root);
  }

  /** The rows below a context element, with the attributes' rows in the middle. */
  lemma ElementRowsShape(p: string, owner: string)
    ensures ElementRows(p, owner) == ElementRows(p, owner)[..4] + AttributeRows(p, owner) + MetadataRows(p, "domainMetadata", owner)
    ensures forall j | 0 <= j < 4 :: |ElementRows(p, owner)[j].path| < |AttributeValuePath(p)| && !ElementRows(p, owner)[j].action.SetValue?
  {
  }

  lemma NotifyValueRow(root: string)
    ensures ValueRowIs(NotifyVector("", root), AttributeValuePath(ELEMENT))
  {
    NotifyValueRowBelow("", "contextResponse", root, ELEMENT);
  }

  /** `p` and `owner` are kept abstract: "" and "contextResponse". */
  lemma NotifyValueRowBelow(p: string, owner: string, root: string, element: string)
    requires p == "" && owner == "contextResponse"
    requires element == p + "/" + "contextResponses" + "/" + "contextResponse" + "/" + "contextElement"
    ensures ValueRowIs(NotifyVector(p, root), AttributeValuePath(element))
  {
    var response := p + "/" + "contextResponses" + "/" + "contextResponse";
    var head := NotifyVector(p, root)[..4] + [Row(element, Skip)];
    var tail := [Row(response + "/" + "statusCode", Skip)] + StatusCodeRows(response + "/" + "statusCode", owner);
    var metadatas := MetadataRows(element, "domainMetadata", owner);
    ElementRowsShape(element, owner);
    MetadataRowsShape(element, "domainMetadata", owner);
    var before := head + ElementRows(element, owner)[..4];
    assert NotifyVector(p, root) == before + AttributeRows(element, owner) + (metadatas + tail);
    ValueRowBetween(before, element, owner, metadatas + tail);
  }

  /** Append context element, with slash-free keys: a NULL cursor is used if and only if a compound
      value is reached before any attribute's value. */
  lemma AppendCrashIff(es: seq<Entry>)
    requires forall i | 0 <= i < |es| :: KeysSlashFree(es[i])
    ensures Parse(AppendVector("", ROOT), es).Crashed? <==>
            exists i: nat :: StrayCompound(AppendVector("", ROOT), VisitsAll(es, ""), AttributeValuePath(""), i)
  {
    AppendVectorIsSchema("", ROOT);
    AppendSchemaIsSound(ROOT);
    AppendValueRow("", ROOT);
    SlashFreeCrashIff(AppendSchema(ROOT), AttributeValuePath(""), es);
  }

  /** The same for notify context. */
  lemma NotifyCrashIff(es: seq<Entry>)
    requires forall i | 0 <= i < |es| :: KeysSlashFree(es[i])
    ensures Parse(NotifyVector("", ROOT), es).Crashed? <==>
            exists i: nat :: StrayCompound(NotifyVector("", ROOT), VisitsAll(es, ""), AttributeValuePath(ELEMENT), i)
  {
    NotifyVectorIsSchema("", ROOT);
    NotifySchemaIsSound(ROOT);
    NotifyValueRow(ROOT);
    SlashFreeCrashIff(NotifySchema(ROOT), AttributeValuePath(ELEMENT), es);
  }

  // ---------------------------------------------------------------------------
  // Documents that show it

  lemma VisitsOfOne(e: Entry, path: string)
    ensures VisitsAll([e], path) == Visits(e, path)
  {
    assert [e][1..] == [];
  }

  lemma VisitsOfNamed(e: Entry, path: string)
    requires e.key != "" && e.key != ArrayElementName(path)
    ensures var path' := path + "/" + e.key;
            Visits(e, path) == [Visit(path', e)] + if GoesToEatCompound(path', e) then [] else VisitsAll(e.children, path')
  {
  }

  /** At the top level no key is refused as a misplaced array element. */
  lemma TopLevelElement(path: string)
    requires path == ""
    ensures ArrayElementName(path) == ""
  {
  }

  lemma AppendPaths(p: string, root: string)
    ensures var rows := AppendVector(p, root);
            && Lookup(rows, p + "/" + "attributes") == Some(Skip)
            && Lookup(rows, p + "/" + "attributes" + "/" + "attribute") == Some(New("attribute", root))
            && Lookup(rows, p + "/" + "attributes" + "/" + "attribute" + "/" + "name") == Some(Set("attribute", "name", false))
  {
    var rows := AppendVector(p, root);
    assert forall j | 0 <= j < 4 :: rows[j] == AppendVector(p, root)[..4][j];
    assert |rows[0].path| == |p| + 20 && |rows[1].path| == |p| + 3 && |rows[2].path| == |p| + 5 && |rows[3].path| == |p| + 10;
    assert |rows[4].path| == |p| + 11 && |rows[5].path| == |p| + 21 && |rows[6].path| == |p| + 26;
    LookupFirst(rows, 4);
    LookupFirst(rows, 5);
    LookupFirst(rows, 6);
  }

  lemma CompoundRoots(i: nat, path: string)
    requires i < 4 && COMPOUND_ROOTS[i] <= path
    ensures IsCompoundPath(path)
  {
    assert COMPOUND_ROOTS[i] in COMPOUND_ROOTS;
  }

  /** {"value": {...}}: a compound where the request has no value at all. */
  lemma CompoundAtTopCrashes(e: Entry, path: string)
    requires e.key == "value" && e.data == "" && e.children != [] && path == ""
    ensures Parse(AppendVector(path, ROOT), [e]).Crashed?
  {
    var rows, v := AppendVector(path, ROOT), Visit(path + "/" + e.key, e);
    TopLevelElement(path);
    VisitsOfOne(e, path);
    VisitsOfNamed(e, path);
    CompoundRoots(3, v.path);
    var vs := VisitsAll([e], path);
    assert vs == [v];
    AppendValueRow(path, ROOT);
    assert |v.path| < |AttributeValuePath(path)|;
    assert Dangles(rows, vs, 0, Last);
    CrashIff(rows, [e]);
  }

  /** {"attributes": [{"valueX": {...}}]}: a name that merely starts like the value. */
  lemma CompoundPrefixCrashes(children: seq<Entry>, path: string)
    requires children != [] && path == ""
    ensures Parse(AppendVector(path, ROOT),
                  [Entry("attributes", "", [Entry("", "", [Entry("valueX", "", children)])])]).Crashed?
  {
    var e2 := Entry("valueX", "", children);
    var e1 := Entry("", "", [e2]);
    var e0 := Entry("attributes", "", [e1]);
    PrefixVisits(e0, e1, e2, path, "attribute");
    PrefixDangles(e0, e1, e2, path, VisitsAll([e0], path));
    CrashIff(AppendVector(path, ROOT), [e0]);
  }

  lemma PrefixDangles(e0: Entry, e1: Entry, e2: Entry, path: string, vs: seq<Visit>)
    requires path == "" && e0.data == e1.data == e2.data == "" && |vs| == 3 && IsCompound(vs[2]) && !IsCompound(vs[0]) && !IsCompound(vs[1])
    requires var p0 := path + "/" + "attributes";
             var p1 := p0 + "/" + "attribute";
             vs[0] == Visit(p0, e0) && vs[1] == Visit(p1, e1) && vs[2] == Visit(p1 + "/" + "valueX", e2)
    ensures Dangles(AppendVector(path, ROOT), vs, 2, Last)
  {
    var rows := AppendVector(path, ROOT);
    AppendPaths(path, ROOT);
    AppendValueRow(path, ROOT);
    assert |vs[2].path| == |AttributeValuePath(path)| + 1;
    assert ActionAt(rows, vs[0]) == Some(Skip) && ActionAt(rows, vs[1]) == Some(New("attribute", ROOT));
    ThirdDangles(rows, vs, ROOT);
  }

  /** A compound off the value path, after two nodes that set no value. */
  lemma ThirdDangles(rows: seq<Row>, vs: seq<Visit>, root: string)
    requires |vs| == 3 && vs[2].Visit? && IsCompound(vs[2]) && !IsCompound(vs[0]) && !IsCompound(vs[1])
    requires vs[0].Visit? && vs[1].Visit?
    requires !(Lookup(rows, vs[2].path).Some? && Lookup(rows, vs[2].path).value.SetValue?)
    requires ActionAt(rows, vs[0]) == Some(Skip) && ActionAt(rows, vs[1]) == Some(New("attribute", root))
    ensures Dangles(rows, vs, 2, Last)
  {
    assert !Stops(rows, vs[0]) && !Opens(rows, vs[0], Last);
    assert !Stops(rows, vs[1]) && !Opens(rows, vs[1], Last);
    assert Needs(rows, vs[2], Last);
    assert forall j | 0 <= j < 2 :: vs[j] == vs[0] || vs[j] == vs[1];
  }

  lemma AttributesElement(name: string, element: string)
    requires name == "attributes" && element == "attribute"
    ensures Singular(name) == element && |Singular(element)| == 8
  {
    assert name[..9] == element;
    assert element[|element| - 2..][0] == 't';
    assert element[..8][6..][0] == 'u';
  }

  /** A named node and the visits below it. */
  lemma VisitsBelow(e: Entry, path: string, name: string, kid: Entry)
    requires e.children == [kid] && !IsCompoundPath(path + "/" + name)
    requires if e.key == "" then name == ArrayElementName(path) else name == e.key && e.key != ArrayElementName(path)
    ensures Visits(e, path) == [Visit(path + "/" + name, e)] + Visits(kid, path + "/" + name)
  {
    VisitsOfOne(kid, path + "/" + name);
  }

  lemma PrefixVisits(e0: Entry, e1: Entry, e2: Entry, path: string, element: string)
    requires path == "" && element == "attribute"
    requires e0.key == "attributes" && e0.data == "" && e0.children == [e1]
    requires e1.key == "" && e1.data == "" && e1.children == [e2]
    requires e2.key == "valueX" && e2.data == "" && e2.children != []
    ensures var p0 := path + "/" + e0.key;
            var p1 := p0 + "/" + element;
            && VisitsAll([e0], path) == [Visit(p0, e0), Visit(p1, e1), Visit(p1 + "/" + e2.key, e2)]
            && IsCompoundPath(p1 + "/" + e2.key) && !IsCompoundPath(p0) && !IsCompoundPath(p1)
  {
    var p0 := path + "/" + e0.key;
    var p1 := p0 + "/" + element;
    PrefixNames(path, e0.key, element);
    PrefixPaths(path, e0.key, element, e2.key);
    VisitsOfOne(e0, path);
    VisitsBelow(e0, path, e0.key, e1);
    VisitsBelow(e1, p0, element, e2);
    VisitsOfNamed(e2, p1);
  }

  lemma PrefixNames(path: string, name: string, element: string)
    requires path == "" && name == "attributes" && element == "attribute"
    ensures var p0 := path + "/" + name;
            && ArrayElementName(path) == "" && ArrayElementName(p0) == element
            && |ArrayElementName(p0 + "/" + element)| == 8
  {
    TopLevelElement(path);
    AttributesElement(name, element);
    LastSegmentOfJoin(path, name);
    LastSegmentOfJoin(path + "/" + name, element);
  }

  lemma PrefixPaths(path: string, name: string, element: string, last: string)
    requires path == "" && name == "attributes" && element == "attribute" && last == "valueX"
    ensures var p0 := path + "/" + name;
            var p1 := p0 + "/" + element;
            IsCompoundPath(p1 + "/" + last) && !IsCompoundPath(p0) && !IsCompoundPath(p1)
  {
    var p0 := path + "/" + name;
    var p1 := p0 + "/" + element;
    NotCompound(p0);
    NotCompound(p1);
    CompoundRoots(1, p1 + "/" + last);
  }

  /** A path that is shorter than the value paths and does not start like "/value". */
  lemma NotCompound(path: string)
    requires 2 <= |path| < 27 && path[1] == 'a'
    ensures !IsCompoundPath(path)
  {
  }

  /** {"attributes/attribute/name": ...}: a key that spells a nested path. */
  lemma SlashInKeyCrashes(e: Entry, path: string)
    requires path == "" && e.key == "attributes" + "/" + "attribute" + "/" + "name" && !ForbiddenChars(e.data)
    ensures Parse(AppendVector(path, ROOT), [e]).Crashed?
  {
    var rows, p := AppendVector(path, ROOT), path + "/" + e.key;
    TopLevelElement(path);
    VisitsOfOne(e, path);
    VisitsOfNamed(e, path);
    AppendPaths(path, ROOT);
    assert p == path + "/" + "attributes" + "/" + "attribute" + "/" + "name";
    assert VisitsAll([e], path)[0] == Visit(p, e);
    assert Needs(rows, Visit(p, e), Kind("attribute"));
    assert Dangles(rows, VisitsAll([e], path), 0, Kind("attribute"));
    CrashIff(rows, [e]);
  }

  lemma WalkOne(rows: seq<Row>, st: State, e: Entry, path: string)
    requires path == "" && e.key != ""
    ensures WalkAll(rows, st, [e], path) == WalkAt(rows, st, e, path + "/" + e.key)
  {
    TopLevelElement(path);
    var one := [e];
    assert one[1..] == [];
    assert Walk(rows, st, one[0], path) == WalkAt(rows, st, e, path + "/" + e.key);
  }

  lemma WalkLeaf(rows: seq<Row>, st: State, e: Entry, path: string, action: Action)
    requires !ForbiddenChars(e.data) && e.children == []
    requires Lookup(rows, path) == Some(action) && Handle(st, action, e.data).Done?
    ensures WalkAt(rows, st, e, path).Done?
  {
    var treated := Handle(st, action, e.data);
    assert Treat(rows, st, path, e.data) == Some(treated);
    assert WalkAll(rows, treated.value, e.children, path).Done?;
    assert WalkBelow(rows, treated.value, e, path).Done?;
  }

  /** {"attributes/attribute": ""}: a slash that does no harm, since the handler's cursor is set. */
  lemma SlashInKeyWorks(e: Entry, path: string)
    requires path == "" && e == Entry("attributes" + "/" + "attribute", "", [])
    ensures Parse(AppendVector(path, ROOT), [e]).Done?
  {
    AppendPaths(path, ROOT);
    assert path + "/" + e.key == path + "/" + "attributes" + "/" + "attribute";
    WalkOne(AppendVector(path, ROOT), START, e, path);
    assert !ForbiddenChars(e.data);
    WalkLeaf(AppendVector(path, ROOT), START, e, path + "/" + e.key, New("attribute", ROOT));
  }

  /** A key whose path is not in the table is only refused. */
  lemma UnknownKeyIsRejected(e: Entry, path: string)
    requires path == "" && e.key != "" && Lookup(AppendVector(path, ROOT), path + "/" + e.key).None?
    requires !GoesToEatCompound(path + "/" + e.key, e)
    ensures Parse(AppendVector(path, ROOT), [e]) == Rejected
  {
    WalkOne(AppendVector(path, ROOT), START, e, path);
  }

  // ---------------------------------------------------------------------------
  // A compound on the wrong attribute

  /** The request with one attribute just opened. */
  function OneAttribute(kind: string): State {
    State([EMPTY_CELL.(vectors := map[kind := [1]]), EMPTY_CELL], map[ROOT := 0][kind := 1], None)
  }

  lemma MisplacedStart(rows: seq<Row>, st: State, v0: Visit, v1: Visit, rest: seq<Visit>, kind: string)
    requires v0.Visit? && v1.Visit? && !IsCompound(v0) && !IsCompound(v1) && st == START && kind != ROOT
    requires ActionAt(rows, v0) == Some(Skip) && ActionAt(rows, v1) == Some(New(kind, ROOT))
    ensures Run(rows, st, [v0] + ([v1] + rest)) == Run(rows, OneAttribute(kind), rest)
  {
    assert Step(rows, st, v1) == Done(OneAttribute(kind)) by {
      var m: map<string, seq<nat>> := map[];
      assert Vector(EMPTY_CELL, kind) + [1] == [1] && m[kind := [1]] == map[kind := [1]];
      assert st.store[0] == EMPTY_CELL;
      assert Step(rows, st, v1).value.store == OneAttribute(kind).store;
    }
    RunCons(rows, st, v0, [v1] + rest);
    RunCons(rows, st, v1, rest);
  }

  lemma MisplacedEnd(rows: seq<Row>, st: State, v2: Visit, v3: Visit, v4: Visit, kind: string)
    requires v2.Visit? && v3.Visit? && v4.Visit? && !IsCompound(v2) && !IsCompound(v3) && kind != ROOT && st == OneAttribute(kind)
    requires ActionAt(rows, v2) == Some(SetValue(kind)) && ActionAt(rows, v3) == Some(New(kind, ROOT))
    requires ActionAt(rows, v4) == None && IsCompound(v4) && Accepts(v4.entry)
    ensures var r := Run(rows, st, [v2] + ([v3] + ([v4] + [])));
            && r.Done? && |r.value.store| == 3 && r.value.store[0].vectors == map[kind := [1, 2]]
            && r.value.store[1].compound == Some(EatRoot(v4.entry).0) && r.value.store[2].compound == None
  {
    var s3 := Step(rows, st, v2).value;
    assert s3.last == Some(1) && |s3.store| == 2 && s3.store[0] == st.store[0] && s3.cursors == st.cursors;
    var s4 := Step(rows, s3, v3).value;
    assert Vector(s3.store[0], kind) + [2] == [1, 2];
    assert s3.store[0].vectors[kind := [1, 2]] == map[kind := [1, 2]];
    assert s4.last == Some(1) && |s4.store| == 3 && s4.store[0].vectors == map[kind := [1, 2]] && s4.store[2] == EMPTY_CELL;
    RunCons(rows, st, v2, [v3] + ([v4] + []));
    RunCons(rows, s3, v3, [v4] + []);
    RunCons(rows, s4, v4, []);
  }

  lemma MisplacedRun(rows: seq<Row>, st: State, vs: seq<Visit>, kind: string)
    requires |vs| == 5 && (forall i | 0 <= i < 5 :: vs[i].Visit?) && (forall i | 0 <= i < 4 :: !IsCompound(vs[i]))
    requires ActionAt(rows, vs[0]) == Some(Skip) && ActionAt(rows, vs[1]) == Some(New(kind, ROOT))
    requires ActionAt(rows, vs[2]) == Some(SetValue(kind)) && ActionAt(rows, vs[3]) == Some(New(kind, ROOT))
    requires ActionAt(rows, vs[4]) == None && IsCompound(vs[4]) && Accepts(vs[4].entry)
    requires st == START && kind != ROOT
    ensures var r := Run(rows, st, vs);
            && r.Done? && |r.value.store| == 3 && r.value.store[0].vectors == map[kind := [1, 2]]
            && r.value.store[1].compound == Some(EatRoot(vs[4].entry).0) && r.value.store[2].compound == None
  {
    var rest := [vs[2]] + ([vs[3]] + ([vs[4]] + []));
    MisplacedStart(rows, st, vs[0], vs[1], rest, kind);
    MisplacedEnd(rows, OneAttribute(kind), vs[2], vs[3], vs[4], kind);
    assert vs == [vs[0]] + ([vs[1]] + rest);
  }

  lemma VisitsOfTwo(e: Entry, f: Entry, path: string)
    ensures VisitsAll([e, f], path) == Visits(e, path) + Visits(f, path)
  {
    assert [e, f][1..] == [f];
    VisitsOfOne(f, path);
  }

  /** One attribute element with one member. */
  lemma ElementVisits(e: Entry, member: Entry, p0: string, element: string)
    requires e.key == "" && e.children == [member] && ArrayElementName(p0) == element && !IsCompoundPath(p0 + "/" + element)
    requires member.key != "" && member.key != ArrayElementName(p0 + "/" + element)
    requires member.children == [] || GoesToEatCompound(p0 + "/" + element + "/" + member.key, member)
    ensures Visits(e, p0) == [Visit(p0 + "/" + element, e), Visit(p0 + "/" + element + "/" + member.key, member)]
  {
    VisitsBelow(e, p0, element, member);
    VisitsOfNamed(member, p0 + "/" + element);
    assert VisitsAll([], p0 + "/" + element + "/" + member.key) == [];
  }

  /** {"attributes": [{"value": ...}, {"valueX": {...}}]}: the request is accepted, and the second
      attribute's compound is attached to the first. */
  lemma CompoundIsMisplaced(e0: Entry, a1: Entry, a2: Entry, v1: Entry, v2: Entry, path: string, element: string)
    requires path == "" && element == "attribute" && e0 == Entry("attributes", "", [a1, a2])
    requires a1 == Entry("", "", [v1]) && v1.key == "value" && v1.children == [] && !ForbiddenChars(v1.data)
    requires a2 == Entry("", "", [v2]) && v2.key == "valueX" && v2.data == "" && v2.children != [] && Accepts(v2)
    ensures var r := Parse(AppendVector(path, ROOT), [e0]);
            && r.Done? && |r.value.store| == 3 && r.value.store[0].vectors == map["attribute" := [1, 2]]
            && r.value.store[1].compound == Some(EatRoot(v2).0) && r.value.store[2].compound == None
  {
    var p0 := path + "/" + e0.key;
    var p1 := p0 + "/" + element;
    var vs := [Visit(p0, e0), Visit(p1, a1), Visit(p1 + "/" + v1.key, v1), Visit(p1, a2), Visit(p1 + "/" + v2.key, v2)];
    MisplacedVisits(e0, a1, a2, v1, v2, path, element);
    MisplacedActions(path, e0, a1, a2, v1, v2, vs);
    MisplacedRun(AppendVector(path, ROOT), START, vs, "attribute");
    WalkAllIsRun(AppendVector(path, ROOT), START, [e0], path);
  }

  lemma MisplacedVisits(e0: Entry, a1: Entry, a2: Entry, v1: Entry, v2: Entry, path: string, element: string)
    requires path == "" && element == "attribute" && e0 == Entry("attributes", "", [a1, a2])
    requires a1 == Entry("", "", [v1]) && v1.key == "value" && v1.children == []
    requires a2 == Entry("", "", [v2]) && v2.key == "valueX" && v2.data == "" && v2.children != []
    ensures var p0 := path + "/" + e0.key;
            var p1 := p0 + "/" + element;
            var vs := [Visit(p0, e0), Visit(p1, a1), Visit(p1 + "/" + v1.key, v1), Visit(p1, a2), Visit(p1 + "/" + v2.key, v2)];
            VisitsAll([e0], path) == vs && IsCompound(vs[4]) && forall i | 0 <= i < 4 :: !IsCompound(vs[i])
  {
    var p0 := path + "/" + e0.key;
    var p1 := p0 + "/" + element;
    PrefixNames(path, e0.key, element);
    PrefixPaths(path, e0.key, element, v2.key);
    assert |v1.key| == 5 && |v2.key| == 6;
    TwoElementVisits(e0, a1, a2, v1, v2, path, element);
  }

  lemma TwoElementVisits(e0: Entry, a1: Entry, a2: Entry, v1: Entry, v2: Entry, path: string, element: string)
    requires e0.key != "" && e0.key != ArrayElementName(path) && e0.children == [a1, a2]
    requires a1.key == a2.key == "" && a1.children == [v1] && a2.children == [v2] && v1.key != "" && v2.key != ""
    requires var p0 := path + "/" + e0.key;
             var p1 := p0 + "/" + element;
             && ArrayElementName(p0) == element && !IsCompoundPath(p0) && !IsCompoundPath(p1)
             && v1.key != ArrayElementName(p1) && v2.key != ArrayElementName(p1)
             && v1.children == [] && GoesToEatCompound(p1 + "/" + v2.key, v2)
    ensures var p0 := path + "/" + e0.key;
            var p1 := p0 + "/" + element;
            VisitsAll([e0], path) ==
            [Visit(p0, e0)] + ([Visit(p1, a1), Visit(p1 + "/" + v1.key, v1)] + [Visit(p1, a2), Visit(p1 + "/" + v2.key, v2)])
  {
    var p0 := path + "/" + e0.key;
    VisitsOfOne(e0, path);
    VisitsOfNamed(e0, path);
    VisitsOfTwo(a1, a2, p0);
    ElementVisits(a1, v1, p0, element);
    ElementVisits(a2, v2, p0, element);
  }

  lemma MisplacedActions(path: string, e0: Entry, a1: Entry, a2: Entry, v1: Entry, v2: Entry, vs: seq<Visit>)
    requires path == "" && e0.data == a1.data == a2.data == "" && v1.key == "value" && !ForbiddenChars(v1.data) && v2.key == "valueX"
    requires var p0 := path + "/" + "attributes";
             var p1 := p0 + "/" + "attribute";
             vs == [Visit(p0, e0), Visit(p1, a1), Visit(p1 + "/" + v1.key, v1), Visit(p1, a2), Visit(p1 + "/" + v2.key, v2)]
    ensures var rows := AppendVector(path, ROOT);
            && ActionAt(rows, vs[0]) == Some(Skip) && ActionAt(rows, vs[1]) == Some(New("attribute", ROOT))
            && ActionAt(rows, vs[2]) == Some(SetValue("attribute")) && ActionAt(rows, vs[3]) == Some(New("attribute", ROOT))
            && ActionAt(rows, vs[4]) == None
  {
    AppendPaths(path, ROOT);
    AppendValueLookup(path, ROOT);
    assert !ForbiddenChars(e0.data) && !ForbiddenChars(a1.data) && !ForbiddenChars(a2.data);
  }

  lemma AppendValueLookup(p: string, root: string)
    ensures Lookup(AppendVector(p, root), AttributeValuePath(p)) == Some(SetValue("attribute"))
    ensures Lookup(AppendVector(p, root), p + "/" + "attributes" + "/" + "attribute" + "/" + "valueX").None?
  {
    var rows := AppendVector(p, root);
    AttributeRowsShape(p, root);
    assert rows[8] == AttributeRows(p, root)[4];
    assert |rows[0].path| == |p| + 20 && |rows[1].path| == |p| + 3 && |rows[2].path| == |p| + 5 && |rows[3].path| == |p| + 10;
    assert forall j | 4 <= j < 8 :: rows[j] == AttributeRows(p, root)[j - 4];
    LookupFirst(rows, 8);
    AppendRowLengths(p, root);
    LookupIsRow(rows, p + "/" + "attributes" + "/" + "attribute" + "/" + "valueX");
  }

  lemma AppendRowLengths(p: string, root: string)
    ensures forall i | 0 <= i < |AppendVector(p, root)| :: |AppendVector(p, root)[i].path| != |p| + 28
  {
  }
}
