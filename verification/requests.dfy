/** The two requests as records, printed as property trees: the parser reads back exactly what was
    printed, every string in the member it belongs to. */
module Requests {
  import opened Wrappers
  import opened SlashPaths
  import opened PropertyTree
  import opened CompoundValue
  import opened JsonWalk
  import opened JsonDecode
  import opened JsonRefinement
  import opened JsonVisits
  import opened RequestTables
  import opened RequestCrashes
  import opened OwnCompounds

  datatype MetadataRecord = MetadataRecord(name: string, kind: string, value: string)

  /** A string, or the members or items of a compound. */
  datatype ValueRecord = Text(text: string) | Tree(parts: seq<Entry>)

  datatype AttributeRecord = AttributeRecord(name: string, kind: string, value: ValueRecord, metadatas: seq<MetadataRecord>)

  /** appendContextElement. */
  datatype AppendRecord = AppendRecord(
    attributeDomainName: string, id: string, kind: string, isPattern: string,
    attributes: seq<AttributeRecord>, metadatas: seq<MetadataRecord>)

  datatype StatusRecord = StatusRecord(code: string, reasonPhrase: string, details: string)

  datatype ResponseRecord = ResponseRecord(
    id: string, kind: string, isPattern: string, attributeDomainName: string,
    attributes: seq<AttributeRecord>, metadatas: seq<MetadataRecord>, status: StatusRecord)

  /** notifyContext. */
  datatype NotifyRecord = NotifyRecord(subscriptionId: string, originator: string, responses: seq<ResponseRecord>)

  // ---------------------------------------------------------------------------
  // Records that can be sent: no forbidden characters, and compounds that are accepted

  predicate Clean(s: string) {
    !ForbiddenChars(s)
  }

  predicate MetadataOk(m: MetadataRecord) {
    Clean(m.name) && Clean(m.kind) && Clean(m.value)
  }

  predicate MetadatasOk(ms: seq<MetadataRecord>) {
    forall i | 0 <= i < |ms| :: MetadataOk(ms[i])
  }

  predicate ValueOk(v: ValueRecord) {
    match v
    case Text(text) => Clean(text)
    case Tree(parts) =>
      parts != [] && Accepts(Entry("value", "", parts)) && forall i | 0 <= i < |parts| :: KeysSlashFree(parts[i])
  }

  predicate AttributeOk(a: AttributeRecord) {
    Clean(a.name) && Clean(a.kind) && ValueOk(a.value) && MetadatasOk(a.metadatas)
  }

  predicate AttributesOk(attrs: seq<AttributeRecord>) {
    forall i | 0 <= i < |attrs| :: AttributeOk(attrs[i])
  }

  predicate AppendOk(r: AppendRecord) {
    && Clean(r.attributeDomainName) && Clean(r.id) && Clean(r.kind) && Clean(r.isPattern)
    && AttributesOk(r.attributes) && MetadatasOk(r.metadatas)
  }

  predicate ResponseOk(r: ResponseRecord) {
    && Clean(r.id) && Clean(r.kind) && Clean(r.isPattern) && Clean(r.attributeDomainName)
    && AttributesOk(r.attributes) && MetadatasOk(r.metadatas)
    && Clean(r.status.code) && Clean(r.status.reasonPhrase) && Clean(r.status.details)
  }

  predicate NotifyOk(r: NotifyRecord) {
    Clean(r.subscriptionId) && Clean(r.originator) && forall i | 0 <= i < |r.responses| :: ResponseOk(r.responses[i])
  }

  // ---------------------------------------------------------------------------
  // Printing

  function Leaf(key: string, data: string): Entry {
    Entry(key, data, [])
  }

  function PrintMetadata(m: MetadataRecord): Entry {
    Entry("", "", [Leaf("name", m.name), Leaf("type", m.kind), Leaf("value", m.value)])
  }

  function PrintMetadatas(ms: seq<MetadataRecord>): seq<Entry> {
    if ms == [] then [] else [PrintMetadata(ms[0])] + PrintMetadatas(ms[1..])
  }

  function PrintValue(v: ValueRecord): Entry {
    match v
    case Text(text) => Leaf("value", text)
    case Tree(parts) => Entry("value", "", parts)
  }

  function PrintAttribute(a: AttributeRecord): Entry {
    Entry("", "", [Leaf("name", a.name), Leaf("type", a.kind), PrintValue(a.value),
                   Entry("metadatas", "", PrintMetadatas(a.metadatas))])
  }

  function PrintAttributes(attrs: seq<AttributeRecord>): seq<Entry> {
    if attrs == [] then [] else [PrintAttribute(attrs[0])] + PrintAttributes(attrs[1..])
  }

  function PrintAppend(r: AppendRecord): seq<Entry> {
    [Leaf("attributeDomainName", r.attributeDomainName), Leaf("id", r.id), Leaf("type", r.kind),
     Leaf("isPattern", r.isPattern),
     Entry("attributes", "", PrintAttributes(r.attributes)), Entry("metadatas", "", PrintMetadatas(r.metadatas))]
  }

  function PrintResponse(r: ResponseRecord): Entry {
    Entry("", "",
          [Entry("contextElement", "",
                 [Leaf("id", r.id), Leaf("type", r.kind), Leaf("isPattern", r.isPattern),
                  Leaf("attributeDomainName", r.attributeDomainName),
                  Entry("attributes", "", PrintAttributes(r.attributes)),
                  Entry("metadatas", "", PrintMetadatas(r.metadatas))]),
           Entry("statusCode", "",
                 [Leaf("code", r.status.code), Leaf("reasonPhrase", r.status.reasonPhrase),
                  Leaf("details", r.status.details)])])
  }

  function PrintResponses(rs: seq<ResponseRecord>): seq<Entry> {
    if rs == [] then [] else [PrintResponse(rs[0])] + PrintResponses(rs[1..])
  }

  function PrintNotify(r: NotifyRecord): seq<Entry> {
    [Leaf("subscriptionId", r.subscriptionId), Leaf("originator", r.originator),
     Entry("contextResponses", "", PrintResponses(r.responses))]
  }

  // ---------------------------------------------------------------------------
  // The objects that a request must become, member by member

  function MetadataObject(m: MetadataRecord): Plain {
    Plain(map["name" := m.name, "type" := m.kind, "value" := m.value], map[], None)
  }

  function MetadataObjects(ms: seq<MetadataRecord>): seq<Plain> {
    if ms == [] then [] else [MetadataObject(ms[0])] + MetadataObjects(ms[1..])
  }

  /** A list that is there only if it is not empty. */
  function Listed(kind: string, os: seq<Plain>): map<string, seq<Plain>> {
    if os == [] then map[] else map[kind := os]
  }

  function AttributeObject(a: AttributeRecord): Plain {
    Plain(map["name" := a.name, "type" := a.kind, "value" := if a.value.Text? then a.value.text else ""],
          Listed("metadata", MetadataObjects(a.metadatas)),
          if a.value.Text? then None else Some(EatRoot(Entry("value", "", a.value.parts)).0))
  }

  function AttributeObjects(attrs: seq<AttributeRecord>): seq<Plain> {
    if attrs == [] then [] else [AttributeObject(attrs[0])] + AttributeObjects(attrs[1..])
  }

  /** An isPattern that is no boolean is ignored in this request. */
  function AppendObject(r: AppendRecord): Plain {
    var fields := map["attributeDomainName" := r.attributeDomainName, "id" := r.id, "type" := r.kind];
    Plain(if r.isPattern in {"true", "1", "false", "0"} then fields["isPattern" := r.isPattern] else fields,
          Listed("attribute", AttributeObjects(r.attributes)) + Listed("domainMetadata", MetadataObjects(r.metadatas)), None)
  }

  function ResponseObject(r: ResponseRecord): Plain {
    Plain(map["id" := r.id, "type" := r.kind, "isPattern" := r.isPattern, "attributeDomainName" := r.attributeDomainName,
              "code" := r.status.code, "reasonPhrase" := r.status.reasonPhrase, "details" := r.status.details],
          Listed("attribute", AttributeObjects(r.attributes)) + Listed("domainMetadata", MetadataObjects(r.metadatas)), None)
  }

  function ResponseObjects(rs: seq<ResponseRecord>): seq<Plain> {
    if rs == [] then [] else [ResponseObject(rs[0])] + ResponseObjects(rs[1..])
  }

  function NotifyObject(r: NotifyRecord): Plain {
    Plain(map["subscriptionId" := r.subscriptionId, "originator" := r.originator],
          Listed("contextResponse", ResponseObjects(r.responses)), None)
  }

  // ---------------------------------------------------------------------------
  // One entry at a time

  lemma {:induction false} FindKidAt(kids: seq<Schema>, i: nat)
    requires NamesOk(kids) && i < |kids|
    ensures FindKid(kids, kids[i].name) == Some(kids[i])
  {
    if i > 0 {
      FindKidAt(kids[1..], i - 1);
    }
  }

  /** Go on with the remaining entries, unless there was an error. */
  function Onward(kids: seq<Schema>, cs: seq<string>, r: Outcome<Plain>, rest: seq<Entry>): Outcome<Plain> {
    if r.Done? then PlainAll(kids, cs, r.value, rest) else r
  }

  lemma PlainCons(kids: seq<Schema>, cs: seq<string>, o: Plain, e: Entry, rest: seq<Entry>)
    ensures PlainAll(kids, cs, o, [e] + rest) == Onward(kids, cs, PlainEntry(kids, cs, o, e), rest)
  {
    assert ([e] + rest)[1..] == rest;
  }

  /** A key that is not taken for a misplaced array element. */
  predicate Named(cs: seq<string>, key: string) {
    key != "" && key != ElementName(cs)
  }

  function WithPlainField(o: Plain, field: string, value: string): Plain {
    o.(fields := o.fields[field := value])
  }

  /** A field of the object. */
  lemma FieldDecoded(kids: seq<Schema>, i: nat, cs: seq<string>, o: Plain, e: Entry)
    requires NamesOk(kids) && i < |kids| && kids[i].name == e.key && kids[i].kids == []
    requires kids[i].action.Set? && kids[i].action.field == e.key && !kids[i].action.boolOnly
    requires Named(cs, e.key) && e.children == [] && Clean(e.data)
    ensures PlainEntry(kids, cs, o, e) == Done(WithPlainField(o, e.key, e.data))
  {
    FindKidAt(kids, i);
    NamedEntry(kids, cs, o, e, kids[i]);
    var o' := WithPlainField(o, e.key, e.data);
    assert PlainAll(kids[i].kids, cs + [e.key], o', e.children) == Done(o');
  }

  /** A named entry whose path is known and not a compound's. */
  lemma NamedEntry(kids: seq<Schema>, cs: seq<string>, o: Plain, e: Entry, k: Schema)
    requires Named(cs, e.key) && FindKid(kids, e.key) == Some(k) && Clean(e.data)
    requires !GoesToEatCompound(Join(cs + [e.key]), e)
    ensures PlainEntry(kids, cs, o, e) == PlainKnown(k, cs + [e.key], o, e)
  {
    assert EntryName(cs, e.key) == Some(e.key);
    assert PlainEntry(kids, cs, o, e) == PlainAt(Some(k), cs + [e.key], o, e);
  }

  /** A container that is not an object of its own. */
  lemma ContainerDecoded(kids: seq<Schema>, i: nat, cs: seq<string>, o: Plain, e: Entry)
    requires NamesOk(kids) && i < |kids| && kids[i].name == e.key && kids[i].action == Skip
    requires Named(cs, e.key) && e.data == "" && !IsCompoundPath(Join(cs + [e.key]))
    ensures PlainEntry(kids, cs, o, e) == PlainAll(kids[i].kids, cs + [e.key], o, e.children)
  {
    FindKidAt(kids, i);
    assert !ForbiddenChars(e.data);
    NamedEntry(kids, cs, o, e, kids[i]);
  }

  function WithObject(o: Plain, kind: string, inner: Plain): Plain {
    o.(lists := o.lists[kind := PlainList(o, kind) + [inner]])
  }

  /** An array element that is an object of its own. */
  lemma ElementDecoded(k: Schema, cs: seq<string>, o: Plain, e: Entry, inner: Plain)
    requires k.action.New? && ElementName(cs) == k.name && e.key == "" && e.data == ""
    requires !IsCompoundPath(Join(cs + [k.name])) && PlainAll(k.kids, cs + [k.name], NOTHING, e.children) == Done(inner)
    ensures PlainEntry([k], cs, o, e) == Done(WithObject(o, k.action.kind, inner))
  {
    assert FindKid([k], k.name) == Some(k);
    assert !ForbiddenChars(e.data);
    assert EntryName(cs, e.key) == Some(k.name);
    assert PlainEntry([k], cs, o, e) == PlainAt(Some(k), cs + [k.name], o, e);
    assert PlainAt(Some(k), cs + [k.name], o, e) == PlainKnown(k, cs + [k.name], o, e);
  }

  /** Several objects, one after the other. */
  function WithObjects(o: Plain, kind: string, os: seq<Plain>): Plain {
    if os == [] then o else o.(lists := o.lists[kind := PlainList(o, kind) + os])
  }

  lemma WithObjectsCons(o: Plain, kind: string, first: Plain, rest: seq<Plain>)
    ensures WithObjects(WithObject(o, kind, first), kind, rest) == WithObjects(o, kind, [first] + rest)
  {
    assert PlainList(o, kind) + [first] + rest == PlainList(o, kind) + ([first] + rest);
    if rest == [] {
      assert [first] + rest == [first];
    } else {
      var once := o.lists[kind := PlainList(o, kind) + [first]];
      assert once[kind := PlainList(o, kind) + [first] + rest] == o.lists[kind := PlainList(o, kind) + ([first] + rest)];
    }
  }

  // ---------------------------------------------------------------------------
  // Metadata

  lemma MetadataNames(name: string, element: string)
    requires name == "metadatas" && element == "metadata"
    ensures Singular(name) == element && |Singular(element)| == 7
  {
    assert name[..8] == element;
    assert element[|element| - 2..][0] == 't';
    assert element[..7][5..][0] == 'a';
  }

  lemma TripleNames(kind: string)
    ensures NamesOk(Triple(kind))
  {
    SoundLeaves(Triple(kind), kind);
  }

  lemma ThreeEntries(kids: seq<Schema>, cs: seq<string>, o: Plain, o1: Plain, o2: Plain, o3: Plain, e0: Entry, e1: Entry, e2: Entry)
    requires PlainEntry(kids, cs, o, e0) == Done(o1) && PlainEntry(kids, cs, o1, e1) == Done(o2)
    requires PlainEntry(kids, cs, o2, e2) == Done(o3)
    ensures PlainAll(kids, cs, o, [e0, e1, e2]) == Done(o3)
  {
    PlainCons(kids, cs, o, e0, [e1, e2]);
    PlainCons(kids, cs, o1, e1, [e2]);
    PlainCons(kids, cs, o2, e2, []);
    assert [e0] + [e1, e2] == [e0, e1, e2] && [e1] + [e2] == [e1, e2] && [e2] + [] == [e2];
    assert PlainAll(kids, cs, o3, []) == Done(o3);
  }

  lemma TripleDecoded(kind: string, cs: seq<string>, m: MetadataRecord)
    requires MetadataOk(m) && |ElementName(cs)| == 7
    ensures PlainAll(Triple(kind), cs, NOTHING, PrintMetadata(m).children) == Done(MetadataObject(m))
  {
    var (kids, e0, e1, e2) := (Triple(kind), Leaf("name", m.name), Leaf("type", m.kind), Leaf("value", m.value));
    TripleNames(kind);
    var o1 := WithPlainField(NOTHING, "name", m.name);
    var o2 := WithPlainField(o1, "type", m.kind);
    var o3 := WithPlainField(o2, "value", m.value);
    FieldDecoded(kids, 0, cs, NOTHING, e0);
    FieldDecoded(kids, 1, cs, o1, e1);
    FieldDecoded(kids, 2, cs, o2, e2);
    ThreeEntries(kids, cs, NOTHING, o1, o2, o3, e0, e1, e2);
    assert o3.fields == MetadataObject(m).fields;
  }

  lemma {:induction false} MetadatasDecoded(kind: string, parent: string, cs: seq<string>, o: Plain, ms: seq<MetadataRecord>)
    requires MetadatasOk(ms) && cs != [] && cs[|cs| - 1] == "metadatas" && !IsCompoundPath(Join(cs + ["metadata"]))
    ensures PlainAll([Metadata(kind, parent)], cs, o, PrintMetadatas(ms)) == Done(WithObjects(o, kind, MetadataObjects(ms)))
    decreases |ms|
  {
    if ms != [] {
      var k, e := Metadata(kind, parent), PrintMetadata(ms[0]);
      MetadataNames("metadatas", "metadata");
      TripleDecoded(kind, cs + [k.name], ms[0]);
      ElementDecoded(k, cs, o, e, MetadataObject(ms[0]));
      PlainCons([k], cs, o, e, PrintMetadatas(ms[1..]));
      MetadatasDecoded(kind, parent, cs, WithObject(o, kind, MetadataObject(ms[0])), ms[1..]);
      WithObjectsCons(o, kind, MetadataObject(ms[0]), MetadataObjects(ms[1..]));
    }
  }

  // ---------------------------------------------------------------------------
  // Attributes

  /** Below the object at `cs`, only the attributes' value path is a compound's. */
  ghost predicate OwnerPaths(cs: seq<string>) {
    var attributes, metadatas := cs + ["attributes"], cs + ["metadatas"];
    var attribute := attributes + ["attribute"];
    && !IsCompoundPath(Join(attributes)) && !IsCompoundPath(Join(attribute)) && IsCompoundPath(Join(attribute + ["value"]))
    && !IsCompoundPath(Join(attribute + ["metadatas"])) && !IsCompoundPath(Join(attribute + ["metadatas"] + ["metadata"]))
    && !IsCompoundPath(Join(metadatas)) && !IsCompoundPath(Join(metadatas + ["metadata"]))
  }

  function WithValue(o: Plain, v: ValueRecord): Plain {
    match v
    case Text(text) => WithPlainField(o, "value", text)
    case Tree(parts) => WithPlainField(o, "value", "").(compound := Some(EatRoot(Entry("value", "", parts)).0))
  }

  lemma ValueDecoded(kids: seq<Schema>, i: nat, cs: seq<string>, o: Plain, v: ValueRecord)
    requires NamesOk(kids) && i < |kids| && kids[i].name == "value" && kids[i].action.SetValue? && kids[i].kids == []
    requires Named(cs, "value") && ValueOk(v) && IsCompoundPath(Join(cs + ["value"]))
    ensures PlainEntry(kids, cs, o, PrintValue(v)) == Done(WithValue(o, v))
  {
    var e, k := PrintValue(v), kids[i];
    FindKidAt(kids, i);
    if v.Text? {
      NamedEntry(kids, cs, o, e, k);
      assert PlainAll(k.kids, cs + [e.key], WithValue(o, v), e.children) == Done(WithValue(o, v));
    } else {
      assert EntryName(cs, e.key) == Some(e.key);
      assert PlainEntry(kids, cs, o, e) == PlainAt(Some(k), cs + [e.key], o, e);
      assert PlainAt(Some(k), cs + [e.key], o, e) == PlainCompound(Some(k), o, e);
    }
  }

  lemma AttributeKidNames(parent: string)
    requires parent != "attribute" && parent != "metadata"
    ensures NamesOk([Attribute(parent)]) && NamesOk(Attribute(parent).kids)
  {
    SoundAttribute(parent);
  }

  lemma AttributeDecoded(parent: string, cs: seq<string>, a: AttributeRecord)
    requires parent != "attribute" && parent != "metadata" && AttributeOk(a) && |ElementName(cs)| == 8
    requires IsCompoundPath(Join(cs + ["value"]))
    requires !IsCompoundPath(Join(cs + ["metadatas"])) && !IsCompoundPath(Join(cs + ["metadatas"] + ["metadata"]))
    ensures PlainAll(Attribute(parent).kids, cs, NOTHING, PrintAttribute(a).children) == Done(AttributeObject(a))
  {
    var kids := Attribute(parent).kids;
    var (e0, e1, e2) := (Leaf("name", a.name), Leaf("type", a.kind), PrintValue(a.value));
    var e3 := Entry("metadatas", "", PrintMetadatas(a.metadatas));
    AttributeKidNames(parent);
    var o1 := WithPlainField(NOTHING, "name", a.name);
    var o2 := WithPlainField(o1, "type", a.kind);
    var o3 := WithValue(o2, a.value);
    FieldDecoded(kids, 0, cs, NOTHING, e0);
    FieldDecoded(kids, 1, cs, o1, e1);
    ValueDecoded(kids, 2, cs, o2, a.value);
    ContainerDecoded(kids, 3, cs, o3, e3);
    MetadatasDecoded("metadata", "attribute", cs + ["metadatas"], o3, a.metadatas);
    FourEntries(kids, cs, NOTHING, o1, o2, o3, e0, e1, e2, e3);
    AttributeIsObject(a, o3);
  }

  lemma FourEntries(kids: seq<Schema>, cs: seq<string>, o: Plain, o1: Plain, o2: Plain, o3: Plain,
                    e0: Entry, e1: Entry, e2: Entry, e3: Entry)
    requires PlainEntry(kids, cs, o, e0) == Done(o1) && PlainEntry(kids, cs, o1, e1) == Done(o2)
    requires PlainEntry(kids, cs, o2, e2) == Done(o3)
    ensures PlainAll(kids, cs, o, [e0, e1, e2, e3]) == Onward(kids, cs, PlainEntry(kids, cs, o3, e3), [])
  {
    PlainCons(kids, cs, o, e0, [e1, e2, e3]);
    PlainCons(kids, cs, o1, e1, [e2, e3]);
    PlainCons(kids, cs, o2, e2, [e3]);
    PlainCons(kids, cs, o3, e3, []);
    assert [e0] + [e1, e2, e3] == [e0, e1, e2, e3] && [e1] + [e2, e3] == [e1, e2, e3];
    assert [e2] + [e3] == [e2, e3] && [e3] + [] == [e3];
  }

  lemma {:induction false} MetadataObjectsSome(ms: seq<MetadataRecord>)
    ensures |MetadataObjects(ms)| == |ms|
  {
    if ms != [] {
      MetadataObjectsSome(ms[1..]);
    }
  }

  lemma AttributeIsObject(a: AttributeRecord, o: Plain)
    requires o == WithValue(WithPlainField(WithPlainField(NOTHING, "name", a.name), "type", a.kind), a.value)
    ensures WithObjects(o, "metadata", MetadataObjects(a.metadatas)) == AttributeObject(a)
  {
    var os := MetadataObjects(a.metadatas);
    assert o.fields == AttributeObject(a).fields;
    assert PlainList(o, "metadata") + os == os;
    var m: map<string, seq<Plain>> := map[];
    assert m["metadata" := os] == map["metadata" := os];
  }

  lemma {:induction false} AttributesDecoded(parent: string, cs: seq<string>, o: Plain, attrs: seq<AttributeRecord>)
    requires parent != "attribute" && parent != "metadata" && AttributesOk(attrs) && OwnerPaths(cs)
    ensures PlainAll([Attribute(parent)], cs + ["attributes"], o, PrintAttributes(attrs)) ==
            Done(WithObjects(o, "attribute", AttributeObjects(attrs)))
    decreases |attrs|
  {
    if attrs != [] {
      var k, e, inside := Attribute(parent), PrintAttribute(attrs[0]), cs + ["attributes"];
      AttributesElement("attributes", "attribute");
      AttributeDecoded(parent, inside + ["attribute"], attrs[0]);
      ElementDecoded(k, inside, o, e, AttributeObject(attrs[0]));
      PlainCons([k], inside, o, e, PrintAttributes(attrs[1..]));
      AttributesDecoded(parent, cs, WithObject(o, "attribute", AttributeObject(attrs[0])), attrs[1..]);
      WithObjectsCons(o, "attribute", AttributeObject(attrs[0]), AttributeObjects(attrs[1..]));
    }
  }

  // ---------------------------------------------------------------------------
  // The lists of an entity, in either request

  function WithLists(o: Plain, attrs: seq<AttributeRecord>, ms: seq<MetadataRecord>): Plain {
    WithObjects(WithObjects(o, "attribute", AttributeObjects(attrs)), "domainMetadata", MetadataObjects(ms))
  }

  lemma ListsDecoded(kids: seq<Schema>, owner: string, cs: seq<string>, o: Plain, attrs: seq<AttributeRecord>,
                     ms: seq<MetadataRecord>)
    requires owner != "attribute" && owner != "metadata" && NamesOk(kids) && |kids| == 6
    requires kids[4] == Attributes(owner) && kids[5] == Metadatas("domainMetadata", owner)
    requires OwnerPaths(cs) && Named(cs, "attributes") && Named(cs, "metadatas") && AttributesOk(attrs) && MetadatasOk(ms)
    ensures PlainAll(kids, cs, o, [Entry("attributes", "", PrintAttributes(attrs)), Entry("metadatas", "", PrintMetadatas(ms))])
         == Done(WithLists(o, attrs, ms))
  {
    var (e4, e5) := (Entry("attributes", "", PrintAttributes(attrs)), Entry("metadatas", "", PrintMetadatas(ms)));
    var o1 := WithObjects(o, "attribute", AttributeObjects(attrs));
    ContainerDecoded(kids, 4, cs, o, e4);
    AttributesDecoded(owner, cs, o, attrs);
    ContainerDecoded(kids, 5, cs, o1, e5);
    MetadatasDecoded("domainMetadata", owner, cs + ["metadatas"], o1, ms);
    PlainCons(kids, cs, o, e4, [e5]);
    PlainCons(kids, cs, o1, e5, []);
    assert [e4] + [e5] == [e4, e5] && [e5] + [] == [e5];
    assert PlainAll(kids, cs, WithLists(o, attrs, ms), []) == Done(WithLists(o, attrs, ms));
  }

  lemma ListsOfNothing(o: Plain, attrs: seq<AttributeRecord>, ms: seq<MetadataRecord>)
    requires o.lists == map[]
    ensures WithLists(o, attrs, ms) ==
            o.(lists := Listed("attribute", AttributeObjects(attrs)) + Listed("domainMetadata", MetadataObjects(ms)))
  {
    var (as', ms') := (AttributeObjects(attrs), MetadataObjects(ms));
    var o1 := WithObjects(o, "attribute", as');
    assert PlainList(o, "attribute") + as' == as';
    assert o1.lists == Listed("attribute", as');
    assert PlainList(o1, "domainMetadata") + ms' == ms';
    assert WithObjects(o1, "domainMetadata", ms').lists == Listed("attribute", as') + Listed("domainMetadata", ms');
  }

  // ---------------------------------------------------------------------------
  // appendContextElement

  lemma BoolFieldDecoded(kids: seq<Schema>, i: nat, cs: seq<string>, o: Plain, e: Entry)
    requires NamesOk(kids) && i < |kids| && kids[i].name == e.key && kids[i].kids == []
    requires kids[i].action.Set? && kids[i].action.field == e.key && kids[i].action.boolOnly
    requires Named(cs, e.key) && e.children == [] && Clean(e.data)
    ensures PlainEntry(kids, cs, o, e) ==
            Done(if e.data in {"true", "1", "false", "0"} then WithPlainField(o, e.key, e.data) else o)
  {
    FindKidAt(kids, i);
    NamedEntry(kids, cs, o, e, kids[i]);
    var o' := if IsBoolText(e.data) then WithPlainField(o, e.key, e.data) else o;
    assert PlainAll(kids[i].kids, cs + [e.key], o', e.children) == Done(o');
  }

  lemma FourFields(kids: seq<Schema>, cs: seq<string>, o: Plain, o1: Plain, o2: Plain, o3: Plain, o4: Plain,
                   e0: Entry, e1: Entry, e2: Entry, e3: Entry, rest: seq<Entry>)
    requires PlainEntry(kids, cs, o, e0) == Done(o1) && PlainEntry(kids, cs, o1, e1) == Done(o2)
    requires PlainEntry(kids, cs, o2, e2) == Done(o3) && PlainEntry(kids, cs, o3, e3) == Done(o4)
    ensures PlainAll(kids, cs, o, [e0] + ([e1] + ([e2] + ([e3] + rest)))) == PlainAll(kids, cs, o4, rest)
  {
    PlainCons(kids, cs, o, e0, [e1] + ([e2] + ([e3] + rest)));
    PlainCons(kids, cs, o1, e1, [e2] + ([e3] + rest));
    PlainCons(kids, cs, o2, e2, [e3] + rest);
    PlainCons(kids, cs, o3, e3, rest);
  }

  function AppendScalars(r: AppendRecord): Plain {
    var o := WithPlainField(WithPlainField(WithPlainField(NOTHING, "attributeDomainName", r.attributeDomainName), "id", r.id), "type", r.kind);
    if r.isPattern in {"true", "1", "false", "0"} then WithPlainField(o, "isPattern", r.isPattern) else o
  }

  lemma AppendScalarsDecoded(kids: seq<Schema>, r: AppendRecord, rest: seq<Entry>)
    requires AppendOk(r) && NamesOk(kids) && |kids| == 6 && kids[..4] == AppendFields(ROOT)
    ensures PlainAll(kids, [], NOTHING, PrintAppend(r)[..4] + rest) == PlainAll(kids, [], AppendScalars(r), rest)
  {
    var (e0, e1) := (Leaf("attributeDomainName", r.attributeDomainName), Leaf("id", r.id));
    var (e2, e3) := (Leaf("type", r.kind), Leaf("isPattern", r.isPattern));
    assert forall i | 0 <= i < 4 :: kids[i] == AppendFields(ROOT)[i];
    var o1 := WithPlainField(NOTHING, "attributeDomainName", r.attributeDomainName);
    var o2 := WithPlainField(o1, "id", r.id);
    var o3 := WithPlainField(o2, "type", r.kind);
    FieldDecoded(kids, 0, [], NOTHING, e0);
    FieldDecoded(kids, 1, [], o1, e1);
    FieldDecoded(kids, 2, [], o2, e2);
    BoolFieldDecoded(kids, 3, [], o3, e3);
    FourFields(kids, [], NOTHING, o1, o2, o3, AppendScalars(r), e0, e1, e2, e3, rest);
    assert PrintAppend(r)[..4] + rest == [e0] + ([e1] + ([e2] + ([e3] + rest)));
  }

  lemma AppendShape(root: string)
    requires root !in {"attribute", "metadata", "domainMetadata"}
    ensures NamesOk(AppendSchema(root)) && |AppendSchema(root)| == 6 && AppendSchema(root)[..4] == AppendFields(root)
    ensures AppendSchema(root)[4] == Attributes(root) && AppendSchema(root)[5] == Metadatas("domainMetadata", root)
  {
    AppendSchemaIsSound(root);
  }

  lemma AppendDecoded(r: AppendRecord, kids: seq<Schema>)
    requires AppendOk(r) && kids == AppendSchema(ROOT) && OwnerPaths([])
    ensures PlainAll(kids, [], NOTHING, PrintAppend(r)) == Done(AppendObject(r))
  {
    AppendShape(ROOT);
    var rest := PrintAppend(r)[4..];
    AppendScalarsDecoded(kids, r, rest);
    assert PrintAppend(r) == PrintAppend(r)[..4] + rest;
    ListsDecoded(kids, ROOT, [], AppendScalars(r), r.attributes, r.metadatas);
    ListsOfNothing(AppendScalars(r), r.attributes, r.metadatas);
    assert AppendScalars(r).fields == AppendObject(r).fields;
  }

  // ---------------------------------------------------------------------------
  // Paths

  /** The path is shorter than the root, or differs from it at this position. */
  predicate Differs(root: string, path: string, i: nat) {
    |path| < |root| || (i < |root| && i < |path| && root[i] != path[i])
  }

  lemma NoCompound(path: string, i0: nat, i1: nat, i2: nat, i3: nat)
    requires Differs(COMPOUND_ROOTS[0], path, i0) && Differs(COMPOUND_ROOTS[1], path, i1)
    requires Differs(COMPOUND_ROOTS[2], path, i2) && Differs(COMPOUND_ROOTS[3], path, i3)
    ensures !IsCompoundPath(path)
  {
  }

  /** The paths below the object at `p`, as text. */
  ghost predicate OwnerTexts(p: string) {
    && !IsCompoundPath(p + "/" + "attributes") && !IsCompoundPath(p + "/" + "attributes" + "/" + "attribute")
    && IsCompoundPath(p + "/" + "attributes" + "/" + "attribute" + "/" + "value")
    && !IsCompoundPath(p + "/" + "attributes" + "/" + "attribute" + "/" + "metadatas")
    && !IsCompoundPath(p + "/" + "attributes" + "/" + "attribute" + "/" + "metadatas" + "/" + "metadata")
    && !IsCompoundPath(p + "/" + "metadatas") && !IsCompoundPath(p + "/" + "metadatas" + "/" + "metadata")
  }

  lemma OwnerTextsOfRoot(p: string)
    requires p == ""
    ensures OwnerTexts(p)
  {
    var attribute := p + "/" + "attributes" + "/" + "attribute";
    NoCompound(p + "/" + "attributes", 1, 1, 1, 1);
    NoCompound(attribute, 1, 1, 1, 1);
    NoCompound(attribute + "/" + "metadatas", 1, 22, 1, 1);
    NoCompound(attribute + "/" + "metadatas" + "/" + "metadata", 1, 22, 1, 1);
    NoCompound(p + "/" + "metadatas", 1, 1, 1, 1);
    NoCompound(p + "/" + "metadatas" + "/" + "metadata", 1, 1, 1, 1);
    CompoundRoots(1, attribute + "/" + "value");
  }

  lemma ElementRoot(root: string, p: string)
    requires root == COMPOUND_ROOTS[2] && p == ELEMENT
    ensures root == p + "/" + "attributes" + "/" + "attribute" + "/" + "value"
    ensures |p| == 48 && p[1] == 'c' && p[8] == 'R' && |root| == 75 && root[70] == 'v'
  {
  }

  lemma OwnerTextsOfElement(p: string, root: string)
    requires p == ELEMENT && root == COMPOUND_ROOTS[2]
    ensures OwnerTexts(p)
  {
    var attribute := p + "/" + "attributes" + "/" + "attribute";
    ElementRoot(root, p);
    assert COMPOUND_ROOTS[0][8] == 'E' && COMPOUND_ROOTS[1][1] == 'a' && COMPOUND_ROOTS[3][1] == 'v';
    NoCompound(p + "/" + "attributes", 8, 1, 1, 1);
    NoCompound(attribute, 8, 1, 1, 1);
    NoCompound(attribute + "/" + "metadatas", 8, 1, 70, 1);
    NoCompound(attribute + "/" + "metadatas" + "/" + "metadata", 8, 1, 70, 1);
    NoCompound(p + "/" + "metadatas", 8, 1, 1, 1);
    NoCompound(p + "/" + "metadatas" + "/" + "metadata", 8, 1, 1, 1);
    CompoundRoots(2, attribute + "/" + "value");
  }

  lemma OwnerPathsOfTexts(cs: seq<string>)
    requires OwnerTexts(Join(cs))
    ensures OwnerPaths(cs)
  {
    var attributes, metadatas := cs + ["attributes"], cs + ["metadatas"];
    var attribute := attributes + ["attribute"];
    JoinSnoc(cs, "attributes");
    JoinSnoc(attributes, "attribute");
    JoinSnoc(attribute, "value");
    JoinSnoc(attribute, "metadatas");
    JoinSnoc(attribute + ["metadatas"], "metadata");
    JoinSnoc(cs, "metadatas");
    JoinSnoc(metadatas, "metadata");
  }

  // ---------------------------------------------------------------------------
  // Printed keys have no slash

  lemma {:induction false} MetadatasSlashFree(ms: seq<MetadataRecord>)
    ensures forall i | 0 <= i < |PrintMetadatas(ms)| :: KeysSlashFree(PrintMetadatas(ms)[i])
  {
    if ms != [] {
      MetadatasSlashFree(ms[1..]);
      LeavesSlashFree(PrintMetadata(ms[0]).children);
    }
  }

  lemma LeavesSlashFree(es: seq<Entry>)
    requires forall i | 0 <= i < |es| :: NoSlash(es[i].key) && es[i].children == []
    ensures forall i | 0 <= i < |es| :: KeysSlashFree(es[i])
  {
  }

  lemma {:induction false} AttributesSlashFree(attrs: seq<AttributeRecord>)
    requires AttributesOk(attrs)
    ensures forall i | 0 <= i < |PrintAttributes(attrs)| :: KeysSlashFree(PrintAttributes(attrs)[i])
  {
    if attrs != [] {
      AttributesSlashFree(attrs[1..]);
      MetadatasSlashFree(attrs[0].metadatas);
      assert AttributeOk(attrs[0]);
      assert KeysSlashFree(PrintValue(attrs[0].value));
      assert KeysSlashFree(Entry("metadatas", "", PrintMetadatas(attrs[0].metadatas)));
      LeavesSlashFree(PrintAttribute(attrs[0]).children[..2]);
      FourSlashFree(PrintAttribute(attrs[0]));
    }
  }

  lemma FourSlashFree(e: Entry)
    requires NoSlash(e.key) && |e.children| == 4 && KeysSlashFree(e.children[2]) && KeysSlashFree(e.children[3])
    requires forall i | 0 <= i < 2 :: KeysSlashFree(e.children[..2][i])
    ensures KeysSlashFree(e)
  {
    assert forall i | 0 <= i < 2 :: e.children[i] == e.children[..2][i];
  }

  lemma AppendKeys(r: AppendRecord)
    ensures forall i | 0 <= i < 4 :: NoSlash(PrintAppend(r)[i].key) && PrintAppend(r)[i].children == []
    ensures NoSlash(PrintAppend(r)[4].key) && NoSlash(PrintAppend(r)[5].key)
  {
    AppendFieldsAreFields(ROOT);
    var ks := AppendFields(ROOT);
    assert forall i | 0 <= i < 4 :: PrintAppend(r)[i].key == ks[i].name && IsField(ks[i], ROOT);
  }

  lemma AppendSlashFree(r: AppendRecord)
    requires AppendOk(r)
    ensures forall i | 0 <= i < |PrintAppend(r)| :: KeysSlashFree(PrintAppend(r)[i])
  {
    var es := PrintAppend(r);
    AppendKeys(r);
    AttributesSlashFree(r.attributes);
    MetadatasSlashFree(r.metadatas);
    LeavesSlashFree(es[..4]);
    SixSlashFree(es);
  }

  lemma SixSlashFree(es: seq<Entry>)
    requires |es| == 6 && NoSlash(es[4].key) && NoSlash(es[5].key) && (forall i | 0 <= i < 4 :: KeysSlashFree(es[..4][i]))
    requires forall i | 0 <= i < |es[4].children| :: KeysSlashFree(es[4].children[i])
    requires forall i | 0 <= i < |es[5].children| :: KeysSlashFree(es[5].children[i])
    ensures forall i | 0 <= i < |es| :: KeysSlashFree(es[i])
  {
    assert forall i | 0 <= i < 4 :: es[i] == es[..4][i];
  }

  // ---------------------------------------------------------------------------
  // Main result for appendContextElement

  /** The parser of the request. */
  function ParseAppend(es: seq<Entry>): Outcome<State> {
    Parse(AppendVector("", ROOT), es)
  }

  /** Parsing succeeded, and the request is this object. */
  ghost predicate Yields(r: Outcome<State>, o: Plain) {
    r.Done? && StateOk(r.value) && |r.value.store| > 0 && Full(r.value.store, 0) == o
  }

  /** Every request, printed as a document, is parsed into exactly its members. */
  lemma AppendRoundTrip(r: AppendRecord)
    requires AppendOk(r)
    ensures Yields(ParseAppend(PrintAppend(r)), AppendObject(r))
  {
    OwnerTextsOfRoot(Join([]));
    OwnerPathsOfTexts([]);
    AppendDecoded(r, AppendSchema(ROOT));
    AppendSlashFree(r);
    AppendCompoundsAreOwnIff(PrintAppend(r));
  }

  // ---------------------------------------------------------------------------
  // notifyContext

  lemma StatusNames(kind: string)
    ensures NamesOk(StatusCode(kind).kids)
  {
    StatusCodeIsSound(kind);
  }

  function WithStatus(o: Plain, status: StatusRecord): Plain {
    WithPlainField(WithPlainField(WithPlainField(o, "code", status.code), "reasonPhrase", status.reasonPhrase), "details", status.details)
  }

  lemma StatusDecoded(kind: string, cs: seq<string>, o: Plain, r: ResponseRecord)
    requires ResponseOk(r) && |ElementName(cs)| == 9
    ensures PlainAll(StatusCode(kind).kids, cs, o, PrintResponse(r).children[1].children) == Done(WithStatus(o, r.status))
  {
    var kids := StatusCode(kind).kids;
    var (e0, e1) := (Leaf("code", r.status.code), Leaf("reasonPhrase", r.status.reasonPhrase));
    var e2 := Leaf("details", r.status.details);
    StatusNames(kind);
    var o1 := WithPlainField(o, "code", r.status.code);
    var o2 := WithPlainField(o1, "reasonPhrase", r.status.reasonPhrase);
    var o3 := WithPlainField(o2, "details", r.status.details);
    FieldDecoded(kids, 0, cs, o, e0);
    FieldDecoded(kids, 1, cs, o1, e1);
    FieldDecoded(kids, 2, cs, o2, e2);
    ThreeEntries(kids, cs, o, o1, o2, o3, e0, e1, e2);
  }

  function ElementScalars(r: ResponseRecord): Plain {
    WithPlainField(WithPlainField(WithPlainField(WithPlainField(NOTHING, "id", r.id), "type", r.kind), "isPattern", r.isPattern),
                   "attributeDomainName", r.attributeDomainName)
  }

  lemma ElementShape(owner: string)
    requires owner !in {"attribute", "metadata", "domainMetadata"}
    ensures var kids := ContextElement(owner).kids;
            && NamesOk(kids) && |kids| == 6 && kids[..4] == ElementFields(owner)
            && kids[4] == Attributes(owner) && kids[5] == Metadatas("domainMetadata", owner)
  {
    ElementBodyIsSound(owner);
  }

  lemma ElementScalarsDecoded(kids: seq<Schema>, owner: string, cs: seq<string>, r: ResponseRecord, rest: seq<Entry>)
    requires ResponseOk(r) && NamesOk(kids) && |kids| == 6 && kids[..4] == ElementFields(owner) && |ElementName(cs)| == 13
    ensures PlainAll(kids, cs, NOTHING, PrintResponse(r).children[0].children[..4] + rest) == PlainAll(kids, cs, ElementScalars(r), rest)
  {
    var (e0, e1) := (Leaf("id", r.id), Leaf("type", r.kind));
    var (e2, e3) := (Leaf("isPattern", r.isPattern), Leaf("attributeDomainName", r.attributeDomainName));
    assert forall i | 0 <= i < 4 :: kids[i] == ElementFields(owner)[i];
    var o1 := WithPlainField(NOTHING, "id", r.id);
    var o2 := WithPlainField(o1, "type", r.kind);
    var o3 := WithPlainField(o2, "isPattern", r.isPattern);
    FieldDecoded(kids, 0, cs, NOTHING, e0);
    FieldDecoded(kids, 1, cs, o1, e1);
    FieldDecoded(kids, 2, cs, o2, e2);
    FieldDecoded(kids, 3, cs, o3, e3);
    FourFields(kids, cs, NOTHING, o1, o2, o3, ElementScalars(r), e0, e1, e2, e3, rest);
    assert PrintResponse(r).children[0].children[..4] + rest == [e0] + ([e1] + ([e2] + ([e3] + rest)));
  }

  lemma ElementBodyDecoded(owner: string, cs: seq<string>, r: ResponseRecord)
    requires ResponseOk(r) && owner !in {"attribute", "metadata", "domainMetadata"} && |ElementName(cs)| == 13 && OwnerPaths(cs)
    ensures PlainAll(ContextElement(owner).kids, cs, NOTHING, PrintResponse(r).children[0].children)
         == Done(WithLists(ElementScalars(r), r.attributes, r.metadatas))
  {
    var kids, es := ContextElement(owner).kids, PrintResponse(r).children[0].children;
    ElementShape(owner);
    ElementScalarsDecoded(kids, owner, cs, r, es[4..]);
    assert es == es[..4] + es[4..];
    assert Named(cs, "attributes") && Named(cs, "metadatas");
    ListsDecoded(kids, owner, cs, ElementScalars(r), r.attributes, r.metadatas);
  }

  lemma ResponseNames(name: string, element: string, inner: string, status: string)
    requires name == "contextResponses" && element == "contextResponse" && inner == "contextElement" && status == "statusCode"
    ensures Singular(name) == element
    ensures |Singular(element)| == 14 && Singular(element)[7] == 'R' && inner[7] == 'E'
    ensures |Singular(inner)| == 13 && |Singular(status)| == 9
  {
    assert name[..15] == element;
    assert element[13..][0] == 's';
    assert element[..14][12..][0] == 'n';
    assert inner[..13][11..][0] == 'e' && inner[..13][11..][1] == 'n';
    assert status[..9][7..][0] == 'o';
  }

  lemma ResponseKidNames(kind: string, root: string)
    requires kind !in {"attribute", "metadata", "domainMetadata"} && root !in {"attribute", "metadata", "domainMetadata"} && root != kind
    ensures NamesOk(ContextResponse(kind, root).kids)
    ensures ContextResponse(kind, root).kids == [ContextElement(kind), StatusCode(kind)]
  {
    ContextResponseIsSound(kind, root, {"attribute", "metadata", "domainMetadata"});
    assert ContextResponse(kind, root).kids == [ContextElement(kind), StatusCode(kind)];
  }

  /** The paths of a response at `cs`. */
  ghost predicate ResponsePaths(cs: seq<string>) {
    && !IsCompoundPath(Join(cs)) && !IsCompoundPath(Join(cs + ["contextElement"])) && !IsCompoundPath(Join(cs + ["statusCode"]))
    && OwnerPaths(cs + ["contextElement"])
  }

  lemma ElementEntryDecoded(kids: seq<Schema>, kind: string, cs: seq<string>, r: ResponseRecord)
    requires kind !in {"attribute", "metadata", "domainMetadata"} && NamesOk(kids) && kids == [ContextElement(kind), StatusCode(kind)]
    requires ResponseOk(r) && ResponsePaths(cs) && Named(cs, "contextElement")
    ensures PlainEntry(kids, cs, NOTHING, PrintResponse(r).children[0]) == Done(WithLists(ElementScalars(r), r.attributes, r.metadatas))
  {
    ResponseNames("contextResponses", "contextResponse", "contextElement", "statusCode");
    ContainerDecoded(kids, 0, cs, NOTHING, PrintResponse(r).children[0]);
    ElementBodyDecoded(kind, cs + ["contextElement"], r);
  }

  lemma StatusEntryDecoded(kids: seq<Schema>, kind: string, cs: seq<string>, o: Plain, r: ResponseRecord)
    requires NamesOk(kids) && kids == [ContextElement(kind), StatusCode(kind)]
    requires ResponseOk(r) && ResponsePaths(cs) && Named(cs, "statusCode")
    ensures PlainEntry(kids, cs, o, PrintResponse(r).children[1]) == Done(WithStatus(o, r.status))
  {
    ResponseNames("contextResponses", "contextResponse", "contextElement", "statusCode");
    ContainerDecoded(kids, 1, cs, o, PrintResponse(r).children[1]);
    StatusDecoded(kind, cs + ["statusCode"], o, r);
  }

  lemma TwoEntries(kids: seq<Schema>, cs: seq<string>, o: Plain, o1: Plain, o2: Plain, es: seq<Entry>)
    requires |es| == 2 && PlainEntry(kids, cs, o, es[0]) == Done(o1) && PlainEntry(kids, cs, o1, es[1]) == Done(o2)
    ensures PlainAll(kids, cs, o, es) == Done(o2)
  {
    PlainCons(kids, cs, o, es[0], [es[1]]);
    PlainCons(kids, cs, o1, es[1], []);
    assert [es[0]] + [es[1]] == es && [es[1]] + [] == [es[1]];
    assert PlainAll(kids, cs, o2, []) == Done(o2);
  }

  lemma ResponseKeysNamed(cs: seq<string>)
    requires cs != [] && cs[|cs| - 1] == "contextResponse"
    ensures Named(cs, "contextElement") && Named(cs, "statusCode")
  {
    ResponseNames("contextResponses", "contextResponse", "contextElement", "statusCode");
  }

  lemma ResponseDecoded(kind: string, root: string, cs: seq<string>, r: ResponseRecord)
    requires kind !in {"attribute", "metadata", "domainMetadata"} && root !in {"attribute", "metadata", "domainMetadata"} && root != kind
    requires ResponseOk(r) && ResponsePaths(cs) && cs != [] && cs[|cs| - 1] == "contextResponse"
    ensures PlainAll(ContextResponse(kind, root).kids, cs, NOTHING, PrintResponse(r).children) == Done(ResponseObject(r))
  {
    var kids := ContextResponse(kind, root).kids;
    var o1 := WithLists(ElementScalars(r), r.attributes, r.metadatas);
    ResponseKidNames(kind, root);
    ResponseKeysNamed(cs);
    ElementEntryDecoded(kids, kind, cs, r);
    StatusEntryDecoded(kids, kind, cs, o1, r);
    TwoEntries(kids, cs, NOTHING, o1, WithStatus(o1, r.status), PrintResponse(r).children);
    ResponseIsObject(r);
  }

  lemma ResponseIsObject(r: ResponseRecord)
    ensures WithStatus(WithLists(ElementScalars(r), r.attributes, r.metadatas), r.status) == ResponseObject(r)
  {
    ListsOfNothing(ElementScalars(r), r.attributes, r.metadatas);
    var o := WithStatus(WithLists(ElementScalars(r), r.attributes, r.metadatas), r.status);
    assert o.fields == ResponseObject(r).fields;
  }

  lemma {:induction false} ResponsesDecoded(kind: string, root: string, cs: seq<string>, o: Plain, rs: seq<ResponseRecord>)
    requires kind !in {"attribute", "metadata", "domainMetadata"} && root !in {"attribute", "metadata", "domainMetadata"} && root != kind
    requires (forall i | 0 <= i < |rs| :: ResponseOk(rs[i])) && ResponsePaths(cs + ["contextResponse"])
    requires cs != [] && cs[|cs| - 1] == "contextResponses"
    ensures PlainAll([ContextResponse(kind, root)], cs, o, PrintResponses(rs)) == Done(WithObjects(o, kind, ResponseObjects(rs)))
    decreases |rs|
  {
    if rs != [] {
      var k, e := ContextResponse(kind, root), PrintResponse(rs[0]);
      ResponseNames("contextResponses", "contextResponse", "contextElement", "statusCode");
      ResponseDecoded(kind, root, cs + ["contextResponse"], rs[0]);
      ElementDecoded(k, cs, o, e, ResponseObject(rs[0]));
      PlainCons([k], cs, o, e, PrintResponses(rs[1..]));
      ResponsesDecoded(kind, root, cs, WithObject(o, kind, ResponseObject(rs[0])), rs[1..]);
      WithObjectsCons(o, kind, ResponseObject(rs[0]), ResponseObjects(rs[1..]));
    }
  }

  lemma NotifyShape(root: string)
    requires root !in {"attribute", "metadata", "domainMetadata", "contextResponse"}
    ensures NamesOk(NotifySchema(root)) && NotifySchema(root) == NotifyFields(root) + [ContextResponses(root)]
  {
    NotifySchemaIsSound(root);
  }

  lemma NotifyDecoded(r: NotifyRecord, kids: seq<Schema>)
    requires NotifyOk(r) && kids == NotifySchema(ROOT)
    requires !IsCompoundPath(Join(["contextResponses"])) && ResponsePaths(["contextResponses"] + ["contextResponse"])
    ensures PlainAll(kids, [], NOTHING, PrintNotify(r)) == Done(NotifyObject(r))
  {
    var (e0, e1) := (Leaf("subscriptionId", r.subscriptionId), Leaf("originator", r.originator));
    var e2 := Entry("contextResponses", "", PrintResponses(r.responses));
    NotifyShape(ROOT);
    var o1 := WithPlainField(NOTHING, "subscriptionId", r.subscriptionId);
    var o2 := WithPlainField(o1, "originator", r.originator);
    FieldDecoded(kids, 0, [], NOTHING, e0);
    FieldDecoded(kids, 1, [], o1, e1);
    assert [] + ["contextResponses"] == ["contextResponses"];
    ContainerDecoded(kids, 2, [], o2, e2);
    ResponsesDecoded("contextResponse", ROOT, ["contextResponses"], o2, r.responses);
    ThreeEntries(kids, [], NOTHING, o1, o2, WithObjects(o2, "contextResponse", ResponseObjects(r.responses)), e0, e1, e2);
    NotifyIsObject(r, o2);
  }

  lemma NotifyIsObject(r: NotifyRecord, o: Plain)
    requires o == WithPlainField(WithPlainField(NOTHING, "subscriptionId", r.subscriptionId), "originator", r.originator)
    ensures WithObjects(o, "contextResponse", ResponseObjects(r.responses)) == NotifyObject(r)
  {
    var os := ResponseObjects(r.responses);
    assert o.fields == NotifyObject(r).fields;
    assert PlainList(o, "contextResponse") + os == os;
    var m: map<string, seq<Plain>> := map[];
    assert m["contextResponse" := os] == map["contextResponse" := os];
  }

  lemma ResponseTexts(p: string, response: string, element: string)
    requires p == "/" + "contextResponses" && response == p + "/" + "contextResponse" && element == response + "/" + "contextElement"
    ensures !IsCompoundPath(p) && !IsCompoundPath(response) && !IsCompoundPath(element)
    ensures !IsCompoundPath(response + "/" + "statusCode") && element == ELEMENT
  {
    assert p[1] == 'c' && |p| == 17;
    NoCompound(p, 1, 1, 1, 1);
    NoCompound(response, 1, 1, 1, 1);
    NoCompound(element, 1, 1, 1, 1);
    NoCompound(response + "/" + "statusCode", 1, 1, 1, 1);
  }

  lemma NotifyPaths()
    ensures !IsCompoundPath(Join(["contextResponses"])) && ResponsePaths(["contextResponses"] + ["contextResponse"])
  {
    var cs := ["contextResponses"];
    JoinSnoc([], "contextResponses");
    assert [] + cs == cs && Join([]) == "";
    var p := Join(cs);
    assert p == "/" + "contextResponses";
    JoinSnoc(cs, "contextResponse");
    var response := Join(cs + ["contextResponse"]);
    JoinSnoc(cs + ["contextResponse"], "contextElement");
    JoinSnoc(cs + ["contextResponse"], "statusCode");
    ResponseTexts(p, response, response + "/" + "contextElement");
    OwnerTextsOfElement(response + "/" + "contextElement", COMPOUND_ROOTS[2]);
    OwnerPathsOfTexts(cs + ["contextResponse"] + ["contextElement"]);
  }

  lemma ElementKeys(r: ResponseRecord)
    ensures var es := PrintResponse(r).children[0].children;
            (forall i | 0 <= i < 4 :: NoSlash(es[i].key) && es[i].children == []) && NoSlash(es[4].key) && NoSlash(es[5].key)
  {
    var es, ks := PrintResponse(r).children[0].children, ElementFields("contextResponse");
    ElementFieldsAreFields("contextResponse");
    assert forall i | 0 <= i < 4 :: es[i].key == ks[i].name && IsField(ks[i], "contextResponse");
  }

  lemma StatusKeys(r: ResponseRecord)
    ensures forall i | 0 <= i < 3 :: NoSlash(PrintResponse(r).children[1].children[i].key)
    ensures NoSlash("contextElement") && NoSlash("statusCode")
  {
  }

  lemma ResponseSlashFree(r: ResponseRecord)
    requires ResponseOk(r)
    ensures KeysSlashFree(PrintResponse(r))
  {
    var (e0, e1) := (PrintResponse(r).children[0], PrintResponse(r).children[1]);
    ElementKeys(r);
    StatusKeys(r);
    AttributesSlashFree(r.attributes);
    MetadatasSlashFree(r.metadatas);
    LeavesSlashFree(e0.children[..4]);
    SixSlashFree(e0.children);
    LeavesSlashFree(e1.children);
    assert KeysSlashFree(e0) && KeysSlashFree(e1);
  }

  lemma {:induction false} ResponsesSlashFree(rs: seq<ResponseRecord>)
    requires forall i | 0 <= i < |rs| :: ResponseOk(rs[i])
    ensures forall i | 0 <= i < |PrintResponses(rs)| :: KeysSlashFree(PrintResponses(rs)[i])
  {
    if rs != [] {
      ResponseSlashFree(rs[0]);
      ResponsesSlashFree(rs[1..]);
    }
  }

  lemma NotifySlashFree(r: NotifyRecord)
    requires NotifyOk(r)
    ensures forall i | 0 <= i < |PrintNotify(r)| :: KeysSlashFree(PrintNotify(r)[i])
  {
    ResponsesSlashFree(r.responses);
    LeavesSlashFree([Leaf("subscriptionId", r.subscriptionId), Leaf("originator", r.originator)]);
    assert NoSlash("contextResponses");
    assert KeysSlashFree(PrintNotify(r)[2]);
  }

  function ParseNotify(es: seq<Entry>): Outcome<State> {
    Parse(NotifyVector("", ROOT), es)
  }

  /** The same for notifyContext. */
  lemma NotifyRoundTrip(r: NotifyRecord)
    requires NotifyOk(r)
    ensures Yields(ParseNotify(PrintNotify(r)), NotifyObject(r))
  {
    NotifyPaths();
    NotifyDecoded(r, NotifySchema(ROOT));
    NotifySlashFree(r);
    NotifyCompoundsAreOwnIff(PrintNotify(r));
  }
}
