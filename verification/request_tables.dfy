/** The parse vectors of two requests, append context element and notify context, and the
    parser's correctness on them.

    The value type of an attribute is String exactly if its "value" field is set; a status
    code is kept as the text it was given as. */
module RequestTables {
  import opened SlashPaths
  import opened PropertyTree
  import opened JsonWalk
  import opened JsonDecode
  import opened JsonRefinement

  // ---------------------------------------------------------------------------
  // The vectors, row by row in source order. P is the path of the enclosing object.

  function Row3(p: string, kind: string): seq<Row> {
    [Row(p + "/" + "name", Set(kind, "name", false)),
     Row(p + "/" + "type", Set(kind, "type", false)),
     Row(p + "/" + "value", Set(kind, "value", false))]
  }

  function AttributeRow3(p: string): seq<Row> {
    [Row(p + "/" + "name", Set("attribute", "name", false)),
     Row(p + "/" + "type", Set("attribute", "type", false)),
     Row(p + "/" + "value", SetValue("attribute"))]
  }

  function MetadataRows(p: string, kind: string, parent: string): seq<Row> {
    [Row(p + "/" + "metadatas", Skip),
     Row(p + "/" + "metadatas" + "/" + "metadata", New(kind, parent))]
    + Row3(p + "/" + "metadatas" + "/" + "metadata", kind)
  }

  function AttributeRows(p: string, parent: string): seq<Row> {
    [Row(p + "/" + "attributes", Skip),
     Row(p + "/" + "attributes" + "/" + "attribute", New("attribute", parent))]
    + AttributeRow3(p + "/" + "attributes" + "/" + "attribute")
    + MetadataRows(p + "/" + "attributes" + "/" + "attribute", "metadata", "attribute")
  }

  /** `jsonAcerParseVector`; `p` is "" and `root` the request itself. */
  function AppendVector(p: string, root: string): seq<Row> {
    [Row(p + "/" + "attributeDomainName", Set(root, "attributeDomainName", false)),
     Row(p + "/" + "id", Set(root, "id", false)),
     Row(p + "/" + "type", Set(root, "type", false)),
     Row(p + "/" + "isPattern", Set(root, "isPattern", true))]
    + AttributeRows(p, root)
    + MetadataRows(p, "domainMetadata", root)
  }

  /** The rows below a context element; `p` is its path (CELEM in the source). */
  function ElementRows(p: string, owner: string): seq<Row> {
    [Row(p + "/" + "id", Set(owner, "id", false)),
     Row(p + "/" + "type", Set(owner, "type", false)),
     Row(p + "/" + "isPattern", Set(owner, "isPattern", false)),
     Row(p + "/" + "attributeDomainName", Set(owner, "attributeDomainName", false))]
    + AttributeRows(p, owner)
    + MetadataRows(p, "domainMetadata", owner)
  }

  function StatusCodeRows(p: string, owner: string): seq<Row> {
    [Row(p + "/" + "code", Set(owner, "code", false)),
     Row(p + "/" + "reasonPhrase", Set(owner, "reasonPhrase", false)),
     Row(p + "/" + "details", Set(owner, "details", false))]
  }

  function ResponseRows(p: string, owner: string): seq<Row> {
    [Row(p + "/" + "contextElement", Skip)]
    + ElementRows(p + "/" + "contextElement", owner)
    + [Row(p + "/" + "statusCode", Skip)]
    + StatusCodeRows(p + "/" + "statusCode", owner)
  }

  /** `jsonNcrParseVector`; `p` is "" and `root` the request itself. */
  function NotifyVector(p: string, root: string): seq<Row> {
    [Row(p + "/" + "subscriptionId", Set(root, "subscriptionId", false)),
     Row(p + "/" + "originator", Set(root, "originator", false)),
     Row(p + "/" + "contextResponses", Skip),
     Row(p + "/" + "contextResponses" + "/" + "contextResponse", New("contextResponse", root))]
    + ResponseRows(p + "/" + "contextResponses" + "/" + "contextResponse", "contextResponse")
  }

  // ---------------------------------------------------------------------------
  // The same as trees

  function Field(kind: string, name: string): Schema {
    Schema(name, Set(kind, name, false), [])
  }

  function Triple(kind: string): seq<Schema> {
    [Field(kind, "name"), Field(kind, "type"), Field(kind, "value")]
  }

  function AttributeTriple(): seq<Schema> {
    [Field("attribute", "name"), Field("attribute", "type"), Schema("value", SetValue("attribute"), [])]
  }

  function Metadata(kind: string, parent: string): Schema {
    Schema("metadata", New(kind, parent), Triple(kind))
  }

  function Metadatas(kind: string, parent: string): Schema {
    Schema("metadatas", Skip, [Metadata(kind, parent)])
  }

  function Attribute(parent: string): Schema {
    Schema("attribute", New("attribute", parent), AttributeTriple() + [Metadatas("metadata", "attribute")])
  }

  function Attributes(parent: string): Schema {
    Schema("attributes", Skip, [Attribute(parent)])
  }

  function AppendFields(root: string): seq<Schema> {
    [Field(root, "attributeDomainName"), Field(root, "id"), Field(root, "type"),
     Schema("isPattern", Set(root, "isPattern", true), [])]
  }

  function AppendSchema(root: string): seq<Schema> {
    AppendFields(root) + [Attributes(root)] + [Metadatas("domainMetadata", root)]
  }

  function ElementFields(owner: string): seq<Schema> {
    [Field(owner, "id"), Field(owner, "type"), Field(owner, "isPattern"), Field(owner, "attributeDomainName")]
  }

  function ContextElement(owner: string): Schema {
    Schema("contextElement", Skip,
           ElementFields(owner) + [Attributes(owner)] + [Metadatas("domainMetadata", owner)])
  }

  function StatusCode(owner: string): Schema {
    Schema("statusCode", Skip, [Field(owner, "code"), Field(owner, "reasonPhrase"), Field(owner, "details")])
  }

  function ContextResponse(kind: string, root: string): Schema {
    Schema("contextResponse", New(kind, root), [ContextElement(kind)] + [StatusCode(kind)])
  }

  function ContextResponses(root: string): Schema {
    Schema("contextResponses", Skip, [ContextResponse("contextResponse", root)])
  }

  function NotifyFields(root: string): seq<Schema> {
    [Field(root, "subscriptionId"), Field(root, "originator")]
  }

  function NotifySchema(root: string): seq<Schema> {
    NotifyFields(root) + [ContextResponses(root)]
  }

  lemma {:induction false} RowsConcat(xs: seq<Schema>, ys: seq<Schema>, prefix: string)
    ensures Rows(xs + ys, prefix) == Rows(xs, prefix) + Rows(ys, prefix)
  {
    if xs == [] {
      assert xs + ys == ys;
    } else {
      assert (xs + ys)[1..] == xs[1..] + ys;
      RowsConcat(xs[1..], ys, prefix);
    }
  }

  lemma RowsOne(k: Schema, prefix: string)
    ensures Rows([k], prefix) == [Row(prefix + "/" + k.name, k.action)] + Rows(k.kids, prefix + "/" + k.name)
  {
    assert [k][1..] == [];
  }

  /** Leaves give one row each. */
  lemma {:induction false} RowsOfLeaves(ks: seq<Schema>, prefix: string)
    requires forall k | k in ks :: k.kids == []
    ensures Rows(ks, prefix) == seq(|ks|, i requires 0 <= i < |ks| => Row(prefix + "/" + ks[i].name, ks[i].action))
  {
    if ks != [] {
      RowsOfLeaves(ks[1..], prefix);
    }
  }

  lemma TripleRows(kind: string, p: string)
    ensures Rows(Triple(kind), p) == Row3(p, kind)
  {
    RowsOfLeaves(Triple(kind), p);
  }

  lemma MetadatasRows(kind: string, parent: string, p: string)
    ensures Rows([Metadatas(kind, parent)], p) == MetadataRows(p, kind, parent)
  {
    RowsOne(Metadatas(kind, parent), p);
    RowsOne(Metadata(kind, parent), p + "/" + "metadatas");
    TripleRows(kind, p + "/" + "metadatas" + "/" + "metadata");
  }

  lemma AttributesRows(parent: string, p: string)
    ensures Rows([Attributes(parent)], p) == AttributeRows(p, parent)
  {
    var inner := p + "/" + "attributes" + "/" + "attribute";
    RowsOne(Attributes(parent), p);
    RowsOne(Attribute(parent), p + "/" + "attributes");
    RowsConcat(AttributeTriple(), [Metadatas("metadata", "attribute")], inner);
    RowsOfLeaves(AttributeTriple(), inner);
    MetadatasRows("metadata", "attribute", inner);
  }

  /** The append-context-element vector is the flattened schema. */
  lemma AppendVectorIsSchema(p: string, root: string)
    ensures AppendVector(p, root) == Rows(AppendSchema(root), p)
  {
    RowsConcat(AppendFields(root) + [Attributes(root)], [Metadatas("domainMetadata", root)], p);
    RowsConcat(AppendFields(root), [Attributes(root)], p);
    RowsOfLeaves(AppendFields(root), p);
    AttributesRows(root, p);
    MetadatasRows("domainMetadata", root, p);
  }

  lemma ElementFieldRows(owner: string, p: string)
    ensures Rows(ElementFields(owner), p) == ElementRows(p, owner)[..4]
  {
    RowsOfLeaves(ElementFields(owner), p);
  }

  lemma ElementKidsRows(owner: string, p: string)
    ensures Rows(ContextElement(owner).kids, p) == ElementRows(p, owner)
  {
    var (fields, attributes, metadatas) := (ElementFields(owner), [Attributes(owner)], [Metadatas("domainMetadata", owner)]);
    RowsConcat(fields + attributes, metadatas, p);
    RowsConcat(fields, attributes, p);
    ElementFieldRows(owner, p);
    AttributesRows(owner, p);
    MetadatasRows("domainMetadata", owner, p);
  }

  lemma ContextElementRows(owner: string, p: string)
    ensures Rows([ContextElement(owner)], p) ==
            [Row(p + "/" + "contextElement", Skip)] + ElementRows(p + "/" + "contextElement", owner)
  {
    RowsOne(ContextElement(owner), p);
    ElementKidsRows(owner, p + "/" + "contextElement");
  }

  lemma ContextResponseRows(kind: string, root: string, p: string)
    ensures Rows([ContextResponse(kind, root)], p) ==
            [Row(p + "/" + "contextResponse", New(kind, root))] + ResponseRows(p + "/" + "contextResponse", kind)
  {
    var inner := p + "/" + "contextResponse";
    RowsOne(ContextResponse(kind, root), p);
    RowsConcat([ContextElement(kind)], [StatusCode(kind)], inner);
    ContextElementRows(kind, inner);
    RowsOne(StatusCode(kind), inner);
    RowsOfLeaves(StatusCode(kind).kids, inner + "/" + "statusCode");
  }

  /** The notify-context vector is the flattened schema. */
  lemma NotifyVectorIsSchema(p: string, root: string)
    ensures NotifyVector(p, root) == Rows(NotifySchema(root), p)
  {
    RowsConcat(NotifyFields(root), [ContextResponses(root)], p);
    RowsOfLeaves(NotifyFields(root), p);
    RowsOne(ContextResponses(root), p);
    ContextResponseRows("contextResponse", root, p + "/" + "contextResponses");
  }

  // ---------------------------------------------------------------------------
  // Both schemas meet the parser's conditions

  lemma {:induction false} KindsConcat(xs: seq<Schema>, ys: seq<Schema>)
    ensures Kinds(xs + ys) == Kinds(xs) + Kinds(ys)
  {
    if xs == [] {
      assert xs + ys == ys;
    } else {
      assert (xs + ys)[1..] == xs[1..] + ys;
      KindsConcat(xs[1..], ys);
    }
  }

  lemma KindsOne(k: Schema)
    ensures Kinds([k]) == (if k.action.New? then {k.action.kind} else {}) + Kinds(k.kids)
  {
    assert [k][1..] == [];
  }

  /** Sound below `owner`, and setting at most the cursors in `kinds`. */
  ghost predicate Sound(kids: seq<Schema>, owner: string, kinds: set<string>) {
    NamesOk(kids) && CursorsOk(kids, owner) && Kinds(kids) <= kinds
  }

  lemma SoundConcat(xs: seq<Schema>, ys: seq<Schema>, owner: string, kinds: set<string>)
    requires Sound(xs, owner, kinds) && Sound(ys, owner, kinds)
    requires forall i, j | 0 <= i < |xs| && 0 <= j < |ys| :: xs[i].name != ys[j].name
    ensures Sound(xs + ys, owner, kinds)
  {
    KindsConcat(xs, ys);
  }

  lemma SoundOne(k: Schema, owner: string, inner: string, kinds: set<string>)
    requires NoSlash(k.name) && Sound(k.kids, inner, kinds) && owner !in kinds
    requires match k.action
             case Skip => inner == owner
             case Set(kind, _, _) => kind == owner && inner == owner
             case SetValue(kind) => kind == owner && inner == owner
             case New(kind, parent) => parent == owner && inner == kind
    ensures Sound([k], owner, if k.action.New? then kinds + {inner} else kinds) || inner == owner
    ensures !k.action.New? ==> Sound([k], owner, kinds)
  {
    KindsOne(k);
  }

  /** A field of the object. */
  predicate IsField(k: Schema, owner: string) {
    k.kids == [] && NoSlash(k.name) && (k.action.Set? || k.action.SetValue?) && k.action.kind == owner
  }

  lemma {:induction false} LeavesHaveNoKinds(ks: seq<Schema>, owner: string)
    requires forall i | 0 <= i < |ks| :: IsField(ks[i], owner)
    ensures Kinds(ks) == {}
  {
    if ks != [] {
      LeavesHaveNoKinds(ks[1..], owner);
    }
  }

  lemma SoundLeaves(ks: seq<Schema>, owner: string)
    requires forall i | 0 <= i < |ks| :: IsField(ks[i], owner)
    requires forall i, j | 0 <= i < j < |ks| :: ks[i].name != ks[j].name
    ensures Sound(ks, owner, {})
  {
    LeavesHaveNoKinds(ks, owner);
  }

  lemma SoundMetadatas(kind: string, parent: string)
    requires kind != parent
    ensures Sound([Metadatas(kind, parent)], parent, {kind})
  {
    SoundLeaves(Triple(kind), kind);
    SoundOne(Metadata(kind, parent), parent, kind, {});
    SoundOne(Metadatas(kind, parent), parent, parent, {kind});
  }

  lemma AttributeTripleIsSound()
    ensures Sound(AttributeTriple(), "attribute", {})
    ensures forall i | 0 <= i < 3 :: AttributeTriple()[i].name != "metadatas"
  {
    SoundLeaves(AttributeTriple(), "attribute");
  }

  /** Some fields and one more node. */
  lemma SoundFieldsAndOne(fields: seq<Schema>, k: Schema, owner: string, kind: string)
    requires Sound(fields, owner, {}) && Sound([k], owner, {kind})
    requires forall i | 0 <= i < |fields| :: fields[i].name != k.name
    ensures Sound(fields + [k], owner, {kind})
  {
    SoundConcat(fields, [k], owner, {kind});
  }

  lemma SoundNew(k: Schema, owner: string, inner: string, kind: string, kinds: set<string>)
    requires NoSlash(k.name) && k.action == New(inner, owner) && Sound(k.kids, inner, {kind})
    requires owner != inner && owner != kind && kinds == {inner, kind}
    ensures Sound([k], owner, kinds)
  {
    SoundOne(k, owner, inner, {kind});
    assert {kind} + {inner} == kinds;
  }

  lemma SoundAttribute(parent: string)
    requires parent != "attribute" && parent != "metadata"
    ensures Sound([Attribute(parent)], parent, {"attribute", "metadata"})
  {
    AttributeTripleIsSound();
    SoundMetadatas("metadata", "attribute");
    SoundFieldsAndOne(AttributeTriple(), Metadatas("metadata", "attribute"), "attribute", "metadata");
    SoundNew(Attribute(parent), parent, "attribute", "metadata", {"attribute", "metadata"});
  }

  lemma SoundAttributes(parent: string)
    requires parent != "attribute" && parent != "metadata"
    ensures Sound([Attributes(parent)], parent, {"attribute", "metadata"})
  {
    SoundAttribute(parent);
    SoundOne(Attributes(parent), parent, parent, {"attribute", "metadata"});
  }

  /** Attributes and domain metadatas after some plain fields: both requests have this shape. */
  lemma SoundBody(fields: seq<Schema>, owner: string)
    requires Sound(fields, owner, {}) && forall k | k in fields :: k.name != "attributes" && k.name != "metadatas"
    requires owner != "attribute" && owner != "metadata" && owner != "domainMetadata"
    ensures Sound(fields + [Attributes(owner)] + [Metadatas("domainMetadata", owner)], owner,
                  {"attribute", "metadata", "domainMetadata"})
  {
    var kinds := {"attribute", "metadata", "domainMetadata"};
    SoundAttributes(owner);
    SoundMetadatas("domainMetadata", owner);
    assert Sound(fields, owner, kinds) && Sound([Attributes(owner)], owner, kinds)
           && Sound([Metadatas("domainMetadata", owner)], owner, kinds);
    SoundConcat(fields, [Attributes(owner)], owner, kinds);
    SoundConcat(fields + [Attributes(owner)], [Metadatas("domainMetadata", owner)], owner, kinds);
  }

  lemma AppendFieldsAreFields(root: string)
    ensures forall i | 0 <= i < 4 :: IsField(AppendFields(root)[i], root)
  {
  }

  /** Their lengths tell the names apart. */
  lemma AppendFieldsDiffer(root: string)
    ensures var ks := AppendFields(root);
            |ks[0].name| == 19 && |ks[1].name| == 2 && |ks[2].name| == 4 && |ks[3].name| == 9
    ensures forall i, j | 0 <= i < j < 4 :: AppendFields(root)[i].name != AppendFields(root)[j].name
    ensures forall k | k in AppendFields(root) :: k.name != "attributes" && k.name != "metadatas"
  {
  }

  lemma AppendFieldsAreSound(root: string)
    ensures Sound(AppendFields(root), root, {})
    ensures forall k | k in AppendFields(root) :: k.name != "attributes" && k.name != "metadatas"
  {
    AppendFieldsAreFields(root);
    AppendFieldsDiffer(root);
    SoundLeaves(AppendFields(root), root);
  }

  lemma AppendSchemaIsSound(root: string)
    requires root !in {"attribute", "metadata", "domainMetadata"}
    ensures NamesOk(AppendSchema(root)) && CursorsOk(AppendSchema(root), root)
  {
    AppendFieldsAreSound(root);
    SoundBody(AppendFields(root), root);
  }

  lemma ContextElementIsSound(owner: string)
    requires owner !in {"attribute", "metadata", "domainMetadata"}
    ensures Sound([ContextElement(owner)], owner, {"attribute", "metadata", "domainMetadata"})
  {
    ElementBodyIsSound(owner);
    SoundOne(ContextElement(owner), owner, owner, {"attribute", "metadata", "domainMetadata"});
  }

  lemma ElementFieldsAreFields(owner: string)
    ensures forall i | 0 <= i < 4 :: IsField(ElementFields(owner)[i], owner)
  {
  }

  lemma ElementFieldsDiffer(owner: string)
    ensures var ks := ElementFields(owner);
            |ks[0].name| == 2 && |ks[1].name| == 4 && |ks[2].name| == 9 && |ks[3].name| == 19
    ensures forall i, j | 0 <= i < j < 4 :: ElementFields(owner)[i].name != ElementFields(owner)[j].name
    ensures forall k | k in ElementFields(owner) :: k.name != "attributes" && k.name != "metadatas"
  {
  }

  lemma ElementBodyIsSound(owner: string)
    requires owner !in {"attribute", "metadata", "domainMetadata"}
    ensures Sound(ContextElement(owner).kids, owner, {"attribute", "metadata", "domainMetadata"})
  {
    ElementFieldsAreFields(owner);
    ElementFieldsDiffer(owner);
    SoundLeaves(ElementFields(owner), owner);
    SoundBody(ElementFields(owner), owner);
  }

  lemma StatusCodeIsSound(owner: string)
    ensures Sound([StatusCode(owner)], owner, {})
  {
    SoundLeaves(StatusCode(owner).kids, owner);
    SoundOne(StatusCode(owner), owner, owner, {});
  }

  lemma ContextResponseIsSound(kind: string, root: string, kinds: set<string>)
    requires kinds == {"attribute", "metadata", "domainMetadata"} && kind !in kinds && root !in kinds && root != kind
    ensures Sound([ContextResponse(kind, root)], root, kinds + {kind})
  {
    ContextElementIsSound(kind);
    StatusCodeIsSound(kind);
    SoundConcat([ContextElement(kind)], [StatusCode(kind)], kind, kinds);
    SoundOne(ContextResponse(kind, root), root, kind, kinds);
  }

  lemma ContextResponsesIsSound(root: string)
    requires root !in {"attribute", "metadata", "domainMetadata", "contextResponse"}
    ensures Sound([ContextResponses(root)], root, {"attribute", "metadata", "domainMetadata", "contextResponse"})
  {
    var kinds := {"attribute", "metadata", "domainMetadata"};
    ContextResponseIsSound("contextResponse", root, kinds);
    SoundOne(ContextResponses(root), root, root, kinds + {"contextResponse"});
    assert kinds + {"contextResponse"} == {"attribute", "metadata", "domainMetadata", "contextResponse"};
  }

  lemma NotifyFieldsAreSound(root: string)
    ensures Sound(NotifyFields(root), root, {})
    ensures forall i | 0 <= i < 2 :: |NotifyFields(root)[i].name| < 15
  {
    SoundLeaves(NotifyFields(root), root);
  }

  lemma NotifySchemaIsSound(root: string)
    requires root !in {"attribute", "metadata", "domainMetadata", "contextResponse"}
    ensures NamesOk(NotifySchema(root)) && CursorsOk(NotifySchema(root), root)
  {
    NotifyFieldsAreSound(root);
    ContextResponsesIsSound(root);
    assert |ContextResponses(root).name| == 16;
    SoundConcat(NotifyFields(root), [ContextResponses(root)], root,
                {"attribute", "metadata", "domainMetadata", "contextResponse"});
  }

  // ---------------------------------------------------------------------------
  // Main results

  /** Append context element: every run over a tree with slash-free keys does what the recursive
      decoder does. */
  lemma AppendRequestIsDecoded(es: seq<Entry>)
    requires forall i | 0 <= i < |es| :: KeysSlashFree(es[i])
    ensures Refines(Parse(AppendVector("", ROOT), es), DecodeAll(AppendSchema(ROOT), [], BEGIN, es))
  {
    AppendVectorIsSchema("", ROOT);
    AppendSchemaIsSound(ROOT);
    ParserRefinesDecoder(AppendSchema(ROOT), es);
  }

  /** The same for notify context. */
  lemma NotifyRequestIsDecoded(es: seq<Entry>)
    requires forall i | 0 <= i < |es| :: KeysSlashFree(es[i])
    ensures Refines(Parse(NotifyVector("", ROOT), es), DecodeAll(NotifySchema(ROOT), [], BEGIN, es))
  {
    NotifyVectorIsSchema("", ROOT);
    NotifySchemaIsSound(ROOT);
    ParserRefinesDecoder(NotifySchema(ROOT), es);
  }
}
