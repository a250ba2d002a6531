/** Compound attribute values: `eatCompound` copies a property tree into a compound tree,
    deciding on the way what is a string, an object or a vector. */
module CompoundValue {
  import opened PropertyTree

  datatype Kind = KString | KObject | KVector

  datatype Compound = Compound(name: string, kind: Kind, text: string, children: seq<Compound>)

  const ITEM := "item"
  const TOPLEVEL := "toplevel"

  function Add(c: Compound, child: Compound): Compound {
    c.(children := c.children + [child])
  }

  function AsVector(c: Compound): Compound {
    c.(kind := KVector)
  }

  /** The container after the entry was copied into it, and whether nothing was rejected. A
      rejected entry is skipped with everything below it; its siblings are still copied. */
  function Eat(c: Compound, e: Entry): (Compound, bool)
    decreases e, 1
  {
    if e.key != "" && e.data != "" then                               // named string
      if ForbiddenChars(e.data) then (c, false)
      else EatAll(Add(c, Compound(e.key, KString, e.data, [])), e.children)
    else if e.key == "" && e.data == "" && e.children == [] then      // unnamed empty string
      (Add(c, Compound(ITEM, KString, "", [])), true)
    else if e.key != "" && e.data == "" && e.children == [] then      // named empty string
      (Add(c, Compound(e.key, KString, "", [])), true)
    else if e.key != "" then                                          // named container
      var (inner, ok) := EatAll(Compound(e.key, KObject, "", []), e.children);
      (Add(c, inner), ok)
    else if e.data == "" then                                         // nameless container
      var (inner, ok) := EatAll(Compound(ITEM, KObject, "", []), e.children);
      (Add(AsVector(c), inner), ok)
    else                                                              // nameless string
      EatAll(Add(AsVector(c), Compound(ITEM, KString, e.data, [])), e.children)
  }

  function EatAll(c: Compound, es: seq<Entry>): (Compound, bool)
    decreases es, 0
  {
    if es == [] then (c, true) else
    var (c1, ok1) := Eat(c, es[0]);
    var (c2, ok2) := EatAll(c1, es[1..]);
    (c2, ok1 && ok2)
  }

  /** The whole value: the root is a fresh object. */
  function EatRoot(e: Entry): (Compound, bool) {
    EatAll(Compound(TOPLEVEL, KObject, "", []), e.children)
  }

  // ---------------------------------------------------------------------------
  // The check when a compound is finished

  /** Only a flaw in the names is an error of the compound; a forbidden character in a string
      without a name merely ends the check. */
  datatype Finding = Fine | Ended | Flawed

  predicate SameNames(cs: seq<Compound>) {
    forall i | 0 <= i < |cs| :: cs[i].name == cs[0].name
  }

  predicate DifferentNames(cs: seq<Compound>) {
    forall i, j | 0 <= i < j < |cs| :: cs[i].name != cs[j].name
  }

  /** `CompoundValueNode::check`. */
  function Check(c: Compound): Finding
    decreases c, 1
  {
    match c.kind
    case KVector => if SameNames(c.children) then CheckAll(c.children) else Flawed
    case KObject => if DifferentNames(c.children) then CheckAll(c.children) else Flawed
    case KString => if ForbiddenChars(c.text) then Ended else CheckAll(c.children)
  }

  function CheckAll(cs: seq<Compound>): Finding
    decreases cs, 0
  {
    if cs == [] then Fine else
    var first := Check(cs[0]);
    if first.Fine? then CheckAll(cs[1..]) else first
  }

  /** No error is reported for the compound. */
  predicate Accepts(e: Entry) {
    EatRoot(e).1 && !Check(EatRoot(e).0).Flawed?
  }

  // ---------------------------------------------------------------------------
  // What the copy should be

  /** JSON text gives each node a value or children, not both. */
  predicate JsonShape(e: Entry) {
    (e.data == "" || e.children == []) && forall i | 0 <= i < |e.children| :: JsonShape(e.children[i])
  }

  /** A named, non-empty string with a forbidden character, anywhere in the tree. */
  predicate HasRejected(e: Entry) {
    || (e.key != "" && e.data != "" && ForbiddenChars(e.data))
    || exists i | 0 <= i < |e.children| :: HasRejected(e.children[i])
  }

  /** An array element other than an empty string. */
  predicate MarksVector(e: Entry) {
    e.key == "" && !(e.data == "" && e.children == [])
  }

  predicate AnyMarksVector(es: seq<Entry>) {
    exists i | 0 <= i < |es| :: MarksVector(es[i])
  }

  /** Same shape, same order, same strings; a missing name becomes "item". */
  function Image(e: Entry): Compound
    decreases e, 1
  {
    Compound(if e.key == "" then ITEM else e.key,
             if e.children == [] then KString else if AnyMarksVector(e.children) then KVector else KObject,
             e.data, Images(e.children))
  }

  function Images(es: seq<Entry>): (cs: seq<Compound>)
    ensures |cs| == |es| && forall i | 0 <= i < |es| :: cs[i] == Image(es[i])
    decreases es, 0
  {
    if es == [] then [] else [Image(es[0])] + Images(es[1..])
  }

  predicate AnyRejected(es: seq<Entry>) {
    exists i | 0 <= i < |es| :: HasRejected(es[i])
  }

  lemma AnyCons(es: seq<Entry>)
    requires es != []
    ensures AnyMarksVector(es) <==> MarksVector(es[0]) || AnyMarksVector(es[1..])
    ensures AnyRejected(es) <==> HasRejected(es[0]) || AnyRejected(es[1..])
  {
    assert es == [es[0]] + es[1..];
    if i :| 0 <= i < |es| && MarksVector(es[i]) && i > 0 { assert MarksVector(es[1..][i - 1]); }
    if i :| 0 <= i < |es| && HasRejected(es[i]) && i > 0 { assert HasRejected(es[1..][i - 1]); }
    if i :| 0 <= i < |es[1..]| && MarksVector(es[1..][i]) { assert MarksVector(es[i + 1]); }
    if i :| 0 <= i < |es[1..]| && HasRejected(es[1..][i]) { assert HasRejected(es[i + 1]); }
  }

  lemma {:induction false} EatIsImage(c: Compound, e: Entry)
    requires JsonShape(e)
    ensures Eat(c, e).1 <==> !HasRejected(e)
    ensures !HasRejected(e) ==> Eat(c, e).0 == Add(if MarksVector(e) then AsVector(c) else c, Image(e))
    decreases e, 1
  {
    if e.children == [] {
      assert Images(e.children) == [];
    } else {
      var inner := Compound(if e.key == "" then ITEM else e.key, KObject, "", []);
      EatAllIsImages(inner, e.children);
      assert [] + Images(e.children) == Images(e.children);
    }
  }

  lemma {:induction false} EatAllIsImages(c: Compound, es: seq<Entry>)
    requires forall i | 0 <= i < |es| :: JsonShape(es[i])
    ensures EatAll(c, es).1 <==> !AnyRejected(es)
    ensures !AnyRejected(es) ==>
              EatAll(c, es).0 ==
              c.(kind := if AnyMarksVector(es) then KVector else c.kind, children := c.children + Images(es))
    decreases es, 0
  {
    if es == [] {
      assert c.children + [] == c.children;
    } else {
      AnyCons(es);
      EatIsImage(c, es[0]);
      EatAllIsImages(Eat(c, es[0]).0, es[1..]);
      assert c.children + [Image(es[0])] + Images(es[1..]) == c.children + Images(es);
    }
  }

  /** eatCompound is a tree isomorphism: for every tree of JSON shape it succeeds exactly if no
      named string holds a forbidden character, and then yields the tree's image. */
  lemma CompoundIsImage(e: Entry)
    requires JsonShape(e)
    ensures EatRoot(e).1 <==> !AnyRejected(e.children)
    ensures EatRoot(e).1 ==>
              EatRoot(e).0 == Compound(TOPLEVEL, if AnyMarksVector(e.children) then KVector else KObject, "", Images(e.children))
  {
    EatAllIsImages(Compound(TOPLEVEL, KObject, "", []), e.children);
    assert [] + Images(e.children) == Images(e.children);
  }

  /** Up to the names of array elements, nothing is lost: the entry can be read back. */
  function Original(c: Compound, nameless: bool): Entry
    decreases c, 1
  {
    Entry(if nameless then "" else c.name, c.text, Originals(c.children, c.kind.KVector?))
  }

  function Originals(cs: seq<Compound>, nameless: bool): seq<Entry>
    decreases cs, 0
  {
    if cs == [] then [] else [Original(cs[0], nameless)] + Originals(cs[1..], nameless)
  }

  /** Siblings in a JSON array are all nameless, in an object all named; an array of nothing but
      empty strings is not recognisable as one. */
  predicate JsonSiblings(es: seq<Entry>) {
    && (forall i | 0 <= i < |es| :: JsonSiblings(es[i].children))
    && if AnyMarksVector(es) then forall i | 0 <= i < |es| :: es[i].key == ""
       else forall i | 0 <= i < |es| :: es[i].key != ""
  }

  /** The entry can be read back from its image if and only if all its siblings, at every level,
      are of one sort in that sense. */
  lemma {:induction false} ImageRoundTripIff(e: Entry)
    ensures Original(Image(e), e.key == "") == e <==> JsonSiblings(e.children)
    decreases e, 1
  {
    ImagesRoundTripIff(e.children, AnyMarksVector(e.children));
    assert e == Entry(e.key, e.data, e.children);
  }

  lemma {:induction false} ImagesRoundTripIff(es: seq<Entry>, nameless: bool)
    ensures Originals(Images(es), nameless) == es <==>
            forall i | 0 <= i < |es| :: JsonSiblings(es[i].children) && (nameless <==> es[i].key == "")
    decreases es, 0
  {
    OriginalsAt(Images(es), nameless);
    forall i | 0 <= i < |es|
      ensures Originals(Images(es), nameless)[i] == es[i] <==>
              JsonSiblings(es[i].children) && (nameless <==> es[i].key == "")
    {
      ImageRoundTripIff(es[i]);
    }
  }

  lemma {:induction false} OriginalsAt(cs: seq<Compound>, nameless: bool)
    ensures |Originals(cs, nameless)| == |cs|
    ensures forall i | 0 <= i < |cs| :: Originals(cs, nameless)[i] == Original(cs[i], nameless)
  {
    if cs != [] {
      OriginalsAt(cs[1..], nameless);
    }
  }

  // ---------------------------------------------------------------------------
  // Which compounds are accepted

  function NameOf(e: Entry): string {
    if e.key == "" then ITEM else e.key
  }

  /** A vector's items are called the same, an object's members differently. */
  predicate SiblingNames(es: seq<Entry>) {
    if AnyMarksVector(es) then forall i | 0 <= i < |es| :: NameOf(es[i]) == NameOf(es[0])
    else forall i, j | 0 <= i < j < |es| :: NameOf(es[i]) != NameOf(es[j])
  }

  function NamesFinding(es: seq<Entry>): Finding {
    if SiblingNames(es) then Fine else Flawed
  }

  /** What there is to find in each node of the tree, in document order: a flaw in the names of its
      children, or a forbidden character in its text. */
  function Findings(e: Entry): seq<Finding>
    decreases e, 1
  {
    var here := if e.children != [] then NamesFinding(e.children) else if ForbiddenChars(e.data) then Ended else Fine;
    [here] + FindingsAll(e.children)
  }

  function FindingsAll(es: seq<Entry>): seq<Finding>
    decreases es, 0
  {
    if es == [] then [] else Findings(es[0]) + FindingsAll(es[1..])
  }

  function FirstBad(fs: seq<Finding>): Finding {
    if fs == [] then Fine else if fs[0].Fine? then FirstBad(fs[1..]) else fs[0]
  }

  lemma {:induction false} FirstBadConcat(xs: seq<Finding>, ys: seq<Finding>)
    ensures FirstBad(xs + ys) == if FirstBad(xs).Fine? then FirstBad(ys) else FirstBad(xs)
  {
    if xs == [] {
      assert xs + ys == ys;
    } else {
      assert (xs + ys)[1..] == xs[1..] + ys;
      FirstBadConcat(xs[1..], ys);
    }
  }

  lemma NamesOfImages(es: seq<Entry>)
    ensures (if AnyMarksVector(es) then SameNames(Images(es)) else DifferentNames(Images(es))) <==> SiblingNames(es)
  {
    assert forall i | 0 <= i < |es| :: Images(es)[i].name == NameOf(es[i]);
  }

  lemma {:induction false} CheckContainer(c: Compound, es: seq<Entry>)
    requires forall i | 0 <= i < |es| :: JsonShape(es[i])
    requires c.kind == (if AnyMarksVector(es) then KVector else KObject) && c.children == Images(es)
    ensures Check(c) == FirstBad([NamesFinding(es)] + FindingsAll(es))
    decreases es, 1
  {
    NamesOfImages(es);
    CheckAllIsFirstBad(es);
    FirstBadConcat([NamesFinding(es)], FindingsAll(es));
  }

  lemma {:induction false} CheckIsFirstBad(e: Entry)
    requires JsonShape(e)
    ensures Check(Image(e)) == FirstBad(Findings(e))
    decreases e, 2
  {
    if e.children != [] {
      CheckContainer(Image(e), e.children);
    }
  }

  lemma {:induction false} CheckAllIsFirstBad(es: seq<Entry>)
    requires forall i | 0 <= i < |es| :: JsonShape(es[i])
    ensures CheckAll(Images(es)) == FirstBad(FindingsAll(es))
    decreases es, 0
  {
    if es != [] {
      CheckIsFirstBad(es[0]);
      CheckAllIsFirstBad(es[1..]);
      FirstBadConcat(Findings(es[0]), FindingsAll(es[1..]));
      assert Images(es)[1..] == Images(es[1..]);
    }
  }

  /** Finding `i` is a flaw in names and nothing was found before it. */
  ghost predicate FlawFirst(fs: seq<Finding>, i: nat) {
    i < |fs| && fs[i].Flawed? && forall j | 0 <= j < i :: fs[j].Fine?
  }

  lemma {:induction false} FirstBadIsFlaw(fs: seq<Finding>)
    ensures FirstBad(fs).Flawed? <==> exists i: nat :: FlawFirst(fs, i)
  {
    if fs != [] {
      var rest := fs[1..];
      FirstBadIsFlaw(rest);
      if fs[0].Flawed? {
        assert FlawFirst(fs, 0);
      }
      if i: nat :| FlawFirst(rest, i) {
        assert fs[0].Fine? ==> FlawFirst(fs, i + 1);
      }
      if i: nat :| FlawFirst(fs, i) {
        assert i > 0 ==> FlawFirst(rest, i - 1);
      }
    }
  }

  /** For every compound of JSON shape: it is accepted if and only if no named string in it has a
      forbidden character, and no flaw in names comes, in document order, before the first
      forbidden character of a string without a name. */
  lemma AcceptsIff(e: Entry)
    requires JsonShape(e)
    ensures Accepts(e) <==>
            && !AnyRejected(e.children)
            && !exists i: nat :: FlawFirst([NamesFinding(e.children)] + FindingsAll(e.children), i)
  {
    CompoundIsImage(e);
    FirstBadIsFlaw([NamesFinding(e.children)] + FindingsAll(e.children));
    if !AnyRejected(e.children) {
      CheckContainer(EatRoot(e).0, e.children);
    }
  }

  /** So a forbidden character in the first item of an array hides every flaw behind it. */
  lemma ForbiddenItemHidesFlaws(e: Entry)
    requires JsonShape(e) && !AnyRejected(e.children) && SiblingNames(e.children)
    requires e.children != [] && e.children[0].children == [] && ForbiddenChars(e.children[0].data)
    ensures Accepts(e)
  {
    var fs := [NamesFinding(e.children)] + FindingsAll(e.children);
    assert fs[1] == Findings(e.children[0])[0] == Ended;
    AcceptsIff(e);
  }
}
