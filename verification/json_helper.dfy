/** Building JSON objects and arrays piece by piece. */
module JsonHelper {
  import opened JsonText

  lemma {:induction false} MembersSnoc(ms: seq<Member>, m: Member)
    ensures PrintMembers(ms + [m]) == (if ms == [] then "" else PrintMembers(ms) + ",") + PrintMember(m)
  {
    if ms == [] {
      assert ms + [m] == [m];
    } else {
      MembersSnoc(ms[1..], m);
      assert (ms + [m])[1..] == ms[1..] + [m] && (ms + [m])[0] == ms[0];
      if |ms| == 1 {
        assert ms[1..] == [];
      } else {
        var (a, b, c) := (PrintMember(ms[0]), PrintMembers(ms[1..]), PrintMember(m));
        assert a + "," + (b + "," + c) == a + "," + b + "," + c;
      }
    }
  }

  lemma {:induction false} ElementsSnoc(vs: seq<Json>, v: Json)
    ensures PrintElements(vs + [v]) == (if vs == [] then "" else PrintElements(vs) + ",") + Print(v)
  {
    if vs == [] {
      assert vs + [v] == [v];
    } else {
      ElementsSnoc(vs[1..], v);
      assert (vs + [v])[1..] == vs[1..] + [v] && (vs + [v])[0] == vs[0];
      if |vs| == 1 {
        assert vs[1..] == [];
      } else {
        var (a, b, c) := (Print(vs[0]), PrintElements(vs[1..]), Print(v));
        assert a + "," + (b + "," + c) == a + "," + b + "," + c;
      }
    }
  }

  lemma StreamSnoc(ms: seq<Member>, m: Member, ss: string)
    requires ss == "{" + PrintMembers(ms)
    ensures (if ms == [] then ss else ss + ",") + (Quote(m.key) + ":" + Print(m.value)) == "{" + PrintMembers(ms + [m])
  {
    MembersSnoc(ms, m);
    if ms == [] {
      assert ss == "{";
    } else {
      var (a, b) := (PrintMembers(ms), PrintMember(m));
      assert ("{" + a) + "," + b == "{" + (a + "," + b);
    }
  }

  /** `JsonHelper`: an output stream and a flag for the first comma. */
  class Helper {
    var ss: string
    var empty: bool

    /** What has been added so far. */
    ghost var members: seq<Member>

    ghost predicate Open()
      reads this
    {
      ss == "{" + PrintMembers(members) && (empty <==> members == [])
    }

    constructor ()
      ensures Open() && members == []
    {
      ss, empty, members := "{", true, [];
    }

    /** `addRaw`: the value is JSON text already. */
    method AddRaw(key: string, value: string, ghost v: Json)
      requires Open() && value == Print(v)
      modifies this
      ensures Open() && members == old(members) + [Member(key, v)]
    {
      StreamSnoc(members, Member(key, v), ss);
      if !empty {
        ss := ss + ",";
      }
      var quoted := ToJsonString(key);
      ss := ss + (quoted + ":" + value);
      empty := false;
      members := members + [Member(key, v)];
    }

    /** `addString`. */
    method AddString(key: string, value: string)
      requires Open()
      modifies this
      ensures Open() && members == old(members) + [Member(key, Str(value))]
    {
      var quoted := ToJsonString(value);
      AddRaw(key, quoted, Str(value));
    }

    /** `addNumber`. */
    method AddNumber(key: string, value: int)
      requires Open()
      modifies this
      ensures Open() && members == old(members) + [Member(key, Num(value))]
    {
      AddRaw(key, PrintInt(value), Num(value));
    }

    /** `addDate`; `isodate` is the C library's rendering of a time. */
    method AddDate(key: string, timestamp: int, isodate: int -> string)
      requires Open()
      modifies this
      ensures Open() && members == old(members) + [Member(key, Str(isodate(timestamp)))]
    {
      AddString(key, isodate(timestamp));
    }

    /** `str`: closes the object in the stream itself, so it is to be called once. */
    method Finish() returns (text: string)
      requires Open()
      modifies this
      ensures text == Print(Obj(members)) && members == old(members)
    {
      ss := ss + "}";
      text := ss;
    }
  }

  /** The array of the strings. */
  function Strings(list: seq<string>): (vs: seq<Json>)
    ensures |vs| == |list| && forall i | 0 <= i < |list| :: vs[i] == Str(list[i])
  {
    seq(|list|, i requires 0 <= i < |list| => Str(list[i]))
  }

  /** The array text after the first `n` strings. */
  ghost function Partial(list: seq<string>, n: nat): string
    requires n <= |list|
  {
    "[" + PrintElements(Strings(list[..n]))
  }

  lemma PartialFirst(list: seq<string>)
    requires list != []
    ensures Partial(list, 1) == "[" + Quote(list[0])
  {
    var vs := Strings(list[..1]);
    assert |vs| == 1 && vs[0] == Str(list[0]);
    assert PrintElements(vs) == Print(vs[0]);
  }

  lemma PartialNext(list: seq<string>, n: nat)
    requires 0 < n < |list|
    ensures Partial(list, n + 1) == Partial(list, n) + ("," + Quote(list[n]))
  {
    var vs := Strings(list[..n]);
    assert Strings(list[..n + 1]) == vs + [Str(list[n])];
    ElementsSnoc(vs, Str(list[n]));
    assert Print(Str(list[n])) == Quote(list[n]);
    assert "[" + (PrintElements(vs) + "," + Quote(list[n])) == ("[" + PrintElements(vs)) + ("," + Quote(list[n]));
  }

  lemma PartialAll(list: seq<string>)
    ensures Partial(list, |list|) + "]" == Print(Arr(Strings(list)))
  {
    assert list[..|list|] == list;
  }

  /** `vectorToJson` for strings: sizes zero and one apart, then the loop. */
  method VectorToJson(list: seq<string>) returns (text: string)
    ensures text == Print(Arr(Strings(list)))
  {
    PartialAll(list);
    if |list| == 0 {
      return "[]";
    }
    PartialFirst(list);
    var first := ToJsonString(list[0]);
    if |list| == 1 {
      return "[" + first + "]";
    }
    text := "[" + first;
    for i := 1 to |list|
      invariant text == Partial(list, i)
    {
      PartialNext(list, i);
      var next := ToJsonString(list[i]);
      text := text + ("," + next);
    }
    text := text + "]";
  }

  lemma ElementsNext(vs: seq<Json>, i: nat)
    requires 0 < i < |vs|
    ensures "[" + PrintElements(vs[..i + 1]) == ("[" + PrintElements(vs[..i])) + ("," + Print(vs[i]))
  {
    assert vs[..i + 1] == vs[..i] + [vs[i]];
    ElementsSnoc(vs[..i], vs[i]);
  }

  /** The `vectorToJson` template, on the texts that toJson gave for the elements. */
  method TextsToJson(texts: seq<string>, ghost vs: seq<Json>) returns (text: string)
    requires |texts| == |vs| && forall i | 0 <= i < |vs| :: texts[i] == Print(vs[i])
    ensures text == Print(Arr(vs))
  {
    if |texts| == 0 {
      return "[]";
    }
    text := "[" + texts[0];
    assert vs[..1] == [vs[0]];
    for i := 1 to |texts|
      invariant text == "[" + PrintElements(vs[..i])
    {
      ElementsNext(vs, i);
      text := text + ("," + texts[i]);
    }
    assert vs[..|vs|] == vs;
    text := text + "]";
  }
}
