/** Splitting a string at a delimiter. */
module Splitting {
  import opened CStrings

  /** The position of the first delimiter, or the length. */
  function IndexOf(s: string, d: char): (n: nat)
    ensures n <= |s| && d !in s[..n] && (n < |s| ==> s[n] == d)
  {
    if s == "" || s[0] == d then 0 else
    var n := 1 + IndexOf(s[1..], d);
    assert s[..n] == [s[0]] + s[1..][..n - 1];
    n
  }

  /** All pieces between delimiters, empty ones included. */
  function Split(s: string, d: char): (r: seq<string>)
    ensures r != []
    decreases |s|
  {
    var n := IndexOf(s, d);
    if n == |s| then [s] else [s[..n]] + Split(s[n + 1..], d)
  }

  function Join(ps: seq<string>, d: char): string
    requires ps != []
  {
    if |ps| == 1 then ps[0] else ps[0] + [d] + Join(ps[1..], d)
  }

  function SkipLeading(s: string, d: char): (r: string)
    ensures |r| <= |s| && r == s[|s| - |r|..] && (r != "" ==> r[0] != d)
    ensures forall i | 0 <= i < |s| - |r| :: s[i] == d
  {
    if s != "" && s[0] == d then SkipLeading(s[1..], d) else s
  }

  /** What `stringSplit` yields: no component at all if there is nothing but delimiters. */
  function Components(s: string, d: char): seq<string> {
    var rest := SkipLeading(s, d);
    if rest == "" then [] else Split(rest, d)
  }

  lemma IndexOfFirst(a: string, b: string, d: char)
    requires d !in a
    ensures IndexOf(a + [d] + b, d) == |a|
    ensures IndexOf(a, d) == |a|
  {
    var s := a + [d] + b;
    var n := IndexOf(s, d);
    assert forall i | 0 <= i < |a| :: s[i] == a[i] != d;
    assert s[|a|] == d;
    assert forall i | 0 <= i < n :: s[..n][i] == s[i];
  }

  /** Split undoes Join on pieces without the delimiter ... */
  lemma {:induction false} SplitJoin(ps: seq<string>, d: char)
    requires ps != [] && forall p | p in ps :: d !in p
    ensures Split(Join(ps, d), d) == ps
  {
    IndexOfFirst(ps[0], if |ps| == 1 then "" else Join(ps[1..], d), d);
    if |ps| > 1 {
      SplitJoin(ps[1..], d);
      var s, rest := Join(ps, d), Join(ps[1..], d);
      assert s[..|ps[0]|] == ps[0] && s[|ps[0]| + 1..] == rest;
    }
  }

  /** ... and Join undoes Split. */
  lemma {:induction false} JoinSplit(s: string, d: char)
    ensures Join(Split(s, d), d) == s && forall p | p in Split(s, d) :: d !in p
    decreases |s|
  {
    var n := IndexOf(s, d);
    if n < |s| {
      JoinSplit(s[n + 1..], d);
      assert Split(s, d)[1..] == Split(s[n + 1..], d);
      assert s == s[..n] + [d] + s[n + 1..];
    } else {
      assert s[..n] == s;
    }
  }

  /** Up to leading delimiters, the components rebuild the string. */
  lemma ComponentsRebuild(s: string, d: char)
    ensures Components(s, d) == [] <==> SkipLeading(s, d) == ""
    ensures Components(s, d) != [] ==> Join(Components(s, d), d) == SkipLeading(s, d)
  {
    JoinSplit(SkipLeading(s, d), d);
  }

  lemma ComponentsOfJoin(ps: seq<string>, d: char)
    requires ps != [] && ps[0] != "" && forall p | p in ps :: d !in p
    ensures Components(Join(ps, d), d) == ps
  {
    SplitJoin(ps, d);
    assert Join(ps, d)[0] == ps[0][0];
  }

  // ---------------------------------------------------------------------------
  // The code: delimiters are overwritten with zeros, then the pieces are picked up

  /** The string with delimiters replaced by zeros, and a final zero. */
  function Zeroed(s: string, d: char): (r: seq<char>)
    ensures |r| == |s| + 1 && r[|s|] == NUL
    ensures forall i | 0 <= i < |s| :: r[i] == if s[i] == d then NUL else s[i]
  {
    seq(|s|, i requires 0 <= i < |s| => if s[i] == d then NUL else s[i]) + [NUL]
  }

  lemma FirstPiece(s: string, d: char)
    requires NUL !in s
    ensures CString(Zeroed(s, d)) == Split(s, d)[0] == s[..IndexOf(s, d)]
  {
    var n := IndexOf(s, d);
    assert forall i | 0 <= i < n :: s[..n][i] == s[i];
    assert Zeroed(s, d)[..n] == s[..n];
    CStringUnique(Zeroed(s, d), s[..n]);
    assert n == |s| ==> s[..n] == s;
  }

  lemma LaterPieces(s: string, d: char)
    requires IndexOf(s, d) < |s|
    ensures Zeroed(s, d)[IndexOf(s, d) + 1..] == Zeroed(s[IndexOf(s, d) + 1..], d)
  {
  }

  /** `stringSplit`, on the characters up to the first zero. */
  method StringSplit(text: string, delimiter: char) returns (out: seq<string>)
    requires delimiter != NUL
    ensures out == Components(CString(text), delimiter)
  {
    var input := CString(text);
    out := SplitText(input, delimiter);
  }

  method SplitText(input: string, delimiter: char) returns (out: seq<string>)
    requires NUL !in input && delimiter != NUL
    ensures out == Components(input, delimiter)
  {
    out := [];
    var buffer := new char[|input| + 1](i => if 0 <= i < |input| then input[i] else NUL);
    ghost var rest := SkipLeading(input, delimiter);
    var s := SkipDelimiters(buffer, input, delimiter);
    var start := s;
    if buffer[s] == NUL {
      return;
    }
    assert buffer[..] == input + [NUL] && buffer[s..] == buffer[..][s..] == rest + [NUL];
    var components := ZeroDelimiters(buffer, s, rest, delimiter);
    out := PickUp(buffer, start, components, rest, delimiter);
  }

  /** Step 1. */
  method SkipDelimiters(buffer: array<char>, input: string, delimiter: char) returns (s: nat)
    requires NUL !in input && delimiter != NUL && buffer[..] == input + [NUL]
    ensures s < buffer.Length && s == |input| - |SkipLeading(input, delimiter)|
    ensures buffer[s] == NUL <==> SkipLeading(input, delimiter) == ""
  {
    s := 0;
    while buffer[s] == delimiter
      invariant s <= |input| && SkipLeading(input[s..], delimiter) == SkipLeading(input, delimiter)
      decreases |input| - s
    {
      assert buffer[..][s] == (input + [NUL])[s];
      assert input[s..][1..] == input[s + 1..];
      s := s + 1;
    }
    assert buffer[..][s] == (input + [NUL])[s];
    assert SkipLeading(input[s..], delimiter) == input[s..];
  }

  /** Step 3, which also counts. */
  method ZeroDelimiters(buffer: array<char>, start: nat, ghost rest: string, delimiter: char) returns (components: nat)
    requires NUL !in rest && delimiter != NUL
    requires start <= buffer.Length && buffer[start..] == rest + [NUL]
    modifies buffer
    ensures buffer[start..] == Zeroed(rest, delimiter) && components == |Split(rest, delimiter)|
  {
    components := 1;
    var s := start;
    ghost var tail := buffer[start..];
    assert buffer.Length == start + |rest| + 1;
    assert forall i | start <= i < buffer.Length :: buffer[i] == tail[i - start];
    while buffer[s] != NUL
      invariant start <= s <= start + |rest| && buffer.Length == start + |rest| + 1
      invariant forall i | start <= i < s :: buffer[i] == Zeroed(rest, delimiter)[i - start]
      invariant forall i | s <= i < buffer.Length :: buffer[i] == (rest + [NUL])[i - start]
      invariant components == 1 + Count(rest[..s - start], delimiter)
      decreases start + |rest| - s
    {
      ghost var k := s - start;
      assert rest[..k + 1][..k] == rest[..k];
      if buffer[s] == delimiter {
        buffer[s] := NUL;
        components := components + 1;
      }
      s := s + 1;
    }
    assert s == start + |rest|;
    assert rest[..|rest|] == rest;
    CountPieces(rest, delimiter);
  }

  function Count(s: string, d: char): nat {
    if s == "" then 0 else Count(s[..|s| - 1], d) + (if s[|s| - 1] == d then 1 else 0)
  }

  lemma {:induction false} CountConcat(a: string, b: string, d: char)
    ensures Count(a + b, d) == Count(a, d) + Count(b, d)
  {
    if b == "" {
      assert a + b == a;
    } else {
      assert (a + b)[..|a + b| - 1] == a + b[..|b| - 1];
      CountConcat(a, b[..|b| - 1], d);
    }
  }

  lemma {:induction false} CountAbsent(s: string, d: char)
    requires d !in s
    ensures Count(s, d) == 0
  {
    if s != "" {
      CountAbsent(s[..|s| - 1], d);
    }
  }

  lemma CountAround(a: string, b: string, d: char)
    requires d !in a
    ensures Count(a + [d] + b, d) == 1 + Count(b, d)
  {
    CountAbsent(a, d);
    CountConcat(a + [d], b, d);
    assert (a + [d])[..|a|] == a;
  }

  lemma {:induction false} CountPieces(s: string, d: char)
    ensures |Split(s, d)| == 1 + Count(s, d)
    decreases |s|
  {
    var n := IndexOf(s, d);
    if n == |s| {
      assert s[..n] == s;
      CountAbsent(s, d);
    } else {
      var a, b := s[..n], s[n + 1..];
      assert s == a + [d] + b;
      CountAround(a, b, d);
      CountPieces(b, d);
    }
  }

  /** One turn of step 4: the piece at the front of the zeroed text, and what is left. */
  lemma PickStep(left: string, d: char, tail: seq<char>) returns (more: string)
    requires NUL !in left && tail == Zeroed(left, d)
    ensures Split(left, d)[0] == CString(tail) && |CString(tail)| < |tail|
    ensures |Split(left, d)| > 1 ==>
              && NUL !in more && Split(left, d)[1..] == Split(more, d)
              && tail[|CString(tail)| + 1..] == Zeroed(more, d)
  {
    var n := IndexOf(left, d);
    FirstPiece(left, d);
    more := "";
    if n < |left| {
      LaterPieces(left, d);
      more := left[n + 1..];
    }
  }

  lemma TakePiece(out: seq<string>, pieces: seq<string>)
    requires pieces != []
    ensures (out + [pieces[0]]) + pieces[1..] == out + pieces
  {
  }

  /** Step 4. */
  method PickUp(buffer: array<char>, from: nat, components: nat, ghost rest: string, delimiter: char) returns (out: seq<string>)
    requires NUL !in rest && from <= buffer.Length && buffer[from..] == Zeroed(rest, delimiter)
    requires components == |Split(rest, delimiter)|
    ensures out == Split(rest, delimiter)
  {
    out := [];
    var start: nat := from;
    ghost var left, pieces := rest, Split(rest, delimiter);
    ghost var whole := pieces;
    for ix := 0 to components
      invariant |pieces| == components - ix && out + pieces == whole
      invariant pieces != [] ==>
        && pieces == Split(left, delimiter) && NUL !in left
        && start <= buffer.Length && buffer[start..] == Zeroed(left, delimiter)
    {
      ghost var tail := buffer[start..];
      var piece := CString(buffer[start..]);
      left := PickStep(left, delimiter, tail);
      TakePiece(out, pieces);
      assert tail[|piece| + 1..] == buffer[start + |piece| + 1..];
      pieces := pieces[1..];
      out := out + [piece];
      start := start + |piece| + 1;
    }
  }
}
