/** HTML escaping of response values, and the JSON escaping that follows it. */
module HtmlEscape {
  import opened Wrappers
  import opened JsonText
  import opened CStrings

  /** What is written for one character. The ampersand itself is not escaped, but ';' is. */
  function Word(c: char): (w: string)
    ensures 1 <= |w| <= 6
  {
    if c == '<' then "&lt;"
    else if c == '>' then "&gt;"
    else if c == '(' then "&#40;"
    else if c == ')' then "&#41;"
    else if c == '=' then "&#61;"
    else if c == '\'' then "&#39;"
    else if c == '"' then "&quot;"
    else if c == ';' then "&#59;"
    else [c]
  }

  function Html(s: string): string {
    if s == "" then "" else Html(s[..|s| - 1]) + Word(s[|s| - 1])
  }

  lemma {:induction false} HtmlFits(s: string)
    ensures |Html(s)| <= 6 * |s|
  {
    if s != "" {
      HtmlFits(s[..|s| - 1]);
    }
  }

  lemma {:induction false} HtmlHasNoNul(s: string)
    requires NUL !in s
    ensures NUL !in Html(s)
  {
    if s != "" {
      HtmlHasNoNul(s[..|s| - 1]);
      assert NUL !in Word(s[|s| - 1]);
    }
  }

  lemma HtmlPrefix(s: string, i: nat)
    requires i < |s|
    ensures Html(s[..i + 1]) == Html(s[..i]) + Word(s[i])
  {
    assert s[..i + 1][..i] == s[..i];
  }

  /** `htmlEscape`: writes at most six characters per input character into a zeroed buffer of
      six times the input length plus one, never past its end. */
  method HtmlEscape(s: string) returns (out: array<char>)
    requires NUL !in s
    ensures fresh(out) && out.Length == 6 * |s| + 1
    ensures NUL in out[..] && CString(out[..]) == Html(s)
  {
    out := new char[6 * |s| + 1](_ => NUL);
    var outIx := 0;
    for sIx := 0 to |s|
      invariant outIx == |Html(s[..sIx])| <= 6 * sIx
      invariant out[..outIx] == Html(s[..sIx])
      invariant forall i | outIx <= i < out.Length :: out[i] == NUL
    {
      HtmlPrefix(s, sIx);
      outIx := Append(out, outIx, Word(s[sIx]));
    }
    assert s[..|s|] == s;
    HtmlHasNoNul(s);
    CStringUnique(out[..], Html(s));
  }

  /** The assignments of one case. */
  method Append(out: array<char>, at: nat, w: string) returns (end: nat)
    requires at + |w| < out.Length
    modifies out
    ensures end == at + |w| && out[..end] == old(out[..at]) + w
    ensures forall i | end <= i < out.Length :: out[i] == old(out[i])
  {
    end := at;
    for k := 0 to |w|
      invariant end == at + k && out[..end] == old(out[..at]) + w[..k]
      invariant forall i | end <= i < out.Length :: out[i] == old(out[i])
    {
      out[end] := w[k];
      end := end + 1;
    }
  }

  // ---------------------------------------------------------------------------
  // The input can be recovered, reading from the right

  predicate EndsWith(t: string, w: string) {
    |w| <= |t| && forall i | 0 <= i < |w| :: w[i] == t[|t| - |w| + i]
  }

  /** The character whose word ends the text, and the length of that word. */
  function LastWord(t: string): (r: Option<(char, nat)>)
    requires t != ""
    ensures r.Some? ==> 0 < r.value.1 <= |t|
  {
    if t[|t| - 1] != ';' then Some((t[|t| - 1], 1))
    else if EndsWith(t, "&lt;") then Some(('<', 4))
    else if EndsWith(t, "&gt;") then Some(('>', 4))
    else if EndsWith(t, "&#40;") then Some(('(', 5))
    else if EndsWith(t, "&#41;") then Some((')', 5))
    else if EndsWith(t, "&#61;") then Some(('=', 5))
    else if EndsWith(t, "&#39;") then Some(('\'', 5))
    else if EndsWith(t, "&quot;") then Some(('"', 6))
    else if EndsWith(t, "&#59;") then Some((';', 5))
    else None
  }

  function Unescape(t: string): Option<string>
    decreases |t|
  {
    if t == "" then Some("") else
    match LastWord(t)
    case None => None
    case Some((c, n)) =>
      match Unescape(t[..|t| - n])
      case None => None
      case Some(s) => Some(s + [c])
  }

  lemma LastWordOfWord(p: string, c: char)
    ensures LastWord(p + Word(c)) == Some((c, |Word(c)|))
  {
    var t, w := p + Word(c), Word(c);
    assert EndsWith(t, w);
    assert forall i | 0 <= i < |w| :: t[|t| - |w| + i] == w[i];
    if |w| > 1 {
      assert t[|t| - 1] == ';';
      assert t[|t| - 2] == w[|w| - 2] && t[|t| - 3] == w[|w| - 3] && t[|t| - 4] == w[|w| - 4];
      LastWordByTail(t, c);
    }
  }

  /** The three characters before ';' tell the words apart. */
  lemma LastWordByTail(t: string, c: char)
    requires |Word(c)| > 1 && EndsWith(t, Word(c))
    ensures LastWord(t) == Some((c, |Word(c)|))
  {
    var w := Word(c);
    var n := |t|;
    assert t[n - 1] == w[|w| - 1] && t[n - 2] == w[|w| - 2] && t[n - 3] == w[|w| - 3] && t[n - 4] == w[|w| - 4];
    TailOf(t, "&lt;"); TailOf(t, "&gt;"); TailOf(t, "&#40;"); TailOf(t, "&#41;");
    TailOf(t, "&#61;"); TailOf(t, "&#39;"); TailOf(t, "&quot;"); TailOf(t, "&#59;");
  }

  lemma TailOf(t: string, w: string)
    requires |w| >= 4
    ensures EndsWith(t, w) ==>
      |t| >= 4 && t[|t| - 2] == w[|w| - 2] && t[|t| - 3] == w[|w| - 3] && t[|t| - 4] == w[|w| - 4]
  {
    if EndsWith(t, w) {
      assert w[|w| - 2] == t[|t| - 2] && w[|w| - 3] == t[|t| - 3] && w[|w| - 4] == t[|t| - 4];
    }
  }

  lemma UnescapeWord(t: string, c: char, s: string)
    requires Unescape(t) == Some(s)
    ensures Unescape(t + Word(c)) == Some(s + [c])
  {
    var w := Word(c);
    LastWordOfWord(t, c);
    assert (t + w)[..|t + w| - |w|] == t;
  }

  lemma HtmlSnoc(p: string, c: char, s: string)
    requires s == p + [c]
    ensures Html(s) == Html(p) + Word(c)
  {
    assert s[..|s| - 1] == p;
  }

  lemma RecoverStep(p: string, c: char, s: string)
    requires s == p + [c] && Unescape(Html(p)) == Some(p)
    ensures Unescape(Html(s)) == Some(s)
  {
    HtmlSnoc(p, c, s);
    UnescapeWord(Html(p), c, p);
  }

  lemma RecoverNothing(s: string)
    requires s == ""
    ensures Unescape(Html(s)) == Some(s)
  {
    assert Html(s) == "";
  }

  /** Every text is recovered from its escaped form. */
  lemma {:induction false} HtmlRoundTrip(s: string)
    ensures Unescape(Html(s)) == Some(s)
  {
    if s == "" {
      RecoverNothing(s);
    } else {
      var p, c := s[..|s| - 1], s[|s| - 1];
      assert s == p + [c];
      HtmlRoundTrip(p);
      RecoverStep(p, c, s);
    }
  }

  // ---------------------------------------------------------------------------
  // Value tags

  /** `jsonInvalidCharsTransformation`: the loop. */
  method JsonInvalidCharsTransformation(input: string) returns (ss: string)
    ensures ss == Escape(input)
  {
    ss := "";
    for i := 0 to |input|
      invariant ss == Escape(input[..i])
    {
      assert input[..i + 1] == input[..i] + [input[i]];
      EscapeSnoc(input[..i], input[i]);
      ss := ss + EscapeChar(input[i]);
    }
    assert input[..|input|] == input;
  }

  lemma EscapeInjective(a: string, b: string)
    requires Escape(a) == Escape(b)
    ensures a == b
  {
    ReadEscaped(a, "\"", "");
    ReadEscaped(b, "\"", "");
  }

  /** The line of a value: the key unless it is an element of a vector, the value in quotes unless it
      is to go without, and a comma if there is more to come. */
  function ValueTagText(indent: string, key: string, value: string, showComma: bool, isVectorElement: bool,
                        withoutQuotes: bool): string
  {
    indent
    + (if isVectorElement then "" else "\"" + key + "\" : ")
    + (if withoutQuotes then value else "\"" + value + "\"")
    + (if showComma then ",\n" else "\n")
  }

  /** `valueTag1`. */
  method ValueTag1(indent: string, key: string, unescaped: string, showComma: bool, isVectorElement: bool,
                   withoutQuotes: bool) returns (out: string)
    requires NUL !in unescaped
    ensures out == ValueTagText(indent, key, Escape(Html(unescaped)), showComma, isVectorElement, withoutQuotes)
  {
    var value := "";
    if unescaped != "" {
      var buffer := HtmlEscape(unescaped);
      value := CString(buffer[..]);
    }
    var effective := JsonInvalidCharsTransformation(value);
    out := Line(indent, key, effective, showComma, isVectorElement, withoutQuotes);
  }

  method Line(indent: string, key: string, value: string, showComma: bool, isVectorElement: bool, withoutQuotes: bool)
      returns (out: string)
    ensures out == ValueTagText(indent, key, value, showComma, isVectorElement, withoutQuotes)
  {
    var effective := if withoutQuotes then value else "\"" + value + "\"";
    if showComma {
      if isVectorElement {
        out := indent + effective + ",\n";
      } else {
        out := indent + "\"" + key + "\" : " + effective + ",\n";
      }
    } else {
      if isVectorElement {
        out := indent + effective + "\n";
      } else {
        out := indent + "\"" + key + "\" : " + effective + "\n";
      }
    }
  }

  /** Different values never render to the same tag, whatever the flags. */
  lemma ValueTagInjective(indent: string, key: string, a: string, b: string, showComma: bool, isVectorElement: bool,
                          withoutQuotes: bool)
    requires ValueTagText(indent, key, Escape(Html(a)), showComma, isVectorElement, withoutQuotes)
          == ValueTagText(indent, key, Escape(Html(b)), showComma, isVectorElement, withoutQuotes)
    ensures a == b
  {
    var (p, e) := (indent + (if isVectorElement then "" else "\"" + key + "\" : "), if showComma then ",\n" else "\n");
    var (x, y) := (Escape(Html(a)), Escape(Html(b)));
    var (x', y') := (if withoutQuotes then x else "\"" + x + "\"", if withoutQuotes then y else "\"" + y + "\"");
    Cancel(p, x', y', e);
    if !withoutQuotes {
      Cancel("\"", x, y, "\"");
    }
    EscapeInjective(Html(a), Html(b));
    HtmlRoundTrip(a);
    HtmlRoundTrip(b);
  }

  lemma Cancel(p: string, x: string, y: string, e: string)
    requires p + x + e == p + y + e
    ensures x == y
  {
    assert |x| == |y|;
    assert x == (p + x + e)[|p|..|p| + |x|];
    assert y == (p + y + e)[|p|..|p| + |y|];
  }
}
