/** `backslashFix`: before a document is parsed, every backslash that stands before a slash is
    removed, in place. When does that keep the meaning of the escapes (section 2.5 of
    RFC 4627)? */
module BackslashFix {
  import opened Wrappers
  import opened CStrings
  import opened JsonText

  /** Drop each backslash that is directly followed by a slash. */
  function Fix(s: string): string {
    if s == "" then ""
    else if s[0] == '\\' && |s| > 1 && s[1] == '/' then Fix(s[1..])
    else [s[0]] + Fix(s[1..])
  }

  /** How many those are. */
  function Dropped(s: string): nat {
    if s == "" then 0
    else (if s[0] == '\\' && |s| > 1 && s[1] == '/' then 1 else 0) + Dropped(s[1..])
  }

  /** The length drops by exactly the number of backslashes followed by a slash. */
  lemma {:induction false} FixLength(s: string)
    ensures |Fix(s)| == |s| - Dropped(s)
  {
    if s != "" {
      FixLength(s[1..]);
    }
  }

  // ---------------------------------------------------------------------------
  // The loop, on a zero-terminated buffer

  /** What the loop has produced after `i` characters, which looks one character ahead. */
  function Fixed(s: string, i: nat): (r: string)
    requires i <= |s|
    ensures |r| <= i
  {
    if i == 0 then ""
    else if s[i - 1] == '\\' && i < |s| && s[i] == '/' then Fixed(s, i - 1)
    else Fixed(s, i - 1) + [s[i - 1]]
  }

  lemma {:induction false} FixedThenRest(s: string, i: nat)
    requires i <= |s|
    ensures Fixed(s, i) + Fix(s[i..]) == Fix(s)
  {
    if i == 0 {
      assert s[0..] == s;
    } else {
      FixedThenRest(s, i - 1);
      assert s[i - 1..][1..] == s[i..];
      if !(s[i - 1] == '\\' && i < |s| && s[i] == '/') {
        assert Fixed(s, i) + Fix(s[i..]) == Fixed(s, i - 1) + ([s[i - 1]] + Fix(s[i..]));
      }
    }
  }

  lemma FixedAll(s: string)
    ensures Fixed(s, |s|) == Fix(s)
  {
    FixedThenRest(s, |s|);
    assert s[|s|..] == "" && Fixed(s, |s|) + "" == Fixed(s, |s|);
  }

  /** strlen. */
  method StrLen(content: array<char>) returns (len: nat)
    requires NUL in content[..]
    ensures len == |CString(content[..])|
  {
    ghost var s := CString(content[..]);
    len := 0;
    while content[len] != NUL
      invariant len <= |s|
      decreases |s| - len
    {
      assert len < |s|;
      len := len + 1;
    }
  }

  lemma FixedStep(s: string, i: nat, next: char)
    requires i < |s| && (if i + 1 < |s| then next == s[i + 1] else next == NUL)
    ensures Fixed(s, i + 1) == if s[i] != '\\' || next != '/' then Fixed(s, i) + [s[i]] else Fixed(s, i)
  {
  }

  /** The copying loop, on the `len` characters `s` before the first zero. */
  method Squeeze(content: array<char>, len: nat, ghost s: string) returns (newContent: array<char>, n: nat)
    requires len == |s| < content.Length && content[..len] == s && content[len] == NUL
    ensures fresh(newContent) && n < newContent.Length
    ensures newContent[..n] == Fixed(s, len) && newContent[n] == NUL
  {
    newContent, n := new char[len + 1], 0;
    for ix := 0 to len
      invariant n <= ix && newContent[..n] == Fixed(s, ix)
    {
      assert content[ix] == s[ix];
      var next := content[ix + 1];
      assert ix + 1 < |s| ==> next == s[ix + 1];
      FixedStep(s, ix, next);
      if content[ix] != '\\' || next != '/' {
        ghost var before := newContent[..n];
        newContent[n] := content[ix];
        assert newContent[..n + 1] == before + [s[ix]];
        n := n + 1;
      }
    }
    newContent[n] := NUL;
  }

  /** strcpy of `s`, which fits. */
  method StrCpy(to: array<char>, from: array<char>, n: nat)
    requires n < from.Length && n < to.Length && to != from && from[n] == NUL
    modifies to
    ensures to[..n + 1] == from[..n + 1]
    ensures forall i | n < i < to.Length :: to[i] == old(to[i])
  {
    for i := 0 to n + 1
      invariant to[..i] == from[..i]
      invariant forall j | i <= j < to.Length :: to[j] == old(to[j])
    {
      to[i] := from[i];
    }
  }

  /** In place on a zero-terminated buffer; characters behind the new end stay. */
  method BackslashFix(content: array<char>)
    requires NUL in content[..]
    modifies content
    ensures NUL in content[..] && CString(content[..]) == Fix(old(CString(content[..])))
    ensures forall i | |Fix(old(CString(content[..])))| < i < content.Length :: content[i] == old(content[i])
  {
    ghost var s := CString(content[..]);
    FixHasNoNul(s);
    FixedAll(s);
    FixLength(s);
    var len := StrLen(content);
    var newContent, n := Squeeze(content, len, s);
    StrCpy(content, newContent, n);
    assert content[..n] == newContent[..n] && content[n] == newContent[n];
    CStringUnique(content[..], Fix(s));
  }

  lemma {:induction false} FixHasNoNul(s: string)
    requires NUL !in s
    ensures NUL !in Fix(s)
  {
    if s != "" {
      FixHasNoNul(s[1..]);
    }
  }

  // ---------------------------------------------------------------------------
  // Meaning

  /** The length of the character, escaped or not, at the start of the text; 0 if the text
      starts with a malformed escape. */
  function Width(s: string): (n: nat)
    requires s != ""
    ensures n <= |s|
  {
    if s[0] != '\\' then 1
    else if |s| >= 2 && SimpleEscape(s[1]).Some? then 2
    else if |s| >= 6 && s[1] == 'u' && HexNumber(s[2..]).Some? then 6
    else 0
  }

  /** A character in the 16-bit units of UTF-16. */
  function Units(c: char): (u: seq<nat>)
    ensures u != []
  {
    var n := c as int;
    if n < 0x10000 then [n] else [0xD800 + (n - 0x10000) / 0x400, 0xDC00 + (n - 0x10000) % 0x400]
  }

  /** What stands there, in 16-bit units; an escaped surrogate is one unit. */
  function First(s: string): seq<nat>
    requires s != "" && Width(s) > 0
  {
    if s[0] != '\\' then Units(s[0])
    else if Width(s) == 2 then Units(SimpleEscape(s[1]).value)
    else [HexNumber(s[2..]).value]
  }

  /** The text with its escapes decoded, in 16-bit units, or None if an escape is malformed. */
  function Meaning(s: string): Option<seq<nat>>
    decreases |s|
  {
    if s == "" then Some([])
    else if Width(s) == 0 then None
    else
      match Meaning(s[Width(s)..])
      case None => None
      case Some(t) => Some(First(s) + t)
  }

  /** A surrogate pair means the character it encodes. */
  lemma PairMeansCharacter(s: string, c: char)
    requires |s| == 12 && s[0] == s[6] == '\\' && s[1] == s[7] == 'u' && c as int >= 0x10000
    requires HexNumber(s[2..]) == Some(Units(c)[0]) && HexNumber(s[8..]) == Some(Units(c)[1])
    ensures Meaning(s) == Meaning([c])
  {
    var t := s[6..];
    assert t[2..] == s[8..] && t[6..] == "" && [c][1..] == "" && t[0] == '\\' && t[1] == 'u';
    var (high, low) := (Units(c)[0], Units(c)[1]);
    MeaningStep(t, 6, [low], []);
    assert [low] + [] == [low];
    MeaningStep(s, 6, [high], [low]);
    MeaningStep([c], 1, Units(c), []);
    assert Units(c) + [] == [high] + [low];
  }

  lemma MeaningStep(s: string, w: nat, first: seq<nat>, rest: seq<nat>)
    requires s != "" && w == Width(s) > 0 && First(s) == first && Meaning(s[w..]) == Some(rest)
    ensures Meaning(s) == Some(first + rest)
  {
  }

  /** An escaped backslash directly before a slash: a run of an even number of backslashes. */
  predicate EvenRunHere(s: string) {
    |s| >= 3 && s[0] == '\\' && s[1] == '\\' && s[2] == '/'
  }

  /** How many slashes follow an even, non-empty run of backslashes. */
  function EvenRuns(s: string): nat
    decreases |s|
  {
    if s == "" || Width(s) == 0 then 0
    else (if EvenRunHere(s) then 1 else 0) + EvenRuns(s[Width(s)..])
  }

  lemma FixCons(c: char, t: string)
    requires !(c == '\\' && t != "" && t[0] == '/')
    ensures Fix([c] + t) == [c] + Fix(t)
  {
    assert ([c] + t)[1..] == t;
  }

  lemma FixSlash(t: string)
    ensures Fix("\\/" + t) == "/" + Fix(t)
  {
    var s := "\\/" + t;
    assert s[1..] == "/" + t && s[1..][1..] == t;
  }

  /** Hexadecimal digits survive unchanged. */
  lemma FixPlain(p: string, t: string)
    requires '\\' !in p
    ensures Fix(p + t) == p + Fix(t)
  {
    if p == "" {
      assert p + t == t;
    } else {
      assert p + t == [p[0]] + (p[1..] + t);
      FixCons(p[0], p[1..] + t);
      FixPlain(p[1..], t);
    }
  }

  lemma HexDigits(s: string)
    requires |s| >= 4 && HexNumber(s).Some?
    ensures forall i | 0 <= i < 4 :: s[i] != '\\' && s[i] != '/'
  {
    assert HexValue(s[0]).Some? && HexValue(s[1]).Some? && HexValue(s[2]).Some? && HexValue(s[3]).Some?;
  }

  /** Four characters before the fix and after it are hexadecimal in the same cases: the first
      that is not stays in place, or is a backslash that gives way to a slash. */
  lemma FixKeepsHex(s: string)
    ensures |s| >= 4 && HexNumber(s).Some? ==>
              |Fix(s)| >= 4 && Fix(s)[..4] == s[..4] && HexNumber(Fix(s)) == HexNumber(s) && Fix(s)[4..] == Fix(s[4..])
    ensures |Fix(s)| >= 4 && HexNumber(Fix(s)).Some? ==> |s| >= 4 && HexNumber(s).Some?
  {
    if |s| >= 4 && HexNumber(s).Some? {
      HexDigits(s);
      assert s == s[..4] + s[4..];
      FixPlain(s[..4], s[4..]);
    }
    if |Fix(s)| >= 4 && HexNumber(Fix(s)).Some? {
      HexDigits(Fix(s));
      PlainPrefix(s, 4);
      assert forall i | 0 <= i < 4 :: Fix(s)[i] == s[i];
    }
  }

  /** If the fixed text starts with `n` characters that are neither slash nor backslash, so
      does the original. */
  lemma {:induction false} PlainPrefix(s: string, n: nat)
    requires n <= |Fix(s)| && forall i | 0 <= i < n :: Fix(s)[i] != '\\' && Fix(s)[i] != '/'
    ensures n <= |s| && s[..n] == Fix(s)[..n]
  {
    if n > 0 {
      FirstOfFix(s);
      assert Fix(s)[0] != '/';
      PlainPrefix(s[1..], n - 1);
      assert s[..n] == [s[0]] + s[1..][..n - 1];
    }
  }

  lemma FirstOfFix(s: string)
    requires s != ""
    ensures Fix(s) != ""
    ensures if s[0] == '\\' && |s| > 1 && s[1] == '/' then Fix(s)[0] == '/'
            else Fix(s)[0] == s[0] && Fix(s)[1..] == Fix(s[1..])
  {
    if s[0] == '\\' && |s| > 1 && s[1] == '/' {
      assert s == "\\/" + s[2..];
      FixSlash(s[2..]);
    }
  }

  // ---------------------------------------------------------------------------
  // One character at a time

  /** Away from an even run the fix keeps the first character of the text; for such a run it
      eats the escaped backslash. */
  ghost predicate FirstKept(s: string)
    requires s != "" && Width(s) > 0
  {
    var f, rest := Fix(s), s[Width(s)..];
    if EvenRunHere(s) then
      f == "\\/" + Fix(rest[1..])
    else
      f != "" && Width(f) > 0 && First(f) == First(s) && f[Width(f)..] == Fix(rest)
  }

  lemma FixFirstPlain(s: string)
    requires s != "" && Width(s) > 0 && s[0] != '\\'
    ensures FirstKept(s)
  {
    assert s == [s[0]] + s[1..];
    FixCons(s[0], s[1..]);
  }

  lemma FixFirstSlash(s: string)
    requires |s| > 1 && s[0] == '\\' && s[1] == '/'
    ensures FirstKept(s)
  {
    assert s == "\\/" + s[2..];
    FixSlash(s[2..]);
  }

  lemma FixFirstSimple(s: string)
    requires s != "" && Width(s) == 2 && s[1] != '/' && s[1] != '\\'
    ensures FirstKept(s)
  {
    var e, rest := s[1], s[2..];
    assert s == ['\\'] + ([e] + rest);
    FixCons('\\', [e] + rest);
    FixCons(e, rest);
    assert Fix(s) == ['\\', e] + Fix(rest);
  }

  lemma FixFirst(s: string)
    requires s != "" && Width(s) > 0
    ensures FirstKept(s)
  {
    if s[0] != '\\' {
      FixFirstPlain(s);
    } else if s[1] == '/' {
      FixFirstSlash(s);
    } else if s[1] == '\\' {
      FixFirstPair(s);
    } else if Width(s) == 2 {
      FixFirstSimple(s);
    } else {
      FixUnicode(s);
    }
  }

  lemma FixFirstPair(s: string)
    requires |s| >= 2 && s[0] == '\\' && s[1] == '\\'
    ensures if EvenRunHere(s) then Fix(s) == "\\/" + Fix(s[2..][1..])
            else Fix(s) == ['\\', '\\'] + Fix(s[2..])
  {
    var rest := s[2..];
    assert s == ['\\'] + (['\\'] + rest);
    FixCons('\\', ['\\'] + rest);
    FixPair(rest);
    var second := Fix(['\\'] + rest);
    if EvenRunHere(s) {
      Prepend('\\', '/', Fix(rest[1..]));
    } else {
      Prepend('\\', '\\', Fix(rest));
    }
  }

  lemma Prepend(a: char, b: char, t: string)
    ensures [a] + ([b] + t) == [a, b] + t
  {
  }

  /** After an escaped backslash. */
  lemma FixPair(rest: string)
    ensures if rest != "" && rest[0] == '/' then Fix(['\\'] + rest) == "/" + Fix(rest[1..])
            else Fix(['\\'] + rest) == ['\\'] + Fix(rest)
  {
    if rest != "" && rest[0] == '/' {
      assert ['\\'] + rest == "\\/" + rest[1..];
      FixSlash(rest[1..]);
    } else {
      FixCons('\\', rest);
    }
  }

  lemma FixUnicodeText(s: string)
    requires |s| >= 6 && s[0] == '\\' && s[1] == 'u'
    ensures Fix(s) == ['\\', 'u'] + Fix(s[2..])
  {
    var rest := s[2..];
    FixCons('u', rest);
    FixCons('\\', ['u'] + rest);
    Prepend('\\', 'u', Fix(rest));
    assert s == ['\\'] + (['u'] + rest);
  }

  lemma FixUnicode(s: string)
    requires |s| >= 6 && s[0] == '\\' && s[1] == 'u' && HexNumber(s[2..]).Some?
    ensures Fix(s) != "" && Width(Fix(s)) == 6 && First(Fix(s)) == First(s) && Fix(s)[6..] == Fix(s[6..])
  {
    FixUnicodeText(s);
    FixKeepsHex(s[2..]);
    UnicodeToken(s, s[2..]);
    UnicodeToken(Fix(s), Fix(s[2..]));
    assert s[2..][4..] == s[6..];
  }

  lemma UnicodeToken(s: string, hex: string)
    requires s == ['\\', 'u'] + hex && |hex| >= 4 && HexNumber(hex).Some?
    ensures Width(s) == 6 && First(s) == [HexNumber(hex).value] && s[6..] == hex[4..]
  {
    assert s[2..] == hex;
  }

  /** A malformed escape at the start stays malformed. */
  lemma FixKeepsMalformed(s: string)
    requires s != "" && Width(s) == 0
    ensures Fix(s) != "" && Width(Fix(s)) == 0
  {
    if |s| == 1 {
      assert s[1..] == "" && Fix(s) == s;
    } else {
      assert s == ['\\'] + ([s[1]] + s[2..]);
      FixCons('\\', [s[1]] + s[2..]);
      FixCons(s[1], s[2..]);
      var f := Fix(s);
      assert f == ['\\', s[1]] + Fix(s[2..]);
      assert f[2..] == Fix(s[2..]);
      FixKeepsHex(s[2..]);
    }
  }

  // ---------------------------------------------------------------------------
  // Main results

  lemma SlashMeaning(t: string)
    ensures Meaning("/" + t) == (match Meaning(t) case None => None case Some(m) => Some(['/' as nat] + m))
    ensures Meaning("\\/" + t) == Meaning("/" + t)
    ensures EvenRuns("/" + t) == EvenRuns(t)
  {
    assert ("/" + t)[1..] == t && ("\\/" + t)[2..] == t;
  }

  /** The fix keeps well-formed text well-formed and malformed text malformed. The decoded text
      loses one unit for each even run of backslashes before a slash, and nothing else. */
  lemma {:induction false} FixAndMeaning(s: string)
    ensures Meaning(Fix(s)).Some? <==> Meaning(s).Some?
    ensures Meaning(s).Some? ==> |Meaning(Fix(s)).value| + EvenRuns(s) == |Meaning(s).value|
    ensures Meaning(s).Some? && EvenRuns(s) == 0 ==> Meaning(Fix(s)) == Meaning(s)
    decreases |s|
  {
    if s == "" {
    } else if Width(s) == 0 {
      FixKeepsMalformed(s);
    } else {
      var rest := s[Width(s)..];
      FixFirst(s);
      if EvenRunHere(s) {
        var t := rest[1..];
        assert rest == "/" + t;
        FixAndMeaning(t);
        SlashMeaning(t);
        SlashMeaning(Fix(t));
      } else {
        FixAndMeaning(rest);
      }
    }
  }

  /** So the fix preserves meaning if and only if there is none, or no slash follows an even,
      non-empty run of backslashes. */
  lemma FixPreservesMeaningIff(s: string)
    ensures Meaning(Fix(s)) == Meaning(s) <==> Meaning(s).None? || EvenRuns(s) == 0
  {
    FixAndMeaning(s);
  }

  // ---------------------------------------------------------------------------
  // The same condition on the text itself, without decoding it

  /** How many backslashes stand immediately before position `i`. */
  function Run(s: string, i: nat): nat
    requires i <= |s|
  {
    if i == 0 || s[i - 1] != '\\' then 0 else 1 + Run(s, i - 1)
  }

  predicate RunOk(s: string, i: nat)
    requires i < |s|
  {
    s[i] == '/' ==> Run(s, i) == 0 || Run(s, i) % 2 == 1
  }

  predicate RunsOkFrom(s: string, from: nat) {
    forall i | from <= i < |s| :: RunOk(s, i)
  }

  /** The same counts, by positions in the text. */
  function WidthAt(x: string, at: nat): (w: nat)
    requires at < |x|
    ensures w <= |x| - at
  {
    Width(x[at..])
  }

  predicate WellFormedAt(x: string, at: nat)
    requires at <= |x|
    decreases |x| - at
  {
    at == |x| || (WidthAt(x, at) > 0 && WellFormedAt(x, at + WidthAt(x, at)))
  }

  function EvenRunsAt(x: string, at: nat): nat
    requires at <= |x|
    decreases |x| - at
  {
    if at == |x| || WidthAt(x, at) == 0 then 0
    else (if EvenRunHere(x[at..]) then 1 else 0) + EvenRunsAt(x, at + WidthAt(x, at))
  }

  lemma {:induction false} ByPosition(x: string, at: nat)
    requires at <= |x|
    ensures Meaning(x[at..]).Some? <==> WellFormedAt(x, at)
    ensures EvenRuns(x[at..]) == EvenRunsAt(x, at)
    decreases |x| - at
  {
    if at < |x| && WidthAt(x, at) > 0 {
      var w := WidthAt(x, at);
      assert x[at..][w..] == x[at + w..];
      ByPosition(x, at + w);
    }
  }

  /** An even run here is a slash with an even, non-empty run right after the escaped backslash. */
  lemma EvenRunIsNext(x: string, at: nat)
    requires at < |x| && Run(x, at) % 2 == 0 && WidthAt(x, at) > 0
    ensures var next := at + WidthAt(x, at);
            EvenRunHere(x[at..]) <==> next < |x| && x[next] == '/' && Run(x, next) > 0
  {
    TokenRuns(x, at);
  }

  lemma {:induction false} RunsAndTokens(x: string, at: nat)
    requires at <= |x| && Run(x, at) % 2 == 0 && WellFormedAt(x, at)
    ensures RunsOkFrom(x, at) <==> EvenRunsAt(x, at) == 0 && !(at < |x| && x[at] == '/' && Run(x, at) > 0)
    decreases |x| - at
  {
    if at < |x| {
      var w := WidthAt(x, at);
      TokenRuns(x, at);
      EvenRunIsNext(x, at);
      RunsAndTokens(x, at + w);
      RunsOkSplit(x, at, w);
    }
  }

  lemma RunsOkSplit(x: string, at: nat, w: nat)
    requires at + w <= |x|
    ensures RunsOkFrom(x, at) <==> RunsOkFrom(x, at + w) && forall i | at <= i < at + w :: RunOk(x, i)
  {
  }

  /** The runs inside and just after the character at `at`. */
  lemma TokenRuns(x: string, at: nat)
    requires at < |x| && Run(x, at) % 2 == 0 && WidthAt(x, at) > 0
    ensures var (s, w) := (x[at..], WidthAt(x, at));
            && Run(x, at + w) == (if s[0] == '\\' && s[1] == '\\' then Run(x, at) + 2 else 0)
            && Run(x, at + w) % 2 == 0
            && ((forall i | at <= i < at + w :: RunOk(x, i)) <==> !(x[at] == '/' && Run(x, at) > 0))
  {
    var (s, w) := (x[at..], Width(x[at..]));
    assert x[at] == s[0];
    assert |s| > 1 ==> x[at + 1] == s[1];
    if w == 6 {
      HexDigits(s[2..]);
      assert x[at + 2] == s[2..][0] && x[at + 3] == s[2..][1] && x[at + 4] == s[2..][2] && x[at + 5] == s[2..][3];
      assert forall i | at <= i < at + w :: x[i] != '/';
    } else if w == 2 {
      assert Run(x, at + 1) == Run(x, at) + 1;
      assert RunOk(x, at) && RunOk(x, at + 1);
    } else {
      assert RunOk(x, at) <==> !(x[at] == '/' && Run(x, at) > 0);
    }
  }

  lemma EvenRunsIffRuns(s: string, at: nat)
    requires at == 0 && WellFormedAt(s, at)
    ensures EvenRunsAt(s, at) == 0 <==> RunsOkFrom(s, at)
  {
    RunsAndTokens(s, at);
  }

  lemma FromTheStart(s: string, at: nat)
    requires at == 0
    ensures Meaning(s).Some? <==> WellFormedAt(s, at)
    ensures EvenRuns(s) == EvenRunsAt(s, at)
  {
    ByPosition(s, at);
    assert s[at..] == s;
  }

  /** The fix preserves meaning if and only if some escape is malformed (before and after), or
      every maximal run of backslashes immediately before a slash has length zero or odd. */
  lemma FixPreservesMeaningIffRunsOdd(s: string)
    ensures Meaning(Fix(s)) == Meaning(s) <==> Meaning(s).None? || RunsOkFrom(s, 0)
  {
    FixPreservesMeaningIff(s);
    FromTheStart(s, 0);
    if Meaning(s).Some? {
      EvenRunsIffRuns(s, 0);
    }
  }
}
