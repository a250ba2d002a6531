/** JSON text as this broker prints it, and a reader for sections 2.2 (objects), 2.3 (arrays)
    and 2.5 (strings) of RFC 4627, with the integers of section 2.4. */
module JsonText {
  import opened Wrappers

  // ---------------------------------------------------------------------------
  // Printing strings

  const HEX := "0123456789ABCDEF"

  function EscapeChar(c: char): (r: string)
    ensures r != []
  {
    if c == '\\' then "\\\\"
    else if c == '"' then "\\\""
    else if c == 8 as char then "\\b"
    else if c == 12 as char then "\\f"
    else if c == '\n' then "\\n"
    else if c == '\r' then "\\r"
    else if c == '\t' then "\\t"
    else if c as int <= 0x1F then "\\u00" + [HEX[c as int / 16], HEX[c as int % 16]]
    else [c]
  }

  function Escape(s: string): string {
    if s == "" then "" else EscapeChar(s[0]) + Escape(s[1..])
  }

  function Quote(s: string): string {
    "\"" + Escape(s) + "\""
  }

  lemma {:induction false} EscapeSnoc(s: string, c: char)
    ensures Escape(s + [c]) == Escape(s) + EscapeChar(c)
  {
    if s == "" {
      assert s + [c] == [c] && [c][1..] == "";
    } else {
      assert (s + [c])[1..] == s[1..] + [c];
      EscapeSnoc(s[1..], c);
    }
  }

  lemma QuotedPrefix(input: string, i: nat)
    requires i < |input|
    ensures "\"" + Escape(input[..i + 1]) == "\"" + Escape(input[..i]) + EscapeChar(input[i])
  {
    assert input[..i + 1] == input[..i] + [input[i]];
    EscapeSnoc(input[..i], input[i]);
  }

  /** `toJsonString`: the character loop. */
  method ToJsonString(input: string) returns (ss: string)
    ensures ss == Quote(input)
  {
    ss := "\"";
    for i := 0 to |input|
      invariant ss == "\"" + Escape(input[..i])
    {
      QuotedPrefix(input, i);
      ss := ss + EscapeChar(input[i]);
    }
    assert input[..|input|] == input;
    ss := ss + "\"";
  }

  // ---------------------------------------------------------------------------
  // Reading strings (section 2.5)

  function HexValue(c: char): (r: Option<nat>)
    ensures r.Some? ==> r.value < 16
  {
    if '0' <= c <= '9' then Some(c as int - '0' as int)
    else if 'A' <= c <= 'F' then Some(c as int - 'A' as int + 10)
    else if 'a' <= c <= 'f' then Some(c as int - 'a' as int + 10)
    else None
  }

  /** The number that four hexadecimal digits denote. */
  function HexNumber(s: string): (r: Option<nat>)
    requires |s| >= 4
    ensures r.Some? ==> r.value < 0x10000
  {
    match (HexValue(s[0]), HexValue(s[1]), HexValue(s[2]), HexValue(s[3]))
    case (Some(a), Some(b), Some(c), Some(d)) => Some(((a * 16 + b) * 16 + c) * 16 + d)
    case _ => None
  }

  /** The character that four hexadecimal digits denote on their own. */
  function HexChar(s: string): Option<char>
    requires |s| >= 4
  {
    match HexNumber(s)
    case Some(n) => if n < 0xD800 || 0xE000 <= n then Some(n as char) else None
    case None => None
  }

  /** The character that two escapes denote, the halves of a surrogate pair. */
  function PairChar(s: string): Option<char>
    requires |s| >= 10
  {
    match (HexNumber(s[..4]), HexNumber(s[6..]))
    case (Some(h), Some(l)) =>
      if s[4] == '\\' && s[5] == 'u' && 0xD800 <= h < 0xDC00 && 0xDC00 <= l < 0xE000
      then Some((0x10000 + (h - 0xD800) * 0x400 + (l - 0xDC00)) as char) else None
    case _ => None
  }

  function SimpleEscape(c: char): Option<char> {
    if c == '"' then Some('"')
    else if c == '\\' then Some('\\')
    else if c == '/' then Some('/')
    else if c == 'b' then Some(8 as char)
    else if c == 'f' then Some(12 as char)
    else if c == 'n' then Some('\n')
    else if c == 'r' then Some('\r')
    else if c == 't' then Some('\t')
    else None
  }

  /** One character of a string and what follows it. */
  function ReadChar(t: string): (r: Option<(char, string)>)
    requires t != ""
    ensures r.Some? ==> |r.value.1| < |t|
  {
    if t[0] == '\\' then
      if |t| >= 2 && SimpleEscape(t[1]).Some? then Some((SimpleEscape(t[1]).value, t[2..]))
      else if |t| >= 6 && t[1] == 'u' && HexChar(t[2..]).Some? then Some((HexChar(t[2..]).value, t[6..]))
      else if |t| >= 12 && t[1] == 'u' && PairChar(t[2..]).Some? then Some((PairChar(t[2..]).value, t[12..]))
      else None
    else if t[0] as int <= 0x1F then None
    else Some((t[0], t[1..]))
  }

  /** The characters up to the closing quotation mark, and what follows the mark. */
  function ReadChars(t: string): (r: Option<(string, string)>)
    ensures r.Some? ==> |r.value.1| < |t|
    decreases |t|
  {
    if t == "" then None
    else if t[0] == '"' then Some(("", t[1..]))
    else
      match ReadChar(t)
      case None => None
      case Some((c, rest)) =>
        match ReadChars(rest)
        case None => None
        case Some((s, rest')) => Some(([c] + s, rest'))
  }

  function ReadString(t: string): (r: Option<(string, string)>)
    ensures r.Some? ==> |r.value.1| < |t|
  {
    if t == "" || t[0] != '"' then None else ReadChars(t[1..])
  }

  lemma ReadUnicode(d: char, u: char, rest: string, high: nat, low: nat)
    requires HexValue(d) == Some(high) && HexValue(u) == Some(low) && high * 16 + low < 0x100
    ensures ReadChar(['\\', 'u', '0', '0', d, u] + rest) == Some(((high * 16 + low) as char, rest))
  {
    var t := ['\\', 'u', '0', '0', d, u] + rest;
    assert t[2..] == ['0', '0', d, u] + rest && t[6..] == rest;
  }

  lemma ReadSimple(e: char, rest: string)
    requires SimpleEscape(e).Some?
    ensures ReadChar(['\\', e] + rest) == Some((SimpleEscape(e).value, rest))
  {
    assert (['\\', e] + rest)[2..] == rest;
  }

  lemma HexDigitValue(n: nat)
    requires n < 16
    ensures HexValue(HEX[n]) == Some(n)
  {
  }

  /** The control characters without an escape of their own. */
  lemma ReadControl(c: char, rest: string)
    requires |EscapeChar(c)| == 6
    ensures ReadChar(EscapeChar(c) + rest) == Some((c, rest))
  {
    var high, low := c as int / 16, c as int % 16;
    HexDigitValue(high);
    HexDigitValue(low);
    ReadUnicode(HEX[high], HEX[low], rest, high, low);
  }

  lemma ReadShort(c: char, rest: string)
    requires |EscapeChar(c)| == 2
    ensures ReadChar(EscapeChar(c) + rest) == Some((c, rest))
  {
    ReadSimple(EscapeChar(c)[1], rest);
  }

  lemma ReadEscapedChar(c: char, rest: string)
    ensures var t := EscapeChar(c) + rest;
            t[0] != '"' && ReadChar(t) == Some((c, rest))
  {
    if |EscapeChar(c)| == 6 {
      ReadControl(c, rest);
    } else if |EscapeChar(c)| == 2 {
      ReadShort(c, rest);
    } else {
      assert ([c] + rest)[1..] == rest;
    }
  }

  lemma ReadOneMore(c: char, more: string, s: string, rest: string)
    requires ReadChars(more) == Some((s, rest))
    ensures ReadChars(EscapeChar(c) + more) == Some(([c] + s, rest))
  {
    ReadEscapedChar(c, more);
  }

  lemma EscapeSplit(s: string, end: string)
    requires s != ""
    ensures Escape(s) + end == EscapeChar(s[0]) + (Escape(s[1..]) + end)
  {
    Associate(EscapeChar(s[0]), Escape(s[1..]), end);
  }

  lemma Associate(a: string, b: string, c: string)
    ensures a + b + c == a + (b + c)
  {
  }

  lemma Enclosed(open: string, a: string, close: string, rest: string)
    ensures open + a + close + rest == open + (a + (close + rest))
  {
  }

  lemma {:induction false} ReadEscaped(s: string, end: string, rest: string)
    requires end == "\"" + rest
    ensures ReadChars(Escape(s) + end) == Some((s, rest))
  {
    if s == "" {
      assert Escape(s) + end == end && end[1..] == rest;
    } else {
      ReadEscaped(s[1..], end, rest);
      ReadOneMore(s[0], Escape(s[1..]) + end, s[1..], rest);
      EscapeSplit(s, end);
      assert s == [s[0]] + s[1..];
    }
  }

  /** Every string is recovered from its printed form, and exactly that is consumed. */
  lemma QuoteRoundTrip(s: string, rest: string)
    ensures ReadString(Quote(s) + rest) == Some((s, rest))
  {
    Enclosed("\"", Escape(s), "\"", rest);
    assert ("\"" + (Escape(s) + ("\"" + rest)))[1..] == Escape(s) + ("\"" + rest);
    ReadEscaped(s, "\"" + rest, rest);
  }

  // ---------------------------------------------------------------------------
  // Integers (section 2.4, without fraction and exponent)

  predicate IsDigit(c: char) {
    '0' <= c <= '9'
  }

  function DigitChar(n: nat): (c: char)
    requires n < 10
    ensures IsDigit(c)
  {
    '0' + n as char
  }

  function DigitValue(c: char): (n: nat)
    requires IsDigit(c)
    ensures n < 10
  {
    c as int - '0' as int
  }

  function Digits(n: nat): (s: string)
    ensures s != "" && (forall c | c in s :: IsDigit(c)) && (n > 0 ==> s[0] != '0')
  {
    if n < 10 then [DigitChar(n)] else Digits(n / 10) + [DigitChar(n % 10)]
  }

  function PrintInt(n: int): string {
    if n < 0 then "-" + Digits(-n) else Digits(n)
  }

  /** Digits as far as they go, and what follows them. */
  function ReadNat(t: string, acc: nat): (r: (nat, string))
    ensures |r.1| <= |t|
  {
    if t != "" && IsDigit(t[0]) then ReadNat(t[1..], acc * 10 + DigitValue(t[0])) else (acc, t)
  }

  /** A single zero, or digits that do not start with zero. */
  function ReadUnsigned(t: string): (r: Option<(nat, string)>)
    ensures r.Some? ==> |r.value.1| < |t|
  {
    if t == "" || !IsDigit(t[0]) then None
    else if t[0] == '0' then Some((0, t[1..]))
    else Some(ReadNat(t[1..], DigitValue(t[0])))
  }

  function ReadInt(t: string): (r: Option<(int, string)>)
    ensures r.Some? ==> |r.value.1| < |t|
  {
    if t != "" && t[0] == '-' then
      var r := ReadUnsigned(t[1..]);
      if r.None? then None else
      var n: int := r.value.0;
      Some((-n, r.value.1))
    else
      var r := ReadUnsigned(t);
      if r.None? then None else
      var n: int := r.value.0;
      Some((n, r.value.1))
  }

  /** What may follow a number: nothing, or something that is no digit. */
  predicate EndsNumber(rest: string) {
    rest == "" || !IsDigit(rest[0])
  }

  lemma {:induction false} ReadDigits(n: nat, t: string)
    requires n > 0
    ensures ReadUnsigned(Digits(n) + t) == Some(ReadNat(t, n))
  {
    if n < 10 {
      assert (Digits(n) + t)[1..] == t;
    } else {
      var d := DigitChar(n % 10);
      assert Digits(n) + t == Digits(n / 10) + ([d] + t);
      ReadDigits(n / 10, [d] + t);
      assert ([d] + t)[1..] == t;
    }
  }

  lemma ZeroRoundTrip(n: nat, rest: string)
    requires n == 0
    ensures ReadUnsigned(Digits(n) + rest) == Some((0, rest)) && Digits(n)[0] == '0'
  {
    assert Digits(n) == [DigitChar(n)] && (Digits(n) + rest)[1..] == rest;
  }

  lemma IntRoundTrip(n: int, rest: string)
    requires EndsNumber(rest)
    ensures ReadInt(PrintInt(n) + rest) == Some((n, rest))
    ensures PrintInt(n)[0] == '-' || IsDigit(PrintInt(n)[0])
  {
    if n < 0 {
      assert (PrintInt(n) + rest)[1..] == Digits(-n) + rest;
      ReadDigits(-n, rest);
    } else if n == 0 {
      ZeroRoundTrip(n, rest);
    } else {
      ReadDigits(n, rest);
      assert (PrintInt(n) + rest)[0] == Digits(n)[0];
    }
  }

  // ---------------------------------------------------------------------------
  // Values

  datatype Json =
    | Str(text: string)
    | Num(number: int)
    | Arr(elements: seq<Json>)
    | Obj(members: seq<Member>)

  datatype Member = Member(key: string, value: Json)

  function Print(v: Json): string
    decreases v, 2
  {
    match v
    case Str(s) => Quote(s)
    case Num(n) => PrintInt(n)
    case Arr(vs) => "[" + PrintElements(vs) + "]"
    case Obj(ms) => "{" + PrintMembers(ms) + "}"
  }

  function PrintElements(vs: seq<Json>): string
    decreases vs, 0
  {
    if vs == [] then ""
    else if |vs| == 1 then Print(vs[0])
    else Print(vs[0]) + "," + PrintElements(vs[1..])
  }

  function PrintMember(m: Member): string
    decreases m, 1
  {
    Quote(m.key) + ":" + Print(m.value)
  }

  function PrintMembers(ms: seq<Member>): string
    decreases ms, 0
  {
    if ms == [] then ""
    else if |ms| == 1 then PrintMember(ms[0])
    else PrintMember(ms[0]) + "," + PrintMembers(ms[1..])
  }

  predicate IsSpace(c: char) {
    c == ' ' || c == '\t' || c == '\n' || c == '\r'
  }

  function SkipSpace(t: string): (r: string)
    ensures |r| <= |t| && (r != "" ==> !IsSpace(r[0]))
  {
    if t != "" && IsSpace(t[0]) then SkipSpace(t[1..]) else t
  }

  function ReadValue(text: string): (r: Option<(Json, string)>)
    ensures r.Some? ==> |r.value.1| < |text|
    decreases |text|, 1
  {
    var t := SkipSpace(text);
    if t == "" then None
    else if t[0] == '"' then
      match ReadString(t)
      case None => None
      case Some((s, rest)) => Some((Str(s), rest))
    else if t[0] == '[' then ReadArray(t[1..])
    else if t[0] == '{' then ReadObject(t[1..])
    else
      match ReadInt(t)
      case None => None
      case Some((n, rest)) => Some((Num(n), rest))
  }

  /** After the opening bracket. */
  function ReadArray(text: string): (r: Option<(Json, string)>)
    ensures r.Some? ==> |r.value.1| < |text|
    decreases |text|, 3
  {
    var t := SkipSpace(text);
    if t != "" && t[0] == ']' then Some((Arr([]), t[1..])) else
    match ReadElements(text)
    case None => None
    case Some((vs, rest)) => Some((Arr(vs), rest))
  }

  /** One or more values separated by commas, and the closing bracket. */
  function ReadElements(text: string): (r: Option<(seq<Json>, string)>)
    ensures r.Some? ==> |r.value.1| < |text|
    decreases |text|, 2
  {
    match ReadValue(text)
    case None => None
    case Some((v, after)) =>
      var t := SkipSpace(after);
      if t == "" then None
      else if t[0] == ']' then Some(([v], t[1..]))
      else if t[0] == ',' then
        match ReadElements(t[1..])
        case None => None
        case Some((vs, rest)) => Some(([v] + vs, rest))
      else None
  }

  /** After the opening brace. */
  function ReadObject(text: string): (r: Option<(Json, string)>)
    ensures r.Some? ==> |r.value.1| < |text|
    decreases |text|, 3
  {
    var t := SkipSpace(text);
    if t != "" && t[0] == '}' then Some((Obj([]), t[1..])) else
    match ReadMembers(text)
    case None => None
    case Some((ms, rest)) => Some((Obj(ms), rest))
  }

  function ReadMember(text: string): (r: Option<(Member, string)>)
    ensures r.Some? ==> |r.value.1| < |text|
    decreases |text|, 1
  {
    match ReadString(SkipSpace(text))
    case None => None
    case Some((key, after)) =>
      var t := SkipSpace(after);
      if t == "" || t[0] != ':' then None else
      match ReadValue(t[1..])
      case None => None
      case Some((v, rest)) => Some((Member(key, v), rest))
  }

  /** One or more members separated by commas, and the closing brace. */
  function ReadMembers(text: string): (r: Option<(seq<Member>, string)>)
    ensures r.Some? ==> |r.value.1| < |text|
    decreases |text|, 2
  {
    match ReadMember(text)
    case None => None
    case Some((m, after)) =>
      var t := SkipSpace(after);
      if t == "" then None
      else if t[0] == '}' then Some(([m], t[1..]))
      else if t[0] == ',' then
        match ReadMembers(t[1..])
        case None => None
        case Some((ms, rest)) => Some(([m] + ms, rest))
      else None
  }

  /** No printed value starts with a space or a closing bracket. */
  lemma PrintStart(v: Json)
    ensures Print(v) != ""
    ensures var c := Print(v)[0]; !IsSpace(c) && c != ']' && c != '}'
  {
    if v.Num? {
      IntRoundTrip(v.number, "");
    }
  }

  lemma {:induction false} ValueRoundTrip(v: Json, rest: string)
    requires EndsNumber(rest)
    ensures ReadValue(Print(v) + rest) == Some((v, rest))
    decreases v, 2
  {
    PrintStart(v);
    var t := Print(v) + rest;
    assert SkipSpace(t) == t;
    match v
    case Str(s) => QuoteRoundTrip(s, rest);
    case Num(n) => IntRoundTrip(n, rest);
    case Arr(vs) => ArrayRoundTrip(vs, rest);
    case Obj(ms) => ObjectRoundTrip(ms, rest);
  }

  lemma BracketsAround(inner: string, vs: seq<Json>, rest: string)
    requires inner != "" && !IsSpace(inner[0]) && inner[0] != ']' && ReadElements(inner) == Some((vs, rest))
    ensures ReadValue("[" + inner) == Some((Arr(vs), rest))
  {
    var t := "[" + inner;
    assert t[1..] == inner && SkipSpace(t) == t && SkipSpace(inner) == inner;
  }

  lemma EmptyBrackets(rest: string)
    ensures ReadValue("[]" + rest) == Some((Arr([]), rest))
    ensures ReadValue("{}" + rest) == Some((Obj([]), rest))
  {
    var t, u := "[]" + rest, "{}" + rest;
    assert t[1..] == "]" + rest && t[1..][1..] == rest && SkipSpace(t) == t;
    assert u[1..] == "}" + rest && u[1..][1..] == rest && SkipSpace(u) == u;
  }

  lemma ElementsStart(vs: seq<Json>, end: string)
    requires vs != [] && Print(vs[0]) != ""
    ensures PrintElements(vs) + end != "" && (PrintElements(vs) + end)[0] == Print(vs[0])[0]
  {
  }

  lemma {:induction false} ArrayRoundTrip(vs: seq<Json>, rest: string)
    ensures ReadValue("[" + PrintElements(vs) + "]" + rest) == Some((Arr(vs), rest))
    decreases vs, 1
  {
    if vs == [] {
      EmptyBrackets(rest);
      assert "[" + PrintElements(vs) + "]" + rest == "[]" + rest;
    } else {
      var inner := PrintElements(vs) + ("]" + rest);
      PrintStart(vs[0]);
      ElementsStart(vs, "]" + rest);
      ElementsRoundTrip(vs, "]" + rest, rest);
      BracketsAround(inner, vs, rest);
      Enclosed("[", PrintElements(vs), "]", rest);
    }
  }

  lemma LastElement(text: string, v: Json, rest: string)
    requires ReadValue(text) == Some((v, "]" + rest))
    ensures ReadElements(text) == Some(([v], rest))
  {
    assert ("]" + rest)[1..] == rest;
  }

  lemma OneMoreElement(text: string, v: Json, more: string, vs: seq<Json>, rest: string)
    requires ReadValue(text) == Some((v, "," + more)) && ReadElements(more) == Some((vs, rest))
    ensures ReadElements(text) == Some(([v] + vs, rest))
  {
    assert ("," + more)[1..] == more;
  }

  lemma SplitElements(vs: seq<Json>, end: string)
    requires |vs| > 1
    ensures PrintElements(vs) + end == Print(vs[0]) + ("," + (PrintElements(vs[1..]) + end))
  {
    JoinThree(Print(vs[0]), PrintElements(vs[1..]), end);
  }

  lemma JoinThree(a: string, b: string, end: string)
    ensures (a + "," + b) + end == a + ("," + (b + end))
  {
  }

  lemma {:induction false} ElementsRoundTrip(vs: seq<Json>, end: string, rest: string)
    requires vs != [] && end == "]" + rest
    ensures ReadElements(PrintElements(vs) + end) == Some((vs, rest))
    decreases vs, 0
  {
    if |vs| == 1 {
      ValueRoundTrip(vs[0], end);
      LastElement(Print(vs[0]) + end, vs[0], rest);
      assert vs == [vs[0]];
    } else {
      var more := PrintElements(vs[1..]) + end;
      ElementsRoundTrip(vs[1..], end, rest);
      SplitElements(vs, end);
      ValueRoundTrip(vs[0], "," + more);
      OneMoreElement(PrintElements(vs) + end, vs[0], more, vs[1..], rest);
      assert vs == [vs[0]] + vs[1..];
    }
  }

  lemma KeyAndValue(text: string, key: string, body: string, v: Json, rest: string)
    requires text != "" && text[0] == '"' && ReadString(text) == Some((key, ":" + body)) && ReadValue(body) == Some((v, rest))
    ensures ReadMember(text) == Some((Member(key, v), rest))
  {
    assert SkipSpace(text) == text;
    assert (":" + body)[1..] == body && SkipSpace(":" + body) == ":" + body;
  }

  lemma {:induction false} MemberRoundTrip(m: Member, rest: string)
    requires EndsNumber(rest)
    ensures ReadMember(PrintMember(m) + rest) == Some((m, rest))
    ensures PrintMember(m)[0] == '"'
    decreases m, 1
  {
    var body := Print(m.value) + rest;
    assert PrintMember(m) + rest == Quote(m.key) + (":" + body);
    QuoteRoundTrip(m.key, ":" + body);
    ValueRoundTrip(m.value, rest);
    KeyAndValue(Quote(m.key) + (":" + body), m.key, body, m.value, rest);
  }

  lemma BracesAround(inner: string, ms: seq<Member>, rest: string)
    requires inner != "" && inner[0] == '"' && ReadMembers(inner) == Some((ms, rest))
    ensures ReadValue("{" + inner) == Some((Obj(ms), rest))
  {
    var t := "{" + inner;
    assert t[1..] == inner && SkipSpace(t) == t && SkipSpace(inner) == inner;
  }

  lemma {:induction false} ObjectRoundTrip(ms: seq<Member>, rest: string)
    ensures ReadValue("{" + PrintMembers(ms) + "}" + rest) == Some((Obj(ms), rest))
    decreases ms, 1
  {
    if ms == [] {
      EmptyBrackets(rest);
      assert "{" + PrintMembers(ms) + "}" + rest == "{}" + rest;
    } else {
      var inner := PrintMembers(ms) + ("}" + rest);
      assert inner[0] == PrintMember(ms[0])[0] == '"';
      MembersRoundTrip(ms, "}" + rest, rest);
      BracesAround(inner, ms, rest);
      Enclosed("{", PrintMembers(ms), "}", rest);
    }
  }

  lemma LastMember(text: string, m: Member, rest: string)
    requires ReadMember(text) == Some((m, "}" + rest))
    ensures ReadMembers(text) == Some(([m], rest))
  {
    assert ("}" + rest)[1..] == rest;
  }

  lemma OneMoreMember(text: string, m: Member, more: string, ms: seq<Member>, rest: string)
    requires ReadMember(text) == Some((m, "," + more)) && ReadMembers(more) == Some((ms, rest))
    ensures ReadMembers(text) == Some(([m] + ms, rest))
  {
    assert ("," + more)[1..] == more;
  }

  lemma SplitOneMember(ms: seq<Member>, end: string)
    requires |ms| == 1
    ensures PrintMembers(ms) + end == PrintMember(ms[0]) + end
  {
  }

  lemma SplitMembers(ms: seq<Member>, end: string)
    requires |ms| > 1
    ensures PrintMembers(ms) + end == PrintMember(ms[0]) + ("," + (PrintMembers(ms[1..]) + end))
  {
    JoinThree(PrintMember(ms[0]), PrintMembers(ms[1..]), end);
  }

  lemma {:induction false} MembersRoundTrip(ms: seq<Member>, end: string, rest: string)
    requires ms != [] && end == "}" + rest
    ensures ReadMembers(PrintMembers(ms) + end) == Some((ms, rest))
    decreases ms, 0
  {
    if |ms| == 1 {
      SplitOneMember(ms, end);
      MemberRoundTrip(ms[0], end);
      LastMember(PrintMembers(ms) + end, ms[0], rest);
      assert ms == [ms[0]];
    } else {
      SplitMembers(ms, end);
      MembersRoundTrip(ms[1..], end, rest);
      LaterMembers(ms, end, rest);
    }
  }

  lemma {:induction false} LaterMembers(ms: seq<Member>, end: string, rest: string)
    requires |ms| > 1 && ReadMembers(PrintMembers(ms[1..]) + end) == Some((ms[1..], rest))
    ensures ReadMembers(PrintMembers(ms) + end) == Some((ms, rest))
    decreases ms, 0, 0
  {
    var more := PrintMembers(ms[1..]) + end;
    SplitMembers(ms, end);
    MemberRoundTrip(ms[0], "," + more);
    OneMoreMember(PrintMembers(ms) + end, ms[0], more, ms[1..], rest);
    assert ms == [ms[0]] + ms[1..];
  }
}
