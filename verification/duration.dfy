/** Durations (section 4.4.3 of ISO 8601:2004) as `parse8601` reads them.

    Seconds pass through atof, float and round; that composition is the parameter `secs`,
    of which only its exactness on small whole numbers is used. */
module Duration {
  import opened CStrings
  import opened CNumbers
  import JsonText

  predicate IsDayUnit(c: char) {
    c == 'Y' || c == 'M' || c == 'D' || c == 'W'
  }

  predicate IsTimeUnit(c: char) {
    c == 'H' || c == 'M' || c == 'S'
  }

  function ToSeconds(value: int, what: char, dayPart: bool): int {
    if dayPart then
      if what == 'Y' then 365 * 24 * 3600 * value
      else if what == 'M' then 30 * 24 * 3600 * value
      else if what == 'W' then 7 * 24 * 3600 * value
      else if what == 'D' then 24 * 3600 * value
      else -1
    else
      if what == 'H' then 3600 * value
      else if what == 'M' then 60 * value
      else if what == 'S' then value
      else -1
  }

  // ---------------------------------------------------------------------------
  // The loop, one character at a time

  /** `text` is what lies between `start` and the current position. */
  datatype St = Run(dayPart: bool, text: string, accumulated: int, pending: bool) | Fail

  function Step(secs: string -> int, st: St, c: char): St {
    if st.Fail? then Fail
    else if JsonText.IsDigit(c) || c == '.' || c == ',' then st.(text := st.text + [c], pending := true)
    else if st.dayPart && IsDayUnit(c) then
      var value := Atoi(st.text);
      if value == 0 && (st.text == "" || st.text[0] != '0') then Fail
      else Run(true, "", st.accumulated + ToSeconds(value, c, true), false)
    else if st.dayPart && c == 'T' then Run(false, "", st.accumulated, false)
    else if !st.dayPart && IsTimeUnit(c) then
      var value := if c == 'S' then secs(st.text) else Atoi(st.text);
      Run(false, "", st.accumulated + ToSeconds(value, c, false), false)
    else Fail
  }

  function Steps(secs: string -> int, st: St, t: string): St {
    if t == "" then st else Step(secs, Steps(secs, st, t[..|t| - 1]), t[|t| - 1])
  }

  const START := Run(true, "", 0, false)

  function Result(st: St): int {
    if st.Fail? || st.pending then -1 else st.accumulated
  }

  function Parse(secs: string -> int, s: string): int {
    var t := CString(s);
    if t == "" || t[0] != 'P' || t == "P" then -1 else Result(Steps(secs, START, t[1..]))
  }

  lemma {:induction false} StepsConcat(secs: string -> int, st: St, a: string, b: string)
    ensures Steps(secs, st, a + b) == Steps(secs, Steps(secs, st, a), b)
  {
    if b == "" {
      assert a + b == a;
    } else {
      assert (a + b)[..|a + b| - 1] == a + b[..|b| - 1];
      StepsConcat(secs, st, a, b[..|b| - 1]);
    }
  }

  lemma StepsOne(secs: string -> int, st: St, c: char)
    ensures Steps(secs, st, [c]) == Step(secs, st, c)
  {
    assert [c][..0] == "";
  }

  /** The text collected so far is where the buffer still holds the input. */
  lemma {:induction false} FailIsFinal(secs: string -> int, t: string)
    ensures Steps(secs, Fail, t) == Fail
  {
    if t != "" {
      FailIsFinal(secs, t[..|t| - 1]);
    }
  }

  /** `parse8601`: a loop over a copy in which each unit letter is overwritten with a zero. */
  method Parse8601(secs: string -> int, s: string) returns (r: int)
    ensures r == Parse(secs, s)
  {
    if s == "" {
      return -1;
    }
    var t := CString(s);
    var buffer := new char[|t| + 1](i => if 0 <= i < |t| then t[i] else NUL);
    if buffer[0] != 'P' {
      return -1;
    }
    if buffer[1] == NUL {
      assert |t| == 1 && t == "P";
      return -1;
    }
    assert buffer[..] == t + [NUL];
    r := Loop(secs, buffer, t);
  }

  /** The buffer still holds the input from `start` on, and its final zero. */
  ghost predicate Intact(buffer: seq<char>, start: nat, t: string) {
    |buffer| == |t| + 1 && buffer[|t|] == NUL && forall i | start <= i < |t| :: buffer[i] == t[i]
  }

  /** Overwrite the unit letter with a zero and take the text before it. */
  method CutText(buffer: array<char>, start: nat, end: nat, ghost t: string) returns (text: string, first: char)
    requires NUL !in t && start <= end < |t| && Intact(buffer[..], start, t)
    modifies buffer
    ensures text == t[start..end] && first == (if text == "" then NUL else text[0])
    ensures Intact(buffer[..], end + 1, t)
  {
    buffer[end] := NUL;
    TextBeforeZero(buffer[..], start, end, t);
    assert buffer[start..] == buffer[..][start..];
    text := CString(buffer[start..]);
    first := buffer[start];
  }

  lemma StepAt(secs: string -> int, t: string, k: nat)
    requires 1 <= k < |t|
    ensures Steps(secs, START, t[1..k + 1]) == Step(secs, Steps(secs, START, t[1..k]), t[k])
  {
    assert t[1..k + 1][..k - 1] == t[1..k] && t[1..k + 1][k - 1] == t[k];
  }

  /** The loop body. */
  method OneCharacter(secs: string -> int, buffer: array<char>, start: nat, duration: nat, st: Flags, ghost t: string)
      returns (failed: bool, start': nat, st': Flags)
    requires NUL !in t && start <= duration < |t| && Intact(buffer[..], start, t)
    modifies buffer
    ensures start <= start' <= duration + 1 && Intact(buffer[..], start', t)
    ensures var next := Step(secs, st.With(t[start..duration]), t[duration]);
            if failed then next == Fail else next == st'.With(t[start'..duration + 1])
  {
    assert buffer[..][duration] == buffer[duration] == t[duration];
    assert t[start..duration + 1] == t[start..duration] + [t[duration]];
    assert t[duration + 1..duration + 1] == "";
    var c := buffer[duration];
    failed, start', st' := false, duration + 1, st.(pending := false);
    if JsonText.IsDigit(c) || c == '.' || c == ',' {
      start', st' := start, st.(pending := true);
    } else if st.dayPart && IsDayUnit(c) {
      var text, first := CutText(buffer, start, duration, t);
      var value := Atoi(text);
      failed := value == 0 && first != '0';
      st' := st'.(accumulated := st.accumulated + ToSeconds(value, c, true));
    } else if st.dayPart && c == 'T' {
      st' := st'.(dayPart := false);
    } else if !st.dayPart && IsTimeUnit(c) {
      var text, first := CutText(buffer, start, duration, t);
      var value := if c == 'S' then secs(text) else Atoi(text);
      st' := st'.(accumulated := st.accumulated + ToSeconds(value, c, false));
    } else {
      failed := true;
    }
  }

  /** The loop's variables, other than its two pointers. */
  datatype Flags = Flags(dayPart: bool, accumulated: int, pending: bool) {
    function With(text: string): St {
      Run(dayPart, text, accumulated, pending)
    }
  }

  method Loop(secs: string -> int, buffer: array<char>, ghost t: string) returns (r: int)
    requires NUL !in t && |t| > 1 && Intact(buffer[..], 1, t)
    modifies buffer
    ensures r == Result(Steps(secs, START, t[1..]))
  {
    var st := Flags(true, 0, false);
    var start: nat, duration: nat := 1, 1;
    while buffer[duration] != NUL
      invariant 1 <= start <= duration <= |t| && buffer.Length == |t| + 1
      invariant Intact(buffer[..], start, t)
      invariant Steps(secs, START, t[1..duration]) == st.With(t[start..duration])
      decreases |t| - duration
    {
      assert duration < |t|;
      StepAt(secs, t, duration);
      var failed;
      failed, start, st := OneCharacter(secs, buffer, start, duration, st, t);
      if failed {
        StopsFailing(secs, t, duration);
        return -1;
      }
      duration := duration + 1;
    }
    assert buffer[..][duration] == buffer[duration];
    assert t[1..duration] == t[1..];
    return if st.pending then -1 else st.accumulated;
  }

  lemma TextBeforeZero(buffer: seq<char>, start: nat, end: nat, t: string)
    requires start <= end < |t| < |buffer| && NUL !in t && buffer[end] == NUL
    requires forall i | start <= i < end :: buffer[i] == t[i]
    ensures CString(buffer[start..]) == t[start..end]
  {
    assert buffer[start..][..end - start] == t[start..end];
    CStringUnique(buffer[start..], t[start..end]);
  }

  lemma StopsFailing(secs: string -> int, t: string, k: nat)
    requires 1 <= k < |t| && Steps(secs, START, t[1..k + 1]) == Fail
    ensures Result(Steps(secs, START, t[1..])) == -1
  {
    assert t[1..] == t[1..k + 1] + t[k + 1..];
    StepsConcat(secs, START, t[1..k + 1], t[k + 1..]);
    FailIsFinal(secs, t[k + 1..]);
  }

  // ---------------------------------------------------------------------------
  // Durations as lists of tokens

  datatype Token = Token(digits: string, unit: char)

  /** Whole seconds up to this survive the passage through float. */
  const FLOAT_EXACT := 0x100_0000

  ghost predicate TokenOk(tk: Token, dayPart: bool) {
    && tk.digits != "" && AllDigits(tk.digits) && Decimal(tk.digits) < INT_LIMIT
    && (if dayPart then IsDayUnit(tk.unit) else IsTimeUnit(tk.unit))
    && (!dayPart && tk.unit == 'S' ==> Decimal(tk.digits) <= FLOAT_EXACT)
  }

  ghost predicate TokensOk(tks: seq<Token>, dayPart: bool) {
    forall i | 0 <= i < |tks| :: TokenOk(tks[i], dayPart)
  }

  ghost predicate SecsExact(secs: string -> int) {
    forall d: string | AllDigits(d) && Decimal(d) <= FLOAT_EXACT :: secs(d) == Decimal(d)
  }

  function Text(tks: seq<Token>): string {
    if tks == [] then "" else tks[0].digits + [tks[0].unit] + Text(tks[1..])
  }

  const DAY := 86400

  /** The seconds of a year, month, week, day, hour, minute or second. */
  function UnitSeconds(unit: char, dayPart: bool): int {
    match unit
    case 'Y' => 365 * DAY
    case 'M' => if dayPart then 30 * DAY else 60
    case 'W' => 7 * DAY
    case 'D' => DAY
    case 'H' => 3600
    case _ => 1
  }

  ghost function Seconds(tk: Token, dayPart: bool): int
    requires TokenOk(tk, dayPart)
  {
    Decimal(tk.digits) * UnitSeconds(tk.unit, dayPart)
  }

  lemma SecondsAre(value: int, unit: char, dayPart: bool)
    requires if dayPart then IsDayUnit(unit) else IsTimeUnit(unit)
    ensures ToSeconds(value, unit, dayPart) == value * UnitSeconds(unit, dayPart)
  {
  }

  ghost function Sum(tks: seq<Token>, dayPart: bool): int
    requires TokensOk(tks, dayPart)
  {
    if tks == [] then 0 else Seconds(tks[0], dayPart) + Sum(tks[1..], dayPart)
  }

  lemma {:induction false} DigitSteps(secs: string -> int, st: St, d: string)
    requires st.Run? && AllDigits(d)
    ensures Steps(secs, st, d) == if d == "" then st else st.(text := st.text + d, pending := true)
  {
    if d != "" {
      var n := |d| - 1;
      assert AllDigits(d[..n]);
      DigitSteps(secs, st, d[..n]);
      assert d == d[..n] + [d[n]];
      assert st.text + d[..n] + [d[n]] == st.text + d;
      assert n == 0 ==> d[..n] == "" && d == [d[0]];
    }
  }

  lemma TokenSteps(secs: string -> int, st: St, tk: Token)
    requires SecsExact(secs) && st.Run? && st.text == "" && TokenOk(tk, st.dayPart)
    ensures Steps(secs, st, tk.digits + [tk.unit]) ==
            Run(st.dayPart, "", st.accumulated + Seconds(tk, st.dayPart), false)
  {
    var d := tk.digits;
    DigitSteps(secs, st, d);
    assert "" + d == d;
    StepsConcat(secs, st, d, [tk.unit]);
    StepsOne(secs, Steps(secs, st, d), tk.unit);
    AtoiIsDecimal(d);
    SecondsAre(Decimal(d), tk.unit, st.dayPart);
    if Decimal(d) == 0 {
      ZeroStartsWithZero(d);
    }
  }

  lemma {:induction false} TokensSteps(secs: string -> int, st: St, tks: seq<Token>)
    requires SecsExact(secs) && st.Run? && st.text == "" && !st.pending && TokensOk(tks, st.dayPart)
    ensures Steps(secs, st, Text(tks)) == st.(accumulated := st.accumulated + Sum(tks, st.dayPart))
    decreases |tks|
  {
    if tks != [] {
      var first := tks[0].digits + [tks[0].unit];
      TokenSteps(secs, st, tks[0]);
      StepsConcat(secs, st, first, Text(tks[1..]));
      TokensSteps(secs, Steps(secs, st, first), tks[1..]);
    }
  }

  /** The part of a duration after the letter P. */
  function Body(days: seq<Token>, hasTime: bool, times: seq<Token>): string {
    Text(days) + (if hasTime then "T" + Text(times) else "")
  }

  lemma BodySteps(secs: string -> int, days: seq<Token>, hasTime: bool, times: seq<Token>)
    requires SecsExact(secs) && TokensOk(days, true) && TokensOk(times, false) && (times != [] ==> hasTime)
    ensures Steps(secs, START, Body(days, hasTime, times)) == Run(!hasTime, "", Sum(days, true) + Sum(times, false), false)
  {
    TokensSteps(secs, START, days);
    var st := Steps(secs, START, Text(days));
    if hasTime {
      StepsConcat(secs, START, Text(days), "T" + Text(times));
      StepsConcat(secs, st, "T", Text(times));
      StepsOne(secs, st, 'T');
      assert Steps(secs, st, "T") == Run(false, "", Sum(days, true), false);
      TokensSteps(secs, Run(false, "", Sum(days, true), false), times);
    } else {
      assert Text(days) + "" == Text(days);
    }
  }

  lemma {:induction false} TextHasNoNul(tks: seq<Token>, dayPart: bool)
    requires TokensOk(tks, dayPart)
    ensures NUL !in Text(tks) && (tks != [] ==> Text(tks) != "")
  {
    if tks != [] {
      TextHasNoNul(tks[1..], dayPart);
      assert TokenOk(tks[0], dayPart);
      assert NUL !in tks[0].digits by { DigitsHaveNoNul(tks[0].digits); }
    }
  }

  lemma DigitsHaveNoNul(d: string)
    requires AllDigits(d)
    ensures NUL !in d
  {
    assert !JsonText.IsDigit(NUL);
  }

  lemma ParseOfBody(secs: string -> int, body: string)
    requires NUL !in body && body != ""
    ensures Parse(secs, "P" + body) == Result(Steps(secs, START, body))
  {
    CStringOfText("P" + body);
    assert ("P" + body)[1..] == body;
  }

  /** Every duration written as tokens is read as the sum of its tokens. */
  lemma DurationRoundTrip(secs: string -> int, days: seq<Token>, hasTime: bool, times: seq<Token>)
    requires SecsExact(secs) && TokensOk(days, true) && TokensOk(times, false) && (times != [] ==> hasTime)
    requires days != [] || hasTime
    ensures Parse(secs, "P" + Body(days, hasTime, times)) == Sum(days, true) + Sum(times, false)
  {
    BodySteps(secs, days, hasTime, times);
    TextHasNoNul(days, true);
    TextHasNoNul(times, false);
    ParseOfBody(secs, Body(days, hasTime, times));
  }

  /** Digits without a unit at the end are refused ... */
  lemma DanglingDigitsAreRefused(secs: string -> int, days: seq<Token>, hasTime: bool, times: seq<Token>, d: string)
    requires SecsExact(secs) && TokensOk(days, true) && TokensOk(times, false) && (times != [] ==> hasTime)
    requires AllDigits(d) && d != ""
    ensures Parse(secs, "P" + (Body(days, hasTime, times) + d)) == -1
  {
    var body := Body(days, hasTime, times);
    BodySteps(secs, days, hasTime, times);
    StepsConcat(secs, START, body, d);
    DigitSteps(secs, Steps(secs, START, body), d);
    TextHasNoNul(days, true);
    TextHasNoNul(times, false);
    DigitsHaveNoNul(d);
    ParseOfBody(secs, body + d);
  }

  /** ... but just before the letter T they are silently dropped. */
  lemma DanglingDigitsBeforeTimeAreDropped(secs: string -> int, days: seq<Token>, d: string, times: seq<Token>)
    requires SecsExact(secs) && TokensOk(days, true) && TokensOk(times, false) && AllDigits(d) && d != ""
    ensures Parse(secs, "P" + (Text(days) + d + ("T" + Text(times)))) == Sum(days, true) + Sum(times, false)
  {
    TokensSteps(secs, START, days);
    var st := Steps(secs, START, Text(days));
    StepsConcat(secs, START, Text(days), d);
    DigitSteps(secs, st, d);
    var st1 := st.(text := st.text + d, pending := true);
    StepsConcat(secs, START, Text(days) + d, "T" + Text(times));
    StepsConcat(secs, st1, "T", Text(times));
    StepsOne(secs, st1, 'T');
    assert Steps(secs, st1, "T") == Run(false, "", Sum(days, true), false);
    TokensSteps(secs, Run(false, "", Sum(days, true), false), times);
    TextHasNoNul(days, true);
    TextHasNoNul(times, false);
    DigitsHaveNoNul(d);
    ParseOfBody(secs, Text(days) + d + ("T" + Text(times)));
  }

  // ---------------------------------------------------------------------------
  // The 64-bit accumulator

  const INT64_MAX := 0x7FFF_FFFF_FFFF_FFFF

  /** The largest contribution of one token: the greatest int, in years. */
  const MOST := 365 * 24 * 3600 * (INT_LIMIT - 1)

  lemma {:induction false} SumBound(tks: seq<Token>, dayPart: bool)
    requires TokensOk(tks, dayPart)
    ensures 0 <= Sum(tks, dayPart) <= |tks| * MOST
  {
    if tks != [] {
      assert TokenOk(tks[0], dayPart);
      SecondsBound(tks[0], dayPart);
      SumBound(tks[1..], dayPart);
      Distribute(|tks| - 1);
    }
  }

  lemma SecondsBound(tk: Token, dayPart: bool)
    requires TokenOk(tk, dayPart)
    ensures 0 <= Seconds(tk, dayPart) <= MOST
  {
  }

  lemma Distribute(n: nat)
    ensures MOST + n * MOST == (n + 1) * MOST
  {
  }

  /** With at most 136 tokens the accumulator stays within 64 bits after every token. */
  lemma NoOverflow(days: seq<Token>, times: seq<Token>, i: nat, j: nat)
    requires TokensOk(days, true) && TokensOk(times, false) && |days| + |times| <= 136
    requires i <= |days| && j <= |times|
    ensures 0 <= Sum(days[..i], true) + Sum(times[..j], false) <= INT64_MAX
  {
    SumBound(days[..i], true);
    SumBound(times[..j], false);
    FitsTogether(i, j, Sum(days[..i], true), Sum(times[..j], false));
  }

  lemma FitsTogether(i: nat, j: nat, x: int, y: int)
    requires i + j <= 136 && 0 <= x <= i * MOST && 0 <= y <= j * MOST
    ensures 0 <= x + y <= INT64_MAX
  {
    assert i * MOST + j * MOST == (i + j) * MOST <= 136 * MOST;
  }

  /** The bound is the best one: 137 tokens can exceed 64 bits. */
  lemma MoreTokensOverflow() returns (days: seq<Token>)
    ensures TokensOk(days, true) && |days| == 137 && Sum(days, true) > INT64_MAX
  {
    var d := JsonText.Digits(INT_LIMIT - 1);
    AtoiOfDigits(INT_LIMIT - 1);
    AtoiIsDecimal(d);
    days := RepeatOverflows(Token(d, 'Y'), 137, INT_LIMIT - 1);
  }

  lemma RepeatOverflows(tk: Token, n: nat, value: nat) returns (days: seq<Token>)
    requires n == 137 && value == INT_LIMIT - 1 && TokenOk(tk, true) && Seconds(tk, true) == 365 * 24 * 3600 * value
    ensures TokensOk(days, true) && |days| == n && Sum(days, true) > INT64_MAX
  {
    days := Repeat(tk, n);
    SumOfRepeat(tk, n);
  }

  function Repeat(tk: Token, n: nat): seq<Token> {
    if n == 0 then [] else [tk] + Repeat(tk, n - 1)
  }

  lemma {:induction false} SumOfRepeat(tk: Token, n: nat)
    requires TokenOk(tk, true)
    ensures |Repeat(tk, n)| == n && TokensOk(Repeat(tk, n), true) && Sum(Repeat(tk, n), true) == n * Seconds(tk, true)
  {
    if n > 0 {
      SumOfRepeat(tk, n - 1);
      assert Repeat(tk, n)[1..] == Repeat(tk, n - 1);
    }
  }

  // ---------------------------------------------------------------------------
  // What is refused

  /** Once a character is refused, so is the text. */
  lemma RefusedThere(secs: string -> int, a: string, c: char, b: string)
    requires NUL !in a && c != NUL && NUL !in b && Step(secs, Steps(secs, START, a), c) == Fail
    ensures Parse(secs, "P" + (a + [c] + b)) == -1
  {
    var t := a + [c] + b;
    CStringOfText("P" + t);
    assert ("P" + t)[1..] == t && t == (a + [c]) + b;
    StepsConcat(secs, START, a, [c]);
    StepsOne(secs, Steps(secs, START, a), c);
    StepsConcat(secs, START, a + [c], b);
    FailIsFinal(secs, b);
  }

  /** A character that is no digit, point, comma, unit or T. */
  predicate IsForeign(c: char) {
    !JsonText.IsDigit(c) && c !in {'.', ',', 'Y', 'M', 'W', 'D', 'T', 'H', 'S'}
  }

  lemma ForeignCharactersAreRefused(secs: string -> int, a: string, c: char, b: string)
    requires NUL !in a && c != NUL && NUL !in b && IsForeign(c)
    ensures Parse(secs, "P" + (a + [c] + b)) == -1
  {
    RefusedThere(secs, a, c, b);
  }

  /** Without the letter P, or with nothing behind it. */
  lemma MissingPIsRefused(secs: string -> int, s: string)
    requires NUL !in s && (s == "" || s[0] != 'P' || |s| == 1)
    ensures Parse(secs, s) == -1
  {
    CStringOfText(s);
  }

  lemma StrayUnitFails(secs: string -> int, st: St, c: char)
    requires st.Run? && (if st.dayPart then c == 'H' || c == 'S' else c == 'Y' || c == 'W' || c == 'D' || c == 'T')
    ensures Step(secs, st, c) == Fail
  {
  }

  lemma BodyHasNoNul(days: seq<Token>, hasTime: bool, times: seq<Token>)
    requires TokensOk(days, true) && TokensOk(times, false)
    ensures NUL !in Body(days, hasTime, times)
  {
    TextHasNoNul(days, true);
    TextHasNoNul(times, false);
  }

  /** Behind T, units of the day part and a second T are refused; before it, hours and seconds. */
  lemma UnitsStayInTheirPart(secs: string -> int, days: seq<Token>, hasTime: bool, times: seq<Token>, c: char, b: string)
    requires SecsExact(secs) && TokensOk(days, true) && TokensOk(times, false) && (times != [] ==> hasTime) && NUL !in b
    requires if hasTime then c == 'Y' || c == 'W' || c == 'D' || c == 'T' else c == 'H' || c == 'S'
    ensures Parse(secs, "P" + (Body(days, hasTime, times) + [c] + b)) == -1
  {
    var body := Body(days, hasTime, times);
    BodySteps(secs, days, hasTime, times);
    BodyHasNoNul(days, hasTime, times);
    StrayUnitFails(secs, Steps(secs, START, body), c);
    RefusedThere(secs, body, c, b);
  }

  /** In the day part a unit needs a number. */
  lemma BareDayUnitIsRefused(secs: string -> int, days: seq<Token>, c: char, b: string)
    requires SecsExact(secs) && TokensOk(days, true) && IsDayUnit(c) && NUL !in b
    ensures Parse(secs, "P" + (Body(days, false, []) + [c] + b)) == -1
  {
    BodySteps(secs, days, false, []);
    TextHasNoNul(days, true);
    assert Atoi("") == 0;
    RefusedThere(secs, Body(days, false, []), c, b);
  }
}
