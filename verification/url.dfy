/** Taking URLs apart (section 3 of RFC 3986): protocol, host, port and path. */
module Url {
  import opened Wrappers
  import opened CStrings
  import opened Splitting
  import opened CNumbers
  import JsonText
  import SlashPaths

  // ---------------------------------------------------------------------------
  // IPv6 hosts

  predicate IsHex(c: char) {
    '0' <= c <= '9' || 'a' <= c <= 'f' || 'A' <= c <= 'F'
  }

  /** A group as it stands before its colon. */
  predicate GroupOk(g: string) {
    |g| <= 4 && forall c | c in g :: IsHex(c)
  }

  /** `checkGroupIPv6`: on the group with its colon. */
  method CheckGroupIPv6(text: string) returns (ok: bool)
    ensures ok <==> text != "" && (text == ":" || GroupOk(text[..|text| - 1]))
  {
    if text == "" {
      return false;
    }
    if text == ":" {
      return true;
    }
    if |text| > 5 {
      return false;
    }
    for i := 0 to |text| - 1
      invariant forall k | 0 <= k < i :: IsHex(text[k])
    {
      if !IsHex(text[i]) {
        assert text[..|text| - 1][i] == text[i];
        return false;
      }
    }
    return true;
  }

  /** Between two and seven colons, and a proper group before each. */
  predicate Ipv6(s: string) {
    var ps := Split(s, ':');
    2 <= |ps| - 1 <= 7 && forall i | 0 <= i < |ps| - 1 :: GroupOk(ps[i])
  }

  /** `isIPv6`. */
  method IsIPv6(text: string) returns (ok: bool)
    ensures ok <==> Ipv6(text)
  {
    var staux, cont := text, 0;
    var pos := IndexOf(staux, ':');
    ghost var ps, done := Split(text, ':'), 0;
    while pos < |staux|
      invariant done < |ps| && cont == done && ps[done..] == Split(staux, ':') && pos == IndexOf(staux, ':')
      invariant forall i | 0 <= i < done :: GroupOk(ps[i])
      decreases |staux|
    {
      cont := cont + 1;
      var part := staux[..pos + 1];
      var good := CheckGroupIPv6(part);
      assert part[..|part| - 1] == staux[..pos] == ps[done..][0] == ps[done];
      assert done + 1 < |ps| by {
        assert |Split(staux, ':')| == 1 + |Split(staux[pos + 1..], ':')| > 1;
      }
      if !good {
        return false;
      }
      staux := staux[pos + 1..];
      assert ps[done + 1..] == ps[done..][1..];
      done := done + 1;
      pos := IndexOf(staux, ':');
    }
    assert |ps[done..]| == 1;
    return cont > 1 && cont < 8;
  }

  /** The parts before and after the last colon, if the first part is an IPv6 address. */
  function Ipv6Port(s: string): Option<(string, string)> {
    var ps := Split(s, ':');
    var n := |ps| - 1;
    if n == 0 then None
    else if Ipv6(Join(ps[..n], ':') + ":") then Some((Join(ps[..n], ':'), ps[n]))
    else None
  }

  lemma JoinSnoc(ps: seq<string>, p: string, d: char)
    requires ps != []
    ensures Join(ps + [p], d) == Join(ps, d) + [d] + p
  {
    if |ps| == 1 {
      assert ps + [p] == [ps[0], p] && (ps + [p])[1..] == [p];
    } else {
      assert (ps + [p])[1..] == ps[1..] + [p];
      JoinSnoc(ps[1..], p, d);
      var (a, b) := (ps[0], Join(ps[1..], d));
      assert a + [d] + (b + [d] + p) == a + [d] + b + [d] + p;
    }
  }

  /** The text up to and including the last colon, and the rest. */
  method UpToLastColon(text: string) returns (res: string, last: string)
    ensures var ps := Split(text, ':');
            var n := |ps| - 1;
            && last == ps[n]
            && res == if n == 0 then "" else Join(ps[..n], ':') + ":"
  {
    res, last := "", text;
    var pos := IndexOf(last, ':');
    ghost var ps, done := Split(text, ':'), 0;
    while pos < |last|
      invariant done < |ps| && ps[done..] == Split(last, ':') && pos == IndexOf(last, ':')
      invariant res == if done == 0 then "" else Join(ps[..done], ':') + ":"
      decreases |last|
    {
      NextGroup(ps, done, last, pos);
      MoveGroup(ps, done);
      res := res + last[..pos + 1];
      last := last[pos + 1..];
      done := done + 1;
      pos := IndexOf(last, ':');
    }
    assert ps[done..] == [last] && ps[..done] == ps[..|ps| - 1];
  }

  lemma NextGroup(ps: seq<string>, done: nat, last: string, pos: nat)
    requires done < |ps| && ps[done..] == Split(last, ':') && pos == IndexOf(last, ':') < |last|
    ensures done + 1 < |ps| && ps[done + 1..] == Split(last[pos + 1..], ':') && last[..pos + 1] == ps[done] + ":"
  {
    SplitCons(last, ':', pos);
    SuffixCons(ps, done, last[..pos], Split(last[pos + 1..], ':'));
    assert last[..pos + 1] == last[..pos] + ":";
  }

  lemma SuffixCons(ps: seq<string>, at: nat, first: string, qs: seq<string>)
    requires at <= |ps| && ps[at..] == [first] + qs
    ensures at < |ps| && ps[at] == first && ps[at + 1..] == qs
  {
    assert |ps| - at == 1 + |qs|;
    assert ps[at] == ps[at..][0];
    assert ps[at + 1..] == ps[at..][1..];
  }

  /** `getIPv6Port`. */
  method GetIPv6Port(text: string) returns (r: Option<(string, string)>)
    ensures r == Ipv6Port(text)
  {
    var res, last := UpToLastColon(text);
    if res == "" {
      return None;
    }
    var ip := res[..|res| - 1];
    assert res == ip + ":";
    var ok := IsIPv6(res);
    r := if ok then Some((ip, last)) else None;
  }

  lemma MoveGroup(ps: seq<string>, done: nat)
    requires done + 1 < |ps|
    ensures (if done == 0 then "" else Join(ps[..done], ':') + ":") + (ps[done] + ":") == Join(ps[..done + 1], ':') + ":"
  {
    assert ps[..done + 1] == ps[..done] + [ps[done]];
    if done == 0 {
      assert ps[..1] == [ps[0]];
    } else {
      JoinSnoc(ps[..done], ps[done], ':');
    }
  }

  // ---------------------------------------------------------------------------
  // URLs

  /** `Undefined`: the code reads the first of zero host components. */
  datatype Outcome =
    | Parsed(host: string, port: int, path: string, protocol: string)
    | Invalid
    | Undefined

  function DefaultPort(protocol: string): int {
    if protocol == "https:" then 443 else 80
  }

  /** Host and port of the third component. */
  function HostPort(token: string, path: string, protocol: string): Outcome {
    match Ipv6Port(token)
    case Some((ip, port)) => Parsed(ip, Atoi(port), path, protocol)
    case None =>
      var hs := Components(CString(token), ':');
      if |hs| > 2 then Invalid
      else if |hs| == 0 then Undefined
      else if |hs| == 2 then
        if hs[1] == "" then Invalid else Parsed(hs[0], Atoi(hs[1]), path, protocol)
      else Parsed(hs[0], DefaultPort(protocol), path, protocol)
  }

  /** The components from the fourth on, each with its slash; at least "/". */
  function PathOf(tokens: seq<string>): string
    requires |tokens| >= 3
  {
    var path := SlashPaths.Join(tokens[3..]);
    if path == "" then "/" else path
  }

  function Parse(url: string): Outcome {
    var tokens := Components(CString(url), '/');
    if url == "" || tokens == [] || (tokens[0] != "https:" && tokens[0] != "http:") then Invalid
    else if |tokens| < 3 || tokens[2] == "" then Invalid
    else HostPort(tokens[2], PathOf(tokens), tokens[0])
  }

  lemma PathSnoc(cs: seq<string>, c: string)
    ensures SlashPaths.Join(cs + [c]) == SlashPaths.Join(cs) + ("/" + c)
  {
    SlashPaths.JoinConcat(cs, [c]);
    assert [c][1..] == [] && SlashPaths.Join([c]) == "/" + c;
  }

  method CollectPath(tokens: seq<string>) returns (path: string)
    requires |tokens| >= 3
    ensures path == PathOf(tokens)
  {
    path := "";
    for ix := 3 to |tokens|
      invariant path == SlashPaths.Join(tokens[3..ix])
    {
      assert tokens[3..ix + 1] == tokens[3..ix] + [tokens[ix]];
      PathSnoc(tokens[3..ix], tokens[ix]);
      path := path + ("/" + tokens[ix]);
    }
    assert tokens[3..|tokens|] == tokens[3..];
    if path == "" {
      path := "/";
    }
  }

  /** `parseUrl`. */
  method ParseUrl(url: string) returns (r: Outcome)
    ensures r == Parse(url)
  {
    if url == "" {
      return Invalid;
    }
    var tokens := StringSplit(url, '/');
    if |tokens| == 0 || (tokens[0] != "https:" && tokens[0] != "http:") {
      return Invalid;
    }
    if |tokens| < 3 || tokens[2] == "" {
      return Invalid;
    }
    var path := CollectPath(tokens);
    var v6 := GetIPv6Port(tokens[2]);
    if v6.Some? {
      return Parsed(v6.value.0, Atoi(v6.value.1), path, tokens[0]);
    }
    var hosts := StringSplit(tokens[2], ':');
    if |hosts| > 2 {
      return Invalid;
    }
    if |hosts| == 0 {
      return Undefined;
    }
    if |hosts| == 2 {
      if hosts[1] == "" {
        return Invalid;
      }
      return Parsed(hosts[0], Atoi(hosts[1]), path, tokens[0]);
    }
    return Parsed(hosts[0], DefaultPort(tokens[0]), path, tokens[0]);
  }

  // ---------------------------------------------------------------------------
  // Printing and parsing back

  ghost predicate Clean(s: string) {
    NUL !in s && '/' !in s
  }

  function HostText(host: string, port: Option<nat>): string {
    match port
    case None => host
    case Some(n) => host + ":" + JsonText.Digits(n)
  }

  function Print(protocol: string, hostText: string, segments: seq<string>): string {
    protocol + "//" + hostText + SlashPaths.Join(segments)
  }

  function PathText(segments: seq<string>): string {
    if segments == [] then "/" else SlashPaths.Join(segments)
  }

  lemma {:induction false} JoinHead(h: string, segments: seq<string>)
    ensures Join([h] + segments, '/') == h + SlashPaths.Join(segments)
    decreases |segments|
  {
    if segments == [] {
      assert [h] + segments == [h];
    } else {
      JoinHead(segments[0], segments[1..]);
      assert [segments[0]] + segments[1..] == segments && ([h] + segments)[1..] == segments;
    }
  }

  lemma PrintIsJoin(protocol: string, hostText: string, segments: seq<string>)
    ensures Print(protocol, hostText, segments) == Join([protocol, "", hostText] + segments, '/')
  {
    var all := [protocol, "", hostText] + segments;
    assert all[1..] == ["", hostText] + segments && all[1..][1..] == [hostText] + segments;
    JoinHead(hostText, segments);
    var t := hostText + SlashPaths.Join(segments);
    assert Join(all[1..], '/') == "" + ['/'] + t;
    assert Join(all, '/') == protocol + ['/'] + ("" + ['/'] + t);
    assert protocol + "//" + hostText + SlashPaths.Join(segments) == protocol + ['/'] + ("" + ['/'] + t);
  }

  lemma {:induction false} JoinHasNoNul(ps: seq<string>, d: char)
    requires ps != [] && d != NUL && forall p | p in ps :: NUL !in p
    ensures NUL !in Join(ps, d)
  {
    if |ps| > 1 {
      JoinHasNoNul(ps[1..], d);
    }
  }

  /** The parser sees exactly the printed components. */
  lemma PrintedComponents(protocol: string, hostText: string, segments: seq<string>)
    requires protocol in {"http:", "https:"} && Clean(hostText) && forall s | s in segments :: Clean(s)
    ensures Components(CString(Print(protocol, hostText, segments)), '/') == [protocol, "", hostText] + segments
    ensures Print(protocol, hostText, segments) != ""
  {
    var all := [protocol, "", hostText] + segments;
    PrintIsJoin(protocol, hostText, segments);
    forall p | p in all
      ensures Clean(p)
    {
      if p == protocol {
        assert Clean("http:") && Clean("https:");
      } else if p != "" && p != hostText {
        assert p in segments;
      }
    }
    JoinHasNoNul(all, '/');
    CStringOfText(Join(all, '/'));
    ComponentsOfJoin(all, '/');
  }

  lemma ParsePrinted(protocol: string, hostText: string, segments: seq<string>)
    requires protocol in {"http:", "https:"} && Clean(hostText) && hostText != "" && forall s | s in segments :: Clean(s)
    ensures Parse(Print(protocol, hostText, segments)) == HostPort(hostText, PathText(segments), protocol)
  {
    PrintedComponents(protocol, hostText, segments);
    ParseTokens(Print(protocol, hostText, segments), [protocol, "", hostText] + segments, segments);
  }

  lemma ParseTokens(url: string, tokens: seq<string>, segments: seq<string>)
    requires |tokens| >= 3 && tokens[3..] == segments && tokens[0] in {"http:", "https:"} && tokens[2] != "" && url != ""
    requires Components(CString(url), '/') == tokens && forall s | s in segments :: Clean(s)
    ensures Parse(url) == HostPort(tokens[2], PathText(segments), tokens[0])
  {
    PathOfTokens(tokens, segments);
  }

  lemma PathOfTokens(tokens: seq<string>, segments: seq<string>)
    requires |tokens| >= 3 && tokens[3..] == segments
    ensures PathOf(tokens) == PathText(segments)
  {
  }

  lemma BareHost(host: string, path: string, protocol: string)
    requires host != "" && Clean(host) && ':' !in host
    ensures HostPort(host, path, protocol) == Parsed(host, DefaultPort(protocol), path, protocol)
  {
    CStringOfText(host);
    assert Join([host], ':') == host;
    SplitJoin([host], ':');
    ComponentsOfJoin([host], ':');
  }

  lemma HostWithPort(host: string, n: nat, path: string, protocol: string)
    requires host != "" && Clean(host) && ':' !in host
    ensures HostPort(HostText(host, Some(n)), path, protocol) == Parsed(host, n, path, protocol)
  {
    var text := HostText(host, Some(n));
    var digits := JsonText.Digits(n);
    assert forall c | c in digits :: c != ':' && c != NUL;
    var ps := [host, digits];
    assert ps[1..] == [digits] && Join(ps, ':') == text;
    SplitJoin(ps, ':');
    ComponentsOfJoin(ps, ':');
    CStringOfText(text);
    OneColonIsNotIPv6(host, digits);
    AtoiOfDigits(n);
  }

  lemma PlainHost(host: string, port: Option<nat>, path: string, protocol: string)
    requires host != "" && Clean(host) && ':' !in host
    ensures HostPort(HostText(host, port), path, protocol)
         == Parsed(host, if port.Some? then port.value else DefaultPort(protocol), path, protocol)
  {
    match port
    case None => BareHost(host, path, protocol);
    case Some(n) => HostWithPort(host, n, path, protocol);
  }

  lemma OneColonIsNotIPv6(host: string, last: string)
    requires ':' !in host && ':' !in last
    ensures Ipv6Port(host + ":" + last) == None
  {
    var ps := [host, last];
    assert ps[1..] == [last] && Join(ps, ':') == host + ":" + last;
    SplitJoin(ps, ':');
    assert ps[..1] == [host] && Join([host], ':') == host;
    var qs := [host, ""];
    assert qs[1..] == [""] && Join(qs, ':') == host + ":" + "" == host + ":";
    SplitJoin(qs, ':');
  }

  /** URL round trip for plain hosts: every host without '/' and ':', with or without a port,
      and every list of segments comes back, with the protocol's default port and "/" as
      default path. */
  lemma PlainUrlRoundTrip(protocol: string, host: string, port: Option<nat>, segments: seq<string>)
    requires protocol in {"http:", "https:"} && (port.Some? ==> port.value < INT_LIMIT)
    requires host != "" && Clean(host) && ':' !in host && forall s | s in segments :: Clean(s)
    ensures Parse(Print(protocol, HostText(host, port), segments))
         == Parsed(host, if port.Some? then port.value else if protocol == "https:" then 443 else 80,
                   if segments == [] then "/" else SlashPaths.Join(segments), protocol)
  {
    var text := HostText(host, port);
    if port.Some? {
      assert forall c | c in JsonText.Digits(port.value) :: c != '/' && c != NUL;
    }
    ParsePrinted(protocol, text, segments);
    PlainHost(host, port, PathText(segments), protocol);
  }

  lemma GroupIsClean(g: string)
    requires GroupOk(g)
    ensures ':' !in g && Clean(g)
  {
    assert !IsHex(':') && !IsHex(NUL) && !IsHex('/');
  }

  lemma Ipv6OfGroups(groups: seq<string>)
    requires 2 <= |groups| <= 7 && forall g | g in groups :: GroupOk(g) && ':' !in g
    ensures Ipv6(Join(groups, ':') + ":")
  {
    JoinSnoc(groups, "", ':');
    assert Join(groups, ':') + ":" + "" == Join(groups, ':') + ":";
    SplitJoin(groups + [""], ':');
    SplitIntoGroups(Join(groups, ':') + ":", groups);
  }

  lemma SplitIntoGroups(t: string, groups: seq<string>)
    requires Split(t, ':') == groups + [""] && 2 <= |groups| <= 7 && forall g | g in groups :: GroupOk(g)
    ensures Ipv6(t)
  {
    var ps := Split(t, ':');
    forall i | 0 <= i < |ps| - 1
      ensures GroupOk(ps[i])
    {
      assert ps[i] == groups[i];
    }
  }

  lemma Ipv6PortOfGroups(groups: seq<string>, last: string)
    requires 2 <= |groups| <= 7 && ':' !in last && forall g | g in groups :: GroupOk(g) && ':' !in g
    ensures Ipv6Port(Join(groups, ':') + ":" + last) == Some((Join(groups, ':'), last))
  {
    JoinSnoc(groups, last, ':');
    SplitJoin(groups + [last], ':');
    assert (groups + [last])[..|groups|] == groups;
    Ipv6OfGroups(groups);
  }

  lemma Ipv6Host(groups: seq<string>, port: nat, path: string, protocol: string)
    requires 2 <= |groups| <= 7 && forall g | g in groups :: GroupOk(g)
    ensures HostPort(Join(groups, ':') + ":" + JsonText.Digits(port), path, protocol)
         == Parsed(Join(groups, ':'), port, path, protocol)
  {
    forall g | g in groups
      ensures ':' !in g
    {
      GroupIsClean(g);
    }
    assert ':' !in JsonText.Digits(port) by {
      assert forall c | c in JsonText.Digits(port) :: c != ':';
    }
    Ipv6PortOfGroups(groups, JsonText.Digits(port));
    AtoiOfDigits(port);
  }

  lemma {:induction false} GroupsAreClean(groups: seq<string>)
    requires groups != [] && forall g | g in groups :: GroupOk(g)
    ensures Clean(Join(groups, ':'))
  {
    if |groups| > 1 {
      GroupsAreClean(groups[1..]);
    }
    GroupIsClean(groups[0]);
  }

  /** URL round trip for unbracketed IPv6 hosts: one to six colons, groups of at most four
      hexadecimal digits, and an explicit port. */
  lemma Ipv6UrlRoundTrip(protocol: string, groups: seq<string>, port: nat, segments: seq<string>)
    requires protocol in {"http:", "https:"} && port < INT_LIMIT
    requires 2 <= |groups| <= 7 && (forall g | g in groups :: GroupOk(g)) && forall s | s in segments :: Clean(s)
    ensures Parse(Print(protocol, Join(groups, ':') + ":" + JsonText.Digits(port), segments))
         == Parsed(Join(groups, ':'), port, PathText(segments), protocol)
  {
    GroupsAreClean(groups);
    assert forall c | c in JsonText.Digits(port) :: c != '/' && c != NUL;
    var text := Join(groups, ':') + ":" + JsonText.Digits(port);
    ParsePrinted(protocol, text, segments);
    Ipv6Host(groups, port, PathText(segments), protocol);
  }

  // ---------------------------------------------------------------------------
  // Where the code has no defined result

  ghost predicate OnlyColons(s: string) {
    forall i | 0 <= i < |s| :: s[i] == ':'
  }

  lemma {:induction false} ColonPieces(s: string)
    requires OnlyColons(s)
    ensures |Split(s, ':')| == |s| + 1 && forall i | 0 <= i <= |s| :: Split(s, ':')[i] == ""
    ensures SkipLeading(s, ':') == ""
  {
    if s != "" {
      assert s[0] == ':' && s[0 + 1..] == s[1..];
      ColonPieces(s[1..]);
    }
  }

  lemma {:induction false} SkipsAllOnlyIfColons(s: string)
    requires SkipLeading(s, ':') == ""
    ensures OnlyColons(s)
  {
    if s != "" {
      var t := s[1..];
      SkipsAllOnlyIfColons(t);
      forall i | 0 <= i < |s|
        ensures s[i] == ':'
      {
        if i > 0 {
          assert s[i] == t[i - 1];
        }
      }
    }
  }

  lemma {:induction false} JoinColons(ps: seq<string>)
    requires ps != [] && forall i | 0 <= i < |ps| :: ps[i] == ""
    ensures OnlyColons(Join(ps, ':')) && |Join(ps, ':')| == |ps| - 1
  {
    if |ps| > 1 {
      JoinColons(ps[1..]);
      assert ps[0] == "";
    }
  }

  lemma ColonsAsIpv6(t: string)
    requires OnlyColons(t)
    ensures Ipv6(t) <==> 2 <= |t| <= 7
  {
    ColonPieces(t);
    assert GroupOk("");
  }

  /** A host that is nothing but one colon, or eight and more, makes the code read a component
      that does not exist; no other host does. */
  lemma HostUndefinedIff(token: string, path: string, protocol: string)
    requires NUL !in token && token != ""
    ensures HostPort(token, path, protocol).Undefined? <==> OnlyColons(token) && (|token| == 1 || |token| >= 8)
  {
    CStringOfText(token);
    if OnlyColons(token) {
      ColonPieces(token);
      var n := |token|;
      var front := Split(token, ':')[..n];
      JoinColons(front);
      var t := Join(front, ':') + ":";
      assert OnlyColons(t) && |t| == n;
      ColonsAsIpv6(t);
    } else if SkipLeading(token, ':') == "" {
      SkipsAllOnlyIfColons(token);
      assert false;
    }
  }

  lemma SplitCons(s: string, d: char, n: nat)
    requires n == IndexOf(s, d) < |s|
    ensures Split(s, d) == [s[..n]] + Split(s[n + 1..], d)
  {
  }

  ghost predicate NoNulInside(ps: seq<string>) {
    forall i | 0 <= i < |ps| :: NUL !in ps[i]
  }

  lemma {:induction false} PiecesHaveNoNul(s: string, d: char)
    requires NUL !in s
    ensures NoNulInside(Split(s, d))
    decreases |s|
  {
    var n := IndexOf(s, d);
    if n < |s| {
      var first, rest := s[..n], s[n + 1..];
      assert NUL !in first && NUL !in rest;
      PiecesHaveNoNul(rest, d);
      SplitCons(s, d, n);
      assert NoNulInside([first] + Split(rest, d));
    }
  }

  /** parseUrl has no defined result if and only if the URL gets as far as its host and that is
      nothing but one colon, or eight and more. */
  lemma UndefinedIff(url: string)
    ensures var ts := Components(CString(url), '/');
            Parse(url).Undefined? <==>
            && |ts| >= 3 && ts[0] in {"http:", "https:"}
            && OnlyColons(ts[2]) && (|ts[2]| == 1 || |ts[2]| >= 8)
  {
    var s := CString(url);
    var ts := Components(s, '/');
    if |ts| >= 3 && ts[2] != "" {
      PiecesHaveNoNul(SkipLeading(s, '/'), '/');
      HostUndefinedIff(ts[2], PathOf(ts), ts[0]);
    }
    assert url == "" ==> s == "" && ts == [];
  }

  /** Such a URL is "http://:", for one. */
  lemma ColonUrlIsUndefined(protocol: string, host: string, segments: seq<string>)
    requires protocol in {"http:", "https:"} && OnlyColons(host) && (|host| == 1 || |host| >= 8)
    requires forall s | s in segments :: Clean(s)
    ensures Parse(Print(protocol, host, segments)).Undefined?
  {
    assert forall c | c in host :: c == ':';
    ParsePrinted(protocol, host, segments);
    HostUndefinedIff(host, PathText(segments), protocol);
  }

  /** A host that is accepted: an IPv6 address with a port, or a name with at most one colon that
      has something behind it (leading colons are skipped). */
  ghost predicate HostOk(host: string) {
    || Ipv6Port(host).Some?
    || |Components(host, ':')| == 1
    || (|Components(host, ':')| == 2 && Components(host, ':')[1] != "")
  }

  lemma HostParsedIff(host: string, path: string, protocol: string)
    requires NUL !in host
    ensures HostPort(host, path, protocol).Parsed? <==> HostOk(host)
    ensures HostPort(host, path, protocol).Parsed? ==> HostPort(host, path, protocol).protocol == protocol
  {
    CStringOfText(host);
  }

  /** The URL gets as far as its host. */
  predicate ReachesHost(ts: seq<string>) {
    |ts| >= 3 && (ts[0] == "http:" || ts[0] == "https:") && ts[2] != ""
  }

  lemma ParseIs(url: string, ts: seq<string>)
    requires ts == Components(CString(url), '/')
    ensures Parse(url) == if ReachesHost(ts) then HostPort(ts[2], PathOf(ts), ts[0]) else Invalid
  {
    assert url == "" ==> CString(url) == "" && ts == [];
  }

  /** Which URLs are accepted: a protocol, an empty component, a host that is accepted. */
  lemma ParsedIff(url: string, ts: seq<string>)
    requires ts == Components(CString(url), '/')
    ensures Parse(url).Parsed? <==> ReachesHost(ts) && HostOk(ts[2])
    ensures Parse(url).Parsed? ==> Parse(url).protocol == ts[0]
  {
    ParseIs(url, ts);
    if ReachesHost(ts) {
      PiecesHaveNoNul(SkipLeading(CString(url), '/'), '/');
      HostParsedIff(ts[2], PathOf(ts), ts[0]);
    }
  }
}
