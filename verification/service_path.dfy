/** Which service paths a subscription covers: length-limited byte comparison on the one
    side, the hierarchy of path components on the other. */
module ServicePath {
  import opened SlashPaths

  /** The matcher only reads inside the subscription's path: an empty path, or "#" alone, has no
      character at the positions that the wildcard tests look at. */
  predicate Defined(spath: string, incoming: string) {
    incoming == "/#" || (spath == "" && incoming == "") || (spath != "" && spath != "#")
  }

  /** strncmp(a, b, n) == 0, for n at most the length of `a`. */
  predicate SameUpTo(a: string, b: string, n: nat)
    requires n <= |a|
  {
    n <= |b| && a[..n] == b[..n]
  }

  predicate Matches(spath: string, incoming: string)
    requires Defined(spath, incoming)
  {
    if incoming == "/#" then true
    else if incoming == "" && spath == "" then true
    else
      var path := if incoming == "" then "/" else incoming;
      if spath[|spath| - 1] != '#' then path == spath
      else
        var len := |spath| - 2;
        (spath[len] == '/' && |path| == len && SameUpTo(spath, path, len))
        || SameUpTo(spath, path, len + 1)
  }

  /** An absent incoming path stands for the root. */
  function Effective(incoming: string): (p: string)
    ensures incoming == "" || IsPath(incoming) ==> IsPath(p) && p != ""
  {
    if incoming == "" then "/" else incoming
  }

  lemma WildcardIsPrefix(p: string, incoming: string)
    requires incoming != "/#"
    ensures var x := Effective(incoming);
            Matches(p + "/#", incoming) <==> x == p || (|p| < |x| && x[..|p| + 1] == p + "/")
  {
    var spath, x := p + "/#", Effective(incoming);
    assert spath[..|p|] == p;
    assert spath[..|p| + 1] == p + "/";
    assert |x| == |p| ==> x[..|p|] == x;
  }

  /** A wildcard subscription p/# covers exactly the paths at or below p in the hierarchy. */
  lemma WildcardIsHierarchy(p: string, incoming: string)
    requires IsPath(p) && (incoming == "" || IsPath(incoming)) && incoming != "/#"
    ensures Matches(p + "/#", incoming) <==> Components(p) <= Components(Effective(incoming))
  {
    WildcardIsPrefix(p, incoming);
    PrefixIsHierarchy(p, Effective(incoming));
  }

  /** The incoming path "/#" matches every subscription. */
  lemma RootWildcardMatchesAll(spath: string, incoming: string)
    requires incoming == "/#"
    ensures Defined(spath, incoming) && Matches(spath, incoming)
  {
  }

  /** Two absent paths match. */
  lemma AbsentPathsMatch(spath: string, incoming: string)
    requires spath == "" && incoming == ""
    ensures Defined(spath, incoming) && Matches(spath, incoming)
  {
  }

  /** Without a wildcard only the path itself is covered. */
  lemma PlainIsExact(spath: string, incoming: string)
    requires spath != "" && spath[|spath| - 1] != '#' && incoming != "/#"
    ensures Matches(spath, incoming) <==> Effective(incoming) == spath
  {
  }

  /** A final '#' without a slash before it covers every path that starts with the text before it. */
  lemma HashIsPrefix(p: string, incoming: string)
    requires p != "" && p[|p| - 1] != '/' && incoming != "/#"
    ensures Matches(p + "#", incoming) <==> p <= Effective(incoming)
  {
    var spath := p + "#";
    assert spath[..|p|] == p;
  }

  /** Sibling names that merely share leading characters are not covered: /a/b/# against /a/b2. */
  lemma SiblingsDoNotMatch(p: string, suffix: string)
    requires IsPath(p) && p != "" && suffix != "" && NoSlash(suffix) && p + suffix != "/#"
    ensures !Matches(p + "/#", p + suffix)
  {
    assert (p + suffix)[|p|] == suffix[0];
    assert (p + suffix)[0] == '/';
    WildcardIsHierarchy(p, p + suffix);
    PrefixIsHierarchy(p, p + suffix);
  }

  /** Prefixes of one list are nested, and so are the lists that extend them. */
  lemma PrefixesNest(a: seq<string>, b: seq<string>, shared: seq<string>, other: seq<string>)
    requires a <= shared && b <= shared && |a| <= |b|
    ensures b <= other ==> a <= other
  {
    assert a == shared[..|a|] && b == shared[..|b|];
    assert b[..|a|] == a;
  }

  lemma ShorterCoversMore(p: string, q: string, shared: string, other: string)
    requires IsPath(p) && IsPath(q) && (shared == "" || IsPath(shared)) && (other == "" || IsPath(other))
    requires shared != "/#" && other != "/#" && |Components(p)| <= |Components(q)|
    requires Components(p) <= Components(Effective(shared)) && Components(q) <= Components(Effective(shared))
    ensures Matches(q + "/#", other) ==> Matches(p + "/#", other)
  {
    WildcardIsHierarchy(p, other);
    WildcardIsHierarchy(q, other);
    PrefixesNest(Components(p), Components(q), Components(Effective(shared)), Components(Effective(other)));
  }

  /** Two wildcard subscriptions cover nested or disjoint sets of paths. */
  lemma NestedOrDisjoint(p: string, q: string, shared: string, other: string)
    requires IsPath(p) && IsPath(q)
    requires shared == "" || IsPath(shared)
    requires other == "" || IsPath(other)
    requires shared != "/#" && other != "/#"
    requires Matches(p + "/#", shared) && Matches(q + "/#", shared)
    ensures if |Components(p)| <= |Components(q)|
            then Matches(q + "/#", other) ==> Matches(p + "/#", other)
            else Matches(p + "/#", other) ==> Matches(q + "/#", other)
  {
    WildcardIsHierarchy(p, shared);
    WildcardIsHierarchy(q, shared);
    if |Components(p)| <= |Components(q)| {
      ShorterCoversMore(p, q, shared, other);
    } else {
      ShorterCoversMore(q, p, shared, other);
    }
  }
}
