/** Slash-separated paths as strings and as lists of components. */
module SlashPaths {
  import Splitting

  predicate NoSlash(s: string) {
    '/' !in s
  }

  /** A path is empty or starts with a slash. */
  predicate IsPath(s: string) {
    s == "" || s[0] == '/'
  }

  /** "/a/b" is ["a", "b"], "/" is [""], "" is []. */
  function Components(s: string): seq<string>
    requires IsPath(s)
  {
    if s == "" then [] else Splitting.Split(s[1..], '/')
  }

  /** A slash before each component. */
  function Join(cs: seq<string>): string {
    if cs == [] then "" else "/" + cs[0] + Join(cs[1..])
  }

  lemma {:induction false} JoinIsJoin(cs: seq<string>)
    requires cs != []
    ensures Join(cs) == "/" + Splitting.Join(cs, '/')
  {
    if |cs| > 1 {
      JoinIsJoin(cs[1..]);
    }
  }

  lemma JoinComponents(s: string)
    requires IsPath(s)
    ensures Join(Components(s)) == s
    ensures forall c | c in Components(s) :: NoSlash(c)
  {
    if s != "" {
      Splitting.JoinSplit(s[1..], '/');
      JoinIsJoin(Components(s));
    }
  }

  lemma ComponentsJoin(cs: seq<string>)
    requires forall c | c in cs :: NoSlash(c)
    ensures IsPath(Join(cs)) && Components(Join(cs)) == cs
  {
    if cs != [] {
      JoinIsJoin(cs);
      Splitting.SplitJoin(cs, '/');
      assert Join(cs)[1..] == Splitting.Join(cs, '/');
    }
  }

  lemma {:induction false} JoinConcat(xs: seq<string>, ys: seq<string>)
    ensures Join(xs + ys) == Join(xs) + Join(ys)
  {
    if xs == [] {
      assert xs + ys == ys;
    } else {
      assert (xs + ys)[1..] == xs[1..] + ys;
      JoinConcat(xs[1..], ys);
    }
  }

  lemma ComponentsConcat(x: string, y: string)
    requires IsPath(x) && IsPath(y)
    ensures IsPath(x + y) && Components(x + y) == Components(x) + Components(y)
  {
    JoinComponents(x);
    JoinComponents(y);
    JoinConcat(Components(x), Components(y));
    ComponentsJoin(Components(x) + Components(y));
  }

  lemma BelowMeansPrefix(p: string, x: string)
    requires IsPath(p) && IsPath(x) && p + "/" <= x
    ensures Components(p) <= Components(x)
  {
    var rest := x[|p|..];
    assert x == p + rest;
    ComponentsConcat(p, rest);
  }

  lemma PrefixMeansBelow(p: string, x: string)
    requires IsPath(p) && IsPath(x) && Components(p) <= Components(x)
    ensures x == p || p + "/" <= x
  {
    var rest := Components(x)[|Components(p)|..];
    assert Components(x) == Components(p) + rest;
    JoinComponents(p);
    JoinComponents(x);
    JoinConcat(Components(p), rest);
    assert x == p + Join(rest);
  }

  /** One path is at or below another exactly if its component list extends the other's. */
  lemma PrefixIsHierarchy(p: string, x: string)
    requires IsPath(p) && IsPath(x)
    ensures Components(p) <= Components(x) <==> x == p || p + "/" <= x
  {
    if Components(p) <= Components(x) {
      PrefixMeansBelow(p, x);
    } else if p + "/" <= x {
      BelowMeansPrefix(p, x);
    }
  }
}
