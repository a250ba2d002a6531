/** The script that removes duplicated subscriptions: every document gets a signature that ignores
    bookkeeping fields and the order of its lists, and of each group of documents with the same
    signature all but the first are deleted. */
module DupChecker {
  import opened Wrappers

  // ---------------------------------------------------------------------------
  // Sorting: the order of strings, and the stable sort by key

  /** `a` comes no later than `b` in the order of strings. */
  predicate Before(a: string, b: string) {
    a == [] || (b != [] && (a[0] < b[0] || (a[0] == b[0] && Before(a[1..], b[1..]))))
  }

  lemma BeforeTotal(a: string, b: string)
    ensures Before(a, b) || Before(b, a)
  {
  }

  lemma BeforeAntisymmetric(a: string, b: string)
    requires Before(a, b) && Before(b, a)
    ensures a == b
  {
    if a != [] {
      BeforeAntisymmetric(a[1..], b[1..]);
      assert a == [a[0]] + a[1..] && b == [b[0]] + b[1..];
    }
  }

  lemma BeforeTransitive(a: string, b: string, c: string)
    requires Before(a, b) && Before(b, c)
    ensures Before(a, c)
  {
  }

  function Insert<T>(x: T, s: seq<T>, key: T -> string): seq<T> {
    if s == [] || Before(key(x), key(s[0])) then [x] + s else [s[0]] + Insert(x, s[1..], key)
  }

  function SortBy<T>(s: seq<T>, key: T -> string): seq<T> {
    if s == [] then [] else Insert(s[0], SortBy(s[1..], key), key)
  }

  ghost predicate Ascending<T>(s: seq<T>, key: T -> string) {
    forall i, j | 0 <= i < j < |s| :: Before(key(s[i]), key(s[j]))
  }

  lemma {:induction false} InsertElements<T>(x: T, s: seq<T>, key: T -> string)
    ensures multiset(Insert(x, s, key)) == multiset{x} + multiset(s)
  {
    if s != [] && !Before(key(x), key(s[0])) {
      InsertElements(x, s[1..], key);
      assert s == [s[0]] + s[1..];
    }
  }

  lemma {:induction false} SortElements<T>(s: seq<T>, key: T -> string)
    ensures multiset(SortBy(s, key)) == multiset(s)
  {
    if s != [] {
      SortElements(s[1..], key);
      InsertElements(s[0], SortBy(s[1..], key), key);
      assert s == [s[0]] + s[1..];
    }
  }

  lemma ConsAscending<T>(x: T, s: seq<T>, key: T -> string)
    requires Ascending(s, key) && (s != [] ==> Before(key(x), key(s[0])))
    ensures Ascending([x] + s, key)
  {
    var r := [x] + s;
    forall i, j | 0 <= i < j < |r|
      ensures Before(key(r[i]), key(r[j]))
    {
      if i == 0 && j > 1 {
        BeforeTransitive(key(x), key(s[0]), key(s[j - 1]));
      }
    }
  }

  lemma InsertHead<T>(x: T, s: seq<T>, key: T -> string)
    ensures var r := Insert(x, s, key); r != [] && (r[0] == x || (s != [] && r[0] == s[0]))
  {
  }

  lemma {:induction false} InsertAscending<T>(x: T, s: seq<T>, key: T -> string)
    requires Ascending(s, key)
    ensures Ascending(Insert(x, s, key), key)
  {
    if s == [] || Before(key(x), key(s[0])) {
      ConsAscending(x, s, key);
    } else {
      BeforeTotal(key(x), key(s[0]));
      InsertAscending(x, s[1..], key);
      InsertHead(x, s[1..], key);
      ConsAscending(s[0], Insert(x, s[1..], key), key);
    }
  }

  lemma {:induction false} SortAscending<T>(s: seq<T>, key: T -> string)
    ensures Ascending(SortBy(s, key), key)
  {
    if s != [] {
      SortAscending(s[1..], key);
      InsertAscending(s[0], SortBy(s[1..], key), key);
    }
  }

  /** No two different elements have the same key. */
  ghost predicate NoCollision<T>(key: T -> string, s: seq<T>) {
    forall x, y | x in s && y in s && key(x) == key(y) :: x == y
  }

  lemma SameHead<T>(s: seq<T>, t: seq<T>, key: T -> string)
    requires Ascending(s, key) && Ascending(t, key) && multiset(s) == multiset(t) && NoCollision(key, s) && s != []
    ensures t != [] && s[0] == t[0]
  {
    assert s[0] in multiset(s);
    assert s[0] in t;
    assert t[0] in multiset(t);
    var i :| 0 <= i < |s| && s[i] == t[0];
    var j :| 0 <= j < |t| && t[j] == s[0];
    BeforeTotal(key(s[0]), key(s[0]));
    BeforeTotal(key(t[0]), key(t[0]));
    assert Before(key(s[0]), key(s[i])) && Before(key(t[0]), key(t[j]));
    BeforeAntisymmetric(key(s[0]), key(t[0]));
  }

  lemma TailElements<T>(s: seq<T>)
    requires s != []
    ensures multiset(s[1..]) == multiset(s) - multiset{s[0]}
  {
    assert s == [s[0]] + s[1..];
  }

  lemma {:induction false} AscendingIsUnique<T>(s: seq<T>, t: seq<T>, key: T -> string)
    requires Ascending(s, key) && Ascending(t, key) && multiset(s) == multiset(t) && NoCollision(key, s)
    ensures s == t
  {
    if s == [] {
      assert |multiset(t)| == 0;
    } else {
      SameHead(s, t, key);
      TailElements(s);
      TailElements(t);
      AscendingIsUnique(s[1..], t[1..], key);
      assert s == [s[0]] + s[1..] && t == [t[0]] + t[1..];
    }
  }

  /** When keys do not collide, sorting forgets exactly the order. */
  lemma SortForgetsOrder<T>(s: seq<T>, t: seq<T>, key: T -> string)
    requires NoCollision(key, s)
    ensures SortBy(s, key) == SortBy(t, key) <==> multiset(s) == multiset(t)
  {
    SortElements(s, key);
    SortElements(t, key);
    if multiset(s) == multiset(t) {
      SortAscending(s, key);
      SortAscending(t, key);
      forall x, y | x in SortBy(s, key) && y in SortBy(s, key) && key(x) == key(y)
        ensures x == y
      {
        assert x in multiset(SortBy(s, key)) && y in multiset(SortBy(s, key));
      }
      AscendingIsUnique(SortBy(s, key), SortBy(t, key), key);
    }
  }

  /** The elements with a given key, in order. */
  ghost function WithKey<T>(s: seq<T>, key: T -> string, k: string): seq<T> {
    if s == [] then [] else (if key(s[0]) == k then [s[0]] else []) + WithKey(s[1..], key, k)
  }

  lemma WithKeyCons<T>(x: T, s: seq<T>, key: T -> string, k: string)
    ensures WithKey([x] + s, key, k) == (if key(x) == k then [x] else []) + WithKey(s, key, k)
  {
    assert ([x] + s)[1..] == s;
  }

  lemma {:induction false} InsertIsStable<T>(x: T, s: seq<T>, key: T -> string, k: string)
    ensures WithKey(Insert(x, s, key), key, k) == (if key(x) == k then [x] else []) + WithKey(s, key, k)
  {
    if s == [] || Before(key(x), key(s[0])) {
      WithKeyCons(x, s, key, k);
    } else {
      BeforeTotal(key(x), key(x));
      assert !(key(x) == k && key(s[0]) == k);
      WithKeyCons(s[0], Insert(x, s[1..], key), key, k);
      InsertIsStable(x, s[1..], key, k);
    }
  }

  lemma {:induction false} SortIsStable<T>(s: seq<T>, key: T -> string, k: string)
    ensures WithKey(SortBy(s, key), key, k) == WithKey(s, key, k)
  {
    if s != [] {
      SortIsStable(s[1..], key, k);
      InsertIsStable(s[0], SortBy(s[1..], key), key, k);
    }
  }

  /** The order of a list is forgotten if and only if its keys do not collide: with a collision,
      some reordering of the list sorts differently. */
  lemma OrderIsForgottenIff<T(!new)>(s: seq<T>, key: T -> string)
    ensures (forall t | multiset(t) == multiset(s) :: SortBy(t, key) == SortBy(s, key)) <==> NoCollision(key, s)
  {
    if NoCollision(key, s) {
      forall t | multiset(t) == multiset(s)
        ensures SortBy(t, key) == SortBy(s, key)
      {
        SortForgetsOrder(s, t, key);
      }
    } else {
      var x, y :| x in s && y in s && key(x) == key(y) && x != y;
      var t := ToFront(s, x);
      var u := ToFront(s, y);
      SortIsStable(t, key, key(x));
      SortIsStable(u, key, key(x));
      assert WithKey(t, key, key(x))[0] == x && WithKey(u, key, key(x))[0] == y;
      assert SortBy(t, key) != SortBy(u, key);
    }
  }

  lemma ToFront<T>(s: seq<T>, x: T) returns (t: seq<T>)
    requires x in s
    ensures multiset(t) == multiset(s) && t != [] && t[0] == x
  {
    var i :| 0 <= i < |s| && s[i] == x;
    t := [x] + s[..i] + s[i + 1..];
    assert s == s[..i] + [x] + s[i + 1..];
  }

  // ---------------------------------------------------------------------------
  // Documents, canonical documents and meanings

  datatype Entity = Entity(id: string, kind: string, isPattern: string)

  datatype Condition = OnChange(values: seq<string>) | OtherCondition(kind: string, value: string)

  /** `other` holds the remaining fields. */
  datatype Doc = Doc(
    id: string,
    expiration: Option<int>,
    lastNotification: Option<int>,
    count: Option<int>,
    status: Option<string>,
    description: Option<string>,
    entities: seq<Entity>,
    attrs: seq<string>,
    conditions: seq<Condition>,
    other: map<string, string>)

  datatype Canonical = Canonical(
    entities: seq<Entity>, attrs: seq<string>, conditions: seq<Condition>, other: map<string, string>)

  /** The digests of pickled values. */
  datatype Digests = Digests(entity: Entity -> string, condition: Condition -> string, doc: Canonical -> string)

  function Itself(s: string): string { s }

  function NormalCondition(c: Condition): Condition {
    if c.OnChange? then OnChange(SortBy(c.values, Itself)) else c
  }

  function Map<A, B>(f: A -> B, s: seq<A>): seq<B> {
    if s == [] then [] else [f(s[0])] + Map(f, s[1..])
  }

  function CanonicalOf(h: Digests, d: Doc): Canonical {
    Canonical(SortBy(d.entities, h.entity), SortBy(d.attrs, Itself), SortBy(Map(NormalCondition, d.conditions), h.condition), d.other)
  }

  function Signature(h: Digests, d: Doc): string {
    h.doc(CanonicalOf(h, d))
  }

  datatype ConditionMeaning = Changes(values: multiset<string>) | Fixed(condition: Condition)

  /** What a subscription asks for: its lists without their order. */
  datatype Meaning = Meaning(
    entities: multiset<Entity>, attrs: multiset<string>, conditions: multiset<ConditionMeaning>, other: map<string, string>)

  function MeaningOfCondition(c: Condition): ConditionMeaning {
    if c.OnChange? then Changes(multiset(c.values)) else Fixed(c)
  }

  function MeaningOf(d: Doc): Meaning {
    Meaning(multiset(d.entities), multiset(d.attrs), multiset(Map(MeaningOfCondition, d.conditions)), d.other)
  }

  lemma NormalIffMeaning(c: Condition, d: Condition)
    ensures NormalCondition(c) == NormalCondition(d) <==> MeaningOfCondition(c) == MeaningOfCondition(d)
  {
    if c.OnChange? && d.OnChange? {
      SortForgetsOrder(c.values, d.values, Itself);
    }
  }

  lemma MapAt<A, B>(f: A -> B, s: seq<A>)
    ensures |Map(f, s)| == |s|
    ensures forall i | 0 <= i < |s| :: Map(f, s)[i] == f(s[i])
  {
  }

  lemma MapAppend<A, B>(f: A -> B, s: seq<A>, t: seq<A>)
    ensures Map(f, s + t) == Map(f, s) + Map(f, t)
  {
    MapAt(f, s);
    MapAt(f, t);
    MapAt(f, s + t);
  }

  lemma MapAround<A, B>(f: A -> B, a: seq<A>, x: A, b: seq<A>)
    ensures multiset(Map(f, a + [x] + b)) == multiset(Map(f, a + b)) + multiset{f(x)}
  {
    MapAppend(f, a, b);
    MapAppend(f, a + [x], b);
    MapAppend(f, a, [x]);
    MapAt(f, [x]);
    assert Map(f, [x]) == [f(x)];
  }

  lemma MapFind<A, B>(f: A -> B, s: seq<A>, x: B) returns (a: seq<A>, y: A, b: seq<A>)
    requires x in multiset(Map(f, s))
    ensures s == a + [y] + b && f(y) == x
  {
    MapAt(f, s);
    var j :| 0 <= j < |s| && Map(f, s)[j] == x;
    a, y, b := s[..j], s[j], s[j + 1..];
  }

  /** Lists with the same elements under `f` have the same elements under every `g` that tells
      no more elements apart than `f` does. */
  lemma {:induction false} CoarserMap<A(!new), B, C>(f: A -> B, g: A -> C, s: seq<A>, t: seq<A>)
    requires forall x, y | f(x) == f(y) :: g(x) == g(y)
    requires multiset(Map(f, s)) == multiset(Map(f, t))
    ensures multiset(Map(g, s)) == multiset(Map(g, t))
  {
    if s == [] {
      assert |multiset(Map(f, t))| == 0;
      MapAt(f, t);
    } else {
      MapHead(f, s);
      MapHead(g, s);
      var a, y, b := MapFind(f, t, f(s[0]));
      MapAround(f, a, y, b);
      MapAround(g, a, y, b);
      Cancel(multiset(Map(f, s[1..])), multiset(Map(f, a + b)), f(s[0]));
      CoarserMap(f, g, s[1..], a + b);
    }
  }

  lemma MapHead<A, B>(f: A -> B, s: seq<A>)
    requires s != []
    ensures multiset(Map(f, s)) == multiset(Map(f, s[1..])) + multiset{f(s[0])}
  {
  }

  lemma Cancel<T>(m: multiset<T>, n: multiset<T>, x: T)
    requires m + multiset{x} == n + multiset{x}
    ensures m == n
  {
    assert m == (m + multiset{x}) - multiset{x};
    assert n == (n + multiset{x}) - multiset{x};
  }

  lemma ConditionsIffMeanings(cs: seq<Condition>, ds: seq<Condition>)
    ensures multiset(Map(NormalCondition, cs)) == multiset(Map(NormalCondition, ds)) <==>
            multiset(Map(MeaningOfCondition, cs)) == multiset(Map(MeaningOfCondition, ds))
  {
    forall c, d
      ensures NormalCondition(c) == NormalCondition(d) <==> MeaningOfCondition(c) == MeaningOfCondition(d)
    {
      NormalIffMeaning(c, d);
    }
    if multiset(Map(NormalCondition, cs)) == multiset(Map(NormalCondition, ds)) {
      CoarserMap(NormalCondition, MeaningOfCondition, cs, ds);
    } else if multiset(Map(MeaningOfCondition, cs)) == multiset(Map(MeaningOfCondition, ds)) {
      CoarserMap(MeaningOfCondition, NormalCondition, cs, ds);
    }
  }

  /** The digests tell the objects of a document apart. */
  ghost predicate Distinguishes(h: Digests, d: Doc) {
    NoCollision(h.entity, d.entities) && NoCollision(h.condition, Map(NormalCondition, d.conditions))
  }

  /** Two documents have the same canonical form exactly if they mean the same: reordering
      attributes, entities, conditions or the values of an ONCHANGE condition never matters, nor
      do the bookkeeping fields, and nothing else is ignored. */
  lemma CanonicalIffMeaning(h: Digests, d: Doc, e: Doc)
    requires Distinguishes(h, d)
    ensures CanonicalOf(h, d) == CanonicalOf(h, e) <==> MeaningOf(d) == MeaningOf(e)
  {
    SortForgetsOrder(d.entities, e.entities, h.entity);
    SortForgetsOrder(d.attrs, e.attrs, Itself);
    SortForgetsOrder(Map(NormalCondition, d.conditions), Map(NormalCondition, e.conditions), h.condition);
    ConditionsIffMeanings(d.conditions, e.conditions);
  }

  // ---------------------------------------------------------------------------
  // What the script keeps

  /** No digest collides on the documents given. */
  ghost predicate CollisionFree(h: Digests, docs: seq<Doc>) {
    && (forall i | 0 <= i < |docs| :: Distinguishes(h, docs[i]))
    && (forall i, j | 0 <= i < |docs| && 0 <= j < |docs| && Signature(h, docs[i]) == Signature(h, docs[j]) ::
          CanonicalOf(h, docs[i]) == CanonicalOf(h, docs[j]))
  }

  lemma SignatureIffMeaning(h: Digests, docs: seq<Doc>, i: nat, j: nat)
    requires CollisionFree(h, docs) && i < |docs| && j < |docs|
    ensures Signature(h, docs[i]) == Signature(h, docs[j]) <==> MeaningOf(docs[i]) == MeaningOf(docs[j])
  {
    CanonicalIffMeaning(h, docs[i], docs[j]);
  }

  /** An earlier element means the same. */
  ghost predicate Repeated<T, M>(s: seq<T>, meaning: T -> M, i: nat)
    requires i < |s|
  {
    exists j :: 0 <= j < i && meaning(s[j]) == meaning(s[i])
  }

  /** The elements that mean something new. */
  ghost function FirstOfEach<T, M>(s: seq<T>, meaning: T -> M): seq<T> {
    if s == [] then [] else
    var n := |s| - 1;
    FirstOfEach(s[..n], meaning) + if Repeated(s, meaning, n) then [] else [s[n]]
  }

  /** No two elements mean the same. */
  ghost predicate Different<T, M>(s: seq<T>, meaning: T -> M) {
    forall k, l | 0 <= k < l < |s| :: meaning(s[k]) != meaning(s[l])
  }

  lemma {:induction false} FirstsAreElements<T, M>(s: seq<T>, meaning: T -> M)
    ensures forall k | 0 <= k < |FirstOfEach(s, meaning)| :: FirstOfEach(s, meaning)[k] in s
  {
    if s != [] {
      FirstsAreElements(s[..|s| - 1], meaning);
    }
  }

  lemma {:induction false} FirstsArePairwiseDifferent<T, M>(s: seq<T>, meaning: T -> M)
    ensures Different(FirstOfEach(s, meaning), meaning)
  {
    if s != [] {
      var n := |s| - 1;
      var before := FirstOfEach(s[..n], meaning);
      FirstsArePairwiseDifferent(s[..n], meaning);
      FirstsAreElements(s[..n], meaning);
      forall k | 0 <= k < |before| && !Repeated(s, meaning, n)
        ensures meaning(before[k]) != meaning(s[n])
      {
        var i :| 0 <= i < n && s[..n][i] == before[k];
        assert s[i] == before[k];
      }
      var r := FirstOfEach(s, meaning);
      forall k, l | 0 <= k < l < |r|
        ensures meaning(r[k]) != meaning(r[l])
      {
        assert r[k] == before[k];
        assert l < |before| ==> r[l] == before[l];
        assert l >= |before| ==> r[l] == s[n] && !Repeated(s, meaning, n);
      }
    }
  }

  /** The earliest element with the meaning of element `i` is there. */
  lemma {:induction false} EveryMeaningHasFirst<T, M>(s: seq<T>, meaning: T -> M, i: nat) returns (k: nat, j: nat)
    requires i < |s|
    ensures k < |FirstOfEach(s, meaning)| && j <= i && FirstOfEach(s, meaning)[k] == s[j]
    ensures meaning(s[j]) == meaning(s[i])
    decreases |s|, i
  {
    var n := |s| - 1;
    if i < n {
      k, j := EveryMeaningHasFirst(s[..n], meaning, i);
    } else if Repeated(s, meaning, n) {
      var m :| 0 <= m < n && meaning(s[m]) == meaning(s[n]);
      k, j := EveryMeaningHasFirst(s, meaning, m);
    } else {
      k, j := |FirstOfEach(s, meaning)| - 1, n;
    }
  }

  lemma {:induction false} FirstsOfDifferent<T, M>(s: seq<T>, meaning: T -> M)
    requires Different(s, meaning)
    ensures FirstOfEach(s, meaning) == s
  {
    if s != [] {
      var n := |s| - 1;
      FirstsOfDifferent(s[..n], meaning);
      assert s == s[..n] + [s[n]];
    }
  }

  ghost function Survivors(docs: seq<Doc>): seq<Doc> {
    FirstOfEach(docs, MeaningOf)
  }

  /** Missing expirations come first in the database's order. */
  predicate NoLater(a: Option<int>, b: Option<int>) {
    a.None? || (b.Some? && a.value <= b.value)
  }

  ghost predicate DecreasingExpiration(docs: seq<Doc>) {
    forall i, j | 0 <= i < j < |docs| :: NoLater(docs[j].expiration, docs[i].expiration)
  }

  lemma SurvivorsArePairwiseDifferent(docs: seq<Doc>)
    ensures Different(Survivors(docs), MeaningOf)
  {
    FirstsArePairwiseDifferent(docs, MeaningOf);
  }

  /** Every document has a survivor that means the same and expires no earlier. */
  lemma BestRepresentativeSurvives(docs: seq<Doc>, i: nat) returns (k: nat)
    requires DecreasingExpiration(docs) && i < |docs|
    ensures k < |Survivors(docs)| && MeaningOf(Survivors(docs)[k]) == MeaningOf(docs[i])
    ensures NoLater(docs[i].expiration, Survivors(docs)[k].expiration)
  {
    var j;
    k, j := EveryMeaningHasFirst(docs, MeaningOf, i);
  }

  /** A second run deletes nothing. */
  lemma SecondRunKeepsAll(docs: seq<Doc>)
    ensures Survivors(Survivors(docs)) == Survivors(docs)
  {
    SurvivorsArePairwiseDifferent(docs);
    FirstsOfDifferent(Survivors(docs), MeaningOf);
  }

  // ---------------------------------------------------------------------------
  // The script

  /** The ids of the documents with a given signature, in order. */
  ghost function Group(h: Digests, docs: seq<Doc>, sig: string): seq<string> {
    if docs == [] then [] else
    var n := |docs| - 1;
    Group(h, docs[..n], sig) + if Signature(h, docs[n]) == sig then [docs[n].id] else []
  }

  method Normalize(d: Doc, h: Digests) returns (c: Canonical)
    ensures c == CanonicalOf(h, d)
  {
    var conditions := d.conditions;
    var i := 0;
    MapAt(NormalCondition, d.conditions);
    while i < |conditions|
      invariant 0 <= i <= |conditions| == |d.conditions|
      invariant forall k | 0 <= k < |conditions| ::
        conditions[k] == if k < i then Map(NormalCondition, d.conditions)[k] else d.conditions[k]
    {
      if conditions[i].OnChange? {
        conditions := conditions[i := OnChange(SortBy(conditions[i].values, Itself))];
      }
      i := i + 1;
    }
    assert conditions == Map(NormalCondition, d.conditions);
    c := Canonical(SortBy(d.entities, h.entity), SortBy(d.attrs, Itself), SortBy(conditions, h.condition), d.other);
  }

  /** First stage: the duplicates dictionary. */
  method GroupBySignature(docs: seq<Doc>, h: Digests) returns (duplicates: map<string, seq<string>>)
    ensures forall sig :: sig in duplicates <==> Group(h, docs, sig) != []
    ensures forall sig | sig in duplicates :: duplicates[sig] == Group(h, docs, sig)
  {
    duplicates := map[];
    var i := 0;
    while i < |docs|
      invariant 0 <= i <= |docs|
      invariant forall sig :: sig in duplicates <==> Group(h, docs[..i], sig) != []
      invariant forall sig | sig in duplicates :: duplicates[sig] == Group(h, docs[..i], sig)
    {
      var c := Normalize(docs[i], h);
      var hash := h.doc(c);
      assert docs[..i + 1][..i] == docs[..i];
      if hash in duplicates {
        duplicates := duplicates[hash := duplicates[hash] + [docs[i].id]];
      } else {
        duplicates := duplicates[hash := [docs[i].id]];
      }
      i := i + 1;
    }
    assert docs[..i] == docs;
  }

  ghost predicate Superfluous(duplicates: map<string, seq<string>>, sigs: set<string>, id: string) {
    exists sig :: sig in sigs && sig in duplicates && InTail(duplicates[sig], id)
  }

  /** Second stage: all but the first of each group, the groups taken in any order. */
  method SelectDeletions(duplicates: map<string, seq<string>>) returns (savings: nat, toDelete: seq<string>)
    ensures savings == |toDelete|
    ensures forall id :: id in toDelete <==> Superfluous(duplicates, duplicates.Keys, id)
  {
    savings, toDelete := 0, [];
    var left := duplicates.Keys;
    while left != {}
      invariant left <= duplicates.Keys
      invariant savings == |toDelete|
      invariant forall id :: id in toDelete <==> Superfluous(duplicates, duplicates.Keys - left, id)
    {
      var hash :| hash in left;
      ghost var seen := duplicates.Keys - left;
      left := left - {hash};
      assert duplicates.Keys - left == seen + {hash};
      ghost var before := toDelete;
      if |duplicates[hash]| > 1 {
        savings := savings + |duplicates[hash]| - 1;
        toDelete := toDelete + duplicates[hash][1..];
      }
      forall id
        ensures id in toDelete <==> Superfluous(duplicates, seen + {hash}, id)
      {
        assert id in toDelete <==> id in before || InTail(duplicates[hash], id);
        assert Superfluous(duplicates, seen + {hash}, id) <==> Superfluous(duplicates, seen, id) || InTail(duplicates[hash], id);
      }
    }
    assert duplicates.Keys - left == duplicates.Keys;
  }

  /** The documents whose ids are not listed. */
  function Keep(docs: seq<Doc>, ids: seq<string>): seq<Doc> {
    if docs == [] then [] else
    var n := |docs| - 1;
    Keep(docs[..n], ids) + if docs[n].id in ids then [] else [docs[n]]
  }

  lemma KeepAppend(docs: seq<Doc>, d: Doc, ids: seq<string>)
    ensures Keep(docs + [d], ids) == Keep(docs, ids) + if d.id in ids then [] else [d]
  {
    assert (docs + [d])[..|docs|] == docs;
  }

  lemma {:induction false} KeepTwice(docs: seq<Doc>, ids: seq<string>, more: seq<string>)
    ensures Keep(Keep(docs, ids), more) == Keep(docs, ids + more)
  {
    if docs != [] {
      var n := |docs| - 1;
      KeepTwice(docs[..n], ids, more);
      if docs[n].id in ids {
        assert Keep(docs, ids) == Keep(docs[..n], ids);
      } else {
        KeepAppend(Keep(docs[..n], ids), docs[n], more);
      }
    }
  }

  lemma KeepOneMore(docs: seq<Doc>, ids: seq<string>, i: nat)
    requires i < |ids|
    ensures Keep(Keep(docs, ids[..i]), [ids[i]]) == Keep(docs, ids[..i + 1])
  {
    KeepTwice(docs, ids[..i], [ids[i]]);
    assert ids[..i + 1] == ids[..i] + [ids[i]];
  }

  lemma {:induction false} KeepNone(docs: seq<Doc>)
    ensures Keep(docs, []) == docs
  {
    if docs != [] {
      KeepNone(docs[..|docs| - 1]);
    }
  }

  /** Third stage: the documents are removed one by one, unless in a dry run. */
  method RemoveDocuments(docs: seq<Doc>, toDelete: seq<string>, dryRun: bool) returns (remaining: seq<Doc>, needRestart: bool)
    ensures remaining == if dryRun then docs else Keep(docs, toDelete)
    ensures needRestart <==> !dryRun && toDelete != []
  {
    remaining, needRestart := docs, false;
    KeepNone(docs);
    var i := 0;
    while i < |toDelete|
      invariant 0 <= i <= |toDelete|
      invariant remaining == if dryRun then docs else Keep(docs, toDelete[..i])
      invariant needRestart <==> !dryRun && i > 0
    {
      if !dryRun {
        KeepOneMore(docs, toDelete, i);
        remaining, needRestart := Keep(remaining, [toDelete[i]]), true;
      }
      i := i + 1;
    }
    assert toDelete[..i] == toDelete;
  }

  /** Document `i` carries this id and signature. */
  ghost predicate Signed(h: Digests, docs: seq<Doc>, i: nat, sig: string, id: string) {
    i < |docs| && docs[i].id == id && Signature(h, docs[i]) == sig
  }

  /** Some document before `i` has this signature. */
  ghost predicate SeenBefore(h: Digests, docs: seq<Doc>, i: nat, sig: string) {
    exists j: nat, id :: j < i && Signed(h, docs, j, sig, id)
  }

  lemma {:induction false} GroupSeen(h: Digests, docs: seq<Doc>, sig: string)
    ensures Group(h, docs, sig) != [] <==> SeenBefore(h, docs, |docs|, sig)
  {
    if docs != [] {
      var n := |docs| - 1;
      GroupSeen(h, docs[..n], sig);
      forall j: nat, id
        ensures j < n ==> (Signed(h, docs, j, sig, id) <==> Signed(h, docs[..n], j, sig, id))
      {
      }
      if Signature(h, docs[n]) == sig {
        assert Signed(h, docs, n, sig, docs[n].id);
      }
    }
  }

  /** Document `i` carries this id and a signature seen before. */
  ghost predicate Late(h: Digests, docs: seq<Doc>, i: nat, sig: string, id: string) {
    Signed(h, docs, i, sig, id) && SeenBefore(h, docs, i, sig)
  }

  ghost predicate SomeLate(h: Digests, docs: seq<Doc>, sig: string, id: string) {
    exists i: nat :: Late(h, docs, i, sig, id)
  }

  lemma LateInPrefix(h: Digests, docs: seq<Doc>, i: nat, sig: string, id: string)
    requires docs != [] && i < |docs| - 1
    ensures Late(h, docs, i, sig, id) <==> Late(h, docs[..|docs| - 1], i, sig, id)
  {
    SeenInPrefix(h, docs, sig);
  }

  lemma SeenInPrefix(h: Digests, docs: seq<Doc>, sig: string)
    requires docs != []
    ensures forall i: nat | i < |docs| :: SeenBefore(h, docs, i, sig) <==> SeenBefore(h, docs[..|docs| - 1], i, sig)
  {
    var before := docs[..|docs| - 1];
    forall j: nat, x
      ensures j < |before| ==> (Signed(h, docs, j, sig, x) <==> Signed(h, before, j, sig, x))
    {
    }
  }

  lemma LateStep(h: Digests, docs: seq<Doc>, sig: string, id: string)
    requires docs != []
    ensures SomeLate(h, docs, sig, id) <==>
            SomeLate(h, docs[..|docs| - 1], sig, id) ||
            (Signed(h, docs, |docs| - 1, sig, id) && SeenBefore(h, docs[..|docs| - 1], |docs| - 1, sig))
  {
    var n := |docs| - 1;
    SeenInPrefix(h, docs, sig);
    if i: nat :| Late(h, docs, i, sig, id) {
      if i < n { LateInPrefix(h, docs, i, sig, id); }
    }
    if i: nat :| Late(h, docs[..n], i, sig, id) {
      LateInPrefix(h, docs, i, sig, id);
    }
    if Signed(h, docs, n, sig, id) && SeenBefore(h, docs[..n], n, sig) {
      assert Late(h, docs, n, sig, id);
    }
  }

  predicate InTail(g: seq<string>, id: string) {
    g != [] && id in g[1..]
  }

  lemma InTailAppend(g: seq<string>, x: string, id: string)
    ensures InTail(g + [x], id) <==> InTail(g, id) || (g != [] && x == id)
  {
    assert g != [] ==> (g + [x])[1..] == g[1..] + [x];
  }

  /** All but the first of a group are the documents whose signature was seen before. */
  lemma {:induction false} GroupTail(h: Digests, docs: seq<Doc>, sig: string, id: string)
    ensures InTail(Group(h, docs, sig), id) <==> SomeLate(h, docs, sig, id)
  {
    if docs != [] {
      var n := |docs| - 1;
      GroupTail(h, docs[..n], sig, id);
      GroupSeen(h, docs[..n], sig);
      LateStep(h, docs, sig, id);
      var g := Group(h, docs[..n], sig);
      InTailAppend(g, docs[n].id, id);
      assert Signature(h, docs[n]) != sig ==> Group(h, docs, sig) == g;
    }
  }

  ghost predicate DistinctIds(docs: seq<Doc>) {
    forall i, j | 0 <= i < |docs| && 0 <= j < |docs| && docs[i].id == docs[j].id :: i == j
  }

  lemma DeletedIffRepeated(h: Digests, docs: seq<Doc>, duplicates: map<string, seq<string>>, i: nat)
    requires CollisionFree(h, docs) && DistinctIds(docs) && i < |docs|
    requires forall sig :: sig in duplicates <==> Group(h, docs, sig) != []
    requires forall sig | sig in duplicates :: duplicates[sig] == Group(h, docs, sig)
    ensures Superfluous(duplicates, duplicates.Keys, docs[i].id) <==> Repeated(docs, MeaningOf, i)
  {
    var id, mine := docs[i].id, Signature(h, docs[i]);
    if Superfluous(duplicates, duplicates.Keys, id) {
      var sig :| sig in duplicates.Keys && InTail(duplicates[sig], id);
      GroupTail(h, docs, sig, id);
      var k: nat :| Late(h, docs, k, sig, id);
      var j: nat, x :| j < k && Signed(h, docs, j, sig, x);
      SignatureIffMeaning(h, docs, j, i);
    }
    if Repeated(docs, MeaningOf, i) {
      var j :| 0 <= j < i && MeaningOf(docs[j]) == MeaningOf(docs[i]);
      SignatureIffMeaning(h, docs, j, i);
      assert Signed(h, docs, j, mine, docs[j].id) && Late(h, docs, i, mine, id);
      GroupTail(h, docs, mine, id);
    }
  }

  lemma {:induction false} KeepIsFirsts(docs: seq<Doc>, ids: seq<string>)
    requires forall i | 0 <= i < |docs| :: docs[i].id in ids <==> Repeated(docs, MeaningOf, i)
    ensures Keep(docs, ids) == Survivors(docs)
  {
    if docs != [] {
      var n := |docs| - 1;
      var before := docs[..n];
      forall i | 0 <= i < n
        ensures Repeated(before, MeaningOf, i) <==> Repeated(docs, MeaningOf, i)
      {
        assert forall j | 0 <= j < n :: before[j] == docs[j];
      }
      KeepIsFirsts(before, ids);
    }
  }

  /** The whole script on a collection read by decreasing expiration: of the documents that mean
      the same exactly the first is kept. */
  method CheckDuplicates(docs: seq<Doc>, h: Digests, dryRun: bool) returns (remaining: seq<Doc>, needRestart: bool)
    requires DistinctIds(docs) && CollisionFree(h, docs)
    ensures remaining == if dryRun then docs else Survivors(docs)
    ensures needRestart <==> !dryRun && exists i :: 0 <= i < |docs| && Repeated(docs, MeaningOf, i)
  {
    var duplicates := GroupBySignature(docs, h);
    var savings, toDelete := SelectDeletions(duplicates);
    forall i | 0 <= i < |docs|
      ensures docs[i].id in toDelete <==> Repeated(docs, MeaningOf, i)
    {
      DeletedIffRepeated(h, docs, duplicates, i);
    }
    KeepIsFirsts(docs, toDelete);
    if toDelete != [] {
      DeletedIsDocument(h, docs, duplicates, toDelete[0]);
    }
    remaining, needRestart := RemoveDocuments(docs, toDelete, dryRun);
  }

  lemma DeletedIsDocument(h: Digests, docs: seq<Doc>, duplicates: map<string, seq<string>>, id: string)
    requires forall sig | sig in duplicates :: duplicates[sig] == Group(h, docs, sig)
    requires Superfluous(duplicates, duplicates.Keys, id)
    ensures exists i :: 0 <= i < |docs| && docs[i].id == id
  {
    var sig :| sig in duplicates.Keys && InTail(duplicates[sig], id);
    GroupTail(h, docs, sig, id);
    var k: nat :| Late(h, docs, k, sig, id);
  }
}
