/** Rendering a subscription as JSON, and reading it back. */
module SubscriptionJson {
  import opened JsonText
  import opened JsonHelper
  import opened Wrappers

  datatype EntID = EntID(id: string, idPattern: string, entityType: string)

  datatype Condition = Condition(attributes: seq<string>, q: string, geometry: string, coords: string, georel: string)

  datatype Subject = Subject(entities: seq<EntID>, condition: Condition)

  datatype Notification = Notification(attributes: seq<string>, timesSent: int, lastNotification: int, url: string)

  datatype Subscription = Subscription(
    id: string, description: string, subject: Subject, expires: int, status: string,
    notification: Notification, throttling: int)

  const PERMANENT := 9_000_000_000_000_000_000

  // ---------------------------------------------------------------------------
  // The documents that the renderings stand for

  /** A member that is present only under a condition. */
  function Opt(present: bool, key: string, v: Json): seq<Member> {
    if present then [Member(key, v)] else []
  }

  function EntIDJson(e: EntID): Json {
    Obj([Member("id", Str(e.id)), Member("idPattern", Str(e.idPattern)), Member("type", Str(e.entityType))])
  }

  function ExpressionMembers(c: Condition): seq<Member> {
    Opt(c.q != "", "q", Str(c.q)) + Opt(c.geometry != "", "geometry", Str(c.geometry))
    + Opt(c.coords != "", "coords", Str(c.coords)) + Opt(c.georel != "", "georel", Str(c.georel))
  }

  function ConditionJson(c: Condition): Json {
    Obj([Member("attrs", Arr(Strings(c.attributes)))]
        + Opt(ExpressionMembers(c) != [], "expression", Obj(ExpressionMembers(c))))
  }

  function Entities(es: seq<EntID>): (vs: seq<Json>)
    ensures |vs| == |es| && forall i | 0 <= i < |es| :: vs[i] == EntIDJson(es[i])
  {
    seq(|es|, i requires 0 <= i < |es| => EntIDJson(es[i]))
  }

  function SubjectJson(s: Subject): Json {
    Obj([Member("entities", Arr(Entities(s.entities))), Member("condition", ConditionJson(s.condition))])
  }

  function NotificationJson(n: Notification, isodate: int -> string): Json {
    Obj(Opt(n.timesSent > 0, "timesSent", Num(n.timesSent))
        + Opt(n.lastNotification > 0, "lastNotification", Str(isodate(n.lastNotification)))
        + [Member("attrs", Arr(Strings(n.attributes))), Member("http", Obj([Member("url", Str(n.url))]))])
  }

  function ScalarMembers(s: Subscription, isodate: int -> string): seq<Member> {
    [Member("id", Str(s.id))]
    + Opt(s.description != "", "description", Str(s.description))
    + Opt(s.expires != PERMANENT, "expires", Str(isodate(s.expires)))
  }

  function PartMembers(s: Subscription, isodate: int -> string): seq<Member> {
    [Member("status", Str(s.status)), Member("subject", SubjectJson(s.subject)),
     Member("notification", NotificationJson(s.notification, isodate))]
  }

  function SubscriptionMembers(s: Subscription, isodate: int -> string): seq<Member> {
    ScalarMembers(s, isodate) + PartMembers(s, isodate) + Opt(s.throttling > 0, "throttling", Num(s.throttling))
  }

  // ---------------------------------------------------------------------------
  // The renderings

  method EntIDToJson(e: EntID) returns (text: string)
    ensures text == Print(EntIDJson(e))
  {
    var jh := new Helper();
    jh.AddString("id", e.id);
    jh.AddString("idPattern", e.idPattern);
    jh.AddString("type", e.entityType);
    assert jh.members == EntIDJson(e).members;
    text := jh.Finish();
  }

  method ExpressionToJson(c: Condition) returns (text: string)
    ensures text == Print(Obj(ExpressionMembers(c)))
  {
    var jhe := new Helper();
    if c.q != "" { jhe.AddString("q", c.q); }
    if c.geometry != "" { jhe.AddString("geometry", c.geometry); }
    if c.coords != "" { jhe.AddString("coords", c.coords); }
    if c.georel != "" { jhe.AddString("georel", c.georel); }
    assert jhe.members == ExpressionMembers(c);
    text := jhe.Finish();
  }

  /** Only the empty object prints as "{}". */
  lemma EmptyObject(ms: seq<Member>)
    ensures Print(Obj(ms)) == "{}" <==> ms == []
  {
    if ms != [] {
      assert |PrintMember(ms[0])| > 0;
      assert |PrintMembers(ms)| > 0;
    }
  }

  method ConditionToJson(c: Condition) returns (text: string)
    ensures text == Print(ConditionJson(c))
  {
    var jh := new Helper();
    var attrs := VectorToJson(c.attributes);
    jh.AddRaw("attrs", attrs, Arr(Strings(c.attributes)));
    var expression := ExpressionToJson(c);
    EmptyObject(ExpressionMembers(c));
    if expression != "{}" {
      jh.AddRaw("expression", expression, Obj(ExpressionMembers(c)));
    }
    text := jh.Finish();
  }

  method EntitiesToJson(es: seq<EntID>) returns (text: string)
    ensures text == Print(Arr(Entities(es)))
  {
    var texts: seq<string> := [];
    for i := 0 to |es|
      invariant |texts| == i && forall j | 0 <= j < i :: texts[j] == Print(EntIDJson(es[j]))
    {
      var t := EntIDToJson(es[i]);
      texts := texts + [t];
    }
    text := TextsToJson(texts, Entities(es));
  }

  method SubjectToJson(s: Subject) returns (text: string)
    ensures text == Print(SubjectJson(s))
  {
    var jh := new Helper();
    var entities := EntitiesToJson(s.entities);
    jh.AddRaw("entities", entities, Arr(Entities(s.entities)));
    var condition := ConditionToJson(s.condition);
    jh.AddRaw("condition", condition, ConditionJson(s.condition));
    text := jh.Finish();
  }

  method HttpInfoToJson(url: string) returns (text: string)
    ensures text == Print(Obj([Member("url", Str(url))]))
  {
    var jh := new Helper();
    jh.AddString("url", url);
    text := jh.Finish();
  }

  method NotificationToJson(n: Notification, isodate: int -> string) returns (text: string)
    ensures text == Print(NotificationJson(n, isodate))
  {
    var jh := new Helper();
    if n.timesSent > 0 { jh.AddNumber("timesSent", n.timesSent); }
    if n.lastNotification > 0 { jh.AddDate("lastNotification", n.lastNotification, isodate); }
    var attrs := VectorToJson(n.attributes);
    jh.AddRaw("attrs", attrs, Arr(Strings(n.attributes)));
    var http := HttpInfoToJson(n.url);
    jh.AddRaw("http", http, Obj([Member("url", Str(n.url))]));
    assert jh.members == NotificationJson(n, isodate).members;
    text := jh.Finish();
  }

  method AddScalars(jh: Helper, s: Subscription, isodate: int -> string)
    requires jh.Open() && jh.members == []
    modifies jh
    ensures jh.Open() && jh.members == ScalarMembers(s, isodate)
  {
    jh.AddString("id", s.id);
    if s.description != "" { jh.AddString("description", s.description); }
    if s.expires != PERMANENT { jh.AddDate("expires", s.expires, isodate); }
  }

  method AddSubject(jh: Helper, s: Subject)
    requires jh.Open()
    modifies jh
    ensures jh.Open() && jh.members == old(jh.members) + [Member("subject", SubjectJson(s))]
  {
    var subject := SubjectToJson(s);
    jh.AddRaw("subject", subject, SubjectJson(s));
  }

  method AddNotification(jh: Helper, n: Notification, isodate: int -> string)
    requires jh.Open()
    modifies jh
    ensures jh.Open() && jh.members == old(jh.members) + [Member("notification", NotificationJson(n, isodate))]
  {
    var notification := NotificationToJson(n, isodate);
    jh.AddRaw("notification", notification, NotificationJson(n, isodate));
  }

  lemma ThreeMore(ms: seq<Member>, a: Member, b: Member, c: Member)
    ensures ms + [a] + [b] + [c] == ms + [a, b, c]
  {
  }

  method SubscriptionToJson(s: Subscription, isodate: int -> string) returns (text: string)
    ensures text == Print(Obj(SubscriptionMembers(s, isodate)))
  {
    var jh := new Helper();
    AddScalars(jh, s, isodate);
    jh.AddString("status", s.status);
    AddSubject(jh, s.subject);
    AddNotification(jh, s.notification, isodate);
    ghost var before := jh.members;
    ThreeMore(ScalarMembers(s, isodate), Member("status", Str(s.status)), Member("subject", SubjectJson(s.subject)),
              Member("notification", NotificationJson(s.notification, isodate)));
    if s.throttling > 0 { jh.AddNumber("throttling", s.throttling); }
    assert jh.members == before + Opt(s.throttling > 0, "throttling", Num(s.throttling));
    text := jh.Finish();
  }

  // ---------------------------------------------------------------------------
  // Reading back

  /** A JSON reader recovers every subscription's members, nested ones included, in order. */
  lemma SubscriptionRoundTrip(s: Subscription, isodate: int -> string)
    ensures ReadValue(Print(Obj(SubscriptionMembers(s, isodate)))) == Some((Obj(SubscriptionMembers(s, isodate)), ""))
  {
    var v := Obj(SubscriptionMembers(s, isodate));
    ValueRoundTrip(v, "");
    assert Print(v) + "" == Print(v);
  }

  /** The first member with the key. */
  function Get(ms: seq<Member>, key: string): Option<Json> {
    if ms == [] then None else if ms[0].key == key then Some(ms[0].value) else Get(ms[1..], key)
  }

  lemma {:induction false} GetConcat(xs: seq<Member>, ys: seq<Member>, key: string)
    ensures Get(xs + ys, key) == if Get(xs, key).Some? then Get(xs, key) else Get(ys, key)
  {
    if xs == [] {
      assert xs + ys == ys;
    } else {
      assert (xs + ys)[1..] == xs[1..] + ys;
      GetConcat(xs[1..], ys, key);
    }
  }

  lemma GetOpt(present: bool, k: string, v: Json, key: string)
    ensures Get(Opt(present, k, v), key) == if present && k == key then Some(v) else None
  {
    if present {
      assert Opt(present, k, v)[1..] == [];
    }
  }

  /** What is printed of an expression. */
  lemma ExpressionRecovered(a: Condition, b: Condition)
    requires ExpressionMembers(a) == ExpressionMembers(b)
    ensures a.q == b.q && a.geometry == b.geometry && a.coords == b.coords && a.georel == b.georel
  {
    GetExpression(a);
    GetExpression(b);
  }

  lemma GetExpression(c: Condition)
    ensures var ms := ExpressionMembers(c);
            && Get(ms, "q") == (if c.q != "" then Some(Str(c.q)) else None)
            && Get(ms, "geometry") == (if c.geometry != "" then Some(Str(c.geometry)) else None)
            && Get(ms, "coords") == (if c.coords != "" then Some(Str(c.coords)) else None)
            && Get(ms, "georel") == (if c.georel != "" then Some(Str(c.georel)) else None)
  {
    var (q, g, co, r) := (Opt(c.q != "", "q", Str(c.q)), Opt(c.geometry != "", "geometry", Str(c.geometry)),
                          Opt(c.coords != "", "coords", Str(c.coords)), Opt(c.georel != "", "georel", Str(c.georel)));
    forall key
      ensures Get(q + g + co + r, key) ==
              if Get(q, key).Some? then Get(q, key) else if Get(g, key).Some? then Get(g, key)
              else if Get(co, key).Some? then Get(co, key) else Get(r, key)
    {
      GetConcat(q, g, key);
      GetConcat(q + g, co, key);
      GetConcat(q + g + co, r, key);
    }
    forall key
      ensures Get(q, key) == (if c.q != "" && "q" == key then Some(Str(c.q)) else None)
      ensures Get(g, key) == (if c.geometry != "" && "geometry" == key then Some(Str(c.geometry)) else None)
      ensures Get(co, key) == (if c.coords != "" && "coords" == key then Some(Str(c.coords)) else None)
      ensures Get(r, key) == (if c.georel != "" && "georel" == key then Some(Str(c.georel)) else None)
    {
      GetOpt(c.q != "", "q", Str(c.q), key);
      GetOpt(c.geometry != "", "geometry", Str(c.geometry), key);
      GetOpt(c.coords != "", "coords", Str(c.coords), key);
      GetOpt(c.georel != "", "georel", Str(c.georel), key);
    }
  }

  lemma ConditionRecovered(a: Condition, b: Condition)
    requires ConditionJson(a) == ConditionJson(b)
    ensures a == b
  {
    var (x, y) := (ConditionJson(a).members, ConditionJson(b).members);
    assert x[0] == y[0];
    StringsInjective(a.attributes, b.attributes);
    if |x| == 2 {
      assert x[1] == y[1];
    }
    ExpressionRecovered(a, b);
  }

  lemma StringsInjective(a: seq<string>, b: seq<string>)
    requires Strings(a) == Strings(b)
    ensures a == b
  {
    assert |a| == |Strings(a)| == |b|;
    assert forall i | 0 <= i < |a| :: Strings(a)[i] == Str(a[i]) && Strings(b)[i] == Str(b[i]);
  }

  lemma SubjectRecovered(a: Subject, b: Subject)
    requires SubjectJson(a) == SubjectJson(b)
    ensures a == b
  {
    var (x, y) := (SubjectJson(a).members, SubjectJson(b).members);
    assert x[0] == y[0] && x[1] == y[1];
    ConditionRecovered(a.condition, b.condition);
    var (xs, ys) := (Entities(a.entities), Entities(b.entities));
    assert |a.entities| == |xs| == |b.entities|;
    forall i | 0 <= i < |a.entities|
      ensures a.entities[i] == b.entities[i]
    {
      assert xs[i] == ys[i];
      var (m, n) := (EntIDJson(a.entities[i]).members, EntIDJson(b.entities[i]).members);
      assert m[0] == n[0] && m[1] == n[1] && m[2] == n[2];
    }
  }

  function Positive(n: int): int {
    if n > 0 then n else 0
  }

  lemma NotificationRecovered(a: Notification, b: Notification, isodate: int -> string)
    requires NotificationJson(a, isodate) == NotificationJson(b, isodate)
    requires forall x, y | isodate(x) == isodate(y) :: x == y
    ensures a.attributes == b.attributes && a.url == b.url
    ensures Positive(a.timesSent) == Positive(b.timesSent) && Positive(a.lastNotification) == Positive(b.lastNotification)
  {
    GetNotification(a, isodate);
    GetNotification(b, isodate);
    StringsInjective(a.attributes, b.attributes);
    assert Obj([Member("url", Str(a.url))]).members[0] == Obj([Member("url", Str(b.url))]).members[0];
  }

  lemma GetNotification(n: Notification, isodate: int -> string)
    ensures var ms := NotificationJson(n, isodate).members;
            && Get(ms, "timesSent") == (if n.timesSent > 0 then Some(Num(n.timesSent)) else None)
            && Get(ms, "lastNotification") ==
                 (if n.lastNotification > 0 then Some(Str(isodate(n.lastNotification))) else None)
            && Get(ms, "attrs") == Some(Arr(Strings(n.attributes)))
            && Get(ms, "http") == Some(Obj([Member("url", Str(n.url))]))
  {
    var t := Opt(n.timesSent > 0, "timesSent", Num(n.timesSent));
    var l := Opt(n.lastNotification > 0, "lastNotification", Str(isodate(n.lastNotification)));
    var r := [Member("attrs", Arr(Strings(n.attributes))), Member("http", Obj([Member("url", Str(n.url))]))];
    assert NotificationJson(n, isodate).members == t + l + r;
    GetTwo(r);
    forall key
      ensures Get(t + l + r, key) ==
              if n.timesSent > 0 && "timesSent" == key then Some(Num(n.timesSent))
              else if n.lastNotification > 0 && "lastNotification" == key then Some(Str(isodate(n.lastNotification)))
              else Get(r, key)
    {
      GetConcat(t, l, key);
      GetConcat(t + l, r, key);
      GetOpt(n.timesSent > 0, "timesSent", Num(n.timesSent), key);
      GetOpt(n.lastNotification > 0, "lastNotification", Str(isodate(n.lastNotification)), key);
    }
  }

  /** The value under a key, member by member. */
  function ValueOf(s: Subscription, isodate: int -> string, key: string): Option<Json> {
    if key == "id" then Some(Str(s.id))
    else if key == "description" && s.description != "" then Some(Str(s.description))
    else if key == "expires" && s.expires != PERMANENT then Some(Str(isodate(s.expires)))
    else if key == "status" then Some(Str(s.status))
    else if key == "subject" then Some(SubjectJson(s.subject))
    else if key == "notification" then Some(NotificationJson(s.notification, isodate))
    else if key == "throttling" && s.throttling > 0 then Some(Num(s.throttling))
    else None
  }

  lemma GetSubscription(s: Subscription, isodate: int -> string, key: string)
    ensures Get(SubscriptionMembers(s, isodate), key) == ValueOf(s, isodate, key)
  {
    var i := [Member("id", Str(s.id))];
    var d := Opt(s.description != "", "description", Str(s.description));
    var e := Opt(s.expires != PERMANENT, "expires", Str(isodate(s.expires)));
    var m := [Member("status", Str(s.status)), Member("subject", SubjectJson(s.subject)),
              Member("notification", NotificationJson(s.notification, isodate))];
    var t := Opt(s.throttling > 0, "throttling", Num(s.throttling));
    assert i == Opt(true, "id", Str(s.id));
    GetThree(m, key);
    GetFive(i, d, e, m, t, key);
    GetOpt(true, "id", Str(s.id), key);
    GetOpt(s.description != "", "description", Str(s.description), key);
    GetOpt(s.expires != PERMANENT, "expires", Str(isodate(s.expires)), key);
    GetOpt(s.throttling > 0, "throttling", Num(s.throttling), key);
  }

  lemma SameMembersSameValues(a: Subscription, b: Subscription, isodate: int -> string)
    requires SubscriptionMembers(a, isodate) == SubscriptionMembers(b, isodate)
    ensures forall key :: ValueOf(a, isodate, key) == ValueOf(b, isodate, key)
  {
    forall key
      ensures ValueOf(a, isodate, key) == ValueOf(b, isodate, key)
    {
      GetSubscription(a, isodate, key);
      GetSubscription(b, isodate, key);
    }
  }

  lemma SameScalars(a: Subscription, b: Subscription, isodate: int -> string)
    requires forall key :: ValueOf(a, isodate, key) == ValueOf(b, isodate, key)
    requires forall x, y | isodate(x) == isodate(y) :: x == y
    ensures a.id == b.id && a.description == b.description && a.expires == b.expires && a.status == b.status
    ensures Positive(a.throttling) == Positive(b.throttling)
  {
    assert ValueOf(a, isodate, "id") == ValueOf(b, isodate, "id");
    assert ValueOf(a, isodate, "description") == ValueOf(b, isodate, "description");
    assert ValueOf(a, isodate, "expires") == ValueOf(b, isodate, "expires");
    assert ValueOf(a, isodate, "status") == ValueOf(b, isodate, "status");
    assert ValueOf(a, isodate, "throttling") == ValueOf(b, isodate, "throttling");
  }

  lemma PartValues(s: Subscription, isodate: int -> string)
    ensures ValueOf(s, isodate, "subject") == Some(SubjectJson(s.subject))
    ensures ValueOf(s, isodate, "notification") == Some(NotificationJson(s.notification, isodate))
  {
  }

  lemma SameParts(a: Subscription, b: Subscription, isodate: int -> string)
    requires ValueOf(a, isodate, "subject") == ValueOf(b, isodate, "subject")
    requires ValueOf(a, isodate, "notification") == ValueOf(b, isodate, "notification")
    ensures SubjectJson(a.subject) == SubjectJson(b.subject)
    ensures NotificationJson(a.notification, isodate) == NotificationJson(b.notification, isodate)
  {
    PartValues(a, isodate);
    PartValues(b, isodate);
    calc {
      Some(SubjectJson(a.subject));
      ValueOf(a, isodate, "subject");
      ValueOf(b, isodate, "subject");
      Some(SubjectJson(b.subject));
    }
    calc {
      Some(NotificationJson(a.notification, isodate));
      ValueOf(a, isodate, "notification");
      ValueOf(b, isodate, "notification");
      Some(NotificationJson(b.notification, isodate));
    }
  }

  lemma GetTwo(m: seq<Member>)
    requires |m| == 2
    ensures forall key :: Get(m, key) == if m[0].key == key then Some(m[0].value)
                                         else if m[1].key == key then Some(m[1].value) else None
  {
    assert m[1..][1..] == [];
    forall key
      ensures Get(m, key) == if m[0].key == key then Some(m[0].value)
                             else if m[1].key == key then Some(m[1].value) else None
    {
      assert Get(m[1..], key) == if m[1].key == key then Some(m[1].value) else None;
    }
  }

  lemma GetThree(m: seq<Member>, key: string)
    requires |m| == 3
    ensures Get(m, key) == if m[0].key == key then Some(m[0].value)
                           else if m[1].key == key then Some(m[1].value)
                           else if m[2].key == key then Some(m[2].value) else None
  {
    assert m[1..][1..] == m[2..] && m[2..][1..] == [];
    assert Get(m[2..], key) == if m[2].key == key then Some(m[2].value) else None;
    assert Get(m[1..], key) == if m[1].key == key then Some(m[1].value) else Get(m[2..], key);
  }

  lemma GetFive(i: seq<Member>, d: seq<Member>, e: seq<Member>, m: seq<Member>, t: seq<Member>, key: string)
    ensures Get(i + d + e + m + t, key) ==
              if Get(i, key).Some? then Get(i, key) else if Get(d, key).Some? then Get(d, key)
              else if Get(e, key).Some? then Get(e, key) else if Get(m, key).Some? then Get(m, key) else Get(t, key)
  {
    GetConcat(i, d, key);
    GetConcat(i + d, e, key);
    GetConcat(i + d + e, m, key);
    GetConcat(i + d + e + m, t, key);
  }

  /** Counters and throttling that are not positive are not shown. */
  function Visible(s: Subscription): Subscription {
    s.(throttling := Positive(s.throttling),
       notification := s.notification.(timesSent := Positive(s.notification.timesSent),
                                       lastNotification := Positive(s.notification.lastNotification)))
  }

  lemma SameTextSameMembers(a: Subscription, b: Subscription, isodate: int -> string)
    requires Print(Obj(SubscriptionMembers(a, isodate))) == Print(Obj(SubscriptionMembers(b, isodate)))
    ensures SubscriptionMembers(a, isodate) == SubscriptionMembers(b, isodate)
  {
    SubscriptionRoundTrip(a, isodate);
    SubscriptionRoundTrip(b, isodate);
  }

  lemma SameValuesSameParts(a: Subscription, b: Subscription, isodate: int -> string)
    requires forall x, y | isodate(x) == isodate(y) :: x == y
    requires ValueOf(a, isodate, "subject") == ValueOf(b, isodate, "subject")
    requires ValueOf(a, isodate, "notification") == ValueOf(b, isodate, "notification")
    ensures a.subject == b.subject && a.notification.attributes == b.notification.attributes
    ensures a.notification.url == b.notification.url
    ensures Positive(a.notification.timesSent) == Positive(b.notification.timesSent)
    ensures Positive(a.notification.lastNotification) == Positive(b.notification.lastNotification)
  {
    SameParts(a, b, isodate);
    SubjectRecovered(a.subject, b.subject);
    NotificationRecovered(a.notification, b.notification, isodate);
  }

  lemma SameMembersSameSubscription(a: Subscription, b: Subscription, isodate: int -> string)
    requires forall x, y | isodate(x) == isodate(y) :: x == y
    requires SubscriptionMembers(a, isodate) == SubscriptionMembers(b, isodate)
    ensures Visible(a) == Visible(b)
  {
    SameMembersSameValues(a, b, isodate);
    SameScalars(a, b, isodate);
    SameValuesSameParts(a, b, isodate);
  }

  /** Two subscriptions with the same text are the same subscription, as far as it is shown
      (if different times have different renderings). */
  lemma SameTextSameSubscription(a: Subscription, b: Subscription, isodate: int -> string)
    requires forall x, y | isodate(x) == isodate(y) :: x == y
    requires Print(Obj(SubscriptionMembers(a, isodate))) == Print(Obj(SubscriptionMembers(b, isodate)))
    ensures Visible(a) == Visible(b)
  {
    SameTextSameMembers(a, b, isodate);
    SameMembersSameSubscription(a, b, isodate);
  }

  // ---------------------------------------------------------------------------
  // What a reader finds under each key

  lemma EntIDShows(e: EntID)
    ensures var ms := EntIDJson(e).members;
            && Get(ms, "id") == Some(Str(e.id)) && Get(ms, "idPattern") == Some(Str(e.idPattern))
            && Get(ms, "type") == Some(Str(e.entityType)) && |ms| == 3
  {
    var ms := EntIDJson(e).members;
    assert |ms[0].key| == 2 && |ms[1].key| == 9 && |ms[2].key| == 4;
    GetThree(ms, "id");
    GetThree(ms, "idPattern");
    GetThree(ms, "type");
  }

  lemma SubjectShows(s: Subject)
    ensures var ms := SubjectJson(s).members;
            && Get(ms, "entities") == Some(Arr(Entities(s.entities))) && Get(ms, "condition") == Some(ConditionJson(s.condition))
            && |ms| == 2
  {
    var ms := SubjectJson(s).members;
    assert |ms[0].key| == 8 && |ms[1].key| == 9;
    GetTwo(ms);
  }

  predicate HasExpression(c: Condition) {
    c.q != "" || c.geometry != "" || c.coords != "" || c.georel != ""
  }

  lemma ConditionShows(c: Condition)
    ensures var ms := ConditionJson(c).members;
            && Get(ms, "attrs") == Some(Arr(Strings(c.attributes)))
            && Get(ms, "expression") == (if HasExpression(c) then Some(Obj(ExpressionMembers(c))) else None)
  {
    var (a, x) := ([Member("attrs", Arr(Strings(c.attributes)))], Obj(ExpressionMembers(c)));
    var e := Opt(ExpressionMembers(c) != [], "expression", x);
    assert HasExpression(c) <==> ExpressionMembers(c) != [];
    assert a == Opt(true, "attrs", a[0].value);
    GetConcat(a, e, "attrs");
    GetConcat(a, e, "expression");
    GetOpt(true, "attrs", a[0].value, "attrs");
    GetOpt(true, "attrs", a[0].value, "expression");
    GetOpt(ExpressionMembers(c) != [], "expression", x, "attrs");
    GetOpt(ExpressionMembers(c) != [], "expression", x, "expression");
  }

  /** The keys of a subscription and what a reader finds under them; the parts in turn are described
      by SubjectShows, ConditionShows, EntIDShows, GetExpression and GetNotification. */
  ghost predicate Shows(ms: seq<Member>, s: Subscription, isodate: int -> string) {
    && Get(ms, "id") == Some(Str(s.id)) && Get(ms, "status") == Some(Str(s.status))
    && Get(ms, "description") == (if s.description == "" then None else Some(Str(s.description)))
    && Get(ms, "expires") == (if s.expires == PERMANENT then None else Some(Str(isodate(s.expires))))
    && Get(ms, "subject") == Some(SubjectJson(s.subject))
    && Get(ms, "notification") == Some(NotificationJson(s.notification, isodate))
    && Get(ms, "throttling") == (if s.throttling > 0 then Some(Num(s.throttling)) else None)
  }

  lemma ScalarsShow(s: Subscription, isodate: int -> string, ms: seq<Member>)
    requires ms == SubscriptionMembers(s, isodate)
    ensures Get(ms, "id") == Some(Str(s.id)) && Get(ms, "status") == Some(Str(s.status))
    ensures Get(ms, "description") == (if s.description == "" then None else Some(Str(s.description)))
    ensures Get(ms, "expires") == (if s.expires == PERMANENT then None else Some(Str(isodate(s.expires))))
  {
    GetSubscription(s, isodate, "id");
    GetSubscription(s, isodate, "status");
    GetSubscription(s, isodate, "description");
    GetSubscription(s, isodate, "expires");
  }

  lemma PartsShow(s: Subscription, isodate: int -> string, ms: seq<Member>)
    requires ms == SubscriptionMembers(s, isodate)
    ensures Get(ms, "subject") == Some(SubjectJson(s.subject))
    ensures Get(ms, "notification") == Some(NotificationJson(s.notification, isodate))
    ensures Get(ms, "throttling") == (if s.throttling > 0 then Some(Num(s.throttling)) else None)
  {
    GetSubscription(s, isodate, "subject");
    GetSubscription(s, isodate, "notification");
    GetSubscription(s, isodate, "throttling");
    PartValues(s, isodate);
  }

  /** A reader of the text finds every part of the subscription under its own key. */
  lemma SubscriptionShows(s: Subscription, isodate: int -> string) returns (ms: seq<Member>)
    ensures ReadValue(Print(Obj(SubscriptionMembers(s, isodate)))) == Some((Obj(ms), ""))
    ensures Shows(ms, s, isodate)
  {
    ms := SubscriptionMembers(s, isodate);
    SubscriptionRoundTrip(s, isodate);
    ScalarsShow(s, isodate, ms);
    PartsShow(s, isodate, ms);
  }
}
