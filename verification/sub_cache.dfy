/** The subscription cache: a singly linked list with head and tail pointers, and its
    synchronisation with the database. */
module SubCache {
  import opened Wrappers
  import opened SubscriptionStore
  import SubMatch
  import ServicePath

  datatype Condition = Condition(kind: string, values: seq<string>)

  /** An entity of a subscription document; each field may be missing. */
  datatype EntityRecord = EntityRecord(id: Option<string>, kind: Option<string>, isPattern: Option<string>)

  /** A subscription document. */
  datatype Record = Record(
    tenant: string,
    servicePath: Option<string>,
    conditions: seq<Condition>,
    entities: seq<EntityRecord>,
    counters: Doc)

  /** What `f` gives for the elements that are kept, in order. */
  function Collect<A, B>(xs: seq<A>, kept: A -> bool, f: A -> B): seq<B> {
    if xs == [] then [] else
    var n := |xs| - 1;
    Collect(xs[..n], kept, f) + (if kept(xs[n]) then [f(xs[n])] else [])
  }

  /** The kept elements are exactly those at the positions `at`, in order. */
  ghost predicate Positions<A>(xs: seq<A>, kept: A -> bool, at: seq<nat>) {
    && (forall i | 0 <= i < |at| :: at[i] < |xs| && kept(xs[at[i]]))
    && (forall i, j | 0 <= i < j < |at| :: at[i] < at[j])
    && (forall k | 0 <= k < |xs| && kept(xs[k]) :: k in at)
  }

  lemma PositionsSnoc<A>(before: seq<A>, last: A, kept: A -> bool, at: seq<nat>)
    requires Positions(before, kept, at)
    ensures kept(last) ==> Positions(before + [last], kept, at + [|before|])
    ensures !kept(last) ==> Positions(before + [last], kept, at)
  {
    var all, more := before + [last], at + [|before|];
    assert more[|at|] == |before| && all[|before|] == last;
    assert forall i | 0 <= i < |at| :: more[i] == at[i] && all[at[i]] == before[at[i]];
    forall k | 0 <= k < |before| && kept(all[k])
      ensures k in at && k in more
    {
      assert all[k] == before[k];
      var i :| 0 <= i < |at| && at[i] == k;
      assert more[i] == k;
    }
  }

  lemma {:induction false} CollectAt<A, B>(xs: seq<A>, kept: A -> bool, f: A -> B) returns (at: seq<nat>)
    ensures Positions(xs, kept, at) && |Collect(xs, kept, f)| == |at|
    ensures forall i | 0 <= i < |at| :: Collect(xs, kept, f)[i] == f(xs[at[i]])
  {
    at := [];
    if xs != [] {
      var n := |xs| - 1;
      at := CollectAt(xs[..n], kept, f);
      PositionsSnoc(xs[..n], xs[n], kept, at);
      assert xs[..n] + [xs[n]] == xs;
      if kept(xs[n]) {
        at := at + [n];
      }
    }
  }

  predicate IsOnChange(c: Condition) {
    c.kind == "ONCHANGE"
  }

  function Values(c: Condition): seq<string> {
    c.values
  }

  predicate HasId(e: EntityRecord) {
    e.id.Some?
  }

  function InfoOf(e: EntityRecord): SubMatch.EntityInfo {
    var isPattern := e.isPattern.GetOr("false");
    SubMatch.EntityInfo(e.id.GetOr(""), e.kind.GetOr(""), isPattern == "true" || isPattern == "TRUE" || isPattern == "True")
  }

  /** The value lists of the ONCHANGE conditions; other conditions are skipped. */
  function OnChange(conditions: seq<Condition>): seq<seq<string>> {
    Collect(conditions, IsOnChange, Values)
  }

  /** The cached form of the entities; those without an id are skipped. */
  function Infos(entities: seq<EntityRecord>): seq<SubMatch.EntityInfo> {
    Collect(entities, HasId, InfoOf)
  }

  /** Documents without entities or without ONCHANGE conditions are not cached. */
  predicate Cacheable(rec: Record) {
    Infos(rec.entities) != [] && OnChange(rec.conditions) != []
  }

  /** The list `cs` is exactly the value lists of the ONCHANGE conditions, which are at the positions
      `at`, in order. */
  ghost predicate ListsOnChange(cs: seq<seq<string>>, conditions: seq<Condition>, at: seq<nat>) {
    && |at| == |cs|
    && (forall i | 0 <= i < |at| ::
          at[i] < |conditions| && conditions[at[i]].kind == "ONCHANGE" && conditions[at[i]].values == cs[i])
    && (forall i, j | 0 <= i < j < |at| :: at[i] < at[j])
    && (forall k | 0 <= k < |conditions| && conditions[k].kind == "ONCHANGE" :: k in at)
  }

  lemma OnChangeLists(conditions: seq<Condition>) returns (at: seq<nat>)
    ensures ListsOnChange(OnChange(conditions), conditions, at)
  {
    at := CollectAt(conditions, IsOnChange, Values);
  }

  /** The cached entity says what the document's entity says; a missing type is the empty one, and
      only three spellings make a pattern. */
  predicate Says(info: SubMatch.EntityInfo, e: EntityRecord) {
    && e.id == Some(info.entityId) && info.entityType == e.kind.GetOr("")
    && (info.isPattern <==> e.isPattern in {Some("true"), Some("TRUE"), Some("True")})
  }

  /** The list is exactly the entities that have an id, which are at the positions `at`, in order. */
  ghost predicate ListsEntities(infos: seq<SubMatch.EntityInfo>, entities: seq<EntityRecord>, at: seq<nat>) {
    && |at| == |infos|
    && (forall i | 0 <= i < |at| :: at[i] < |entities| && Says(infos[i], entities[at[i]]))
    && (forall i, j | 0 <= i < j < |at| :: at[i] < at[j])
    && (forall k | 0 <= k < |entities| && entities[k].id.Some? :: k in at)
  }

  lemma InfoOfSays(e: EntityRecord)
    requires HasId(e)
    ensures Says(InfoOf(e), e)
  {
  }

  lemma InfosList(entities: seq<EntityRecord>) returns (at: seq<nat>)
    ensures ListsEntities(Infos(entities), entities, at)
  {
    at := CollectAt(entities, HasId, InfoOf);
    forall i | 0 <= i < |at|
      ensures Says(Infos(entities)[i], entities[at[i]])
    {
      InfoOfSays(entities[at[i]]);
    }
  }

  /** Exactly the documents with an identified entity and an ONCHANGE condition are cached. */
  lemma CacheableIff(rec: Record)
    ensures Cacheable(rec) <==>
            && (exists k :: 0 <= k < |rec.entities| && rec.entities[k].id.Some?)
            && (exists k :: 0 <= k < |rec.conditions| && rec.conditions[k].kind == "ONCHANGE")
  {
    var at := InfosList(rec.entities);
    var on := OnChangeLists(rec.conditions);
    assert at != [] ==> HasId(rec.entities[at[0]]);
    assert on != [] ==> IsOnChange(rec.conditions[on[0]]);
  }

  /** The loop that fills the entity vector. */
  method ReadEntities(entities: seq<EntityRecord>) returns (infos: seq<SubMatch.EntityInfo>)
    ensures infos == Infos(entities)
  {
    infos := [];
    for ix := 0 to |entities|
      invariant infos == Infos(entities[..ix])
    {
      assert entities[..ix + 1][..ix] == entities[..ix];
      var e := entities[ix];
      if e.id.None? {
        continue;
      }
      var isPattern := if e.isPattern.Some? then e.isPattern.value else "false";
      var kind := if e.kind.Some? then e.kind.value else "";
      infos := infos + [SubMatch.EntityInfo(e.id.value, kind, isPattern == "true" || isPattern == "TRUE" || isPattern == "True")];
    }
    assert entities[..|entities|] == entities;
  }

  /** The loop that fills the condition vector. */
  method ReadConditions(conditions: seq<Condition>) returns (cs: seq<seq<string>>)
    ensures cs == OnChange(conditions)
  {
    cs := [];
    for ix := 0 to |conditions|
      invariant cs == OnChange(conditions[..ix])
    {
      assert conditions[..ix + 1][..ix] == conditions[..ix];
      if conditions[ix].kind != "ONCHANGE" {
        continue;
      }
      cs := cs + [conditions[ix].values];
    }
    assert conditions[..|conditions|] == conditions;
  }

  /** A cached subscription has the document's tenant and service path, "/" if it has none, its
      entities and its ONCHANGE conditions. */
  ghost predicate Reflects(info: SubMatch.SubInfo, rec: Record) {
    && info.tenant == Some(rec.tenant) && info.servicePath == rec.servicePath.GetOr("/")
    && (exists at :: ListsEntities(info.entities, rec.entities, at))
    && (exists at :: ListsOnChange(info.conditions, rec.conditions, at))
  }

  /** What a refresh reads from a document. */
  function Reading(rec: Record): SubMatch.SubInfo {
    SubMatch.SubInfo(Some(rec.tenant), rec.servicePath.GetOr("/"), OnChange(rec.conditions), Infos(rec.entities))
  }

  lemma ReadingReflects(rec: Record)
    ensures Reflects(Reading(rec), rec)
  {
    var on := OnChangeLists(rec.conditions);
    var at := InfosList(rec.entities);
  }

  class Database {
    var docs: map<Id, Record>

    constructor ()
      ensures docs == map[]
    {
      docs := map[];
    }

    /** `mongoSubCacheUpdate`, for a subscription with saved counters. */
    method Update(id: Id, saved: map<Id, Saved>)
      modifies this
      ensures docs == if id in saved && id in old(docs)
                      then old(docs)[id := old(docs)[id].(counters := FlushedDoc(old(docs)[id].counters, saved[id]))]
                      else old(docs)
    {
      if id in saved && id in docs {
        docs := docs[id := docs[id].(counters := FlushedDoc(docs[id].counters, saved[id]))];
      }
    }
  }

  class CachedSubscription {
    var tenant: Option<string>
    var servicePath: string
    var subscriptionId: Id
    var conditions: seq<seq<string>>
    var entities: seq<SubMatch.EntityInfo>
    var lastNotificationTime: int
    var count: int
    var next: CachedSubscription?

    constructor FromRecord(id: Id, rec: Record)
      ensures tenant == Some(rec.tenant) && servicePath == rec.servicePath.GetOr("/") && subscriptionId == id
      ensures conditions == OnChange(rec.conditions) && entities == Infos(rec.entities)
      ensures lastNotificationTime == TimeOf(rec.counters) && count == 0 && next == null
    {
      tenant, subscriptionId := Some(rec.tenant), id;
      servicePath := if rec.servicePath.Some? then rec.servicePath.value else "/";
      var infos := ReadEntities(rec.entities);
      var lists := ReadConditions(rec.conditions);
      entities, conditions := infos, lists;
      lastNotificationTime, count, next := TimeOf(rec.counters), 0, null;
    }

    function Info(): SubMatch.SubInfo
      reads this
    {
      SubMatch.SubInfo(tenant, servicePath, conditions, entities)
    }

    predicate Copies(docs: map<Id, Record>)
      reads this
    {
      subscriptionId in docs && Info() == Reading(docs[subscriptionId])
    }

    ghost predicate ShowsDocument(docs: map<Id, Record>)
      reads this
    {
      subscriptionId in docs && Reflects(Info(), docs[subscriptionId])
    }

    function AsItem(): Item
      reads this
    {
      Item(subscriptionId, count, lastNotificationTime)
    }

    /** `subCacheItemDestroy`. */
    method Destroy()
      modifies this
      ensures next == null && tenant == None && entities == [] && conditions == []
    {
      tenant, servicePath, subscriptionId := None, "", "";
      entities, conditions, next := [], [], null;
    }
  }

  /** The subscriptions that match, in list order. */
  ghost function Select(nodes: seq<CachedSubscription>, q: SubMatch.Query, attrs: seq<string>): seq<CachedSubscription>
    requires forall n | n in nodes :: SubMatch.PathsOk(n.Info(), q)
    reads nodes
  {
    if nodes == [] then [] else
    var last := nodes[|nodes| - 1];
    Select(nodes[..|nodes| - 1], q, attrs) + (if SubMatch.Matches(last.Info(), q, attrs) then [last] else [])
  }

  lemma SelectSnoc(nodes: seq<CachedSubscription>, k: nat, q: SubMatch.Query, attrs: seq<string>)
    requires k < |nodes| && forall n | n in nodes :: SubMatch.PathsOk(n.Info(), q)
    ensures Select(nodes[..k + 1], q, attrs) ==
            Select(nodes[..k], q, attrs) + if SubMatch.Matches(nodes[k].Info(), q, attrs) then [nodes[k]] else []
  {
    assert nodes[..k + 1][..k] == nodes[..k];
  }

  lemma {:induction false} SelectIsFilter(nodes: seq<CachedSubscription>, q: SubMatch.Query, attrs: seq<string>,
                                          n: CachedSubscription)
    requires forall n | n in nodes :: SubMatch.PathsOk(n.Info(), q)
    ensures n in Select(nodes, q, attrs) <==> n in nodes && SubMatch.Matches(n.Info(), q, attrs)
  {
    if nodes != [] {
      var k := |nodes| - 1;
      SelectIsFilter(nodes[..k], q, attrs, n);
      assert nodes == nodes[..k] + [nodes[k]];
    }
  }

  /** The attribute-vector matcher finds, as a set, what the single-attribute matcher finds
      for the members of a non-empty vector. */
  lemma SelectIsUnion(nodes: seq<CachedSubscription>, q: SubMatch.Query, attrs: seq<string>, n: CachedSubscription)
    requires forall n | n in nodes :: SubMatch.PathsOk(n.Info(), q)
    requires attrs != []
    ensures n in Select(nodes, q, attrs) <==> exists a | a in attrs :: n in Select(nodes, q, [a])
  {
    SelectIsFilter(nodes, q, attrs, n);
    forall a: string
      ensures n in Select(nodes, q, [a]) <==> n in nodes && SubMatch.Matches(n.Info(), q, [a])
    {
      SelectIsFilter(nodes, q, [a], n);
    }
    if n in nodes {
      SubMatch.VectorIsUnion(n.Info(), q, attrs);
    }
  }

  /** What a refresh puts in the cache. */
  function ReadItems(docs: map<Id, Record>, order: seq<Id>): seq<Item>
    requires forall id | id in order :: id in docs
  {
    if order == [] then [] else
    var id := order[|order| - 1];
    ReadItems(docs, order[..|order| - 1]) +
    (if Cacheable(docs[id]) then [Fresh(id, docs[id].counters)] else [])
  }

  lemma ReadItemsStep(docs: map<Id, Record>, order: seq<Id>, i: nat)
    requires i < |order| && forall id | id in order :: id in docs
    ensures ReadItems(docs, order[..i + 1]) ==
            ReadItems(docs, order[..i]) + if Cacheable(docs[order[i]]) then [Fresh(order[i], docs[order[i]].counters)] else []
  {
    assert order[..i + 1][..i] == order[..i];
  }

  lemma {:induction false} ReadItemsIds(docs: map<Id, Record>, order: seq<Id>)
    requires Distinct(order) && forall id | id in order :: id in docs
    ensures Distinct(Ids(ReadItems(docs, order)))
    ensures forall i | i in ReadItems(docs, order) ::
              i.id in order && Cacheable(docs[i.id]) && i == Item(i.id, 0, docs[i.id].counters.lastNotification.GetOr(-1))
    ensures forall id | id in order && Cacheable(docs[id]) ::
              Item(id, 0, docs[id].counters.lastNotification.GetOr(-1)) in ReadItems(docs, order)
  {
    if order != [] {
      var n := |order| - 1;
      ReadItemsIds(docs, order[..n]);
      assert order == order[..n] + [order[n]];
      var before, all := ReadItems(docs, order[..n]), ReadItems(docs, order);
      forall i, j | 0 <= i < j < |all|
        ensures Ids(all)[i] != Ids(all)[j]
      {
        assert all[i] in before;
        if j < |before| {
          assert Ids(before)[i] != Ids(before)[j];
        }
      }
    }
  }

  /** The documents after the saved counters of the listed subscriptions were flushed. */
  function Flushed(docs: map<Id, Record>, saved: map<Id, Saved>, items: seq<Item>): map<Id, Record> {
    map id | id in docs ::
      if id in saved && Find(items, id).Some?
      then docs[id].(counters := FlushedDoc(docs[id].counters, saved[id])) else docs[id]
  }

  /** The documents after a synchronisation that saved `saved` and then read `items`. */
  function Synced(docs: map<Id, Record>, saved: map<Id, Saved>, items: seq<Item>): map<Id, Record> {
    Flushed(docs, Compared(saved, items), items)
  }

  lemma FindAppend(items: seq<Item>, k: nat)
    requires Distinct(Ids(items)) && k < |items|
    ensures Find(items[..k], items[k].id) == None
    ensures forall id :: Find(items[..k + 1], id) == if id == items[k].id then Some(items[k]) else Find(items[..k], id)
  {
    forall id
      ensures id == items[k].id ==> Find(items[..k], id) == None
      ensures Find(items[..k + 1], id) == if id == items[k].id then Some(items[k]) else Find(items[..k], id)
    {
      assert Ids(items)[..k] == Ids(items[..k]);
      assert items[..k + 1] == items[..k] + [items[k]];
      FindConcat(items[..k], [items[k]], id);
    }
  }

  lemma {:induction false} FindConcat(xs: seq<Item>, ys: seq<Item>, id: Id)
    ensures Find(xs + ys, id) == if Find(xs, id).Some? then Find(xs, id) else Find(ys, id)
  {
    if xs == [] {
      assert xs + ys == ys;
    } else {
      assert (xs + ys)[1..] == xs[1..] + ys;
      FindConcat(xs[1..], ys, id);
    }
  }

  lemma ComparedStep(saved: map<Id, Saved>, items: seq<Item>, k: nat)
    requires Distinct(Ids(items)) && k < |items|
    ensures var r := Compared(saved, items[..k]);
            var id := items[k].id;
            Compared(saved, items[..k + 1]) ==
            if id in r && r[id].time <= items[k].time then r[id := r[id].(time := 0)] else r
  {
    FindAppend(items, k);
  }

  lemma FlushedOneMore(docs: map<Id, Record>, saved: map<Id, Saved>, items: seq<Item>, more: seq<Item>, x: Item)
    requires Find(items, x.id) == None
    requires forall id :: Find(more, id) == if id == x.id then Some(x) else Find(items, id)
    ensures var r := Flushed(docs, saved, items);
            Flushed(docs, saved, more) ==
            if x.id in saved && x.id in r then r[x.id := r[x.id].(counters := FlushedDoc(r[x.id].counters, saved[x.id]))] else r
  {
  }

  lemma FlushedStep(docs: map<Id, Record>, saved: map<Id, Saved>, items: seq<Item>, k: nat)
    requires Distinct(Ids(items)) && k < |items|
    ensures var r := Flushed(docs, saved, items[..k]);
            var id := items[k].id;
            Flushed(docs, saved, items[..k + 1]) ==
            if id in saved && id in r then r[id := r[id].(counters := FlushedDoc(r[id].counters, saved[id]))] else r
  {
    FindAppend(items, k);
    FlushedOneMore(docs, saved, items[..k], items[..k + 1], items[k]);
  }

  class Cache {
    var head: CachedSubscription?
    var tail: CachedSubscription?
    var noOfRefreshes: int
    var noOfInserts: int
    var noOfRemoves: int

    /** The list, front to back. */
    ghost var nodes: seq<CachedSubscription>

    /** head, tail and the next pointers spell `nodes`, which repeats no node (so the list
        is acyclic and tail is its last reachable node). */
    ghost predicate Valid()
      reads this, nodes
    {
      && Distinct(nodes)
      && (nodes == [] ==> head == null && tail == null)
      && (nodes != [] ==> head == nodes[0] && tail == nodes[|nodes| - 1] && nodes[|nodes| - 1].next == null)
      && forall i | 0 <= i < |nodes| - 1 :: nodes[i].next == nodes[i + 1]
    }

    /** The item statistics, as long as only inserts and removes have happened. */
    ghost predicate StatisticsAgree()
      reads this
    {
      |nodes| == noOfInserts - noOfRemoves
    }

    ghost function Node(i: nat): CachedSubscription?
      requires i <= |nodes|
      reads this
    {
      if i < |nodes| then nodes[i] else null
    }

    /** Ids and counters, front to back. */
    ghost function Items(): (items: seq<Item>)
      reads this, nodes
      ensures |items| == |nodes|
    {
      seq(|nodes|, i requires 0 <= i < |nodes| reads this, nodes => nodes[i].AsItem())
    }

    /** `subCacheInit`. */
    constructor ()
      ensures Valid() && nodes == [] && StatisticsAgree() && noOfRefreshes == 0
    {
      head, tail, nodes := null, null, [];
      noOfRefreshes, noOfInserts, noOfRemoves := 0, 0, 0;
    }

    /** `subCacheItems`. */
    method CountItems() returns (n: nat)
      requires Valid()
      ensures n == |nodes|
    {
      var p := head;
      n := 0;
      while p != null
        invariant n <= |nodes| && p == Node(n)
        decreases |nodes| - n
      {
        n := n + 1;
        p := p.next;
      }
    }

    /** `subCacheItemInsert`. */
    method Insert(sub: CachedSubscription)
      requires Valid() && sub !in nodes
      modifies this, sub`next, if tail == null then {} else {tail}
      ensures Valid() && nodes == old(nodes) + [sub]
      ensures noOfInserts == old(noOfInserts) + 1
      ensures noOfRemoves == old(noOfRemoves) && noOfRefreshes == old(noOfRefreshes)
      ensures old(StatisticsAgree()) ==> StatisticsAgree()
      ensures forall n | n in old(nodes) :: n.AsItem() == old(n.AsItem()) && n.Info() == old(n.Info())
    {
      sub.next := null;
      noOfInserts := noOfInserts + 1;
      if head == null && tail == null {
        head := sub;
        tail := sub;
      } else {
        tail.next := sub;
        tail := sub;
      }
      nodes := nodes + [sub];
    }

    /** `subCacheItemLookup`: the first entry with the tenant and the id. */
    method Lookup(tenant: Option<string>, id: Id) returns (sub: CachedSubscription?)
      requires Valid()
      ensures sub != null ==>
        exists k :: 0 <= k < |nodes| && nodes[k] == sub
          && SubMatch.TenantMatch(tenant, sub.tenant) && sub.subscriptionId == id
          && forall j | 0 <= j < k :: !(SubMatch.TenantMatch(tenant, nodes[j].tenant) && nodes[j].subscriptionId == id)
      ensures sub == null ==>
        forall n | n in nodes :: !(SubMatch.TenantMatch(tenant, n.tenant) && n.subscriptionId == id)
    {
      sub := head;
      ghost var k := 0;
      while sub != null
        invariant k <= |nodes| && sub == Node(k)
        invariant forall j | 0 <= j < k ::
          !(SubMatch.TenantMatch(tenant, nodes[j].tenant) && nodes[j].subscriptionId == id)
        decreases |nodes| - k
      {
        if SubMatch.TenantMatch(tenant, sub.tenant) && id == sub.subscriptionId {
          return;
        }
        sub := sub.next;
        k := k + 1;
      }
    }

    /** `subCacheItemRemove`: deletes exactly that node and keeps the order of the others, or
        returns -1 and changes nothing. */
    method Remove(sub: CachedSubscription) returns (r: int)
      requires Valid()
      modifies this, nodes
      ensures Valid()
      ensures r == 0 <==> sub in old(nodes)
      ensures r == 0 ==>
        && sub !in nodes
        && (exists k :: 0 <= k < |old(nodes)| && old(nodes)[k] == sub && nodes == old(nodes)[..k] + old(nodes)[k + 1..])
        && noOfRemoves == old(noOfRemoves) + 1
      ensures r != 0 ==> r == -1 && unchanged(this) && forall n | n in nodes :: unchanged(n)
      ensures noOfInserts == old(noOfInserts) && noOfRefreshes == old(noOfRefreshes)
      ensures old(StatisticsAgree()) ==> StatisticsAgree()
      ensures forall n | n in nodes :: n.AsItem() == old(n.AsItem()) && n.Info() == old(n.Info())
    {
      var current, prev: CachedSubscription? := head, null;
      ghost var k := 0;
      while current != null
        invariant k <= |nodes| && current == Node(k)
        invariant prev == if k == 0 then null else nodes[k - 1]
        invariant sub !in nodes[..k]
        invariant unchanged(this) && forall n | n in nodes :: unchanged(n)
        decreases |nodes| - k
      {
        if current == sub {
          Unlink(sub, prev, k);
          return 0;
        }
        prev := current;
        current := current.next;
        k := k + 1;
      }
      assert nodes[..k] == nodes;
      r := -1;
    }

    method Unlink(sub: CachedSubscription, prev: CachedSubscription?, ghost k: nat)
      requires Valid() && k < |nodes| && nodes[k] == sub
      requires prev == if k == 0 then null else nodes[k - 1]
      modifies this, sub, if prev == null then {} else {prev}
      ensures Valid() && nodes == old(nodes)[..k] + old(nodes)[k + 1..] && sub !in nodes
      ensures noOfRemoves == old(noOfRemoves) + 1
      ensures noOfInserts == old(noOfInserts) && noOfRefreshes == old(noOfRefreshes)
      ensures forall n | n in nodes :: n.AsItem() == old(n.AsItem()) && n.Info() == old(n.Info())
    {
      if sub == head { head := sub.next; }
      if sub == tail { tail := prev; }
      if prev != null { prev.next := sub.next; }
      noOfRemoves := noOfRemoves + 1;
      nodes := nodes[..k] + nodes[k + 1..];
      sub.Destroy();
    }

    /** `subCacheDestroy`. */
    method Destroy()
      requires Valid()
      modifies this, nodes
      ensures Valid() && nodes == []
      ensures noOfInserts == old(noOfInserts) && noOfRemoves == old(noOfRemoves) && noOfRefreshes == old(noOfRefreshes)
    {
      var p := head;
      if head == null {
        return;
      }
      ghost var k := 0;
      while p.next != null
        invariant nodes == old(nodes) && k < |nodes| && p == nodes[k]
        invariant unchanged(this) && Distinct(nodes) && nodes[|nodes| - 1].next == null
        invariant forall i | k <= i < |nodes| - 1 :: nodes[i].next == nodes[i + 1]
        decreases |nodes| - k
      {
        var prev := p;
        p := p.next;
        prev.Destroy();
        k := k + 1;
      }
      p.Destroy();
      head, tail, nodes := null, null, [];
    }

    method InsertRecord(id: Id, rec: Record, ghost docs: map<Id, Record>)
      requires Valid() && AllCopied(docs) && id in docs && docs[id] == rec
      modifies this, if tail == null then {} else {tail}
      ensures Valid() && Items() == old(Items()) + [Fresh(id, rec.counters)]
      ensures forall i | 0 <= i < |nodes| :: (i < |old(nodes)| && nodes[i] == old(nodes)[i]) || fresh(nodes[i])
      ensures noOfRefreshes == old(noOfRefreshes) && noOfRemoves == old(noOfRemoves)
      ensures AllCopied(docs)
    {
      var sub := new CachedSubscription.FromRecord(id, rec);
      ghost var before := nodes;
      Insert(sub);
      assert sub.Copies(docs) && sub.AsItem() == Fresh(id, rec.counters);
      forall i | 0 <= i < |before|
        ensures before[i].Copies(docs) && before[i].AsItem() == old(before[i].AsItem())
      {
        assert old(before[i].Copies(docs)) && before[i] in before;
      }
    }

    ghost predicate AllCopied(docs: map<Id, Record>)
      reads this, nodes
    {
      forall i | 0 <= i < |nodes| :: nodes[i].Copies(docs)
    }

    lemma CopiedIsLoaded(docs: map<Id, Record>)
      requires AllCopied(docs)
      ensures Loaded(docs)
    {
      forall i | 0 <= i < |nodes|
        ensures nodes[i].ShowsDocument(docs)
      {
        assert nodes[i].Copies(docs);
        ReadingReflects(docs[nodes[i].subscriptionId]);
      }
    }

    /** Every cached subscription reflects the document with its id. */
    ghost predicate Loaded(docs: map<Id, Record>)
      reads this, nodes
    {
      forall i | 0 <= i < |nodes| :: nodes[i].ShowsDocument(docs)
    }

    /** One document of the query's result. */
    method ReadDocument(id: Id, docs: map<Id, Record>)
      requires Valid() && AllCopied(docs) && id in docs
      modifies this, if tail == null then {} else {tail}
      ensures Valid() && AllCopied(docs)
      ensures forall i | 0 <= i < |nodes| :: (i < |old(nodes)| && nodes[i] == old(nodes)[i]) || fresh(nodes[i])
      ensures Items() == old(Items()) + if Cacheable(docs[id]) then [Fresh(id, docs[id].counters)] else []
      ensures noOfRefreshes == old(noOfRefreshes) && noOfRemoves == old(noOfRemoves)
    {
      if Cacheable(docs[id]) {
        InsertRecord(id, docs[id], docs);
      }
    }

    /** `mongoSubCacheRefresh` for the documents that the queries returned, in that order. */
    method ReadDocuments(docs: map<Id, Record>, order: seq<Id>)
      requires Valid() && nodes == []
      requires forall id | id in order :: id in docs
      modifies this
      ensures Valid() && Items() == ReadItems(docs, order) && fresh(nodes) && AllCopied(docs)
      ensures noOfRefreshes == old(noOfRefreshes) && noOfRemoves == old(noOfRemoves)
    {
      for i := 0 to |order|
        invariant Valid() && fresh(nodes) && AllCopied(docs)
        invariant Items() == ReadItems(docs, order[..i])
        invariant noOfRefreshes == old(noOfRefreshes) && noOfRemoves == old(noOfRemoves)
      {
        ReadItemsStep(docs, order, i);
        ReadDocument(order[i], docs);
      }
      assert order[..|order|] == order;
    }

    /** `subCacheRefresh`. */
    method Refresh(db: Database, order: seq<Id>)
      requires Valid()
      requires Distinct(order) && forall id | id in order :: id in db.docs
      modifies this, nodes
      ensures Valid() && Items() == ReadItems(db.docs, order) && fresh(nodes) && Loaded(db.docs)
      ensures noOfRefreshes == old(noOfRefreshes) + 1 && noOfRemoves == old(noOfRemoves)
    {
      Destroy();
      ReadDocuments(db.docs, order);
      CountRefresh(db.docs);
      CopiedIsLoaded(db.docs);
    }

    method CountRefresh(ghost docs: map<Id, Record>)
      requires Valid() && AllCopied(docs)
      modifies this`noOfRefreshes
      ensures Valid() && AllCopied(docs) && Items() == old(Items())
      ensures noOfRefreshes == old(noOfRefreshes) + 1
    {
      noOfRefreshes := noOfRefreshes + 1;
    }

    /** `subCacheSync`: save, refresh, compare, flush. It returns only if the cached ids are
        pairwise different. */
    method Sync(db: Database, order: seq<Id>)
      requires Valid() && Distinct(Ids(Items()))
      requires Distinct(order) && forall id | id in order :: id in db.docs
      modifies this, nodes, db
      ensures Valid() && Items() == ReadItems(old(db.docs), order) && Loaded(old(db.docs))
      ensures db.docs == Synced(old(db.docs), SavedOf(old(Items())), Items())
      ensures noOfRefreshes == old(noOfRefreshes) + 1
    {
      ghost var docs := db.docs;
      var saved := SaveAndRefresh(db, order);
      FlushNewer(db, saved, docs);
    }

    /** Steps 1 and 2. */
    method SaveAndRefresh(db: Database, order: seq<Id>) returns (saved: map<Id, Saved>)
      requires Valid() && Distinct(Ids(Items()))
      requires Distinct(order) && forall id | id in order :: id in db.docs
      modifies this, nodes
      ensures Valid() && Items() == ReadItems(db.docs, order) && Distinct(Ids(Items())) && Loaded(db.docs) && fresh(nodes)
      ensures saved == SavedOf(old(Items())) && noOfRefreshes == old(noOfRefreshes) + 1
    {
      saved := SaveAll();
      Refresh(db, order);
      ReadItemsIds(db.docs, order);
    }

    /** Steps 3 to 5, after the refresh. */
    method FlushNewer(db: Database, saved: map<Id, Saved>, ghost docs: map<Id, Record>)
      requires Valid() && Distinct(Ids(Items())) && Loaded(docs)
      modifies db
      ensures db.docs == Synced(old(db.docs), saved, Items())
      ensures Valid() && Items() == old(Items()) && Loaded(docs)
    {
      var newer := CompareTimes(saved);
      FlushAll(db, newer);
    }

    /** Step 1. */
    method SaveAll() returns (saved: map<Id, Saved>)
      requires Valid() && Distinct(Ids(Items()))
      ensures saved == SavedOf(Items())
    {
      saved := map[];
      var p := head;
      ghost var k := 0;
      while p != null
        invariant k <= |nodes| && p == Node(k)
        invariant saved == SavedOf(Items()[..k])
        decreases |nodes| - k
      {
        SavedKeys(Items()[..k]);
        assert p.subscriptionId !in saved by {
          assert forall j | 0 <= j < k :: Ids(Items())[j] != Ids(Items())[k];
        }
        saved := saved[p.subscriptionId := Saved(p.count, p.lastNotificationTime)];
        assert Items()[..k + 1][..k] == Items()[..k];
        p := p.next;
        k := k + 1;
      }
      assert Items()[..k] == Items();
    }

    /** Step 3. */
    method CompareTimes(saved: map<Id, Saved>) returns (r: map<Id, Saved>)
      requires Valid() && Distinct(Ids(Items()))
      ensures r == Compared(saved, Items())
    {
      r := saved;
      var p := head;
      ghost var k := 0;
      while p != null
        invariant k <= |nodes| && p == Node(k)
        invariant r == Compared(saved, Items()[..k])
        decreases |nodes| - k
      {
        ComparedStep(saved, Items(), k);
        if p.subscriptionId in r && r[p.subscriptionId].time <= p.lastNotificationTime {
          r := r[p.subscriptionId := r[p.subscriptionId].(time := 0)];
        }
        p := p.next;
        k := k + 1;
      }
      assert Items()[..k] == Items();
    }

    /** Steps 4 and 5. */
    method FlushAll(db: Database, saved: map<Id, Saved>)
      requires Valid() && Distinct(Ids(Items()))
      modifies db
      ensures db.docs == Flushed(old(db.docs), saved, Items())
    {
      var p := head;
      ghost var k, items := 0, Items();
      while p != null
        invariant k <= |nodes| && p == Node(k) && Items() == items
        invariant db.docs == Flushed(old(db.docs), saved, items[..k])
        decreases |nodes| - k
      {
        FlushedStep(old(db.docs), saved, items, k);
        assert p.subscriptionId == items[k].id;
        db.Update(p.subscriptionId, saved);
        p := p.next;
        k := k + 1;
      }
      assert items[..k] == items;
    }

    /** `subCacheMatch` with an attribute vector: exactly the matching subscriptions, in list order. */
    method Match(q: SubMatch.Query, attrs: seq<string>) returns (subs: seq<CachedSubscription>)
      requires Valid() && forall n | n in nodes :: SubMatch.PathsOk(n.Info(), q)
      ensures subs == Select(nodes, q, attrs)
    {
      var p := head;
      ghost var k := 0;
      subs := [];
      while p != null
        invariant k <= |nodes| && p == Node(k)
        invariant forall n | n in nodes[..k] :: SubMatch.PathsOk(n.Info(), q)
        invariant subs == Select(nodes[..k], q, attrs)
        decreases |nodes| - k
      {
        var matches := SubMatch.SubMatches(p.Info(), q, attrs);
        SelectSnoc(nodes, k, q, attrs);
        if matches {
          subs := subs + [p];
        }
        p := p.next;
        k := k + 1;
      }
      assert nodes[..k] == nodes;
    }

    /** `subCacheMatch` with one attribute. */
    method MatchOne(q: SubMatch.Query, attr: string) returns (subs: seq<CachedSubscription>)
      requires Valid() && forall n | n in nodes :: SubMatch.PathsOk(n.Info(), q)
      ensures subs == Select(nodes, q, [attr])
    {
      subs := Match(q, [attr]);
    }
  }

  // ---------------------------------------------------------------------------
  // Matching after a refresh is matching the documents

  /** The condition is met by the updated attributes. */
  predicate IsMet(c: Condition, attrs: seq<string>) {
    c.kind == "ONCHANGE" && (c.values == [] || exists v | v in c.values :: v in attrs)
  }

  /** The update is of this entity. */
  predicate Concerns(e: EntityRecord, q: SubMatch.Query) {
    && e.id.Some?
    && (e.kind.GetOr("") == "" || q.entityType == "" || e.kind == Some(q.entityType))
    && if e.isPattern in {Some("true"), Some("TRUE"), Some("True")} then q.regex(e.id.value, q.entityId) else e.id.value == q.entityId
  }

  /** What a subscription document asks for, in its own terms. */
  predicate AsksFor(rec: Record, q: SubMatch.Query, attrs: seq<string>)
    requires ServicePath.Defined(rec.servicePath.GetOr("/"), q.servicePath)
  {
    && (q.multitenant ==> rec.tenant == q.tenant.GetOr(""))
    && ServicePath.Matches(rec.servicePath.GetOr("/"), q.servicePath)
    && (exists k | 0 <= k < |rec.conditions| :: IsMet(rec.conditions[k], attrs))
    && (exists k | 0 <= k < |rec.entities| :: Concerns(rec.entities[k], q))
  }

  lemma ConditionsMet(cs: seq<seq<string>>, conditions: seq<Condition>, at: seq<nat>, attrs: seq<string>)
    requires ListsOnChange(cs, conditions, at)
    ensures SubMatch.CoversAny(cs, attrs) <==> exists k | 0 <= k < |conditions| :: IsMet(conditions[k], attrs)
  {
    if c :| c in cs && (c == [] || exists v | v in c :: v in attrs) {
      var i :| 0 <= i < |cs| && cs[i] == c;
      assert IsMet(conditions[at[i]], attrs);
    }
    if k :| 0 <= k < |conditions| && IsMet(conditions[k], attrs) {
      assert k in at;
      var i :| 0 <= i < |at| && at[i] == k;
      assert cs[i] == conditions[k].values && cs[i] in cs;
    }
  }

  lemma SaysConcerns(info: SubMatch.EntityInfo, e: EntityRecord, q: SubMatch.Query)
    requires Says(info, e)
    ensures SubMatch.EntityMatch(info, q) <==> Concerns(e, q)
  {
  }

  lemma EntitiesConcerned(infos: seq<SubMatch.EntityInfo>, entities: seq<EntityRecord>, at: seq<nat>, q: SubMatch.Query)
    requires ListsEntities(infos, entities, at)
    ensures (exists e | e in infos :: SubMatch.EntityMatch(e, q)) <==>
            (exists k | 0 <= k < |entities| :: Concerns(entities[k], q))
  {
    if e :| e in infos && SubMatch.EntityMatch(e, q) {
      var i :| 0 <= i < |infos| && infos[i] == e;
      SaysConcerns(e, entities[at[i]], q);
    }
    if k :| 0 <= k < |entities| && Concerns(entities[k], q) {
      assert k in at;
      var i :| 0 <= i < |at| && at[i] == k;
      SaysConcerns(infos[i], entities[k], q);
      assert infos[i] in infos;
    }
  }

  lemma ReflectionAsks(info: SubMatch.SubInfo, rec: Record, q: SubMatch.Query, attrs: seq<string>, at: seq<nat>, on: seq<nat>)
    requires info.tenant == Some(rec.tenant) && info.servicePath == rec.servicePath.GetOr("/")
    requires ListsEntities(info.entities, rec.entities, at) && ListsOnChange(info.conditions, rec.conditions, on)
    requires ServicePath.Defined(rec.servicePath.GetOr("/"), q.servicePath)
    ensures SubMatch.PathsOk(info, q) && (SubMatch.Matches(info, q, attrs) <==> AsksFor(rec, q, attrs))
  {
    ConditionsMet(info.conditions, rec.conditions, on, attrs);
    EntitiesConcerned(info.entities, rec.entities, at, q);
    assert SubMatch.TenantMatch(info.tenant, q.tenant) <==> rec.tenant == q.tenant.GetOr("");
  }

  /** One node. */
  lemma NodeAsks(n: CachedSubscription, docs: map<Id, Record>, q: SubMatch.Query, attrs: seq<string>)
    requires n.ShowsDocument(docs) && ServicePath.Defined(docs[n.subscriptionId].servicePath.GetOr("/"), q.servicePath)
    ensures SubMatch.PathsOk(n.Info(), q)
    ensures SubMatch.Matches(n.Info(), q, attrs) <==> AsksFor(docs[n.subscriptionId], q, attrs)
  {
    var rec := docs[n.subscriptionId];
    var at :| ListsEntities(n.Info().entities, rec.entities, at);
    var on :| ListsOnChange(n.Info().conditions, rec.conditions, on);
    ReflectionAsks(n.Info(), rec, q, attrs, at, on);
  }

  lemma AskingIsCacheable(rec: Record, q: SubMatch.Query, attrs: seq<string>)
    requires ServicePath.Defined(rec.servicePath.GetOr("/"), q.servicePath) && AsksFor(rec, q, attrs)
    ensures Cacheable(rec)
  {
    var k :| 0 <= k < |rec.conditions| && IsMet(rec.conditions[k], attrs);
    var j :| 0 <= j < |rec.entities| && Concerns(rec.entities[j], q);
    CacheableIff(rec);
  }

  /** Where a subscription that was read is in the cache. */
  lemma ReadIsCached(cache: Cache, docs: map<Id, Record>, order: seq<Id>, id: Id) returns (i: nat)
    requires cache.Valid() && Distinct(order) && (forall o | o in order :: o in docs)
    requires cache.Items() == ReadItems(docs, order) && id in order && Cacheable(docs[id])
    ensures i < |cache.nodes| && cache.nodes[i].subscriptionId == id
  {
    ReadItemsIds(docs, order);
    var item := Item(id, 0, docs[id].counters.lastNotification.GetOr(-1));
    i :| 0 <= i < |ReadItems(docs, order)| && ReadItems(docs, order)[i] == item;
    assert cache.Items()[i].id == id;
  }

  lemma CachedWasRead(cache: Cache, docs: map<Id, Record>, order: seq<Id>, i: nat)
    requires cache.Valid() && Distinct(order) && (forall o | o in order :: o in docs)
    requires cache.Items() == ReadItems(docs, order) && i < |cache.nodes|
    ensures cache.nodes[i].subscriptionId in order
  {
    ReadItemsIds(docs, order);
    assert cache.Items()[i].id == cache.nodes[i].subscriptionId && cache.Items()[i] in ReadItems(docs, order);
  }

  /** After a refresh, the matcher finds exactly the subscriptions whose documents were read and ask
      for the update. */
  lemma MatchFindsDocuments(cache: Cache, docs: map<Id, Record>, order: seq<Id>, q: SubMatch.Query, attrs: seq<string>, id: Id)
    requires cache.Valid() && cache.Loaded(docs) && Distinct(order) && (forall o | o in order :: o in docs)
    requires cache.Items() == ReadItems(docs, order)
    requires forall o | o in docs :: ServicePath.Defined(docs[o].servicePath.GetOr("/"), q.servicePath)
    ensures forall n | n in cache.nodes :: SubMatch.PathsOk(n.Info(), q)
    ensures (exists n | n in Select(cache.nodes, q, attrs) :: n.subscriptionId == id) <==>
            id in order && AsksFor(docs[id], q, attrs)
  {
    var nodes := cache.nodes;
    forall i | 0 <= i < |nodes|
      ensures SubMatch.PathsOk(nodes[i].Info(), q)
    {
      assert nodes[i].ShowsDocument(docs);
      NodeAsks(nodes[i], docs, q, attrs);
    }
    if n :| n in Select(nodes, q, attrs) && n.subscriptionId == id {
      SelectIsFilter(nodes, q, attrs, n);
      var i :| 0 <= i < |nodes| && nodes[i] == n;
      CachedWasRead(cache, docs, order, i);
      assert nodes[i].ShowsDocument(docs);
      NodeAsks(n, docs, q, attrs);
    }
    if id in order && AsksFor(docs[id], q, attrs) {
      AskingIsCacheable(docs[id], q, attrs);
      var i := ReadIsCached(cache, docs, order, id);
      assert nodes[i].ShowsDocument(docs);
      NodeAsks(nodes[i], docs, q, attrs);
      SelectIsFilter(nodes, q, attrs, nodes[i]);
    }
  }
}
