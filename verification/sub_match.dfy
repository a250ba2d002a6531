/** Which cached subscriptions an update triggers. */
module SubMatch {
  import opened Wrappers
  import ServicePath

  datatype EntityInfo = EntityInfo(entityId: string, entityType: string, isPattern: bool)

  /** What the matcher reads of a cached subscription. Each notify condition is its list of
      attribute names. */
  datatype SubInfo = SubInfo(
    tenant: Option<string>,
    servicePath: string,
    conditions: seq<seq<string>>,
    entities: seq<EntityInfo>)

  /** The update: NULL strings are `None`. `regex(pattern, id)` is the C library's verdict. */
  datatype Query = Query(
    multitenant: bool,
    regex: (string, string) -> bool,
    tenant: Option<string>,
    servicePath: string,
    entityId: string,
    entityType: string)

  function OrEmpty(s: Option<string>): string {
    if s.Some? then s.value else ""
  }

  /** `tenantMatch`: a NULL tenant is the empty one. */
  predicate TenantMatch(a: Option<string>, b: Option<string>) {
    var (x, y) := (OrEmpty(a), OrEmpty(b));
    |x| == |y| && x == y
  }

  /** The tenant test of `subMatch`, branch by branch. */
  predicate TenantFilter(sub: Option<string>, tenant: Option<string>) {
    if sub.None? || tenant.None? || sub.value == "" || tenant.value == "" then
      if sub.Some? && sub.value != "" then false
      else if tenant.Some? && tenant.value != "" then false
      else true
    else sub.value == tenant.value
  }

  predicate EntityMatch(e: EntityInfo, q: Query) {
    if q.entityType != "" && e.entityType != q.entityType && e.entityType != "" then false
    else if e.isPattern then q.regex(e.entityId, q.entityId)
    else q.entityId == e.entityId
  }

  /** Some condition names no attribute at all, or names one of `attrs`. */
  predicate CoversAny(conditions: seq<seq<string>>, attrs: seq<string>) {
    exists c | c in conditions :: c == [] || exists v | v in c :: v in attrs
  }

  /** The path test is defined, or not made because the tenants differ. */
  predicate PathsOk(sub: SubInfo, q: Query) {
    (q.multitenant && !TenantMatch(sub.tenant, q.tenant)) || ServicePath.Defined(sub.servicePath, q.servicePath)
  }

  predicate Matches(sub: SubInfo, q: Query, attrs: seq<string>)
    requires PathsOk(sub, q)
  {
    && (q.multitenant ==> TenantMatch(sub.tenant, q.tenant))
    && ServicePath.Matches(sub.servicePath, q.servicePath)
    && CoversAny(sub.conditions, attrs)
    && exists e | e in sub.entities :: EntityMatch(e, q)
  }

  /** The nested loops over conditions, their values and the updated attributes. */
  method AttributeMatch(conditions: seq<seq<string>>, attrs: seq<string>) returns (b: bool)
    ensures b == CoversAny(conditions, attrs)
  {
    for i := 0 to |conditions|
      invariant forall k | 0 <= k < i :: conditions[k] != [] && forall v | v in conditions[k] :: v !in attrs
    {
      var values := conditions[i];
      if |values| == 0 {
        assert values in conditions;
        return true;
      }
      for j := 0 to |values|
        invariant forall k | 0 <= k < j :: values[k] !in attrs
      {
        for a := 0 to |attrs|
          invariant values[j] !in attrs[..a]
        {
          if values[j] == attrs[a] {
            assert values in conditions && values[j] in values;
            return true;
          }
        }
        assert attrs[..|attrs|] == attrs;
      }
    }
    return false;
  }

  /** `subMatch`, test by test. */
  method SubMatches(sub: SubInfo, q: Query, attrs: seq<string>) returns (b: bool)
    requires PathsOk(sub, q)
    ensures b == Matches(sub, q, attrs)
  {
    if q.multitenant && !TenantFilter(sub.tenant, q.tenant) {
      return false;
    }
    if !ServicePath.Matches(sub.servicePath, q.servicePath) {
      return false;
    }
    var covered := AttributeMatch(sub.conditions, attrs);
    if !covered {
      return false;
    }
    for i := 0 to |sub.entities|
      invariant forall k | 0 <= k < i :: !EntityMatch(sub.entities[k], q)
    {
      if EntityMatch(sub.entities[i], q) {
        return true;
      }
    }
    return false;
  }

  /** For every non-empty list of attributes, matching the list is matching one of its members. */
  lemma VectorIsUnion(sub: SubInfo, q: Query, attrs: seq<string>)
    requires PathsOk(sub, q) && attrs != []
    ensures Matches(sub, q, attrs) <==> exists a | a in attrs :: Matches(sub, q, [a])
  {
    if CoversAny(sub.conditions, attrs) {
      var c :| c in sub.conditions && (c == [] || exists v | v in c :: v in attrs);
      var a := attrs[0];
      if c != [] {
        a :| a in c && a in attrs;
      }
      assert a in attrs && CoversAny(sub.conditions, [a]);
    }
    forall a | a in attrs && CoversAny(sub.conditions, [a])
      ensures CoversAny(sub.conditions, attrs)
    {
      var c :| c in sub.conditions && (c == [] || exists v | v in c :: v in [a]);
      if c != [] {
        var v :| v in c && v in [a];
        assert v in attrs;
      }
    }
  }

  // ---------------------------------------------------------------------------
  // What a match means, entity by entity

  /** An entity's type lets the update pass unless both have one and they differ. */
  predicate TypePasses(entityType: string, q: Query) {
    entityType == "" || q.entityType == "" || entityType == q.entityType
  }

  /** A subscription of entities that are no patterns matches only updates of one of their ids. */
  lemma PlainEntitiesNeedTheId(sub: SubInfo, q: Query, attrs: seq<string>)
    requires PathsOk(sub, q) && Matches(sub, q, attrs) && forall e | e in sub.entities :: !e.isPattern
    ensures exists e | e in sub.entities :: e.entityId == q.entityId && TypePasses(e.entityType, q)
  {
  }

  /** With a single entity: a pattern decides by the regular expression on the update's id, a plain
      entity by equality, and either only if the types pass. The other tests do not depend on it. */
  lemma OneEntityDecides(sub: SubInfo, q: Query, attrs: seq<string>, e: EntityInfo, always: EntityInfo)
    requires PathsOk(sub, q)
    requires always == EntityInfo(q.entityId, "", false)
    ensures Matches(sub.(entities := [e]), q, attrs) <==>
            && Matches(sub.(entities := [always]), q, attrs) && TypePasses(e.entityType, q)
            && (if e.isPattern then q.regex(e.entityId, q.entityId) else e.entityId == q.entityId)
  {
    assert e in [e] && always in [always];
    assert forall x | x in [e] :: x == e;
    assert forall x | x in [always] :: x == always;
  }

  /** A list of entities matches if and only if one of them does on its own; so an additional
      entity never removes a match. */
  lemma EntitiesAreUnion(sub: SubInfo, q: Query, attrs: seq<string>)
    requires PathsOk(sub, q)
    ensures Matches(sub, q, attrs) <==> exists e | e in sub.entities :: Matches(sub.(entities := [e]), q, attrs)
    ensures forall more :: Matches(sub, q, attrs) ==> Matches(sub.(entities := sub.entities + more), q, attrs)
  {
    forall e: EntityInfo
      ensures forall x | x in [e] :: x == e
    {
    }
    if Matches(sub, q, attrs) {
      var e :| e in sub.entities && EntityMatch(e, q);
      assert e in [e] && Matches(sub.(entities := [e]), q, attrs);
      forall more
        ensures Matches(sub.(entities := sub.entities + more), q, attrs)
      {
        assert e in sub.entities + more;
      }
    }
    if e :| e in sub.entities && Matches(sub.(entities := [e]), q, attrs) {
      assert EntityMatch(e, q);
    }
  }

  /** In multitenant mode only the update's tenant matches, NULL being the empty tenant; otherwise
      tenants play no part. */
  lemma TenantsSeparate(sub: SubInfo, q: Query, attrs: seq<string>)
    requires PathsOk(sub, q)
    ensures q.multitenant && Matches(sub, q, attrs) ==> sub.tenant.GetOr("") == q.tenant.GetOr("")
    ensures forall tenant | PathsOk(sub.(tenant := tenant), q) && (q.multitenant ==> sub.tenant.GetOr("") == tenant.GetOr("")) ::
              Matches(sub.(tenant := tenant), q, attrs) <==> Matches(sub, q, attrs)
  {
  }

  /** With no attribute at all, only conditions that name none are met. */
  lemma EmptyVectorNeedsOpenCondition(sub: SubInfo, q: Query)
    requires PathsOk(sub, q) && Matches(sub, q, [])
    ensures [] in sub.conditions
    ensures forall attrs :: Matches(sub, q, attrs)
  {
    var c :| c in sub.conditions && (c == [] || exists v | v in c :: v in []);
    assert c == [];
  }
}
