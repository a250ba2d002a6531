/** The repeated cache entry that the save loop warns about: where it comes from and what
    it does. A subscription is written to the database before the cache semaphore is taken;
    a synchronisation of the same broker in between reads it, and the pending insertion then
    adds it a second time. */
module ClusterDuplicates {
  import opened SubscriptionStore
  import opened BrokerCluster
  import ClusterCounts

  ghost predicate DuplicateFree(b: Broker) {
    Distinct(Ids(b.cache)) && forall id | id in b.pending :: id !in Ids(b.cache)
  }

  /** A refresh reads a subscription that waits to be inserted in the same broker's cache. */
  ghost predicate IsRace(s: State, step: Step)
    requires Enabled(s, step)
  {
    step.Read? && step.id in s.brokers[step.broker].pending
  }

  ghost predicate RaceFreeRun(s: State, steps: seq<Step>)
    requires Runs(s, steps)
    decreases |steps|
  {
    steps == [] || (!IsRace(s, steps[0]) && RaceFreeRun(Apply(s, steps[0]), steps[1..]))
  }

  lemma InIds(items: seq<Item>, id: Id)
    ensures id in Ids(items) <==> exists i :: 0 <= i < |items| && items[i].id == id
  {
    if i :| 0 <= i < |items| && items[i].id == id {
      assert Ids(items)[i] == id;
    }
    if id in Ids(items) {
      var i :| 0 <= i < |Ids(items)| && Ids(items)[i] == id;
      assert items[i].id == id;
    }
  }

  lemma AppendKeepsDistinct(items: seq<Item>, item: Item)
    requires Distinct(Ids(items)) && item.id !in Ids(items)
    ensures Distinct(Ids(items + [item]))
  {
    IdsAppend(items, item);
  }

  lemma RemoveKeepsDistinct(items: seq<Item>, at: nat)
    requires Distinct(Ids(items)) && at < |items|
    ensures var r := items[..at] + items[at + 1..];
            Distinct(Ids(r)) && forall id | id in Ids(r) :: id in Ids(items)
  {
    var r := items[..at] + items[at + 1..];
    assert Ids(r) == Ids(items)[..at] + Ids(items)[at + 1..];
  }

  lemma TouchKeepsDuplicateFree(s: State, step: Step)
    requires Inv(s) && Enabled(s, step) && !IsRace(s, step)
    requires DuplicateFree(s.brokers[step.broker])
    ensures DuplicateFree(Touch(s, step).1)
  {
    var b := s.brokers[step.broker];
    assert BrokerInv(b, s.used);
    match step
    case CreateDoc(_, id, _, _) => InIds(b.cache, id);
    case CacheInsert(_, id) =>
      AppendKeepsDistinct(b.cache, b.pending[id]);
      IdsAppend(b.cache, b.pending[id]);
    case Notify(_, _, _) => assert Ids(Touch(s, step).1.cache) == Ids(b.cache);
    case CacheRemove(_, at) => RemoveKeepsDistinct(b.cache, at);
    case Read(_, id) =>
      AppendKeepsDistinct(b.cache, Fresh(id, s.db[id]));
      IdsAppend(b.cache, Fresh(id, s.db[id]));
    case _ =>
  }

  ghost predicate AllDuplicateFree(s: State) {
    forall b | 0 <= b < |s.brokers| :: DuplicateFree(s.brokers[b])
  }

  ghost predicate NoneHangs(s: State) {
    forall b | 0 <= b < |s.brokers| :: !s.brokers[b].phase.Hung?
  }

  lemma DuplicateFreeKept(s: State, step: Step)
    requires Inv(s) && Enabled(s, step) && !IsRace(s, step) && AllDuplicateFree(s)
    ensures AllDuplicateFree(Apply(s, step))
  {
    TouchKeepsDuplicateFree(s, step);
  }

  lemma NoneHangsKept(s: State, step: Step)
    requires Enabled(s, step) && AllDuplicateFree(s) && NoneHangs(s)
    ensures NoneHangs(Apply(s, step))
  {
    assert DuplicateFree(s.brokers[step.broker]) && !s.brokers[step.broker].phase.Hung?;
  }

  /** Without that race no cache ever holds an id twice, so no save loop ever fails to end. */
  lemma {:induction false} RaceFreeMeansDuplicateFree(s: State, steps: seq<Step>)
    requires Inv(s) && Runs(s, steps) && RaceFreeRun(s, steps) && AllDuplicateFree(s)
    ensures AllDuplicateFree(After(s, steps)) && (NoneHangs(s) ==> NoneHangs(After(s, steps)))
    decreases |steps|
  {
    if steps != [] {
      InvPreserved(s, steps[0]);
      DuplicateFreeKept(s, steps[0]);
      if NoneHangs(s) {
        NoneHangsKept(s, steps[0]);
      }
      RaceFreeMeansDuplicateFree(Apply(s, steps[0]), steps[1..]);
    }
  }

  /** Over race-free runs from the start no broker ever hangs, and the save loop of every idle
      broker ends. */
  lemma RaceFreeBrokersCanSync(s: State, steps: seq<Step>, b: nat)
    requires Initial(s) && Runs(s, steps) && RaceFreeRun(s, steps) && b < |After(s, steps).brokers|
    ensures !After(s, steps).brokers[b].phase.Hung?
    ensures After(s, steps).brokers[b].phase.Ready? ==>
              && Enabled(After(s, steps), Save(b))
              && Apply(After(s, steps), Save(b)).brokers[b].phase.Refreshing?
  {
    ClusterCounts.InitialIsBalanced(s);
    RaceFreeMeansDuplicateFree(s, steps);
  }

  // ---------------------------------------------------------------------------
  // Exactly when an id is ever repeated

  ghost predicate CachesDistinct(s: State) {
    forall b | 0 <= b < |s.brokers| :: Distinct(Ids(s.brokers[b].cache))
  }

  /** A waiting insertion is carried out although its id is in the cache already. */
  predicate InsertsCached(s: State, step: Step)
    requires Enabled(s, step)
  {
    step.CacheInsert? && step.id in Ids(s.brokers[step.broker].cache)
  }

  /** At some moment of the run a cache holds an id twice. */
  ghost predicate EverRepeats(s: State, steps: seq<Step>)
    requires Runs(s, steps)
    decreases |steps|
  {
    !CachesDistinct(s) || (steps != [] && EverRepeats(Apply(s, steps[0]), steps[1..]))
  }

  ghost predicate EverInsertsCached(s: State, steps: seq<Step>)
    requires Runs(s, steps)
    decreases |steps|
  {
    steps != [] && (InsertsCached(s, steps[0]) || EverInsertsCached(Apply(s, steps[0]), steps[1..]))
  }

  lemma TouchDistinctIff(s: State, step: Step)
    requires Inv(s) && Enabled(s, step) && Distinct(Ids(s.brokers[step.broker].cache))
    ensures Distinct(Ids(Touch(s, step).1.cache)) <==> !InsertsCached(s, step)
  {
    var b := s.brokers[step.broker];
    assert BrokerInv(b, s.used);
    match step
    case CacheInsert(_, id) =>
      if id in Ids(b.cache) {
        var i :| 0 <= i < |b.cache| && Ids(b.cache)[i] == id;
        IdsAppend(b.cache, b.pending[id]);
        assert Ids(b.cache + [b.pending[id]])[i] == Ids(b.cache + [b.pending[id]])[|b.cache|];
      } else {
        AppendKeepsDistinct(b.cache, b.pending[id]);
      }
    case Notify(_, _, _) => assert Ids(Touch(s, step).1.cache) == Ids(b.cache);
    case CacheRemove(_, at) => RemoveKeepsDistinct(b.cache, at);
    case Read(_, id) => AppendKeepsDistinct(b.cache, Fresh(id, s.db[id]));
    case _ =>
  }

  lemma DistinctKeptIff(s: State, step: Step)
    requires Inv(s) && Enabled(s, step) && CachesDistinct(s)
    ensures CachesDistinct(Apply(s, step)) <==> !InsertsCached(s, step)
  {
    TouchDistinctIff(s, step);
    var s' := Apply(s, step);
    assert s'.brokers[step.broker] == Touch(s, step).1;
    forall k | 0 <= k < |s'.brokers| && k != step.broker
      ensures Distinct(Ids(s'.brokers[k].cache))
    {
      assert s'.brokers[k] == s.brokers[k];
    }
  }

  /** Over every run: some cache ever holds an id twice, if and only if some waiting insertion is
      ever carried out although a refresh has put its id in the cache. */
  lemma {:induction false} EverRepeatsIff(s: State, steps: seq<Step>)
    requires Inv(s) && Runs(s, steps) && CachesDistinct(s)
    ensures EverRepeats(s, steps) <==> EverInsertsCached(s, steps)
    decreases |steps|
  {
    if steps != [] {
      InvPreserved(s, steps[0]);
      DistinctKeptIff(s, steps[0]);
      if !InsertsCached(s, steps[0]) {
        EverRepeatsIff(Apply(s, steps[0]), steps[1..]);
      }
    }
  }

  /** An idle broker whose cache holds an existing subscription twice. */
  ghost predicate Wedged(s: State, b: nat, id: Id) {
    && b < |s.brokers| && s.brokers[b].phase.Ready? && id in s.db
    && Twice(s.brokers[b].cache, id)
  }

  /** The insertion that follows the race. */
  lemma RaceWedges(s: State, b: nat, id: Id)
    requires Inv(s) && b < |s.brokers| && s.brokers[b].phase.Ready? && id in s.db
    requires id in s.brokers[b].pending && id in Ids(s.brokers[b].cache)
    ensures Enabled(s, CacheInsert(b, id)) && Wedged(Apply(s, CacheInsert(b, id)), b, id)
  {
    var cache := s.brokers[b].cache;
    InIds(cache, id);
    var i :| 0 <= i < |cache| && cache[i].id == id;
    assert BrokerInv(s.brokers[b], s.used);
    var s' := Apply(s, CacheInsert(b, id));
    assert s'.brokers[b].cache[i].id == id && s'.brokers[b].cache[|cache|].id == id;
  }

  /** Two entries with the id. */
  ghost predicate Twice(cache: seq<Item>, id: Id) {
    exists i, j :: 0 <= i < j < |cache| && cache[i].id == id && cache[j].id == id
  }

  lemma TwiceIsNotDistinct(cache: seq<Item>, id: Id)
    requires Twice(cache, id)
    ensures !Distinct(Ids(cache))
  {
    var i, j :| 0 <= i < j < |cache| && cache[i].id == id && cache[j].id == id;
    assert Ids(cache)[i] == Ids(cache)[j];
  }

  lemma TwiceAfterRemove(cache: seq<Item>, at: nat, id: Id)
    requires Twice(cache, id) && at < |cache| && cache[at].id != id
    ensures Twice(cache[..at] + cache[at + 1..], id)
  {
    var i, j :| 0 <= i < j < |cache| && cache[i].id == id && cache[j].id == id;
    var i', j' := if i < at then i else i - 1, if j < at then j else j - 1;
    var r := cache[..at] + cache[at + 1..];
    assert r[i'].id == id && r[j'].id == id;
  }

  lemma TwiceAfterGrowth(cache: seq<Item>, cache': seq<Item>, id: Id)
    requires Twice(cache, id) && |cache| <= |cache'|
    requires forall i | 0 <= i < |cache| :: cache'[i].id == cache[i].id
    ensures Twice(cache', id)
  {
    var i, j :| 0 <= i < j < |cache| && cache[i].id == id && cache[j].id == id;
    assert cache'[i].id == id && cache'[j].id == id;
  }

  lemma WedgeKept(s: State, step: Step, b: nat, id: Id)
    requires Wedged(s, b, id) && Enabled(s, step) && id in Apply(s, step).db
    ensures if step == Save(b) then Apply(s, step).brokers[b].phase.Hung? else Wedged(Apply(s, step), b, id)
  {
    var cache := s.brokers[b].cache;
    TwiceIsNotDistinct(cache, id);
    if step.broker == b {
      match step
      case CacheRemove(_, at) => TwiceAfterRemove(cache, at, id);
      case CacheInsert(_, _) => TwiceAfterGrowth(cache, Touch(s, step).1.cache, id);
      case Notify(_, _, _) => TwiceAfterGrowth(cache, Touch(s, step).1.cache, id);
      case _ =>
    }
  }

  /** A step of the broker's cache: everything but requests that only touch the database. */
  predicate IsCacheStep(step: Step) {
    !step.CreateDoc? && !step.DeleteDoc?
  }

  /** A broker in the endless save loop keeps the semaphore: over every run its cache never changes
      again, no step of its cache is ever enabled, and deleting the subscription does not help. */
  lemma {:induction false} HungForever(s: State, steps: seq<Step>, b: nat)
    requires Runs(s, steps) && b < |s.brokers| && s.brokers[b].phase.Hung?
    ensures var r := After(s, steps);
            && b < |r.brokers| && r.brokers[b].phase.Hung? && r.brokers[b].cache == s.brokers[b].cache
            && forall step: Step | step.broker == b && IsCacheStep(step) :: !Enabled(r, step)
    ensures forall i | 0 <= i < |steps| && steps[i].broker == b :: !IsCacheStep(steps[i])
    decreases |steps|
  {
    if steps != [] {
      HungForever(Apply(s, steps[0]), steps[1..], b);
      assert forall i | 0 < i < |steps| :: steps[i] == steps[1..][i - 1];
    }
  }

  /** From the wedge on, whatever happens while the subscription exists: the broker has not started
      to synchronise since, or it hangs, and if it has not started, starting hangs it. */
  lemma {:induction false} WedgedUntilHung(s: State, steps: seq<Step>, b: nat, id: Id)
    requires Inv(s) && Wedged(s, b, id) && Runs(s, steps) && id in After(s, steps).db
    ensures var r := After(s, steps);
            if Save(b) in steps then b < |r.brokers| && r.brokers[b].phase.Hung?
            else Wedged(r, b, id) && Enabled(r, Save(b)) && Apply(r, Save(b)).brokers[b].phase.Hung?
    decreases |steps|
  {
    if steps == [] {
      TwiceIsNotDistinct(s.brokers[b].cache, id);
    } else {
      InvPreserved(s, steps[0]);
      assert steps == [steps[0]] + steps[1..];
      if id !in Apply(s, steps[0]).db {
        DeletedStaysDeleted(Apply(s, steps[0]), steps[1..], id);
        assert false;
      }
      WedgeKept(s, steps[0], b, id);
      if steps[0] == Save(b) {
        HungForever(Apply(s, steps[0]), steps[1..], b);
      } else {
        WedgedUntilHung(Apply(s, steps[0]), steps[1..], b, id);
      }
    }
  }

  /** A subscription is created, and a synchronisation starts before its cache insertion. */
  lemma CreateThenSave(s: State, b: nat, id: Id) returns (steps: seq<Step>)
    requires Initial(s) && b < |s.brokers|
    ensures Runs(s, steps) && id in After(s, steps).db && |After(s, steps).brokers| == |s.brokers|
    ensures var br := After(s, steps).brokers[b];
            id in br.pending && br.phase == Refreshing(map[]) && br.cache == []
  {
    var now := if s.brokers[b].clock > 0 then s.brokers[b].clock else 1;
    steps := Prolong(s, [], CreateDoc(b, id, false, now));
    var s1 := After(s, steps);
    assert s1.brokers[b].cache == [] && s1.brokers[b].phase == Ready && id in s1.brokers[b].pending && id in s1.db;
    steps := Prolong(s, steps, Save(b));
  }

  /** ... and reads it back. */
  lemma RaceRun(s: State, b: nat, id: Id) returns (steps: seq<Step>)
    requires Initial(s) && b < |s.brokers|
    ensures Runs(s, steps) && id in After(s, steps).db && |After(s, steps).brokers| == |s.brokers|
    ensures var br := After(s, steps).brokers[b];
            id in br.pending && br.phase == FlushCount(map[], [id]) && Ids(br.cache) == [id]
  {
    steps := CreateThenSave(s, b, id);
    var s2 := After(s, steps);
    steps := Prolong(s, steps, Read(b, id));
    var s3 := After(s, steps);
    assert s3.brokers[b].cache == [Fresh(id, s2.db[id])] && s3.brokers[b].phase == Refreshing(map[]);
    steps := Prolong(s, steps, EndRead(b));
    assert Ids(s3.brokers[b].cache) == [id];
  }

  /** The wedge is reachable, from every initial state, for every broker and every id. */
  lemma WedgeIsReachable(s: State, b: nat, id: Id) returns (steps: seq<Step>)
    requires Initial(s) && b < |s.brokers|
    ensures Runs(s, steps) && Wedged(After(s, steps), b, id)
  {
    ClusterCounts.InitialIsBalanced(s);
    steps := RaceRun(s, b, id);
    steps := Prolong(s, steps, SendCount(b));
    steps := Prolong(s, steps, SendTime(b));
    steps := Prolong(s, steps, EndFlush(b));
    var r := After(s, steps);
    assert id in r.db && Ids(r.brokers[b].cache) == [id] && id in r.brokers[b].pending && r.brokers[b].phase.Ready?;
    ClusterCounts.CountsConserved(s, steps);
    RaceWedges(r, b, id);
    steps := Prolong(s, steps, CacheInsert(b, id));
  }

  /** So is the hang. */
  lemma HangIsReachable(s: State, b: nat, id: Id) returns (steps: seq<Step>)
    requires Initial(s) && b < |s.brokers|
    ensures Runs(s, steps) && b < |After(s, steps).brokers| && After(s, steps).brokers[b].phase.Hung?
  {
    steps := WedgeIsReachable(s, b, id);
    ClusterCounts.InitialIsBalanced(s);
    TwiceIsNotDistinct(After(s, steps).brokers[b].cache, id);
    steps := Prolong(s, steps, Save(b));
  }
}
