/** Notification counts are conserved by every interleaving of any number of brokers. */
module ClusterCounts {
  import opened Wrappers
  import opened SubscriptionStore
  import opened BrokerCluster

  /** Database count + counts held in caches, in pending insertions and in unfinished
      synchronisations + counts dropped by refreshes = notifications counted, plus one for a
      subscription created with an initial notification, which the code counts twice. */
  ghost predicate Balanced(s: State, id: Id)
    requires id in s.db
  {
    CountOf(s.db[id]) + TotalHeld(s.brokers, id) + Val(s.lost, id)
    == Val(s.counted, id) + (if id in s.notifiedAtBirth then 1 else 0)
  }

  lemma UnmentionedHoldsNothing(b: Broker, used: set<Id>, id: Id)
    requires BrokerInv(b, used) && id !in used
    ensures Held(b, id) == 0
  {
    CacheCountAbsent(b.cache, id);
  }

  lemma CreateBalances(s: State, step: Step)
    requires Inv(s) && Enabled(s, step) && step.CreateDoc?
    ensures Balanced(Apply(s, step), step.id)
  {
    var b := s.brokers[step.broker];
    forall k | 0 <= k < |s.brokers|
      ensures Held(s.brokers[k], step.id) == 0
    {
      assert BrokerInv(s.brokers[k], s.used);
      UnmentionedHoldsNothing(s.brokers[k], s.used, step.id);
    }
    TotalHeldZero(s.brokers, step.id);
    TotalHeldUpdate(s.brokers, step.broker, Touch(s, step).1, step.id);
    assert Held(b, step.id) == 0 && step.id !in b.pending;
  }

  /** What the database gains, the touched broker gives up, except for new notifications
      and for what a refresh drops. */
  ghost predicate MovesCounts(s: State, step: Step, id: Id)
    requires Enabled(s, step) && id in s.db && id in Touch(s, step).0
  {
    var (db, b') := Touch(s, step);
    var s' := Apply(s, step);
    CountOf(db[id]) - CountOf(s.db[id]) + Held(b', id) - Held(s.brokers[step.broker], id)
    == Val(s'.counted, id) - Val(s.counted, id) - (Val(s'.lost, id) - Val(s.lost, id))
  }

  lemma ListMovesCounts(s: State, step: Step, id: Id)
    requires Inv(s) && Enabled(s, step) && id in s.db && id in Touch(s, step).0
    requires step.CacheInsert? || step.Notify? || step.CacheRemove? || step.Read?
    ensures MovesCounts(s, step, id)
  {
    var b := s.brokers[step.broker];
    match step
    case CacheInsert(_, other) =>
      CacheCountConcat(b.cache, [b.pending[other]], id);
    case Notify(_, at, now) =>
      CacheCountUpdate(b.cache, at, b.cache[at].(count := b.cache[at].count + 1, time := now), id);
    case CacheRemove(_, at) =>
      CacheCountSplit(b.cache, at, id);
      CacheCountConcat(b.cache[..at], b.cache[at + 1..], id);
    case Read(_, other) =>
      CacheCountConcat(b.cache, [Fresh(other, s.db[other])], id);
  }

  lemma FlushMovesCounts(s: State, step: Step, id: Id)
    requires Inv(s) && Enabled(s, step) && id in s.db && id in Touch(s, step).0
    requires step.SendCount? || step.SendTime?
    ensures MovesCounts(s, step, id)
  {
    var b := s.brokers[step.broker];
    assert BrokerInv(b, s.used);
    FlushTodo(b.phase.todo, id);
  }

  lemma TouchMovesCounts(s: State, step: Step, id: Id)
    requires Inv(s) && Enabled(s, step) && id in s.db && id in Touch(s, step).0
    ensures MovesCounts(s, step, id)
  {
    var b := s.brokers[step.broker];
    assert BrokerInv(b, s.used);
    if step.CacheInsert? || step.Notify? || step.CacheRemove? || step.Read? {
      ListMovesCounts(s, step, id);
    } else if step.SendCount? || step.SendTime? {
      FlushMovesCounts(s, step, id);
    } else if step.Save? && Distinct(Ids(b.cache)) {
      SavedCount(b.cache, id);
    } else if step.EndRead? {
      EndReadMovesCounts(s, step, id);
    }
  }

  lemma FlushTodo(todo: seq<Id>, id: Id)
    requires Distinct(todo) && todo != []
    ensures id in todo <==> id == todo[0] || id in todo[1..]
    ensures id == todo[0] ==> id !in todo[1..]
  {
    assert todo == [todo[0]] + todo[1..];
  }

  lemma EndReadMovesCounts(s: State, step: Step, id: Id)
    requires Inv(s) && Enabled(s, step) && step.EndRead?
    ensures var s' := Apply(s, step);
            Held(Touch(s, step).1, id) - Held(s.brokers[step.broker], id)
            == - (Val(s'.lost, id) - Val(s.lost, id))
  {
    var b := s.brokers[step.broker];
    var r := Find(b.cache, id);
    if r.Some? {
      var i :| 0 <= i < |b.cache| && b.cache[i] == r.value;
      assert Ids(b.cache)[i] == id;
    }
  }

  lemma BalanceKept(s: State, step: Step, id: Id)
    requires Inv(s) && Enabled(s, step) && id in Apply(s, step).db
    requires id in s.db ==> Balanced(s, id)
    ensures Balanced(Apply(s, step), id)
  {
    if id in s.db {
      TouchMovesCounts(s, step, id);
      TotalHeldUpdate(s.brokers, step.broker, Touch(s, step).1, id);
    } else {
      CreateBalances(s, step);
    }
  }

  /** Over every run of the cluster no count is lost or double counted beyond the two
      named causes. */
  lemma {:induction false} CountsConserved(s: State, steps: seq<Step>)
    requires Inv(s) && (forall id | id in s.db :: Balanced(s, id)) && Runs(s, steps)
    ensures Inv(After(s, steps))
    ensures forall id | id in After(s, steps).db :: Balanced(After(s, steps), id)
    decreases |steps|
  {
    if steps != [] {
      var s' := Apply(s, steps[0]);
      InvPreserved(s, steps[0]);
      forall id | id in s'.db
        ensures Balanced(s', id)
      {
        BalanceKept(s, steps[0], id);
      }
      CountsConserved(s', steps[1..]);
    }
  }

  lemma InitialIsBalanced(s: State)
    requires Initial(s)
    ensures Inv(s) && forall id | id in s.db :: Balanced(s, id)
  {
  }

  // ---------------------------------------------------------------------------
  // Runs whose refreshes read back everything that was saved and still exists

  ghost predicate ReadsEverything(s: State, step: Step)
    requires Enabled(s, step)
  {
    step.EndRead? ==>
      var b := s.brokers[step.broker];
      forall id | id in b.phase.saved && id in s.db :: Find(b.cache, id).Some?
  }

  ghost predicate CompleteRun(s: State, steps: seq<Step>)
    requires Runs(s, steps)
    decreases |steps|
  {
    steps == [] || (ReadsEverything(s, steps[0]) && CompleteRun(Apply(s, steps[0]), steps[1..]))
  }

  /** No document that still exists has lost anything. */
  ghost predicate NothingLost(s: State) {
    forall id | id in s.db :: Val(s.lost, id) == 0 && id !in s.missed
  }

  lemma NothingLostKept(s: State, step: Step)
    requires Inv(s) && NothingLost(s) && Enabled(s, step) && ReadsEverything(s, step)
    ensures NothingLost(Apply(s, step))
  {
    var s' := Apply(s, step);
    forall id | id in s'.db
      ensures Val(s'.lost, id) == 0 && id !in s'.missed
    {
      assert id in s.db || id !in s.used;
    }
  }

  lemma {:induction false} CompleteRunsLoseNothing(s: State, steps: seq<Step>)
    requires Inv(s) && NothingLost(s) && Runs(s, steps) && CompleteRun(s, steps)
    ensures NothingLost(After(s, steps))
    decreases |steps|
  {
    if steps != [] {
      InvPreserved(s, steps[0]);
      NothingLostKept(s, steps[0]);
      CompleteRunsLoseNothing(Apply(s, steps[0]), steps[1..]);
    }
  }

  /** The headline: if no refresh failed to read a saved subscription, then whenever nothing
      is held back in any broker, each document's count is exactly the number of notifications
      in the run, one more if and only if it was created with an initial notification. */
  lemma SettledCountsAreExact(s: State, steps: seq<Step>, id: Id)
    requires Initial(s) && Runs(s, steps) && CompleteRun(s, steps)
    requires id in After(s, steps).db && TotalHeld(After(s, steps).brokers, id) == 0
    ensures var r := After(s, steps);
            r.db[id].count.GetOr(0) == NotificationsOf(s, steps, id) + (if BornNotified(steps, id) then 1 else 0)
  {
    InitialIsBalanced(s);
    ObserveRun(s, steps, id);
    CountsConserved(s, steps);
    CompleteRunsLoseNothing(s, steps);
    assert Balanced(After(s, steps), id);
  }

  // ---------------------------------------------------------------------------
  // The initial notification is indeed counted twice

  /** A complete run prolonged by a step that reads everything is complete. */
  lemma ProlongComplete(s: State, steps: seq<Step>, step: Step) returns (more: seq<Step>)
    requires Runs(s, steps) && CompleteRun(s, steps)
    requires Enabled(After(s, steps), step) && ReadsEverything(After(s, steps), step)
    ensures Runs(s, more) && CompleteRun(s, more) && After(s, more) == Apply(After(s, steps), step)
    decreases |steps|
  {
    if steps == [] {
      more := [step];
      assert more[1..] == [];
    } else {
      var rest := ProlongComplete(Apply(s, steps[0]), steps[1..], step);
      more := [steps[0]] + rest;
      assert more[1..] == rest;
    }
  }

  /** Since `s` only broker `b` has moved. The database has one subscription, notified once, with
      this count; the broker has this cache and is in this phase. */
  ghost predicate OneSubscription(s: State, r: State, b: nat, id: Id, count: int, now: int, cache: seq<Item>, phase: Phase) {
    && b < |s.brokers| == |r.brokers|
    && (forall k | 0 <= k < |s.brokers| && k != b :: r.brokers[k] == s.brokers[k])
    && r.brokers[b].cache == cache && r.brokers[b].phase == phase && r.brokers[b].pending == map[]
    && r.db == map[id := Doc(Some(count), Some(now))] && r.counted == map[id := 1]
  }

  lemma CreateAndCache(s: State, b: nat, id: Id, now: int) returns (steps: seq<Step>)
    requires Initial(s) && b < |s.brokers| && now > 0 && now >= s.brokers[b].clock
    ensures Runs(s, steps) && CompleteRun(s, steps)
    ensures OneSubscription(s, After(s, steps), b, id, 1, now, [Item(id, 1, now)], Ready)
  {
    steps := ProlongComplete(s, [], CreateDoc(b, id, true, now));
    assert After(s, steps).brokers[b].pending == map[id := Item(id, 1, now)];
    steps := ProlongComplete(s, steps, CacheInsert(b, id));
  }

  lemma SavedOfOne(item: Item)
    ensures SavedOf([item]) == map[item.id := Saved(item.count, item.time)] && Distinct(Ids([item]))
  {
    assert [item][..0] == [];
  }

  lemma FindOne(item: Item)
    ensures forall id :: Find([item], id) == if id == item.id then Some(item) else None
  {
    assert [item][1..] == [];
  }

  lemma SaveOne(s: State, r: State, b: nat, id: Id, now: int)
    requires OneSubscription(s, r, b, id, 1, now, [Item(id, 1, now)], Ready)
    ensures Enabled(r, Save(b))
    ensures OneSubscription(s, Apply(r, Save(b)), b, id, 1, now, [], Refreshing(map[id := Saved(1, now)]))
  {
    SavedOfOne(Item(id, 1, now));
  }

  lemma ReadOne(s: State, r: State, b: nat, id: Id, now: int, saved: map<Id, Saved>)
    requires OneSubscription(s, r, b, id, 1, now, [], Refreshing(saved))
    ensures Enabled(r, Read(b, id))
    ensures OneSubscription(s, Apply(r, Read(b, id)), b, id, 1, now, [Item(id, 0, now)], Refreshing(saved))
  {
  }

  lemma EndReadOne(s: State, r: State, b: nat, id: Id, now: int)
    requires OneSubscription(s, r, b, id, 1, now, [Item(id, 0, now)], Refreshing(map[id := Saved(1, now)]))
    ensures Enabled(r, EndRead(b)) && ReadsEverything(r, EndRead(b))
    ensures OneSubscription(s, Apply(r, EndRead(b)), b, id, 1, now, [Item(id, 0, now)], FlushCount(map[id := Saved(1, 0)], [id]))
  {
    FindOne(Item(id, 0, now));
    assert Kept(map[id := Saved(1, now)], [Item(id, 0, now)]) == map[id := Saved(1, 0)];
    assert Ids([Item(id, 0, now)]) == [id];
  }

  lemma SendOne(s: State, r: State, b: nat, id: Id, now: int, saved: map<Id, Saved>)
    requires saved == map[id := Saved(1, 0)]
    requires OneSubscription(s, r, b, id, 1, now, [Item(id, 0, now)], FlushCount(saved, [id]))
    ensures Enabled(r, SendCount(b))
    ensures OneSubscription(s, Apply(r, SendCount(b)), b, id, 2, now, [Item(id, 0, now)], FlushTime(saved, [id]))
  {
    assert r.db[id := Doc(Some(2), Some(now))] == map[id := Doc(Some(2), Some(now))];
  }

  lemma SendTimeOne(s: State, r: State, b: nat, id: Id, now: int, saved: map<Id, Saved>)
    requires saved == map[id := Saved(1, 0)]
    requires OneSubscription(s, r, b, id, 2, now, [Item(id, 0, now)], FlushTime(saved, [id]))
    ensures Enabled(r, SendTime(b))
    ensures OneSubscription(s, Apply(r, SendTime(b)), b, id, 2, now, [Item(id, 0, now)], FlushCount(saved, []))
  {
    assert [id][1..] == [];
    assert r.db[id := r.db[id]] == r.db;
  }

  lemma OneHoldsNothing(s: State, r: State, b: nat, id: Id, now: int)
    requires Initial(s) && OneSubscription(s, r, b, id, 2, now, [Item(id, 0, now)], Ready)
    ensures TotalHeld(r.brokers, id) == 0
  {
    forall k | 0 <= k < |r.brokers|
      ensures Held(r.brokers[k], id) == 0
    {
      if k == b {
        assert CacheCount([Item(id, 0, now)], id) == 0 by { assert [Item(id, 0, now)][1..] == []; }
      } else {
        assert r.brokers[k] == s.brokers[k] && s.brokers[k].cache == [] && s.brokers[k].pending == map[];
      }
    }
    TotalHeldZero(r.brokers, id);
  }

  /** The synchronisation up to the flush. */
  lemma SaveAndRead(s: State, b: nat, id: Id, now: int, before: seq<Step>) returns (steps: seq<Step>)
    requires Runs(s, before) && CompleteRun(s, before)
    requires OneSubscription(s, After(s, before), b, id, 1, now, [Item(id, 1, now)], Ready)
    ensures Runs(s, steps) && CompleteRun(s, steps)
    ensures OneSubscription(s, After(s, steps), b, id, 1, now, [Item(id, 0, now)], FlushCount(map[id := Saved(1, 0)], [id]))
  {
    SaveOne(s, After(s, before), b, id, now);
    steps := ProlongComplete(s, before, Save(b));
    ReadOne(s, After(s, steps), b, id, now, map[id := Saved(1, now)]);
    steps := ProlongComplete(s, steps, Read(b, id));
    EndReadOne(s, After(s, steps), b, id, now);
    steps := ProlongComplete(s, steps, EndRead(b));
  }

  /** The flush. */
  lemma SendAll(s: State, b: nat, id: Id, now: int, before: seq<Step>, saved: map<Id, Saved>) returns (steps: seq<Step>)
    requires Runs(s, before) && CompleteRun(s, before) && saved == map[id := Saved(1, 0)]
    requires OneSubscription(s, After(s, before), b, id, 1, now, [Item(id, 0, now)], FlushCount(saved, [id]))
    ensures Runs(s, steps) && CompleteRun(s, steps)
    ensures OneSubscription(s, After(s, steps), b, id, 2, now, [Item(id, 0, now)], Ready)
  {
    SendOne(s, After(s, before), b, id, now, saved);
    steps := ProlongComplete(s, before, SendCount(b));
    SendTimeOne(s, After(s, steps), b, id, now, saved);
    steps := ProlongComplete(s, steps, SendTime(b));
    steps := ProlongComplete(s, steps, EndFlush(b));
  }

  /** From every initial state, for every broker and id: a subscription created with an initial
      notification, put in the cache and synchronised ends, with nothing held back anywhere, with
      a count of 2 for its one notification. */
  lemma InitialNotificationCountsTwice(s: State, b: nat, id: Id) returns (steps: seq<Step>)
    requires Initial(s) && b < |s.brokers|
    ensures Runs(s, steps) && CompleteRun(s, steps)
    ensures var r := After(s, steps);
            id in r.db && TotalHeld(r.brokers, id) == 0 && r.db[id].count == Some(2) && NotificationsOf(s, steps, id) == 1
  {
    var now := if s.brokers[b].clock > 0 then s.brokers[b].clock else 1;
    steps := CreateAndCache(s, b, id, now);
    steps := SaveAndRead(s, b, id, now, steps);
    steps := SendAll(s, b, id, now, steps, map[id := Saved(1, 0)]);
    OneHoldsNothing(s, After(s, steps), b, id, now);
    InitialIsBalanced(s);
    ObserveRun(s, steps, id);
  }
}
