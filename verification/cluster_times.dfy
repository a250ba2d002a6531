/** Notification times under every interleaving of any number of brokers, whose clocks need
    not agree but never run backwards. */
module ClusterTimes {
  import opened Wrappers
  import opened SubscriptionStore
  import opened BrokerCluster
  import ClusterCounts

  /** The latest time is zero (never notified), in the database, or held by some broker. */
  ghost predicate LatestIsSomewhere(s: State, id: Id)
    requires id in s.db
  {
    var latest := Val(s.latest, id);
    || latest == 0
    || TimeOf(s.db[id]) == latest
    || exists b :: 0 <= b < |s.brokers| && HoldsTime(s.brokers[b], id, latest)
  }

  /** A broker only knows times it has seen pass itself or read from the database. */
  ghost predicate TimesBelow(b: Broker, id: Id, dbTime: int, latest: int) {
    forall t: int | HoldsTime(b, id, t) :: -1 <= t <= latest && (t <= b.clock || t <= dbTime || t <= 0)
  }

  ghost predicate TimeInv(s: State, id: Id)
    requires id in s.db
  {
    var latest := Val(s.latest, id);
    && 0 <= latest && -1 <= TimeOf(s.db[id]) <= latest
    && (forall b | 0 <= b < |s.brokers| :: TimesBelow(s.brokers[b], id, TimeOf(s.db[id]), latest))
    && (id !in s.missed ==> LatestIsSomewhere(s, id))
  }

  /** Between two versions of a broker, no time appears and the latest does not disappear,
      unless the database has it. */
  ghost predicate QuietChange(b: Broker, b': Broker, id: Id, dbTime': int, latest: int, missed': bool) {
    && b.clock <= b'.clock
    && (forall t: int | HoldsTime(b', id, t) :: HoldsTime(b, id, t) || t == 0 || t == dbTime')
    && (missed' || latest == 0 || (HoldsTime(b, id, latest) ==> HoldsTime(b', id, latest) || dbTime' == latest))
  }

  lemma QuietKeepsTimeInv(s: State, step: Step, id: Id)
    requires Enabled(s, step) && id in s.db && id in Apply(s, step).db && TimeInv(s, id)
    requires Apply(s, step).missed >= s.missed && Val(Apply(s, step).latest, id) == Val(s.latest, id)
    requires TimeOf(s.db[id]) <= TimeOf(Apply(s, step).db[id]) <= Val(s.latest, id)
    requires QuietChange(s.brokers[step.broker], Touch(s, step).1, id,
                         TimeOf(Apply(s, step).db[id]), Val(s.latest, id), id in Apply(s, step).missed)
    ensures TimeInv(Apply(s, step), id)
  {
    var s', latest := Apply(s, step), Val(s.latest, id);
    var dbTime, dbTime' := TimeOf(s.db[id]), TimeOf(s'.db[id]);
    var b := step.broker;
    forall k | 0 <= k < |s'.brokers|
      ensures TimesBelow(s'.brokers[k], id, dbTime', latest)
    {
      assert TimesBelow(s.brokers[k], id, dbTime, latest);
      if k != b {
        assert s'.brokers[k] == s.brokers[k];
      }
    }
    if id !in s'.missed && latest != 0 && dbTime' != latest {
      assert dbTime != latest;
      var k :| 0 <= k < |s.brokers| && HoldsTime(s.brokers[k], id, latest);
      assert HoldsTime(s'.brokers[k], id, latest);
    }
  }

  lemma CreateEstablishesTimes(s: State, step: Step)
    requires Inv(s) && Enabled(s, step) && step.CreateDoc?
    ensures TimeInv(Apply(s, step), step.id)
  {
    var s' := Apply(s, step);
    forall k | 0 <= k < |s'.brokers|
      ensures TimesBelow(s'.brokers[k], step.id, TimeOf(s'.db[step.id]), Val(s'.latest, step.id))
    {
      assert BrokerInv(s.brokers[k], s.used);
    }
  }

  lemma NotifyKeepsTimes(s: State, step: Step, id: Id)
    requires Enabled(s, step) && step.Notify? && id in s.db && TimeInv(s, id)
    requires s.brokers[step.broker].cache[step.at].id == id
    ensures TimeInv(Apply(s, step), id)
  {
    var s', k, at := Apply(s, step), step.broker, step.at;
    var b, b' := s.brokers[k], s'.brokers[k];
    var latest, latest', dbTime := Val(s.latest, id), Val(s'.latest, id), TimeOf(s.db[id]);
    assert TimesBelow(b, id, dbTime, latest);
    assert b'.cache[at].id == id && b'.cache[at].time == step.now;
    assert HoldsTime(b', id, step.now);
    forall t: int | HoldsTime(b', id, t)
      ensures -1 <= t <= latest' && (t <= b'.clock || t <= dbTime || t <= 0)
    {
      if t != step.now {
        HoldsAfterUpdate(b, b', at, id, t);
      }
    }
    forall j | 0 <= j < |s'.brokers|
      ensures TimesBelow(s'.brokers[j], id, dbTime, latest')
    {
      assert TimesBelow(s.brokers[j], id, dbTime, latest);
    }
    if id !in s'.missed && latest' != step.now && dbTime != latest {
      var j :| 0 <= j < |s.brokers| && HoldsTime(s.brokers[j], id, latest);
      assert j != k;   // this broker's clock has passed every time it holds, save those in the database
      assert HoldsTime(s'.brokers[j], id, latest);
    }
  }

  /** Two brokers that differ in one cached item and their clock hold the same other times. */
  lemma HoldsAfterUpdate(b: Broker, b': Broker, at: nat, id: Id, t: int)
    requires at < |b.cache| == |b'.cache| && b.pending == b'.pending && b.phase == b'.phase
    requires forall i | 0 <= i < |b.cache| && i != at :: b'.cache[i] == b.cache[i]
    requires HoldsTime(b', id, t) && !(b'.cache[at].id == id && b'.cache[at].time == t)
    ensures HoldsTime(b, id, t)
  {
    if i :| 0 <= i < |b'.cache| && b'.cache[i].id == id && b'.cache[i].time == t {
      assert b.cache[i].id == id && b.cache[i].time == t;
    }
  }

  lemma AppendIsQuiet(b: Broker, b': Broker, item: Item, id: Id, dbTime: int, latest: int)
    requires b'.cache == b.cache + [item] && b'.phase == b.phase && b'.clock == b.clock
    requires || (item.id in b.pending && b.pending[item.id] == item && b'.pending == b.pending - {item.id})
             || (b'.pending == b.pending && (item.id == id ==> item.time == dbTime))
    ensures QuietChange(b, b', id, dbTime, latest, false)
  {
    assert b'.cache[|b.cache|] == item;
    forall t: int | HoldsTime(b', id, t)
      ensures HoldsTime(b, id, t) || t == dbTime
    {
      if i :| 0 <= i < |b'.cache| && b'.cache[i].id == id && b'.cache[i].time == t {
        if i < |b.cache| {
          assert b.cache[i].id == id && b.cache[i].time == t;
        }
      }
    }
    if HoldsTime(b, id, latest) {
      if i :| 0 <= i < |b.cache| && b.cache[i].id == id && b.cache[i].time == latest {
        assert b'.cache[i].id == id && b'.cache[i].time == latest;
      }
    }
  }

  lemma RemoveIsQuiet(b: Broker, b': Broker, at: nat, id: Id, dbTime: int, latest: int)
    requires at < |b.cache| && b.cache[at].id != id && b' == b.(cache := b.cache[..at] + b.cache[at + 1..])
    ensures QuietChange(b, b', id, dbTime, latest, false)
  {
    forall t: int | HoldsTime(b', id, t)
      ensures HoldsTime(b, id, t)
    {
      if i :| 0 <= i < |b'.cache| && b'.cache[i].id == id && b'.cache[i].time == t {
        var j := if i < at then i else i + 1;
        assert b.cache[j] == b'.cache[i];
      }
    }
    if HoldsTime(b, id, latest) {
      if i :| 0 <= i < |b.cache| && b.cache[i].id == id && b.cache[i].time == latest {
        var j := if i < at then i else i - 1;
        assert b'.cache[j] == b.cache[i];
      }
    }
  }

  lemma SaveIsQuiet(b: Broker, id: Id, dbTime: int, latest: int)
    requires b.phase.Ready? && Distinct(Ids(b.cache))
    ensures QuietChange(b, b.(cache := [], phase := Refreshing(SavedOf(b.cache))), id, dbTime, latest, false)
  {
    SavedKeys(b.cache);
    if i :| 0 <= i < |b.cache| && b.cache[i].id == id {
      SavedAt(b.cache, i);
      forall j | 0 <= j < |b.cache| && b.cache[j].id == id
        ensures j == i
      {
        assert Ids(b.cache)[i] == Ids(b.cache)[j];
      }
    }
  }

  lemma EndReadIsQuiet(b: Broker, id: Id, dbTime: int, latest: int)
    requires b.phase.Refreshing? && TimesBelow(b, id, dbTime, latest)
    ensures QuietChange(b, b.(phase := FlushCount(Kept(b.phase.saved, b.cache), Ids(b.cache))), id, dbTime, latest,
                        id in Dropped(b.phase.saved, b.cache))
  {
    var b' := b.(phase := FlushCount(Kept(b.phase.saved, b.cache), Ids(b.cache)));
    var r := Find(b.cache, id);
    if r.Some? {
      var i :| 0 <= i < |b.cache| && b.cache[i] == r.value;
      assert Ids(b.cache)[i] == id;
      assert HoldsTime(b, id, r.value.time) && HoldsTime(b', id, r.value.time);
    }
  }

  lemma TodoSubset(todo: seq<Id>, id: Id)
    requires todo != []
    ensures id in todo <==> id == todo[0] || id in todo[1..]
  {
    assert todo == [todo[0]] + todo[1..];
  }

  lemma SendTimeIsQuiet(s: State, step: Step, id: Id)
    requires Enabled(s, step) && step.SendTime? && id in s.db && TimeInv(s, id)
    ensures TimeOf(s.db[id]) <= TimeOf(Touch(s, step).0[id]) <= Val(s.latest, id)
    ensures QuietChange(s.brokers[step.broker], Touch(s, step).1, id, TimeOf(Touch(s, step).0[id]),
                        Val(s.latest, id), false)
  {
    var b, latest := s.brokers[step.broker], Val(s.latest, id);
    assert TimesBelow(b, id, TimeOf(s.db[id]), latest);
    TodoSubset(b.phase.todo, id);
    if id == b.phase.todo[0] && id in b.phase.saved {
      assert HoldsTime(b, id, b.phase.saved[id].time);
    }
  }

  lemma NotifyIsQuiet(s: State, step: Step, id: Id)
    requires Inv(s) && Enabled(s, step) && id in s.db && TimeInv(s, id)
    requires step.Notify? && s.brokers[step.broker].cache[step.at].id != id
    ensures QuietChange(s.brokers[step.broker], Touch(s, step).1, id, TimeOf(s.db[id]), Val(s.latest, id), false)
  {
    var b, b', latest := s.brokers[step.broker], Touch(s, step).1, Val(s.latest, id);
    assert TimesBelow(b, id, TimeOf(s.db[id]), latest);
    forall t: int | HoldsTime(b', id, t) ensures HoldsTime(b, id, t) { HoldsAfterUpdate(b, b', step.at, id, t); }
    if HoldsTime(b, id, latest) { HoldsAfterUpdate(b', b, step.at, id, latest); }
  }

  lemma SyncIsQuiet(s: State, step: Step, id: Id)
    requires Inv(s) && Enabled(s, step) && id in s.db && TimeInv(s, id) && (step.Save? || step.EndRead?)
    ensures QuietChange(s.brokers[step.broker], Touch(s, step).1, id, TimeOf(s.db[id]), Val(s.latest, id),
                        id in Apply(s, step).missed)
  {
    var b, latest := s.brokers[step.broker], Val(s.latest, id);
    assert TimesBelow(b, id, TimeOf(s.db[id]), latest);
    if step.EndRead? {
      EndReadIsQuiet(b, id, TimeOf(s.db[id]), latest);
    } else if Distinct(Ids(b.cache)) {
      SaveIsQuiet(b, id, TimeOf(s.db[id]), latest);
    }
  }

  lemma TouchIsQuiet(s: State, step: Step, id: Id)
    requires Inv(s) && Enabled(s, step) && id in s.db && id in Touch(s, step).0 && TimeInv(s, id)
    requires !(step.Notify? && s.brokers[step.broker].cache[step.at].id == id)
    ensures TimeOf(s.db[id]) <= TimeOf(Touch(s, step).0[id]) <= Val(s.latest, id)
    ensures QuietChange(s.brokers[step.broker], Touch(s, step).1, id, TimeOf(Touch(s, step).0[id]),
                        Val(s.latest, id), id in Apply(s, step).missed)
  {
    var b, b', latest := s.brokers[step.broker], Touch(s, step).1, Val(s.latest, id);
    var dbTime := TimeOf(Touch(s, step).0[id]);
    assert BrokerInv(b, s.used) && TimesBelow(b, id, TimeOf(s.db[id]), latest);
    match step
    case CacheInsert(_, other) => AppendIsQuiet(b, b', b.pending[other], id, dbTime, latest);
    case Notify(_, at, _) => NotifyIsQuiet(s, step, id);
    case CacheRemove(_, at) => RemoveIsQuiet(b, b', at, id, dbTime, latest);
    case Save(_) => SyncIsQuiet(s, step, id);
    case Read(_, other) => AppendIsQuiet(b, b', Fresh(other, s.db[other]), id, dbTime, latest);
    case EndRead(_) => SyncIsQuiet(s, step, id);
    case SendTime(_) => SendTimeIsQuiet(s, step, id);
    case _ =>
  }

  lemma TimesKept(s: State, step: Step, id: Id)
    requires Inv(s) && Enabled(s, step) && id in Apply(s, step).db
    requires id in s.db ==> TimeInv(s, id)
    ensures TimeInv(Apply(s, step), id)
  {
    if id !in s.db {
      CreateEstablishesTimes(s, step);
    } else if step.Notify? && s.brokers[step.broker].cache[step.at].id == id {
      NotifyKeepsTimes(s, step, id);
    } else {
      TouchIsQuiet(s, step, id);
      QuietKeepsTimeInv(s, step, id);
    }
  }

  lemma {:induction false} TimesOverRuns(s: State, steps: seq<Step>)
    requires Inv(s) && (forall id | id in s.db :: TimeInv(s, id)) && Runs(s, steps)
    ensures forall id | id in After(s, steps).db :: TimeInv(After(s, steps), id)
    decreases |steps|
  {
    if steps != [] {
      var s' := Apply(s, steps[0]);
      InvPreserved(s, steps[0]);
      forall id | id in s'.db
        ensures TimeInv(s', id)
      {
        TimesKept(s, steps[0], id);
      }
      TimesOverRuns(s', steps[1..]);
    }
  }

  // ---------------------------------------------------------------------------
  // Main results

  /** If no refresh failed to read a saved subscription, the latest time of all the run's
      notifications is never forgotten: it is in the database or still held by some broker, and
      nothing newer is. */
  lemma LatestTimeIsNeverForgotten(s: State, steps: seq<Step>, id: Id)
    requires Initial(s) && Runs(s, steps) && ClusterCounts.CompleteRun(s, steps)
    requires id in After(s, steps).db
    ensures var r := After(s, steps);
            && 0 <= Val(r.latest, id) == LatestOf(0, s, steps, id)
            && LatestIsSomewhere(r, id)
            && TimeOf(r.db[id]) <= Val(r.latest, id)
            && forall b, t: int | 0 <= b < |r.brokers| && HoldsTime(r.brokers[b], id, t) :: t <= Val(r.latest, id)
  {
    ClusterCounts.InitialIsBalanced(s);
    ObserveRun(s, steps, id);
    TimesOverRuns(s, steps);
    ClusterCounts.CompleteRunsLoseNothing(s, steps);
    var r := After(s, steps);
    assert TimeInv(r, id);
    forall b, t: int | 0 <= b < |r.brokers| && HoldsTime(r.brokers[b], id, t)
      ensures t <= Val(r.latest, id)
    {
      assert TimesBelow(r.brokers[b], id, TimeOf(r.db[id]), Val(r.latest, id));
    }
  }

  /** So once no broker holds a time newer than the database's, the database has the latest. */
  lemma SettledTimeIsLatest(s: State, steps: seq<Step>, id: Id)
    requires Initial(s) && Runs(s, steps) && ClusterCounts.CompleteRun(s, steps)
    requires id in After(s, steps).db && LatestOf(0, s, steps, id) != 0
    requires var r := After(s, steps);
             forall b, t: int | 0 <= b < |r.brokers| && HoldsTime(r.brokers[b], id, t) :: t <= TimeOf(r.db[id])
    ensures After(s, steps).db[id].lastNotification == Some(LatestOf(0, s, steps, id))
  {
    LatestTimeIsNeverForgotten(s, steps, id);
  }

  /** The time in the database never decreases while the document exists, on any run. */
  lemma {:induction false} DatabaseTimeIsMonotone(s: State, steps: seq<Step>, id: Id)
    requires Runs(s, steps) && Inv(s) && id in s.db && TimeInv(s, id) && id in After(s, steps).db
    ensures TimeOf(s.db[id]) <= TimeOf(After(s, steps).db[id])
    decreases |steps|
  {
    if steps != [] {
      var s' := Apply(s, steps[0]);
      InvPreserved(s, steps[0]);
      if id !in s'.db {
        DeletedStaysDeleted(s', steps[1..], id);
        assert false;
      }
      TimesKept(s, steps[0], id);
      if !(steps[0].Notify? && s.brokers[steps[0].broker].cache[steps[0].at].id == id) {
        TouchIsQuiet(s, steps[0], id);
      }
      DatabaseTimeIsMonotone(s', steps[1..], id);
    }
  }

  /** The same between any two moments of any run of the cluster. */
  lemma DatabaseTimeNeverDecreases(s: State, before: seq<Step>, steps: seq<Step>, id: Id)
    requires Initial(s) && Runs(s, before) && Runs(After(s, before), steps)
    requires id in After(s, before).db && id in After(After(s, before), steps).db
    ensures After(s, before).db[id].lastNotification.GetOr(-1) <=
            After(After(s, before), steps).db[id].lastNotification.GetOr(-1)
  {
    ClusterCounts.InitialIsBalanced(s);
    ClusterCounts.CountsConserved(s, before);
    TimesOverRuns(s, before);
    DatabaseTimeIsMonotone(After(s, before), steps, id);
  }
}
