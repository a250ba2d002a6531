/** Any number of brokers, each with a subscription cache, sharing one database (the
    "multi-CB" configuration). Creating a subscription, notifying, unsubscribing and each
    piece of a cache synchronisation are separate steps, interleaved in any order.

    Inside one broker the cache semaphore is held for a whole synchronisation, so its cache
    is only touched by others in phase `Ready`; the database is not locked at all. */
module BrokerCluster {
  import opened Wrappers
  import opened SubscriptionStore

  /** Where a broker's synchronisation stands. */
  datatype Phase =
    | Ready                                                  // semaphore free
    | Refreshing(saved: map<Id, Saved>)                      // cache emptied, reading documents
    | FlushCount(saved: map<Id, Saved>, todo: seq<Id>)       // about to send the count of todo[0]
    | FlushTime(saved: map<Id, Saved>, todo: seq<Id>)        // count sent, about to send the time of todo[0]
    | Hung                                                   // in a save loop that does not end

  /** `pending` holds subscriptions already in the database whose insertion in the cache
      is still waiting for the semaphore. */
  datatype Broker = Broker(cache: seq<Item>, pending: map<Id, Item>, clock: int, phase: Phase)

  /** The last five fields only observe: notifications counted per subscription, the latest
      notification time, counts dropped by a refresh, subscriptions created with an initial
      notification, and subscriptions whose saved data a refresh dropped. */
  datatype State = State(
    db: map<Id, Doc>,
    brokers: seq<Broker>,
    used: set<Id>,
    counted: map<Id, int>,
    latest: map<Id, int>,
    lost: map<Id, int>,
    notifiedAtBirth: set<Id>,
    missed: set<Id>)

  datatype Step =
    | CreateDoc(broker: nat, id: Id, notified: bool, now: int)
    | CacheInsert(broker: nat, id: Id)
    | Notify(broker: nat, at: nat, now: int)
    | DeleteDoc(broker: nat, id: Id)
    | CacheRemove(broker: nat, at: nat)
    | Save(broker: nat)
    | Read(broker: nat, id: Id)
    | EndRead(broker: nat)
    | SendCount(broker: nat)
    | SendTime(broker: nat)
    | EndFlush(broker: nat)

  function Val(m: map<Id, int>, id: Id): int {
    if id in m then m[id] else 0
  }

  function Max(a: int, b: int): int {
    if a < b then b else a
  }

  /** The first cached item with the id, as `subCacheItemLookup` finds it. */
  predicate IsFirst(cache: seq<Item>, at: nat) {
    at < |cache| && forall j | 0 <= j < at :: cache[j].id != cache[at].id
  }

  predicate Enabled(s: State, step: Step) {
    step.broker < |s.brokers| &&
    var b := s.brokers[step.broker];
    match step
    case CreateDoc(_, id, _, now) => id !in s.used && now > 0 && now >= b.clock
    case CacheInsert(_, id) => b.phase.Ready? && id in b.pending
    case Notify(_, at, now) => b.phase.Ready? && IsFirst(b.cache, at) && now > 0 && now >= b.clock
    case DeleteDoc(_, id) => id in s.db
    case CacheRemove(_, at) => b.phase.Ready? && IsFirst(b.cache, at) && b.cache[at].id !in s.db
    case Save(_) => b.phase.Ready?
    case Read(_, id) => b.phase.Refreshing? && id in s.db && id !in Ids(b.cache)
    case EndRead(_) => b.phase.Refreshing?
    case SendCount(_) => b.phase.FlushCount? && b.phase.todo != []
    case SendTime(_) => b.phase.FlushTime? && b.phase.todo != []
    case EndFlush(_) => b.phase.FlushCount? && b.phase.todo == []
  }

  /** A subscription created with an initial notification gets count 1 both in its document
      and in its cached form. */
  function NewDoc(notified: bool, now: int): Doc {
    if notified then Doc(Some(1), Some(now)) else Doc(None, None)
  }

  function NewItem(id: Id, notified: bool, now: int): Item {
    if notified then Item(id, 1, now) else Item(id, 0, 0)
  }

  /** Saved entries that were read again keep their count, and their time if it is newer. */
  function Kept(saved: map<Id, Saved>, cache: seq<Item>): map<Id, Saved> {
    map id | id in saved && Find(cache, id).Some? :: Newer(saved[id], Find(cache, id).value.time)
  }

  function Dropped(saved: map<Id, Saved>, cache: seq<Item>): map<Id, Saved> {
    map id | id in saved && Find(cache, id).None? :: saved[id]
  }

  function AddLost(lost: map<Id, int>, dropped: map<Id, Saved>): map<Id, int> {
    map id | id in lost.Keys + dropped.Keys ::
      Val(lost, id) + (if id in dropped then dropped[id].count else 0)
  }

  function Flush(db: map<Id, Doc>, saved: map<Id, Saved>, id: Id, change: (Doc, Saved) -> Doc): map<Id, Doc> {
    if id in saved && id in db then db[id := change(db[id], saved[id])] else db
  }

  /** The broker and the database after a step. */
  function Touch(s: State, step: Step): (map<Id, Doc>, Broker)
    requires Enabled(s, step)
  {
    var b := s.brokers[step.broker];
    match step
    case CreateDoc(_, id, notified, now) =>
      (s.db[id := NewDoc(notified, now)],
       b.(pending := b.pending[id := NewItem(id, notified, now)], clock := now))
    case CacheInsert(_, id) =>
      (s.db, b.(cache := b.cache + [b.pending[id]], pending := b.pending - {id}))
    case Notify(_, at, now) =>
      (s.db, b.(cache := b.cache[at := b.cache[at].(count := b.cache[at].count + 1, time := now)], clock := now))
    case DeleteDoc(_, id) => (s.db - {id}, b)
    case CacheRemove(_, at) => (s.db, b.(cache := b.cache[..at] + b.cache[at + 1..]))
    case Save(_) =>
      (s.db, if Distinct(Ids(b.cache)) then b.(cache := [], phase := Refreshing(SavedOf(b.cache))) else b.(phase := Hung))
    case Read(_, id) => (s.db, b.(cache := b.cache + [Fresh(id, s.db[id])]))
    case EndRead(_) => (s.db, b.(phase := FlushCount(Kept(b.phase.saved, b.cache), Ids(b.cache))))
    case SendCount(_) =>
      (Flush(s.db, b.phase.saved, b.phase.todo[0], (d: Doc, v: Saved) => AddCount(d, v.count)),
       b.(phase := FlushTime(b.phase.saved, b.phase.todo)))
    case SendTime(_) =>
      (Flush(s.db, b.phase.saved, b.phase.todo[0], (d: Doc, v: Saved) => RaiseTime(d, v.time)),
       b.(phase := FlushCount(b.phase.saved, b.phase.todo[1..])))
    case EndFlush(_) => (s.db, b.(phase := Ready))
  }

  function Apply(s: State, step: Step): State
    requires Enabled(s, step)
  {
    var b := s.brokers[step.broker];
    var (db, b') := Touch(s, step);
    var s1 := s.(db := db, brokers := s.brokers[step.broker := b']);
    match step
    case CreateDoc(_, id, notified, now) =>
      s1.(used := s.used + {id},
          counted := s.counted[id := if notified then 1 else 0],
          latest := s.latest[id := if notified then now else 0],
          notifiedAtBirth := if notified then s.notifiedAtBirth + {id} else s.notifiedAtBirth)
    case Notify(_, at, now) =>
      var id := b.cache[at].id;
      s1.(counted := s.counted[id := Val(s.counted, id) + 1],
          latest := s.latest[id := Max(Val(s.latest, id), now)])
    case EndRead(_) =>
      var dropped := Dropped(b.phase.saved, b.cache);
      s1.(lost := AddLost(s.lost, dropped), missed := s.missed + dropped.Keys)
    case _ => s1
  }

  ghost predicate Initial(s: State) {
    && s.db == map[] && s.used == {} && s.counted == map[] && s.latest == map[] && s.lost == map[]
    && s.notifiedAtBirth == {} && s.missed == {}
    && forall b | 0 <= b < |s.brokers| ::
         s.brokers[b].cache == [] && s.brokers[b].pending == map[] && s.brokers[b].phase == Ready
  }

  ghost predicate Runs(s: State, steps: seq<Step>)
    decreases |steps|
  {
    steps == [] || (Enabled(s, steps[0]) && Runs(Apply(s, steps[0]), steps[1..]))
  }

  ghost function After(s: State, steps: seq<Step>): State
    requires Runs(s, steps)
    decreases |steps|
  {
    if steps == [] then s else After(Apply(s, steps[0]), steps[1..])
  }

  /** A run can be prolonged by any enabled step. */
  lemma Prolong(s: State, steps: seq<Step>, step: Step) returns (more: seq<Step>)
    requires Runs(s, steps) && Enabled(After(s, steps), step)
    ensures Runs(s, more) && After(s, more) == Apply(After(s, steps), step)
    decreases |steps|
  {
    if steps == [] {
      more := [step];
      assert more[1..] == [];
    } else {
      var rest := Prolong(Apply(s, steps[0]), steps[1..], step);
      more := [steps[0]] + rest;
      assert more[1..] == rest;
    }
  }

  // ---------------------------------------------------------------------------
  // Counts and times that a broker holds and has not yet sent to the database

  function CacheCount(cache: seq<Item>, id: Id): int {
    if cache == [] then 0 else
    (if cache[0].id == id then cache[0].count else 0) + CacheCount(cache[1..], id)
  }

  function PendingCount(pending: map<Id, Item>, id: Id): int {
    if id in pending then pending[id].count else 0
  }

  function UnsentCount(phase: Phase, id: Id): int {
    match phase
    case Ready => 0
    case Hung => 0
    case Refreshing(saved) => if id in saved then saved[id].count else 0
    case FlushCount(saved, todo) => if id in saved && id in todo then saved[id].count else 0
    case FlushTime(saved, todo) => if id in saved && todo != [] && id in todo[1..] then saved[id].count else 0
  }

  function Held(b: Broker, id: Id): int {
    CacheCount(b.cache, id) + PendingCount(b.pending, id) + UnsentCount(b.phase, id)
  }

  function TotalHeld(brokers: seq<Broker>, id: Id): int {
    if brokers == [] then 0 else Held(brokers[0], id) + TotalHeld(brokers[1..], id)
  }

  function UnsentTime(phase: Phase, id: Id): Option<int> {
    match phase
    case Ready => None
    case Hung => None
    case Refreshing(saved) => if id in saved then Some(saved[id].time) else None
    case FlushCount(saved, todo) => if id in saved && id in todo then Some(saved[id].time) else None
    case FlushTime(saved, todo) => if id in saved && id in todo then Some(saved[id].time) else None
  }

  ghost predicate HoldsTime(b: Broker, id: Id, time: int) {
    || (exists i | 0 <= i < |b.cache| :: b.cache[i].id == id && b.cache[i].time == time)
    || (id in b.pending && b.pending[id].time == time)
    || UnsentTime(b.phase, id) == Some(time)
  }

  // ---------------------------------------------------------------------------
  // Sums

  lemma {:induction false} TotalHeldUpdate(brokers: seq<Broker>, b: nat, br: Broker, id: Id)
    requires b < |brokers|
    ensures TotalHeld(brokers[b := br], id) == TotalHeld(brokers, id) - Held(brokers[b], id) + Held(br, id)
  {
    if b == 0 {
      assert brokers[b := br][1..] == brokers[1..];
    } else {
      assert brokers[b := br][1..] == brokers[1..][b - 1 := br];
      TotalHeldUpdate(brokers[1..], b - 1, br, id);
    }
  }

  lemma {:induction false} TotalHeldZero(brokers: seq<Broker>, id: Id)
    requires forall b | 0 <= b < |brokers| :: Held(brokers[b], id) == 0
    ensures TotalHeld(brokers, id) == 0
  {
    if brokers != [] {
      assert Held(brokers[0], id) == 0;
      TotalHeldZero(brokers[1..], id);
    }
  }

  lemma {:induction false} CacheCountConcat(xs: seq<Item>, ys: seq<Item>, id: Id)
    ensures CacheCount(xs + ys, id) == CacheCount(xs, id) + CacheCount(ys, id)
  {
    if xs == [] {
      assert xs + ys == ys;
    } else {
      assert (xs + ys)[1..] == xs[1..] + ys;
      CacheCountConcat(xs[1..], ys, id);
    }
  }

  lemma CacheCountSplit(cache: seq<Item>, at: nat, id: Id)
    requires at < |cache|
    ensures CacheCount(cache, id) ==
            CacheCount(cache[..at], id) + (if cache[at].id == id then cache[at].count else 0)
            + CacheCount(cache[at + 1..], id)
  {
    assert cache == cache[..at] + cache[at..];
    CacheCountConcat(cache[..at], cache[at..], id);
    assert cache[at..][1..] == cache[at + 1..];
  }

  lemma CacheCountUpdate(cache: seq<Item>, at: nat, item: Item, id: Id)
    requires at < |cache|
    ensures CacheCount(cache[at := item], id) ==
            CacheCount(cache, id) - (if cache[at].id == id then cache[at].count else 0)
            + (if item.id == id then item.count else 0)
  {
    CacheCountSplit(cache, at, id);
    CacheCountSplit(cache[at := item], at, id);
    assert cache[at := item][..at] == cache[..at];
    assert cache[at := item][at + 1..] == cache[at + 1..];
  }

  lemma {:induction false} CacheCountAbsent(cache: seq<Item>, id: Id)
    requires forall i | 0 <= i < |cache| :: cache[i].id != id
    ensures CacheCount(cache, id) == 0
  {
    if cache != [] {
      CacheCountAbsent(cache[1..], id);
    }
  }

  lemma TailDistinct(cache: seq<Item>)
    requires Distinct(Ids(cache)) && cache != []
    ensures Distinct(Ids(cache[1..]))
    ensures forall j | 0 <= j < |cache[1..]| :: cache[1..][j].id != cache[0].id
  {
    var ids := Ids(cache);
    assert forall j | 0 <= j < |cache[1..]| :: Ids(cache[1..])[j] == ids[j + 1];
    assert forall j | 0 <= j < |ids| :: ids[j] == cache[j].id;
  }

  lemma {:induction false} CacheCountAt(cache: seq<Item>, at: nat)
    requires Distinct(Ids(cache)) && at < |cache|
    ensures CacheCount(cache, cache[at].id) == cache[at].count
  {
    TailDistinct(cache);
    if at == 0 {
      CacheCountAbsent(cache[1..], cache[0].id);
    } else {
      CacheCountAt(cache[1..], at - 1);
      assert cache[1..][at - 1] == cache[at];
    }
  }

  /** With distinct ids, saving a cache keeps each subscription's whole count. */
  lemma SavedCount(cache: seq<Item>, id: Id)
    requires Distinct(Ids(cache))
    ensures (if id in SavedOf(cache) then SavedOf(cache)[id].count else 0) == CacheCount(cache, id)
  {
    SavedKeys(cache);
    if at: nat :| at < |cache| && cache[at].id == id {
      SavedAt(cache, at);
      CacheCountAt(cache, at);
    } else {
      CacheCountAbsent(cache, id);
    }
  }

  // ---------------------------------------------------------------------------
  // Bookkeeping invariant

  ghost predicate BrokerInv(b: Broker, used: set<Id>) {
    && (forall i | 0 <= i < |b.cache| :: b.cache[i].id in used)
    && (forall id | id in b.pending :: id in used && b.pending[id].id == id)
    && match b.phase
       case Ready => true
       case Hung => true
       case Refreshing(saved) => saved.Keys <= used && Distinct(Ids(b.cache))
       case FlushCount(saved, todo) => saved.Keys <= used && Distinct(todo)
       case FlushTime(saved, todo) => saved.Keys <= used && Distinct(todo) && todo != []
  }

  ghost predicate Inv(s: State) {
    && s.db.Keys <= s.used && s.counted.Keys <= s.used && s.latest.Keys <= s.used
    && s.lost.Keys <= s.used && s.notifiedAtBirth <= s.used && s.missed <= s.used
    && forall b | 0 <= b < |s.brokers| :: BrokerInv(s.brokers[b], s.used)
  }

  lemma IdsAppend(items: seq<Item>, item: Item)
    ensures Ids(items + [item]) == Ids(items) + [item.id]
  {
  }

  lemma TouchedBrokerInv(s: State, step: Step)
    requires Inv(s) && Enabled(s, step)
    ensures BrokerInv(Touch(s, step).1, Apply(s, step).used)
  {
    var b := s.brokers[step.broker];
    assert BrokerInv(b, s.used);
    match step
    case Save(_) => SavedKeys(b.cache);
    case Read(_, id) => IdsAppend(b.cache, Fresh(id, s.db[id]));
    case _ =>
  }

  lemma InvPreserved(s: State, step: Step)
    requires Inv(s) && Enabled(s, step)
    ensures Inv(Apply(s, step))
  {
    TouchedBrokerInv(s, step);
    var s' := Apply(s, step);
    forall b | 0 <= b < |s'.brokers|
      ensures BrokerInv(s'.brokers[b], s'.used)
    {
      assert BrokerInv(s.brokers[b], s.used);
    }
    assert BrokerInv(s.brokers[step.broker], s.used);
  }

  /** Ids are never reused, so a deleted document stays deleted. */
  lemma {:induction false} DeletedStaysDeleted(s: State, steps: seq<Step>, id: Id)
    requires Runs(s, steps) && Inv(s) && id !in s.db && id in s.used
    ensures id !in After(s, steps).db
    decreases |steps|
  {
    if steps != [] {
      InvPreserved(s, steps[0]);
      DeletedStaysDeleted(Apply(s, steps[0]), steps[1..], id);
    }
  }

  // ---------------------------------------------------------------------------
  // The observing fields say what the steps of the run say

  /** The step notifies the subscription, on its creation or later. */
  predicate Notifies(s: State, step: Step, id: Id)
    requires Enabled(s, step)
  {
    || (step.CreateDoc? && step.id == id && step.notified)
    || (step.Notify? && s.brokers[step.broker].cache[step.at].id == id)
  }

  ghost function NotificationsOf(s: State, steps: seq<Step>, id: Id): nat
    requires Runs(s, steps)
    decreases |steps|
  {
    if steps == [] then 0 else
    (if Notifies(s, steps[0], id) then 1 else 0) + NotificationsOf(Apply(s, steps[0]), steps[1..], id)
  }

  /** The latest time of a notification, at least `t`. */
  ghost function LatestOf(t: int, s: State, steps: seq<Step>, id: Id): int
    requires Runs(s, steps)
    decreases |steps|
  {
    if steps == [] then t else
    LatestOf(if Notifies(s, steps[0], id) then Max(t, steps[0].now) else t, Apply(s, steps[0]), steps[1..], id)
  }

  ghost predicate BornNotified(steps: seq<Step>, id: Id) {
    exists i | 0 <= i < |steps| :: steps[i].CreateDoc? && steps[i].id == id && steps[i].notified
  }

  lemma ObserveStep(s: State, step: Step, id: Id)
    requires Inv(s) && Enabled(s, step)
    ensures var s' := Apply(s, step);
            && Val(s'.counted, id) == Val(s.counted, id) + (if Notifies(s, step, id) then 1 else 0)
            && (0 <= Val(s.latest, id) ==>
                  Val(s'.latest, id) == if Notifies(s, step, id) then Max(Val(s.latest, id), step.now) else Val(s.latest, id))
            && (id in s'.notifiedAtBirth <==> id in s.notifiedAtBirth || (step.CreateDoc? && step.id == id && step.notified))
  {
  }

  lemma {:induction false} ObserveRun(s: State, steps: seq<Step>, id: Id)
    requires Inv(s) && Runs(s, steps) && 0 <= Val(s.latest, id)
    ensures var r := After(s, steps);
            && Val(r.counted, id) == Val(s.counted, id) + NotificationsOf(s, steps, id)
            && Val(r.latest, id) == LatestOf(Val(s.latest, id), s, steps, id)
            && (id in r.notifiedAtBirth <==> id in s.notifiedAtBirth || BornNotified(steps, id))
    decreases |steps|
  {
    if steps != [] {
      var s' := Apply(s, steps[0]);
      ObserveStep(s, steps[0], id);
      InvPreserved(s, steps[0]);
      ObserveRun(s', steps[1..], id);
      assert BornNotified(steps, id) <==>
             (steps[0].CreateDoc? && steps[0].id == id && steps[0].notified) || BornNotified(steps[1..], id) by {
        assert forall i | 0 < i < |steps| :: steps[i] == steps[1..][i - 1];
        assert forall i | 0 <= i < |steps[1..]| :: steps[1..][i] == steps[i + 1];
      }
    }
  }
}
