/** What the subscription cache and the database exchange during a synchronisation. */
module SubscriptionStore {
  import opened Wrappers

  type Id = string

  /** The two counters of a subscription document. Both fields may be missing. */
  datatype Doc = Doc(count: Option<int>, lastNotification: Option<int>)

  /** The same two counters of a cached subscription. */
  datatype Item = Item(id: Id, count: int, time: int)

  /** What a synchronisation remembers of a cached subscription (`CachedSubSaved`). */
  datatype Saved = Saved(count: int, time: int)

  function CountOf(d: Doc): int {
    if d.count.Some? then d.count.value else 0
  }

  /** A document without a notification time is cached with time -1. */
  function TimeOf(d: Doc): int {
    if d.lastNotification.Some? then d.lastNotification.value else -1
  }

  /** The cached form of a document just read: the cached count starts at zero. */
  function Fresh(id: Id, d: Doc): Item {
    Item(id, 0, TimeOf(d))
  }

  /** `$inc` of the count, sent only for a non-zero amount. */
  function AddCount(d: Doc, amount: int): Doc {
    if amount == 0 then d else d.(count := Some(CountOf(d) + amount))
  }

  /** `$set` of the time, sent only for a non-zero time and applied only to a document
      whose time is missing or smaller. */
  function RaiseTime(d: Doc, time: int): Doc {
    if time != 0 && (d.lastNotification.None? || d.lastNotification.value < time)
    then d.(lastNotification := Some(time)) else d
  }

  /** A saved time that is not newer than what was just read is thrown away. */
  function Newer(saved: Saved, readTime: int): Saved {
    if saved.time <= readTime then saved.(time := 0) else saved
  }

  function Ids(items: seq<Item>): (ids: seq<Id>)
    ensures |ids| == |items|
    ensures forall i | 0 <= i < |items| :: ids[i] == items[i].id
  {
    seq(|items|, i requires 0 <= i < |items| => items[i].id)
  }

  function Find(items: seq<Item>, id: Id): (r: Option<Item>)
    ensures r.Some? ==> r.value in items && r.value.id == id
    ensures r.None? ==> id !in Ids(items)
  {
    if items == [] then None
    else if items[0].id == id then Some(items[0])
    else
      assert Ids(items) == [items[0].id] + Ids(items[1..]);
      Find(items[1..], id)
  }

  predicate Distinct<T(==)>(xs: seq<T>) {
    forall i, j | 0 <= i < j < |xs| :: xs[i] != xs[j]
  }

  /** Step 3 of a synchronisation: saved times that are not newer than the times just read
      are thrown away; what was not read again is left alone. */
  function Compared(saved: map<Id, Saved>, items: seq<Item>): map<Id, Saved> {
    map id | id in saved ::
      var r := Find(items, id);
      if r.Some? then Newer(saved[id], r.value.time) else saved[id]
  }

  /** Steps 4 and 5: both counters of one document. */
  function FlushedDoc(d: Doc, saved: Saved): Doc {
    RaiseTime(AddCount(d, saved.count), saved.time)
  }

  /** Saving the whole cache. */
  function SavedOf(items: seq<Item>): map<Id, Saved> {
    if items == [] then map[] else
    var last := items[|items| - 1];
    SavedOf(items[..|items| - 1])[last.id := Saved(last.count, last.time)]
  }

  lemma {:induction false} SavedKeys(items: seq<Item>)
    ensures SavedOf(items).Keys == set i | 0 <= i < |items| :: items[i].id
  {
    if items != [] {
      SavedKeys(items[..|items| - 1]);
      var n := |items| - 1;
      assert (set i | 0 <= i < |items| :: items[i].id)
          == (set i | 0 <= i < n :: items[..n][i].id) + {items[n].id};
    }
  }

  lemma {:induction false} SavedAt(items: seq<Item>, i: nat)
    requires Distinct(Ids(items)) && i < |items|
    ensures items[i].id in SavedOf(items)
    ensures SavedOf(items)[items[i].id] == Saved(items[i].count, items[i].time)
  {
    var n := |items| - 1;
    if i < n {
      assert forall j | 0 <= j < n :: Ids(items[..n])[j] == Ids(items)[j];
      SavedAt(items[..n], i);
      assert Ids(items)[i] != Ids(items)[n];
    }
  }

  // ---------------------------------------------------------------------------
  // The loop that saves the cache

  /** The loop's cursor and the map it fills. */
  datatype SaveState = SaveState(at: nat, saved: map<Id, Saved>)

  /** One pass through the loop body: on an id already saved it does not move on. */
  function SavePass(items: seq<Item>, st: SaveState): SaveState {
    if st.at >= |items| || items[st.at].id in st.saved then st
    else SaveState(st.at + 1, st.saved[items[st.at].id := Saved(items[st.at].count, items[st.at].time)])
  }

  function SavePasses(items: seq<Item>, n: nat): SaveState {
    if n == 0 then SaveState(0, map[]) else SavePass(items, SavePasses(items, n - 1))
  }

  lemma {:induction false} SaveAdvances(items: seq<Item>, n: nat)
    requires Distinct(Ids(items)) && n <= |items|
    ensures SavePasses(items, n) == SaveState(n, SavedOf(items[..n]))
  {
    if n == 0 {
      assert items[..0] == [];
    } else {
      SaveAdvances(items, n - 1);
      SavedKeys(items[..n - 1]);
      assert items[..n][..n - 1] == items[..n - 1];
      assert forall j | 0 <= j < n - 1 :: Ids(items)[j] != Ids(items)[n - 1];
    }
  }

  lemma {:induction false} SaveStops(items: seq<Item>, i: nat, j: nat, n: nat)
    requires i < j < |items| && items[i].id == items[j].id
    ensures var st := SavePasses(items, n);
            st.at <= j && forall k | 0 <= k < st.at :: items[k].id in st.saved
  {
    if n > 0 {
      SaveStops(items, i, j, n - 1);
    }
  }

  /** The loop finishes if and only if the cached ids are pairwise different, and then it has
      saved exactly the cache. */
  lemma SaveLoopEnds(items: seq<Item>)
    ensures (exists n: nat :: SavePasses(items, n).at == |items|) <==> Distinct(Ids(items))
    ensures Distinct(Ids(items)) ==> SavePasses(items, |items|) == SaveState(|items|, SavedOf(items))
  {
    if Distinct(Ids(items)) {
      SaveAdvances(items, |items|);
      assert items[..|items|] == items;
    } else {
      var i, j :| 0 <= i < j < |items| && Ids(items)[i] == Ids(items)[j];
      forall n: nat
        ensures SavePasses(items, n).at != |items|
      {
        SaveStops(items, i, j, n);
      }
    }
  }
}
