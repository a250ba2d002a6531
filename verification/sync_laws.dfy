/** What one synchronisation does to the counters, and that the cluster model's pieces of a
    synchronisation, run without interruption, do exactly that. */
module SyncLaws {
  import opened Wrappers
  import opened SubscriptionStore
  import opened SubCache
  import BrokerCluster
  import ClusterDuplicates

  /** For a subscription cached before and read again: the database gains exactly the cached
      count and the new cached count is zero; the database time never decreases, and becomes
      the maximum of both times except when the cached time is zero and the database has
      none. */
  lemma SyncMovesCounters(docs: map<Id, Record>, before: seq<Item>, order: seq<Id>, i: nat)
    requires Distinct(Ids(before)) && i < |before|
    requires Distinct(order) && (forall id | id in order :: id in docs)
    requires before[i].id in order && Cacheable(docs[before[i].id])
    ensures var after := ReadItems(docs, order);
            var id := before[i].id;
            var old', new' := docs[id].counters, Synced(docs, SavedOf(before), after)[id].counters;
            var was, now := old'.lastNotification.GetOr(-1), new'.lastNotification.GetOr(-1);
            && new'.count.GetOr(0) == old'.count.GetOr(0) + before[i].count
            && Find(after, id) == Some(Item(id, 0, was))
            && was <= now
            && (now == BrokerCluster.Max(was, before[i].time) <==> !(before[i].time == 0 && was < 0))
  {
    var after, id := ReadItems(docs, order), before[i].id;
    SavedAt(before, i);
    ReadItemsIds(docs, order);
    var k :| 0 <= k < |after| && after[k] == Item(id, 0, docs[id].counters.lastNotification.GetOr(-1));
    assert Ids(after)[k] == id;
  }

  /** Documents that were not cached before, or not read again, keep their counters. */
  lemma SyncLeavesOthers(docs: map<Id, Record>, before: seq<Item>, order: seq<Id>, id: Id)
    requires Distinct(order) && (forall o | o in order :: o in docs) && id in docs
    requires (forall i | 0 <= i < |before| :: before[i].id != id) || id !in order || !Cacheable(docs[id])
    ensures Synced(docs, SavedOf(before), ReadItems(docs, order))[id] == docs[id]
  {
    SavedKeys(before);
    ReadItemsIds(docs, order);
  }

  // ---------------------------------------------------------------------------
  // The cluster's steps compose to the same thing

  type State = BrokerCluster.State
  type Step = BrokerCluster.Step

  /** The counters after flushing the listed ids. */
  function FlushIds(db: map<Id, Doc>, saved: map<Id, Saved>, ids: seq<Id>): map<Id, Doc> {
    map id | id in db :: if id in saved && id in ids then FlushedDoc(db[id], saved[id]) else db[id]
  }

  lemma FlushIdsStep(db: map<Id, Doc>, saved: map<Id, Saved>, ids: seq<Id>)
    requires ids != [] && Distinct(ids)
    ensures var id := ids[0];
            var db1 := if id in saved && id in db then db[id := FlushedDoc(db[id], saved[id])] else db;
            FlushIds(db, saved, ids) == FlushIds(db1, saved, ids[1..])
  {
    assert ids == [ids[0]] + ids[1..];
    assert ids[0] !in ids[1..];
  }

  lemma FlushOne(s: State, steps: seq<Step>, b: nat, saved: map<Id, Saved>, todo: seq<Id>) returns (more: seq<Step>)
    requires BrokerCluster.Runs(s, steps) && todo != []
    requires var r := BrokerCluster.After(s, steps);
             b < |r.brokers| && r.brokers[b].phase == BrokerCluster.FlushCount(saved, todo)
    ensures BrokerCluster.Runs(s, more)
    ensures var (r, r') := (BrokerCluster.After(s, steps), BrokerCluster.After(s, more));
            && r'.db == (if todo[0] in saved && todo[0] in r.db
                         then r.db[todo[0] := FlushedDoc(r.db[todo[0]], saved[todo[0]])] else r.db)
            && |r'.brokers| == |r.brokers|
            && r'.brokers[b] == r.brokers[b].(phase := BrokerCluster.FlushCount(saved, todo[1..]))
  {
    more := BrokerCluster.Prolong(s, steps, BrokerCluster.SendCount(b));
    more := BrokerCluster.Prolong(s, more, BrokerCluster.SendTime(b));
  }

  lemma FlushEnds(s: State, steps: seq<Step>, b: nat, saved: map<Id, Saved>) returns (more: seq<Step>)
    requires BrokerCluster.Runs(s, steps)
    requires var r := BrokerCluster.After(s, steps);
             b < |r.brokers| && r.brokers[b].phase == BrokerCluster.FlushCount(saved, [])
    ensures BrokerCluster.Runs(s, more)
    ensures var (r, r') := (BrokerCluster.After(s, steps), BrokerCluster.After(s, more));
            && r'.db == r.db
            && |r'.brokers| == |r.brokers| && r'.brokers[b] == r.brokers[b].(phase := BrokerCluster.Ready)
  {
    more := BrokerCluster.Prolong(s, steps, BrokerCluster.EndFlush(b));
  }

  lemma {:induction false} FlushRun(s: State, steps: seq<Step>, b: nat, saved: map<Id, Saved>, todo: seq<Id>)
      returns (more: seq<Step>)
    requires BrokerCluster.Runs(s, steps)
    requires var r := BrokerCluster.After(s, steps);
             b < |r.brokers| && r.brokers[b].phase == BrokerCluster.FlushCount(saved, todo)
    requires Distinct(todo)
    ensures BrokerCluster.Runs(s, more)
    ensures var (r, r') := (BrokerCluster.After(s, steps), BrokerCluster.After(s, more));
            && r'.db == FlushIds(r.db, saved, todo)
            && |r'.brokers| == |r.brokers| && r'.brokers[b] == r.brokers[b].(phase := BrokerCluster.Ready)
    decreases |todo|
  {
    var r := BrokerCluster.After(s, steps);
    if todo == [] {
      more := FlushEnds(s, steps, b, saved);
    } else {
      more := FlushOne(s, steps, b, saved, todo);
      FlushIdsStep(r.db, saved, todo);
      assert Distinct(todo[1..]);
      more := FlushRun(s, more, b, saved, todo[1..]);
    }
  }

  function ReadIds(db: map<Id, Doc>, order: seq<Id>): (items: seq<Item>)
    requires forall id | id in order :: id in db
    ensures Ids(items) == order
  {
    seq(|order|, i requires 0 <= i < |order| => Fresh(order[i], db[order[i]]))
  }

  lemma {:induction false} ReadRun(s: State, steps: seq<Step>, b: nat, saved: map<Id, Saved>, order: seq<Id>, n: nat)
      returns (more: seq<Step>)
    requires BrokerCluster.Runs(s, steps) && n <= |order|
    requires var r := BrokerCluster.After(s, steps);
             && b < |r.brokers| && r.brokers[b].phase == BrokerCluster.Refreshing(saved) && r.brokers[b].cache == []
             && Distinct(order) && forall id | id in order :: id in r.db
    ensures BrokerCluster.Runs(s, more)
    ensures var (r, r') := (BrokerCluster.After(s, steps), BrokerCluster.After(s, more));
            && r'.db == r.db && |r'.brokers| == |r.brokers|
            && r'.brokers[b] == r.brokers[b].(cache := ReadIds(r.db, order[..n]))
  {
    var r := BrokerCluster.After(s, steps);
    if n == 0 {
      more := steps;
    } else {
      more := ReadRun(s, steps, b, saved, order, n - 1);
      assert order[..n] == order[..n - 1] + [order[n - 1]];
      assert order[n - 1] !in order[..n - 1];
      more := BrokerCluster.Prolong(s, more, BrokerCluster.Read(b, order[n - 1]));
      assert ReadIds(r.db, order[..n]) == ReadIds(r.db, order[..n - 1]) + [Fresh(order[n - 1], r.db[order[n - 1]])];
    }
  }

  /** The counters of documents. */
  function Counters(docs: map<Id, Record>): map<Id, Doc> {
    map id | id in docs :: docs[id].counters
  }

  /** One broker's synchronisation, step after step with nothing in between, changes the
      shared counters exactly as the cache's own Sync does (for documents that are all
      cacheable). */
  lemma UndisturbedSyncAgrees(s: State, b: nat, docs: map<Id, Record>, order: seq<Id>) returns (steps: seq<Step>)
    requires b < |s.brokers| && s.brokers[b].phase.Ready? && Distinct(Ids(s.brokers[b].cache))
    requires s.db == Counters(docs) && Distinct(order)
    requires forall id | id in order :: id in docs && Cacheable(docs[id])
    ensures BrokerCluster.Runs(s, steps)
    ensures var s' := BrokerCluster.After(s, steps);
            && s'.db == Counters(Synced(docs, SavedOf(s.brokers[b].cache), ReadItems(docs, order)))
            && |s'.brokers| == |s.brokers|
            && s'.brokers[b] == s.brokers[b].(cache := ReadItems(docs, order))
  {
    var saved := SavedOf(s.brokers[b].cache);
    steps := BrokerCluster.Prolong(s, [], BrokerCluster.Save(b));
    steps := ReadRun(s, steps, b, saved, order, |order|);
    assert order[..|order|] == order;
    ReadAgrees(docs, order);
    var items := ReadItems(docs, order);
    steps := BrokerCluster.Prolong(s, steps, BrokerCluster.EndRead(b));
    steps := FlushRun(s, steps, b, BrokerCluster.Kept(saved, items), order);
    FlushAgrees(docs, saved, items);
  }

  lemma {:induction false} ReadAgrees(docs: map<Id, Record>, order: seq<Id>)
    requires forall id | id in order :: id in docs && Cacheable(docs[id])
    ensures ReadItems(docs, order) == ReadIds(Counters(docs), order)
  {
    if order != [] {
      var n := |order| - 1;
      ReadAgrees(docs, order[..n]);
    }
  }

  lemma FlushAgrees(docs: map<Id, Record>, saved: map<Id, Saved>, items: seq<Item>)
    ensures FlushIds(Counters(docs), BrokerCluster.Kept(saved, items), Ids(items)) == Counters(Synced(docs, saved, items))
  {
    forall id | id in docs
      ensures id in Ids(items) <==> Find(items, id).Some?
    {
      ClusterDuplicates.InIds(items, id);
    }
  }
}
