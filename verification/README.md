# Orion context broker: verified model

Orion is a publish/subscribe broker for context information. This Dafny project models the parts
of it whose correctness is hard to see from one function at a time, and proves what they promise:

* **Subscription cache.** The linked list of cached subscriptions, the matcher, and the
  synchronisation that saves counters, reloads the cache and flushes the counters back
  (`sub_cache.dfy`, `sub_match.dfy`, `service_path.dfy`, `sync_laws.dfy`); and the same
  synchronisation as interleaved steps of any number of brokers on one database, the multi-CB
  configuration of the administration manual (`broker_cluster.dfy`, `cluster_*.dfy`).
* **Concurrency protocols.** The bounded notification queue, the persistent curl contexts and the
  alarm manager, each as atomic steps of any number of threads (`notification_queue.dfy`,
  `curl_contexts.dfy`, `alarms.dfy`).
* **The table-driven JSON v1 parser.** A walk that writes through cursors refines a recursive
  decoder over every run, compound values included, on values (`json_walk.dfy`,
  `json_decode.dfy`, `json_refinement.dfy`, `request_tables.dfy`) and on heap objects
  (`json_parser.dfy`); every printed request is read back, each string in its own field
  (`requests.dfy`); exactly when a NULL cursor is used (`json_visits.dfy`,
  `request_crashes.dfy`) and exactly when every compound value is on its own attribute
  (`own_compounds.dfy`); compound values (`property_tree.dfy`, `compound_value.dfy`,
  `compound_nodes.dfy`) and the escaped-slash fix (`backslash_fix.dfy`).
* **Printers and their inverses.** JSON strings, objects and subscriptions (`json_text.dfy`,
  `json_helper.dfy`, `subscription_json.dfy`) and HTML escaping (`html_escape.dfy`).
* **String and number parsers.** URLs and ISO 8601 durations (`string_split.dfy`, `url.dfy`,
  `duration.dfy`).
* **The duplicate checker** for stored subscriptions (`dup_checker.dfy`).

Code that updates things in place is modelled by classes, arrays and loops, and proved against
functions on values; protocols are state machines whose runs are arbitrary sequences of steps.
`dafny verify dfyconfig.toml` checks the whole project.

## Where the code differs from its comments or from the obvious law

* A synchronisation's comment (step 3.1) says that cached notification times are updated; the code
  only flushes the newer ones to the database, and so does the model.
* The database time becomes the maximum of both times except when the cached time is 0 and the
  document has none (`SyncLaws.SyncMovesCounters` gives the exact condition).
* A subscription created with an initial notification counts it twice, once in its document and
  once in its cache item (`ClusterCounts.InitialNotificationCountsTwice`; in general
  `SettledCountsAreExact`).
* The save loop of a synchronisation ends if and only if the cached ids are pairwise different
  (`SubscriptionStore.SaveLoopEnds`). A refresh between the database insertion and the cache
  insertion of a new subscription breaks that; the next synchronisation then never ends and keeps
  the cache semaphore (`ClusterDuplicates.HangIsReachable`, `WedgedUntilHung`, `HungForever`).
  Without that race it never happens (`RaceFreeBrokersCanSync`).
* The JSON parser uses a NULL cursor if and only if some node that it reaches needs a cursor that no
  earlier node has set (`JsonVisits.CrashIff`, for every table and every tree). A key with a slash
  can cause that (`RequestCrashes.SlashInKeyCrashes`) but need not (`SlashInKeyWorks`,
  `UnknownKeyIsRejected`). With slash-free keys it happens exactly if a compound value is reached
  before any attribute's own value (`AppendCrashIff`, `NotifyCrashIff`, with
  `CompoundAtTopCrashes` and `CompoundPrefixCrashes`): finishing a compound writes through
  lastContextAttribute, which only the value handlers set. For the same reason a stray compound
  may land on an earlier attribute (`CompoundIsMisplaced`): an accepted request is what a plain
  recursive decoder gives, each compound on the attribute whose value it is, if and only if no
  compound in the document is at another path (`OwnCompounds.AppendCompoundsAreOwnIff`,
  `NotifyCompoundsAreOwnIff`).
* A forbidden character in an array item without a name is not refused, and ends the check for
  flaws in names; `CompoundValue.AcceptsIff` says exactly what is accepted.
* The escaped-slash fix changes the meaning of a well-formed text exactly if some slash follows an
  even, non-empty run of backslashes (`BackslashFix.FixPreservesMeaningIffRunsOdd`).
* A URL whose host is one colon, or eight or more and nothing else, makes the parser read a
  component that does not exist (`Url.UndefinedIff`).
* In durations, digits without a unit are refused at the end but dropped before the letter T
  (`Duration.DanglingDigitsBeforeTimeAreDropped`).
* The database alarm tests its flag before taking the semaphore, so two threads can raise it twice
  (`Alarms.DbAlarmRace`; `Alarms.DbAccounting` gives the exact balance on every run).
* Sorting by digest forgets the order of a list if and only if its digests do not collide
  (`DupChecker.OrderIsForgottenIff`).

## Model

| member | source | states |
|---|---|---|
| `NotificationQueue.Linearizable` | src/lib/common/SyncQOverflow.h:58-101 | For any threads and interleaving, spurious wake-ups included, the locked steps form a legal history of a sequential bounded FIFO queue whose contents are the actual queue, a push is refused only when full, every thread's results are its logged ones in order, every call is answered in the history with its own element, and a call that has returned precedes every call made later |
| `NotificationQueue.EveryCallIsAnswered` | src/lib/common/SyncQOverflow.h:58-101 | Over every run, the calls a thread has made are, one for one and in order, those its logged events answer (a push with the element it was called with, a pop by a popped element, a size by a length), plus at most one open call; none if it is outside |
| `NotificationQueue.ReplayIsFifo` | src/lib/common/SyncQOverflow.h:58-89 | In a legal history, the accepted elements are the popped ones followed by the contents, within the bound |
| `NotificationQueue.FifoWithinBound` | src/lib/common/SyncQOverflow.h:58-89 | The same for every run: FIFO, nothing lost, duplicated or invented, length at most max_size |
| `NotificationQueue.NoLostWakeup` | src/lib/common/SyncQOverflow.h:59-89 | While some consumer sleeps, the queue is no longer than pending notifies plus woken consumers that have not looked yet |
| `NotificationQueue.SomeoneCanMove` | src/lib/common/SyncQOverflow.h:59-101 | Unless all threads are outside or asleep on an empty queue, some progress step is enabled |
| `NotificationQueue.ProgressIsBounded` | src/lib/common/SyncQOverflow.h:59-101 | Without new calls every schedule of progress steps is finite, bounded by the outstanding work |
| `NotificationQueue.StuckMeansServed` | src/lib/common/SyncQOverflow.h:59-89 | Such a schedule can only stop with no element left while a consumer waits |
| `CurlContexts.MutualExclusion` | src/lib/common/sem.cpp:497-598 | In every reachable state two threads that hold contexts hold different keys, curl handles and mutexes |
| `CurlContexts.GetYieldsTheContext` | src/lib/common/sem.cpp:497-598 | Over every run, a thread past the look of get(key) has the key's stored context, and holds its mutex once past the key's lock, unless the key had none at its own look and curl_easy_init failed; only then does it end with nothing |
| `CurlContexts.UsingIsReachable` | src/lib/common/sem.cpp:497-598 | From every initial state every thread can obtain every key's context, with and without the statistics branch |
| `CurlContexts.StoredContextIsForever` | src/lib/common/sem.cpp:518-545 | A key's stored context never changes once created, over every run |
| `CurlContexts.WaitChainsEnd` | src/lib/common/sem.cpp:497-598 | No deadlock among any of the threads: every busy thread can move or waits, over at most two hops, for one that can, although the statistics branch takes contexts_mutex while holding a key's mutex |
| `CurlContexts.SchedulesAreBounded` | src/lib/common/sem.cpp:497-671 | Without new calls every schedule is finite |
| `CurlContexts.StuckMeansReleased` | src/lib/common/sem.cpp:643-671 | Such a schedule can only stop when all contexts and mutexes are released |
| `SubscriptionStore.SaveLoopEnds` | src/lib/cache/subCache.cpp:1073-1090 | The save loop reaches the end of the list iff the ids are pairwise different, and then has saved exactly the cache |
| `SubscriptionStore.SavedAt` | src/lib/cache/subCache.cpp:1081-1088 | With distinct ids, what is saved under an id is that item's count and time |
| `ClusterCounts.TouchMovesCounts` | src/lib/cache/subCache.cpp:1062-1150 | Every step moves counts between database and broker, except new notifications and what a refresh drops |
| `ClusterCounts.BalanceKept` | src/lib/cache/subCache.cpp:1062-1150 | Every step keeps, for each document: its count plus all held counts is what was counted, plus one for an initial notification, minus what was dropped |
| `ClusterCounts.CountsConserved` | src/lib/cache/subCache.cpp:1062-1150 | The same over every run of any number of brokers that create, notify, delete and synchronise |
| `ClusterCounts.CompleteRunsLoseNothing` | src/lib/cache/subCache.cpp:954-980 | If every refresh reads back what was saved and still exists, nothing is dropped |
| `ClusterCounts.SettledCountsAreExact` | src/lib/mongoBackend/mongoSubscribeContext.cpp:196-254 | On such runs, once no broker holds counts back, a document's count is the number of notifying steps of the run, one more iff it was created with an initial notification |
| `ClusterCounts.InitialNotificationCountsTwice` | src/lib/mongoBackend/mongoSubscribeContext.cpp:196-254 | From every initial state, for every broker and id, a run ends settled with count 2 for one counted notification |
| `BrokerCluster.ObserveRun` | src/lib/cache/subCache.cpp:1062-1150 | The counted notifications, the latest time and the initial notifications that the invariants speak of are those of the run's own steps |
| `ClusterTimes.TimesKept` | src/lib/cache/subCache.cpp:1062-1150 | Every step keeps: the latest notification time is in the database or held by a broker, and nothing newer is anywhere |
| `ClusterTimes.LatestTimeIsNeverForgotten` | src/lib/mongoBackend/mongoSubCache.cpp:418-502 | On every run in which refreshes read back what was saved, the latest time of the run's notifications is in the database or held by a broker, and nothing newer is anywhere |
| `ClusterTimes.SettledTimeIsLatest` | src/lib/mongoBackend/mongoSubCache.cpp:469-502 | Once no broker holds a newer time, the document's time is the latest of the run's notifications |
| `ClusterTimes.DatabaseTimeNeverDecreases` | src/lib/mongoBackend/mongoSubCache.cpp:469-502 | Between any two moments of any run, a document's notification time does not decrease |
| `ClusterDuplicates.RaceFreeMeansDuplicateFree` | src/lib/cache/subCache.cpp:1073-1090 | Without a refresh between database and cache insertion, no cache ever holds an id twice and no broker hangs |
| `ClusterDuplicates.RaceFreeBrokersCanSync` | src/lib/cache/subCache.cpp:1062-1090 | On such runs from the start no broker hangs and the save loop of every idle broker ends |
| `ClusterDuplicates.EverRepeatsIff` | src/lib/mongoBackend/mongoSubscribeContext.cpp:196-254 | Over every run, some cache ever holds an id twice iff some waiting insertion is ever carried out although its id is in the cache already |
| `ClusterDuplicates.RaceWedges` | src/lib/mongoBackend/mongoSubscribeContext.cpp:196-254 | The cache insertion after the race leaves the id twice in the cache |
| `ClusterDuplicates.WedgedUntilHung` | src/lib/cache/subCache.cpp:1073-1090 | From then on, while the subscription exists, whatever happens: the broker hangs in its first synchronisation |
| `ClusterDuplicates.HungForever` | src/lib/cache/subCache.cpp:1062-1090 | A hung broker's cache never changes again and none of its cache steps is ever enabled, even after the subscription is deleted |
| `ClusterDuplicates.WedgeIsReachable` | src/lib/cache/subCache.cpp:1073-1090 | The repeated id is reachable from every initial state, for every broker and id |
| `ClusterDuplicates.HangIsReachable` | src/lib/cache/subCache.cpp:1073-1090 | So is the hang |
| `SyncLaws.SyncMovesCounters` | src/lib/cache/subCache.cpp:1062-1150 | For a subscription cached before and read again: database count plus cached count is unchanged, the cached count ends at 0, the database time never decreases, and is the maximum of both times iff not (cached time 0 and none in the database) |
| `SyncLaws.SyncLeavesOthers` | src/lib/cache/subCache.cpp:1118-1146 | All other documents are unchanged |
| `SyncLaws.UndisturbedSyncAgrees` | src/lib/cache/subCache.cpp:1062-1150 | One broker's synchronisation steps without interference have exactly the effect of the whole function |
| `SubCache.Cache.constructor` | src/lib/cache/subCache.cpp:184-196 | An empty valid list with zero counters |
| `SubCache.Cache.Insert` | src/lib/cache/subCache.cpp:637-656 | Appends exactly this node, keeps the list acyclic with tail last, counts one insert, leaves all other items alone |
| `SubCache.Cache.Remove` | src/lib/cache/subCache.cpp:913-942 | Deletes exactly that node and keeps the order, or returns -1 and changes nothing; inserts minus removes stays the item count |
| `SubCache.Cache.Lookup` | src/lib/cache/subCache.cpp:590-606 | The first entry with the tenant and id; NULL iff there is none |
| `SubCache.Cache.CountItems` | src/lib/cache/subCache.cpp:204-216 | The length of the list |
| `SubCache.Cache.Destroy` | src/lib/cache/subCache.cpp:522-549 | Empties the list |
| `SubCache.Cache.Refresh` | src/lib/cache/subCache.cpp:954-980 | The cache holds exactly the cacheable documents read, in query order, with count 0 and the database time (-1 if missing), each with its document's tenant and service path (/ if missing), its entities that have an id and the value lists of its ONCHANGE conditions, in order |
| `SubCache.OnChangeLists` | src/lib/mongoBackend/mongoSubCache.cpp:161-188 | The conditions kept are the value lists at exactly the positions of the ONCHANGE conditions, in order |
| `SubCache.InfosList` | src/lib/mongoBackend/mongoSubCache.cpp:121-137 | The entities kept are exactly those with an id, in order, with the empty type if it is missing, and patterns iff the field is true, TRUE or True |
| `SubCache.CacheableIff` | src/lib/mongoBackend/mongoSubCache.cpp:139-197 | A document is cached iff some entity has an id and some condition is ONCHANGE |
| `SubCache.ReadEntities` | src/lib/mongoBackend/mongoSubCache.cpp:121-137 | The loop yields those entities |
| `SubCache.ReadConditions` | src/lib/mongoBackend/mongoSubCache.cpp:161-188 | The loop yields those value lists |
| `SubCache.MatchFindsDocuments` | src/lib/mongoBackend/mongoSubCache.cpp:66-202 | After a refresh, the matcher finds an id iff it was read and its document asks for the update: tenant, service path, an ONCHANGE condition that is met, and an entity concerned |
| `SubCache.ReadItemsIds` | src/lib/mongoBackend/mongoSubCache.cpp:66-114 | What a refresh reads has distinct ids and is exactly the cacheable documents |
| `SubCache.Cache.Sync` | src/lib/cache/subCache.cpp:1062-1150 | Save, refresh, compare and flush leave the reread cache, each node with its document's matching data, and the database with the saved counters of the reread subscriptions flushed |
| `SubCache.Cache.SaveAll` | src/lib/cache/subCache.cpp:1073-1090 | Step 1 saves every item's counters by id |
| `SubCache.Cache.CompareTimes` | src/lib/cache/subCache.cpp:1100-1116 | Step 3 clears exactly the saved times that are not newer than the times read |
| `SubCache.Cache.FlushAll` | src/lib/cache/subCache.cpp:1118-1135 | Steps 4 and 5 flush every saved entry that is in the cache, and no other |
| `SubCache.Cache.Match` | src/lib/cache/subCache.cpp:402-462 | Exactly the matching subscriptions, in list order |
| `SubCache.SelectIsFilter` | src/lib/cache/subCache.cpp:402-462 | A node is in the result iff it is in the list and matches tenant (in multitenant mode, NULL equal to empty), service path, attributes and entity |
| `SubCache.SelectIsUnion` | src/lib/cache/subCache.cpp:402-462 | For every non-empty attribute vector the result is, as a set, the union of the single-attribute results |
| `SubMatch.AttributeMatch` | src/lib/cache/subCache.cpp:224-248 | True iff some condition names no attribute or one of the updated ones |
| `SubMatch.SubMatches` | src/lib/cache/subCache.cpp:331-394 | The chain of tests decides the conjunction of tenant, path, attribute and entity match |
| `SubMatch.VectorIsUnion` | src/lib/cache/subCache.cpp:224-248 | A non-empty vector matches iff one of its members does |
| `SubMatch.EmptyVectorNeedsOpenCondition` | src/lib/cache/subCache.cpp:224-248 | With no attribute, a match needs a condition that names none, and then every vector matches |
| `SubMatch.PlainEntitiesNeedTheId` | src/lib/cache/subCache.cpp:98-119 | A subscription whose entities are no patterns matches only if one of them has the update's id and a type that passes |
| `SubMatch.OneEntityDecides` | src/lib/cache/subCache.cpp:98-119 | A single pattern contributes exactly the regular expression on the update's id, a plain entity exactly equality, and a type excludes only if both are present and differ |
| `SubMatch.EntitiesAreUnion` | src/lib/cache/subCache.cpp:331-394 | A subscription matches iff one of its entities alone does; an additional entity never removes a match |
| `SubMatch.TenantsSeparate` | src/lib/cache/subCache.cpp:331-394 | In multitenant mode only the update's tenant matches, NULL being the empty one; otherwise the tenant plays no part |
| `ServicePath.WildcardIsHierarchy` | src/lib/cache/subCache.cpp:256-323 | p/# matches an incoming path iff p's component list is a prefix of the incoming one |
| `ServicePath.PlainIsExact` | src/lib/cache/subCache.cpp:282-300 | Without a wildcard only the path itself matches |
| `ServicePath.HashIsPrefix` | src/lib/cache/subCache.cpp:301-323 | A final '#' without a slash before it matches every path that starts with the text before it |
| `ServicePath.SiblingsDoNotMatch` | src/lib/cache/subCache.cpp:301-323 | /a/b/# never matches /a/b2, for all names |
| `ServicePath.NestedOrDisjoint` | src/lib/cache/subCache.cpp:301-323 | Two wildcard subscriptions that share a path cover nested sets of paths |
| `ServicePath.RootWildcardMatchesAll` | src/lib/cache/subCache.cpp:256-323 | The incoming path /# matches every subscription path |
| `ServicePath.AbsentPathsMatch` | src/lib/cache/subCache.cpp:256-323 | Two absent paths match |
| `JsonDecode.LookupIsDescend` | src/lib/jsonParse/jsonParse.cpp:145-188 | Looking a path up in the flattened table is descending the schema by components |
| `JsonRefinement.WalkAgrees` | src/lib/jsonParse/jsonParse.cpp:340-426 | From any ready state, walking one node does to the enclosing object and to the compound values what the recursive decoder does, and changes no other old object |
| `JsonRefinement.CompoundAgrees` | src/lib/parse/compoundValue.cpp:138-184 | Finishing a compound value attaches it to the last object whose value was set and changes nothing else, rejects it, or uses the NULL lastContextAttribute |
| `JsonRefinement.ParserRefinesDecoder` | src/lib/jsonParse/jsonParse.cpp:340-426 | For every sound schema and every run over every tree with slash-free keys: the parser does what a recursive decoder does whose only pointer is lastContextAttribute, and no other cursor is ever used while NULL |
| `RequestTables.AppendVectorIsSchema` | src/lib/jsonParse/jsonAppendContextElementRequest.cpp:268-296 | The append parse vector is the flattened append schema |
| `RequestTables.NotifyVectorIsSchema` | src/lib/jsonParse/jsonNotifyContextRequest.cpp:350-387 | The notify parse vector is the flattened notify schema |
| `RequestTables.AppendSchemaIsSound` | src/lib/jsonParse/jsonAppendContextElementRequest.cpp:59-296 | Every append handler's cursor is set by a handler on the path above it |
| `RequestTables.NotifySchemaIsSound` | src/lib/jsonParse/jsonNotifyContextRequest.cpp:74-387 | The same for notify |
| `RequestTables.AppendRequestIsDecoded` | src/lib/jsonParse/jsonAppendContextElementRequest.cpp:59-296 | The same for every run of the append parser |
| `RequestTables.NotifyRequestIsDecoded` | src/lib/jsonParse/jsonNotifyContextRequest.cpp:74-387 | The same for every run of the notify parser |
| `Requests.AppendRoundTrip` | src/lib/jsonParse/jsonAppendContextElementRequest.cpp:59-296 | For every append request given as a record, the parser reads the printed property tree back as exactly that record: entity, attributes with name, type, text or compound value and metadatas, each in its own field and in order; isPattern is kept iff it is true, 1, false or 0 |
| `Requests.NotifyRoundTrip` | src/lib/jsonParse/jsonNotifyContextRequest.cpp:74-387 | The same for every notify request: subscription, originator, and the responses with their elements and status codes |
| `JsonWalk.SingularOfPlural` | src/lib/jsonParse/jsonParse.cpp:196-213 | The name given to an unnamed element is its container's without the final s |
| `JsonWalk.SingularOfIes` | src/lib/jsonParse/jsonParse.cpp:196-213 | A final ies becomes y |
| `JsonVisits.WalkAllIsRun` | src/lib/jsonParse/jsonParse.cpp:340-426 | The recursive walk is the run over the tree's visits in document order |
| `JsonVisits.CrashIff` | src/lib/jsonParse/jsonParse.cpp:145-188 | For every table and every tree, whatever its keys: a NULL cursor is used iff some visit, reached without error or exception, needs a cursor that no earlier visit has set |
| `RequestCrashes.SlashFreeCrashIff` | src/lib/parse/compoundValue.cpp:138-184 | For every sound schema and slash-free keys: a NULL cursor is used iff a compound value is reached before any visit at the attributes' own value path |
| `RequestCrashes.AppendCrashIff` | src/lib/jsonParse/jsonAppendContextElementRequest.cpp:100-107 | The same for the append table and its value path |
| `RequestCrashes.NotifyCrashIff` | src/lib/jsonParse/jsonNotifyContextRequest.cpp:188-195 | The same for the notify table and its value path |
| `RequestCrashes.CompoundAtTopCrashes` | src/lib/jsonParse/jsonParse.cpp:70-112 | A compound under a top-level "value" uses the NULL lastContextAttribute |
| `RequestCrashes.CompoundPrefixCrashes` | src/lib/jsonParse/jsonParse.cpp:91-112 | So does a compound under an attribute's member whose name merely starts with "value" |
| `RequestCrashes.CompoundIsMisplaced` | src/lib/parse/compoundValue.cpp:170-177 | After an attribute with a value, such a compound is accepted and attached to that earlier attribute |
| `OwnCompounds.CompoundsAreOwnIff` | src/lib/jsonParse/jsonParse.cpp:340-426 | For every sound schema with one value path and slash-free keys: an accepted request is the one of a plain recursive decoder without any pointer, every compound on the attribute whose value it is, iff no compound is at another path; that decoder succeeds iff the parser does and there is no such stray compound; without one all verdicts agree and nothing crashes |
| `OwnCompounds.AppendCompoundsAreOwnIff` | src/lib/jsonParse/jsonAppendContextElementRequest.cpp:59-296 | The same for the append request and the path /attributes/attribute/value |
| `OwnCompounds.NotifyCompoundsAreOwnIff` | src/lib/jsonParse/jsonNotifyContextRequest.cpp:74-387 | The same for the notify request and its attributes' value path |
| `RequestCrashes.SlashInKeyCrashes` | src/lib/jsonParse/jsonParse.cpp:145-188 | A single key that spells a nested path makes the append parser use a NULL cursor |
| `RequestCrashes.SlashInKeyWorks` | src/lib/jsonParse/jsonParse.cpp:145-188 | A key with a slash whose handler's cursor is set is accepted |
| `RequestCrashes.UnknownKeyIsRejected` | src/lib/jsonParse/jsonParse.cpp:395-407 | A key whose path is not in the table is only refused |
| `JsonParser.ParseData.CallHandler` | src/lib/jsonParse/jsonAppendContextElementRequest.cpp:59-266 | Handlers on heap objects do what the value-level handler does, lastContextAttribute included; they crash exactly on a NULL cursor |
| `JsonParser.ParseData.TakeCompound` | src/lib/parse/compoundValue.cpp:138-184 | A tree of nodes is built, checked and attached through lastContextAttribute, with the value-level verdict |
| `JsonParser.ParseData.ParseNode` | src/lib/jsonParse/jsonParse.cpp:340-426 | The recursive walk on heap objects has the value-level verdict and state |
| `JsonParser.ParseDocument` | src/lib/jsonParse/jsonParse.cpp:494-548 | Parsing into fresh objects gives the walk's verdict and objects for every document, and with slash-free keys the recursive decoder's |
| `CompoundValue.EatIsImage` | src/lib/jsonParse/jsonParse.cpp:255-332 | Copying an entry fails iff it holds a forbidden named string, and otherwise adds its image and marks the container as vector iff the entry is nameless and not an empty leaf |
| `CompoundValue.CompoundIsImage` | src/lib/jsonParse/jsonParse.cpp:255-332 | For every tree of JSON shape: accepted iff nothing is rejected, and then same shape, order and strings, names kept or "item", vector iff some child is nameless and not an empty leaf |
| `CompoundValue.ImageRoundTripIff` | src/lib/jsonParse/jsonParse.cpp:255-332 | The property tree can be read back from its compound image iff at every level the siblings are all nameless, some of them more than an empty string, or all named |
| `CompoundValue.AcceptsIff` | src/lib/parse/CompoundValueNode.cpp:579-642 | For every compound of JSON shape: accepted iff no named string has a forbidden character and no flaw in names (an object repeats one, a vector mixes them) comes, in document order, before the first forbidden character in a string without a name |
| `CompoundValue.ForbiddenItemHidesFlaws` | src/lib/parse/CompoundValueNode.cpp:579-642 | A forbidden character in the first item of an array hides every flaw behind it |
| `CompoundNodes.Node.Check` | src/lib/parse/CompoundValueNode.cpp:579-642 | The recursive check on nodes finds what the check of the tree finds |
| `CompoundNodes.Node.Take` | src/lib/jsonParse/jsonParse.cpp:255-332 | The recursion that links and fills nodes in place spells the copied tree |
| `CompoundNodes.EatCompound` | src/lib/jsonParse/jsonParse.cpp:255-332 | The node tree built in place is the image of the property tree, accepted iff nothing is rejected |
| `BackslashFix.BackslashFix` | src/lib/jsonParse/jsonParse.cpp:434-486 | In place, the buffer's text becomes its fix; characters behind the new end stay |
| `BackslashFix.FixLength` | src/lib/jsonParse/jsonParse.cpp:434-486 | The length drops by exactly the number of backslashes followed by '/' |
| `BackslashFix.FixAndMeaning` | src/lib/jsonParse/jsonParse.cpp:434-486 | Well-formedness is kept both ways, and the decoded text, in 16-bit units, loses one unit per even run before a slash |
| `BackslashFix.PairMeansCharacter` | src/lib/jsonParse/jsonParse.cpp:434-486 | In that reading a surrogate pair of escapes means the character it encodes |
| `BackslashFix.FixPreservesMeaningIff` | src/lib/jsonParse/jsonParse.cpp:434-486 | For every text: meaning is preserved iff it has none or no slash follows an even, non-empty run |
| `BackslashFix.FixPreservesMeaningIffRunsOdd` | src/lib/jsonParse/jsonParse.cpp:434-486 | For every text: meaning is preserved iff it has none or every maximal run of backslashes before '/' has length zero or odd |
| `JsonText.ToJsonString` | src/lib/common/JsonHelper.cpp:39-89 | The character loop yields the quoted, escaped string |
| `JsonText.QuoteRoundTrip` | src/lib/common/JsonHelper.cpp:39-89 | A reader following section 2.5 of RFC 4627 recovers every string and consumes exactly the printed text |
| `JsonText.IntRoundTrip` | src/lib/common/JsonHelper.cpp:174-181 | Every printed integer is recovered |
| `JsonText.ValueRoundTrip` | src/lib/common/JsonHelper.cpp:39-225 | Every JSON value of strings, integers, arrays and objects is recovered, consuming exactly its text |
| `JsonHelper.VectorToJson` | src/lib/common/JsonHelper.cpp:97-122 | The text of the array of the strings |
| `JsonHelper.TextsToJson` | src/lib/common/JsonHelper.h:66-84 | The text of the array of the elements |
| `JsonHelper.Helper.AddRaw` | src/lib/common/JsonHelper.cpp:158-171 | The stream stays the text of an open object, with exactly this member appended |
| `JsonHelper.Helper.AddString` | src/lib/common/JsonHelper.cpp:141-150 | The same for a string member |
| `JsonHelper.Helper.Finish` | src/lib/common/JsonHelper.cpp:221-225 | The text of the object of all members added, in order |
| `SubscriptionJson.EntIDToJson` | src/lib/apiTypesV2/Subscription.cpp:142-151 | The entity's document |
| `SubscriptionJson.ConditionToJson` | src/lib/apiTypesV2/Subscription.cpp:116-139 | The condition's document; the expression appears iff it has a member |
| `SubscriptionJson.SubjectToJson` | src/lib/apiTypesV2/Subscription.cpp:100-110 | The subject's document |
| `SubscriptionJson.NotificationToJson` | src/lib/apiTypesV2/Subscription.cpp:75-94 | The notification's document, with counters only when positive |
| `SubscriptionJson.HttpInfoToJson` | src/lib/apiTypesV2/HttpInfo.cpp:52-59 | The document with the URL |
| `SubscriptionJson.SubscriptionToJson` | src/lib/apiTypesV2/Subscription.cpp:44-69 | The subscription's document |
| `SubscriptionJson.SubscriptionRoundTrip` | src/lib/apiTypesV2/Subscription.cpp:44-151 | A JSON reader recovers every subscription's members, nested ones included, in order |
| `SubscriptionJson.SubscriptionShows` | src/lib/apiTypesV2/Subscription.cpp:44-69 | A reader of the text finds every part of the subscription under its own key, and description, expiration and throttling only if set |
| `SubscriptionJson.SubjectShows` | src/lib/apiTypesV2/Subscription.cpp:100-110 | Under the subject's keys are the entities in order and the condition |
| `SubscriptionJson.ConditionShows` | src/lib/apiTypesV2/Subscription.cpp:116-139 | Under the condition's keys are the attributes and, iff some part of it is set, the expression |
| `SubscriptionJson.GetExpression` | src/lib/apiTypesV2/Subscription.cpp:116-139 | Each part of the expression is under its own key iff it is set |
| `SubscriptionJson.GetNotification` | src/lib/apiTypesV2/Subscription.cpp:75-94 | Counters only if positive, attributes and URL are each under their own key |
| `SubscriptionJson.EntIDShows` | src/lib/apiTypesV2/Subscription.cpp:142-151 | Id, pattern and type are each under their own key |
| `SubscriptionJson.SameTextSameSubscription` | src/lib/apiTypesV2/Subscription.cpp:44-151 | Equal texts mean equal subscriptions, as far as they are shown |
| `HtmlEscape.HtmlEscape` | src/lib/common/tag.cpp:46-140 | The buffer of six times the length plus one is never exceeded and holds the escaped text |
| `HtmlEscape.HtmlRoundTrip` | src/lib/common/tag.cpp:46-140 | Every string is recovered from its escaped form, although '&' is not escaped |
| `HtmlEscape.HtmlFits` | src/lib/common/tag.cpp:46-140 | At most six characters per input character |
| `HtmlEscape.JsonInvalidCharsTransformation` | src/lib/common/tag.cpp:153-205 | The loop yields the JSON-escaped text |
| `HtmlEscape.ValueTag1` | src/lib/common/tag.cpp:308-367 | The line of the value escaped for HTML and then for JSON: key unless a vector element, quotes unless without, comma iff asked for |
| `HtmlEscape.Line` | src/lib/common/tag.cpp:343-366 | The four branches write the line that the three flags ask for one by one |
| `HtmlEscape.ValueTagInjective` | src/lib/common/tag.cpp:308-367 | Different values never render to the same tag |
| `Splitting.StringSplit` | src/lib/common/string.cpp:163-211 | The in-place split yields the components after leading delimiters, none if there is nothing else |
| `Splitting.SplitJoin` | src/lib/common/string.cpp:163-211 | Split undoes join |
| `Splitting.JoinSplit` | src/lib/common/string.cpp:163-211 | Join undoes split |
| `Splitting.ComponentsRebuild` | src/lib/common/string.cpp:163-211 | Up to leading delimiters the components rebuild the string |
| `Url.CheckGroupIPv6` | src/lib/common/string.cpp:54-86 | True iff the group before the colon has at most four characters, all hexadecimal |
| `Url.IsIPv6` | src/lib/common/string.cpp:96-120 | True iff the text has the form of an IPv6 address |
| `Url.GetIPv6Port` | src/lib/common/string.cpp:128-155 | The parts before and after the last colon, if the text is an IPv6 address with port |
| `Url.ParseUrl` | src/lib/common/string.cpp:237-348 | The staged parser equals the functional one on every input, undefined reads included |
| `Url.PlainUrlRoundTrip` | src/lib/common/string.cpp:237-348 | Protocol, host, optional port and segments come back, with 443 for https: and 80 for http: when there is no port, and / when there is no segment |
| `Url.Ipv6UrlRoundTrip` | src/lib/common/string.cpp:237-348 | The same for unbracketed IPv6 hosts with one to six colons and a port |
| `Url.ParsedIff` | src/lib/common/string.cpp:237-348 | For every URL: accepted iff it has a known protocol, a non-empty third component, and that host is an IPv6 address with port, has no colon part, or has exactly one with a port behind it; the protocol is its first component |
| `Url.UndefinedIff` | src/lib/common/string.cpp:237-348 | A missing component is read iff the URL's protocol is accepted and its third component is one colon, or eight or more and nothing else |
| `Url.ColonUrlIsUndefined` | src/lib/common/string.cpp:296-345 | Such URLs exist for both protocols, with any path |
| `Duration.Parse8601` | src/lib/common/globals.cpp:322-427 | The loop over the overwritten copy equals the character-wise reader |
| `Duration.DurationRoundTrip` | src/lib/common/globals.cpp:266-427 | Every list of day tokens, then optionally T and time tokens, is read as the sum of 365, 30, 7 and 1 days and 3600, 60 and 1 seconds per unit |
| `Duration.SecondsAre` | src/lib/common/globals.cpp:266-311 | Each unit's number of seconds, in the day part and in the time part |
| `Duration.ForeignCharactersAreRefused` | src/lib/common/globals.cpp:322-427 | A character that is no digit, point, comma, unit or T, anywhere, gives -1 |
| `Duration.MissingPIsRefused` | src/lib/common/globals.cpp:322-427 | So does a text that does not start with P, or is P alone |
| `Duration.UnitsStayInTheirPart` | src/lib/common/globals.cpp:322-427 | So does a unit of the other part, or a second T, after any tokens |
| `Duration.BareDayUnitIsRefused` | src/lib/common/globals.cpp:322-427 | So does a day unit without a number |
| `Duration.DanglingDigitsAreRefused` | src/lib/common/globals.cpp:322-427 | Digits without a unit at the end give -1 |
| `Duration.DanglingDigitsBeforeTimeAreDropped` | src/lib/common/globals.cpp:322-427 | Digits without a unit before T do not count and are not refused |
| `Duration.NoOverflow` | src/lib/common/globals.cpp:266-311 | With at most 136 tokens the accumulator stays within 64 bits |
| `Duration.MoreTokensOverflow` | src/lib/common/globals.cpp:266-311 | With 137 tokens it may not |
| `Alarms.InvPreserved` | src/lib/alarmMgr/AlarmManager.cpp:279-410 | Every statement of every thread keeps the accounting invariant of a family of alarms |
| `Alarms.AlarmsAreAccounted` | src/lib/alarmMgr/AlarmManager.cpp:279-410 | For any interleaving, whenever the semaphore is free: raised minus released is the number of active alarms, exactly those reported since their last release are active, each with the number of those reports |
| `Alarms.EveryCallEnters` | src/lib/alarmMgr/AlarmManager.cpp:169-410 | Over every run, the sections of each operation entered, plus the threads on their way, are as many as its calls that are not turned away: a bad input only after one of the same request, a database call only if the flag is set already |
| `Alarms.SeenMeansReported` | src/lib/alarmMgr/AlarmManager.cpp:349-358 | A request's flag is set iff it has reported a bad input since it began |
| `Alarms.DbAccounting` | src/lib/alarmMgr/AlarmManager.cpp:169-212 | For any interleaving, raised minus released is one for an active database alarm and zero otherwise, plus the surplus of raises of an active alarm over releases of an inactive one |
| `Alarms.DbAlwaysRightIff` | src/lib/alarmMgr/AlarmManager.cpp:169-212 | For any interleaving, raised minus released tells after every section whether the alarm is active, iff no section was entered with a stale test |
| `Alarms.DbAlarmOneAtATime` | src/lib/alarmMgr/AlarmManager.cpp:169-212 | When calls run one at a time, it always does |
| `Alarms.DbAlarmRace` | src/lib/alarmMgr/AlarmManager.cpp:169-189 | Two threads that both pass the test raise the alarm twice |
| `Alarms.Manager.NotificationError` | src/lib/alarmMgr/AlarmManager.cpp:279-307 | Keeps the accounting and returns whether the alarm became active |
| `Alarms.Manager.NotificationErrorReset` | src/lib/alarmMgr/AlarmManager.cpp:316-333 | Keeps the accounting and returns whether the alarm was active |
| `Alarms.Manager.BadInput` | src/lib/alarmMgr/AlarmManager.cpp:349-383 | The same, with at most one report per request |
| `Alarms.Manager.BadInputReset` | src/lib/alarmMgr/AlarmManager.cpp:393-410 | Keeps the accounting and returns whether the alarm was active |
| `Alarms.Manager.RaiseDbError` | src/lib/alarmMgr/AlarmManager.cpp:169-189 | The alarm is active afterwards, and a transition is reported iff it was not before |
| `Alarms.Manager.ReleaseDbError` | src/lib/alarmMgr/AlarmManager.cpp:198-212 | The alarm is inactive afterwards, and a transition is reported iff it was active |
| `DupChecker.CanonicalIffMeaning` | scripts/managedb/csubs_control/csub_dups_checker.py:99-136 | Canonical forms agree iff the documents agree up to bookkeeping fields and the order of attrs, entities, conditions and ONCHANGE values |
| `DupChecker.OrderIsForgottenIff` | scripts/managedb/csubs_control/csub_dups_checker.py:125-131 | A list sorted by digest forgets its order iff no two of its elements collide |
| `DupChecker.SurvivorsArePairwiseDifferent` | scripts/managedb/csubs_control/csub_dups_checker.py:133-154 | Surviving subscriptions differ pairwise |
| `DupChecker.BestRepresentativeSurvives` | scripts/managedb/csubs_control/csub_dups_checker.py:97-154 | Every document has a survivor that means the same and expires no earlier |
| `DupChecker.SecondRunKeepsAll` | scripts/managedb/csubs_control/csub_dups_checker.py:99-154 | Cleaning twice is cleaning once |
| `DupChecker.Normalize` | scripts/managedb/csubs_control/csub_dups_checker.py:112-128 | The editing loop yields the canonical document |
| `DupChecker.GroupBySignature` | scripts/managedb/csubs_control/csub_dups_checker.py:97-140 | The dictionary maps each signature that occurs to the ids that carry it, in order |
| `DupChecker.SelectDeletions` | scripts/managedb/csubs_control/csub_dups_checker.py:142-154 | All but the first of each group and nothing else, whatever the order of the keys; savings is their number |
| `DupChecker.CheckDuplicates` | scripts/managedb/csubs_control/csub_dups_checker.py:97-170 | Unless in a dry run, exactly the first document of each meaning is kept; a restart is needed iff something was removed |

## Left out

- Failing pthread, malloc and curl_easy_init calls, and the clean-up of curl contexts at shutdown.
- NotificationQueue.Linearizable: the queue is a state machine over lock, wait, notify and unlock steps rather than a class, since its promises are about interleavings.
- Foreign code is a parameter or a contract: regexec, the ISO date printer, atof with float rounding, the digests of pickled values, MongoDB queries and updates.
- Sub-second durations and JSON numbers with fraction or exponent (floating point).
- Duration.DurationRoundTrip: seconds go through the parameter `secs`, assumed exact for whole numbers up to 2^24.
- Url.ParseUrl: ports that do not fit an int, for which atoi is undefined, keep their mathematical value.
- JsonText.ValueRoundTrip: a lone half of a surrogate pair, which is no character, is refused by the reader; the printer never writes one.
- SubscriptionJson.SameTextSameSubscription: assumes that different times have different ISO renderings.
- SubMatch.SubMatches: requires the service path test to be defined; for an empty subscription path, or "#" alone, the code reads outside the string.
- SubCache.Cache.Sync: requires pairwise different cached ids, the exact condition under which the save loop ends.
- SubCache.Cache.Refresh: a failing database query is not modelled inside the class; in the cluster it is a refresh that reads nothing.
- BrokerCluster steps are those of the cache semaphore; updates of existing subscriptions, expiration, throttling and the statistics listing are not modelled.
- Requests.AppendRoundTrip and Requests.NotifyRoundTrip: keys inside compound values are free of slashes, and every member is printed; what other documents do is in RequestCrashes and OwnCompounds.
- RequestTables: status codes stay text (atoi is not applied), and only the fields that the two requests' handlers write are kept; the other JSON v1 requests use the same walk with other tables.
- JsonRefinement.ParserRefinesDecoder: the special case of updateContextAttributeRequest, which has no attribute to attach a compound to, is not among the two requests.
- CompoundNodes.EatCompound: paths, levels and sibling numbers of compound nodes are not kept.
- Alarms.AlarmsAreAccounted: the log-always flags, which only decide what is logged.
- DupChecker.CheckDuplicates: documents come in the database's order, with distinct ids, and digests do not collide on them; pickling is taken to be a function of the value.
- Command line, start-up, request routing, statistics, logging, the remaining apiTypesV2 and convenience classes: thin wrappers and configuration, without behaviour that spans functions; the code under archive is superseded.
