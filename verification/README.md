# Rate limiter: counters, cleanup and abuse transfer

This project models the in-memory fixed-window rate limiter and the cleanup cycle that collects idle counters and
transfers abusers to Redis, and proves what holds over every history and every interleaving.

- `Clock` cuts nanoseconds into windows. `Counters` is one counter as a function of the requests, collections and
  deletes that reach it in lock order. Known and unknown counters differ only in the count above which a finished
  slot is charged, so both are values of `Counter` under a `Policy`.
- `History`, `Bounds`, `Intervals` and `Collection` are about one counter over whole histories. A request's clock
  reading is taken before the lock, so readings may go backwards along a history. A history is "in order" when requests
  get the lock in the order of their readings, and no request reads the clock more than one window before the start of
  an earlier collection that removed its counter. Collections carry the start of their cycle, so they may well lie
  behind requests that were served while the cycle was at work, and those that remove nothing are of no account.
- `CounterMaps`, `AbuseStore`, `Routing`, `Cleanup` and the table methods of `TopRows` are the imperative parts:
  classes whose methods change maps, counter objects, metrics and Redis records in place. Each states its whole new
  state by the functions of `Counters`, `Cycles` and `TopRows`.
- `Cycles` is a cleanup cycle as a function of a script: the requests that interleave with it and the replies of
  Redis. `Protocol` is the whole service as a transition system with any number of requests and cleanup runs in
  flight. `Refinement` and `KnownLoops` show that a loop of the second, with just its own requests and replies, is a
  cycle of the first, and so carry the theorems about cycles over to running services.
- `Safety`, `Transfers`, `Leftovers` and `Clients` are about every run of the transition system. `Scenarios` builds
  single runs, from which `Overlap` and `Margins` get the exact conditions: on overlapping runs, and on how long a
  request may wait for its lock. `Settings` is the configuration check.

Time is a natural number of nanoseconds on one clock. Integers are unbounded: the 64-bit sums and products of the
source (limit + burst, global limit * multiplier, the counter fields) are taken not to overflow. Redis replies, the
order in which Go's maps are listed, and the progress of time are parameters or free choices of the environment.

Where the documentation and the code disagree, the model follows the code:

- docs/specification.md:328 says that the check of burst against global limit * multiplier keeps allowed burst
  requests from being charged as abuse. It does not (`Settings.ValidateIsTooWeak`); the exact condition is
  global limit + burst <= global limit * multiplier (`Settings.BlockingCondition`).
- The comment at internal/cleanup/cleanup.go:126 says that a live counter still meets the threshold that its snapshot
  met. That holds while cleanup runs do not overlap (`Transfers.SnapshotStaysValid`). Shutdown starts a final run beside
  the loop's (cmd/api-ratelimiter/main.go:231-239), after it has waited for the requests in flight
  (cmd/api-ratelimiter/main.go:210-215). If that wait succeeds, no request comes between the two runs and every record
  still meets the threshold (`Transfers.RecordsAreBacked`). If it times out with a handler still at work, the record of
  a counter without a single charge can be written, under every configuration (`Overlap.OverlapWritesUnderThreshold`);
  `Overlap.BackedIff` is the exact condition.

Hiding of definitions (`hide`) appears inside some proof bodies only to keep them cheap.

## Model

| member | source | states |
|---|---|---|
| Clock.SlotBounds | internal/counter/unknown.go:48 | Dividing to seconds and then to windows gives aligned intervals of exactly one window |
| Clock.LaterSlot | internal/counter/unknown.go:186-192 | A reading k windows later is at least k slots later; the arithmetic behind every collection argument |
| Clock.IntervalSlots | internal/counter/unknown.go:48 | A half-open interval of k windows, aligned or not, meets at most k + 1 slots |
| Counters.ReplayConsistent | internal/counter/unknown.go:53-73 | In any lock order every counter's slot is the slot of its last request, and its fields are bounded by its total |
| Counters.InactivityIsIdleness | internal/counter/unknown.go:186-192 | For reachable counters the two-part inactivity test is one inequality: at least two windows since the last request |
| History.ClosedForms | internal/counter/unknown.go:53-91 | For any decomposition of a series of requests into same-slot runs: window count, total, burst hits and charges (plus one for a run still open over the line) as closed forms |
| History.Runs | internal/counter/unknown.go:63-69 | Every history has such a decomposition |
| History.DecisionInRun | internal/counter/unknown.go:71-91 | The k-th request of any run is judged as number k of its slot |
| History.BlockedInRun | internal/counter/unknown.go:81-91 | In each run exactly the requests beyond limit + burst are blocked |
| History.ChargedIsCounted | internal/counter/unknown.go:63-69 | The hit counter moves with the first request after a run just when the run was over the line |
| History.ChargedRunBlocks | internal/counter/unknown.go:63-91 | With limit + burst at or under the line, a charged slot has at least line + 1 - (limit + burst) blocked requests |
| History.AbuseImpliesBlockingIff | internal/counter/unknown.go:63-91 | Every charged slot has a blocked request, over all histories, if and only if limit + burst does not exceed the line |
| History.UnblockedAbuse | internal/counter/unknown.go:63-91 | The history that is charged with nothing blocked, for every policy beyond that condition |
| History.EvidenceHolds | internal/counter/unknown.go:63-73 | hits * (line + 1) + window count <= total over every history, with any collections and deletes |
| History.HitsNeedRequests | internal/cleanup/cleanup.go:128 | A threshold of charges proves threshold * (line + 1) + 1 requests |
| History.LiveClosedForm | internal/counter/unknown.go:53-91 | The closed forms of a counter with any collections and deletes behind it, over the requests since it was created |
| History.ChargesAreRefusals | internal/counter/unknown.go:63-91 | With limit + burst at or under the line, a counter with any past has had at least hits * (line + 1 - cap) requests refused since it was created |
| History.ChargesAreLongRuns | internal/counter/known.go:67-73 | For any policy, hits (plus one for an open run over the line) are the runs with more requests than the line |
| Bounds.OutOfOrderBound | internal/counter/unknown.go:47-91 | In any lock order one slot allows at most (1 + stale requests + times the counter was lost in the slot) times its largest limit + burst; a collection that removes nothing costs nothing |
| Bounds.EntriesArePaid | internal/counter/unknown.go:53-69 | Each re-entry of a slot is charged to a stale request of that slot or before, or to a loss of the counter in the slot |
| Bounds.AllowedByEntries | internal/counter/unknown.go:71-91 | Each entry into a slot allows at most the cap |
| Bounds.SlotReentered | internal/counter/unknown.go:47-69 | Slots 5, 6, 5, 6 under limit one allow two requests of slot 5: one run per slot is not enough |
| Bounds.EntriesInOrder | internal/counter/unknown.go:53-69 | In order only an unconditional delete makes a counter start a slot again |
| Bounds.OrderedBound | internal/counter/known.go:50-96 | In order a slot allows its largest cap once, and once more for each unconditional delete in it, whatever is collected |
| Bounds.CountIsPosition | internal/counter/known.go:67-77 | In order the window count is the number of requests of the slot so far, collections included |
| Bounds.ExactAdmission | internal/counter/known.go:67-95 | In order the k-th request of a slot is allowed if and only if k is at most its own limit + burst |
| Bounds.ConstantCap | internal/counter/known.go:67-95 | In order, with one limit, exactly the earliest min(n, limit + burst) requests of a slot are allowed |
| Intervals.AnyIntervalBound | internal/counter/unknown.go:48-91 | In order any interval of k windows allows at most (k + 1) * (limit + burst) requests of an unknown counter, collected or not |
| Intervals.IntervalBoundIsReached | internal/counter/unknown.go:48-91 | A history in order that gets k + 1 times limit + burst inside k window lengths, for every policy, window and positive k |
| Collection.CollectionSimulates | internal/counter/unknown.go:129-141 | Simulation between a collecting and a never-collecting counter as long as no request comes back to the slot of the counter just collected |
| Collection.CollectionIsInvisibleIff | internal/counter/unknown.go:129-141 | All decisions of a history equal those of a map that never collects if and only if no request comes back to the slot of the counter that was collected before it |
| Collection.CollectionIsInvisible | internal/counter/unknown.go:164-171 | If no reading is more than one window behind a collection that removed the counter, every decision equals that of a map that never collects |
| Collection.SkewIsTight | internal/counter/unknown.go:186-192 | One nanosecond more of skew admits a request that a map without collection refuses, for every window length and every policy that allows anything |
| CounterMaps.UnknownCounter.Count | internal/counter/unknown.go:63-91 | The in-place update, in numbers: allowed up to limit + burst, and a slot that is left is charged when its count exceeds global limit * multiplier |
| CounterMaps.UnknownMap.RecordRequest | internal/counter/unknown.go:46-92 | One request changes the counter of its key only, in the same numbers, and creates it if it is missing |
| CounterMaps.UnknownMap.Snapshot | internal/counter/unknown.go:99-107 | Lists every counter exactly once, with its value, in any order |
| CounterMaps.UnknownMap.Get | internal/counter/unknown.go:109-117 | A copy of the live counter, or nothing |
| CounterMaps.UnknownMap.DeleteIfInactive | internal/counter/unknown.go:129-141 | Deletes the counter if and only if it is inactive under the lock, and reports it |
| CounterMaps.KnownCounter.Count | internal/counter/known.go:67-95 | The in-place update, in numbers: allowed up to limit + burst, and a slot that is left is charged when its count exceeds the limit |
| CounterMaps.KnownMap.RecordRequest | internal/counter/known.go:50-96 | As for unknown counters, with the limit of the call both as limit and as the count beyond which a slot is charged |
| CounterMaps.KnownMap.Snapshot | internal/counter/known.go:104-112 | Lists every counter exactly once, with its value, in any order |
| CounterMaps.KnownMap.Delete | internal/counter/known.go:124-128 | Removes the key and nothing else |
| CounterMaps.KnownMap.DeleteIfInactive | internal/counter/known.go:134-146 | Deletes the counter if and only if it is inactive under the lock, and reports it |
| AbuseStore.KeyRoundTrip | internal/store/redis.go:135-137 | An API key is written to the key database only, and the prefix strip of the listing gives it back |
| AbuseStore.IpRoundTrip | internal/store/redis.go:139-141 | An address is written to the address database only, and the prefix strip gives it back |
| AbuseStore.OriginOfPlace | internal/cleanup/cleanup.go:172-179 | Transfer fails exactly outside both namespaces, and the place of a record determines its counter |
| AbuseStore.PlaceOfOrigin | internal/store/redis.go:177-198 | Each location in either keyspace is the place of the counter it names |
| AbuseStore.ChangesStep | internal/store/redis.go:77-87 | Appending an outcome appends a log line exactly when it differs from the last one |
| AbuseStore.LogAlternates | internal/store/redis.go:77-87 | The log alternates, and its length tells the current state |
| AbuseStore.Store.constructor | internal/store/redis.go:40-63 | The store starts healthy with an empty log |
| AbuseStore.Store.HealthIsParity | internal/store/redis.go:77-87 | In every valid state the store is healthy just when the number of log lines is even |
| AbuseStore.Store.Observe | internal/store/redis.go:77-87 | The store is healthy just when the reply was not a transport error; the log gets a line exactly when that changes, and stays the outcome sequence with consecutive repeats removed |
| AbuseStore.Store.LookupLimit | internal/store/redis.go:98-114 | By reply: a number is found and returned, a missing key is not found, and an unreadable limit is an error of the lookup but a healthy outcome |
| AbuseStore.Store.LimitExists | internal/store/redis.go:117-124 | Existence, and an error just when Redis is unreachable |
| AbuseStore.Store.UpsertAbuse | internal/store/redis.go:143-156 | Writes the record or not, and fails just when it is not acknowledged |
| AbuseStore.Store.ScanAbuse | internal/store/redis.go:177-213 | If all pages come, every key of every page is shown with its original name and the stored record, and nothing else; a failed page makes the listing fail empty-handed |
| Routing.Limiter.Decide | internal/limiter/limiter.go:56-68 | By reply of Redis, in numbers: which counter of which map is charged, under which limit, what is answered, which result metric moves, and when the error metric does |
| Routing.Limiter.DecideWithKey | internal/limiter/limiter.go:70-101 | A returned number is the limit of the key's own known counter; no limit, an unreadable limit and an unreachable Redis all leave the key to the global limit on its unknown counter |
| Routing.Limiter.DecideWithIP | internal/limiter/limiter.go:103-112 | The global limit on the unknown counter of the address and of nothing else |
| Routing.Limiter.AskStore | internal/limiter/limiter.go:74-81 | The error metric moves just when the lookup fails |
| Routing.KthWithLimit | internal/limiter/limiter.go:83-91 | If Redis returns a limit, only the key's known counter changes, and from a history in order the k-th request of the slot is admitted if and only if k <= limit + burst |
| Routing.KthWithoutLimit | internal/limiter/limiter.go:75-100 | On every other reply only the key's unknown counter changes, and the k-th is admitted if and only if k <= global limit + burst |
| Routing.KthOfAddress | internal/limiter/limiter.go:103-112 | The same for an address |
| Cycles.CycleIsSweep | internal/cleanup/cleanup.go:119-162 | Whatever Redis does, the loop leaves the map of a sweep that serves the same requests and collects |
| Cycles.MemoryIgnoresRedis | internal/cleanup/cleanup.go:120-162 | Two cycles over the same interleaving with any health flags and upsert results leave the same counters and report the same deletions |
| Cycles.UpsertsAreCounted | internal/cleanup/cleanup.go:125-153 | Under any traffic and replies a cycle sends one upsert for each abuser of its snapshot if Redis was up, none otherwise, and counts the acknowledged ones as transferred and the failed ones as errors |
| Cycles.StillThere | internal/cleanup/cleanup.go:135-138 | A snapshotted counter is still present when the loop comes to it |
| Cycles.QuietCycleIsExact | internal/cleanup/cleanup.go:119-162 | Without interference: exactly the active counters stay, exactly the abusers' records are written, and the two counts are those cardinalities |
| Cycles.QuietCycleIgnoresOrder | internal/cleanup/cleanup.go:125 | The whole result is the same for every snapshot order |
| Cycles.SecondCycleDeletesNothing | internal/cleanup/cleanup.go:119-162 | An immediate second cycle deletes nothing; survivors were used within two windows |
| Cycles.QuietKnownCycle | internal/cleanup/cleanup.go:95-117 | Exactly the counters go whose limit is gone, or that are idle with their limit confirmed; an unreachable Redis spares them |
| Cycles.ChecksAreCounted | internal/cleanup/cleanup.go:96-102 | Under any traffic a known cycle checks each limit of its snapshot once and counts the unanswered checks as errors |
| Cleanup.Cleaner.Transfer | internal/cleanup/cleanup.go:164-180 | The record of the re-read counter, in seconds and field by field, goes to the database of its namespace; an unacknowledged upsert, or a key without a namespace, is an error |
| Cleanup.Cleaner.RunUnknown | internal/cleanup/cleanup.go:119-162 | The loop, with any requests between its critical sections and any replies, does what Cycle says for a snapshot of the map; the error metric grows by the failed upserts and transferred is the number of the acknowledged ones |
| Cleanup.Cleaner.RunKnown | internal/cleanup/cleanup.go:95-117 | The loop over known counters does what KnownCycle says for a snapshot of the map; the error metric grows by the unanswered checks |
| Protocol.RequestIsDecide | internal/limiter/limiter.go:56-112 | The transition system's request step changes maps and metrics as Limiter.Decide does |
| Protocol.RequestServes | internal/limiter/limiter.go:56-112 | The request step keeps the promise of Decide by reply, in the same numbers |
| Protocol.CounterIsReplay | internal/counter/unknown.go:46-141 | In every run each counter of either map is the replay of its own key's history |
| Refinement.RunIsCycle | internal/cleanup/cleanup.go:119-162 | A finished loop, beside which no other run writes records or deletes unknown counters, is a cycle over its snapshot whose interludes serve exactly the requests of the run, each in its turn, with the same counters, records and counts |
| Refinement.LoopIgnoresRedis | internal/cleanup/cleanup.go:119-162 | Two loops of two services over the same snapshot, with the same requests in each turn, leave the same counters and delete equally many, whatever Redis does in either |
| Refinement.QuietLoopIsExact | internal/cleanup/cleanup.go:119-162 | A loop of the service without requests and with all upserts acknowledged leaves exactly the active counters, writes exactly the abusers' records and counts both |
| KnownLoops.LoopIsKnownCycle | internal/cleanup/cleanup.go:95-117 | A finished loop over the known map, beside which no other run deletes known counters, is a known cycle with exactly the requests and replies of the run, and the same count |
| KnownLoops.QuietKnownLoopIsExact | internal/cleanup/cleanup.go:95-117 | Without requests, a loop of the service takes away exactly the counters whose limit is reported gone and the idle ones whose limit is confirmed |
| Leftovers.LoopLeavesNoneIdle | internal/cleanup/cleanup.go:119-162 | Whatever requests and other runs do, after a finished loop each counter was used within two windows of its start, unless a request with an older reading has touched it since the snapshot |
| Leftovers.LoopLeavesAllActive | internal/cleanup/cleanup.go:119-162 | Without exception if the requests of the key wait less than two windows |
| Safety.CountersAreSound | internal/counter/unknown.go:63-73 | Slot consistency and the evidence inequality in every reachable state |
| Safety.LiveCounterIsClosedForm | internal/counter/unknown.go:53-91 | The closed forms hold of every live counter of every reachable state, over the requests since its creation |
| Safety.ViolationsAreLongSlots | internal/counter/known.go:67-73 | In every reachable state: the violation hits of a known counter with a constant limit, plus one for an open slot over it, are its slots with more than that many requests |
| Safety.AbuseIsLongSlots | internal/counter/unknown.go:63-69 | In every reachable state: the same for an unknown counter and global limit * multiplier |
| Safety.ClosingLimitCharges | internal/counter/known.go:67-73 | With limits that vary, a slot is charged if and only if its count exceeds the limit returned for the request that leaves it |
| Safety.AbusersWereRefused | internal/counter/unknown.go:63-91 | Abuse implies blocking in every reachable state: line + 1 - (limit + burst) refusals for each charge of a live counter |
| Safety.AlwaysNamed | internal/limiter/limiter.go:93-105 | Unknown counters and abuse records belong to nonempty keys and addresses, in every reachable state |
| Safety.TransferHasAPlace | internal/cleanup/cleanup.go:172-179 | Transfer's error branch is never taken, and each namespace goes to its own database |
| Safety.DecisionsAreTallied | internal/limiter/limiter.go:56-112 | Each result metric counts exactly the decisions of its kind, in every run |
| Safety.EveryDecisionCounts | internal/limiter/limiter.go:56-112 | allowed + blocked_individual + blocked_global is the number of decisions, in every run |
| Safety.RequestsAreConserved | internal/limiter/limiter.go:83-111 | Totals of live counters plus totals of deleted ones are the calls with a key or an address, in every run |
| Safety.LagBoundsSkew | internal/counter/unknown.go:47-50 | A bound on the wait between clock reading and lock, of the requests of one counter, bounds the skew of its history against collections |
| Safety.LagIsInOrder | internal/counter/unknown.go:47-50 | If the requests of one counter come in the order of their readings and wait at most one window, its history is in order, whatever other keys do |
| Safety.PromptIsInOrder | internal/counter/unknown.go:47-50 | If no request of a counter waits for its lock, its history is in order, while cleanup runs at any time |
| Safety.DecisionsIgnoreCollection | internal/counter/unknown.go:164-171 | A decision of the service is the one without collection if the readings of that counter are at most one window behind the collections that removed it |
| Safety.LagKeepsDecisions | internal/counter/unknown.go:164-171 | In particular if the requests of that counter wait at most one window for its lock |
| Margins.CollectionIsFreeIff | internal/counter/unknown.go:186-192 | In all runs whose requests wait at most L, all decisions are those without collection, if and only if L is at most one window |
| Margins.LateDecision | internal/counter/unknown.go:186-192 | For every longer lag: a run that judges a request as the first of its slot that is the one after n, for every positive n |
| Margins.KeepsUpdatesIff | internal/cleanup/cleanup.go:130-155 | In all runs whose requests wait at most L, no update is lost between an acknowledged upsert and the delete, if and only if L is less than two windows |
| Margins.LateUpdate | internal/cleanup/cleanup.go:130-155 | For every lag of two windows or more, and every sound configuration: a run that loses an update |
| Transfers.LagMakesFresh | internal/counter/unknown.go:47-50 | If the requests of a key wait less than two windows, its readings are fresh with respect to every run |
| Transfers.NoUpdateIsLost | internal/cleanup/cleanup.go:130-155 | If the requests of the key that land between re-read and delete read less than two windows before the start of the run, a counter deleted after an acknowledged upsert equals the written record, however many runs there are |
| Transfers.MarginIsExact | internal/counter/unknown.go:129-141 | A late request is deleted with its counter if and only if its reading is two windows or more behind the start |
| Transfers.SnapshotStaysValid | internal/cleanup/cleanup.go:125-139 | Outside overlaps, a counter over the threshold is re-read as the same counter, grown, and still over it |
| Transfers.RecordsCarryEvidence | internal/cleanup/cleanup.go:164-180 | In every run, overlapping or not, each record has abuseHits * (line + 1) + 1 requests or more |
| Transfers.RecordsAreBacked | internal/cleanup/cleanup.go:126-150 | If no request is applied during an overlap of runs, every record in Redis has at least the threshold of charges and the requests to back them |
| Transfers.DeletedAbuserIsOnRecord | internal/cleanup/cleanup.go:140-155 | Outside overlaps and with fresh readings of its key, Redis holds the final fields of each transferred and deleted counter |
| Overlap.OverlapWritesUnderThreshold | cmd/api-ratelimiter/main.go:210-239 | For every sound configuration with a threshold: a run without any waiting, with a request between two overlapping cleanups, that puts a record without charges into Redis |
| Overlap.BackedIff | cmd/api-ratelimiter/main.go:210-239 | All runs keep all records over the threshold if and only if cleanups never overlap, or requests are held back while they do, or the threshold is zero |
| Clients.CallsAreSplit | internal/limiter/limiter.go:70-101 | A client's allowed calls are those of its known counter plus those of its shared counter |
| Clients.ClientBound | internal/limiter/limiter.go:70-101 | The bound on one client's allowed calls in a slot for any lookups, lock order and deletes, by stale requests and losses of its two counters |
| Clients.ClientBoundInOrder | internal/cleanup/cleanup.go:103-107 | With the histories of the client's two counters in order, and whatever other clients do: (1 + D) * (Lmax + burst) + (globalLimit + burst), D being the unconditional deletes in the slot |
| Clients.ClientBoundWithinLag | internal/cleanup/cleanup.go:103-107 | The same bound if the client's own requests come in the order of their readings and wait at most one window |
| Clients.PromptClientBound | internal/cleanup/cleanup.go:103-107 | The same bound if the client's own requests never wait for their locks |
| Clients.UnknownIntervalBound | internal/counter/unknown.go:48-91 | In every run, an interval of k windows allows an unknown key or address whose history is in order (k + 1) * (globalLimit + burst) requests or fewer |
| Clients.DecisionIsExact | internal/limiter/limiter.go:83-111 | Each decision of the service on a counter whose history is in order admits the k-th request of a slot if and only if k is at most its own limit + burst |
| Clients.DecisionByReply | internal/limiter/limiter.go:70-112 | Each decision of the service, by reply: on the history in order of the counter that the reply selects, the k-th call of a slot is admitted if and only if k <= the returned limit, or else the global one, plus burst |
| TopRows.SortSorts | internal/admin/admin.go:385-407 | Sorting rows with distinct keys gives a strictly sorted listing |
| TopRows.SortedIsUnique | internal/admin/admin.go:341-363 | A strictly sorted listing of given rows is unique, so any correct sort gives it |
| TopRows.RowsAreDistinct | internal/admin/admin.go:373-383 | Keys stay distinct when their prefix is stripped |
| TopRows.TopIgnoresOrder | internal/admin/admin.go:336-340 | The table is the same for every snapshot order |
| TopRows.TopIsTop | internal/admin/admin.go:364-367 | Rows of the map, strictly sorted, at most 25, and nothing left out ranks above a shown row |
| TopRows.TopIsTable | internal/admin/admin.go:341-412 | The sorted and truncated rows are the table in those words |
| TopRows.KeyLessIsEarlier | internal/admin/admin.go:390 | The key order: the strings agree up to a position where the first ends or has the smaller character |
| TopRows.TopUnknown | internal/admin/admin.go:370-412 | Field by field: each row shows the counter of its key; larger counts come first, by total, burst hits or hits as the parameter says, and earlier keys among equals; at most 25 rows, and no counter left out ranks before a shown one |
| TopRows.TopKnown | internal/admin/admin.go:325-368 | The same over all known counters |
| Settings.ValidatedIsSound | internal/config/config.go:90-112 | A configuration that passes meets the premises of the theorems above, and the service runs with its numbers |
| Settings.ValidateFindsFirst | internal/config/config.go:71-121 | The check passes if and only if none of the listed complaints holds, and otherwise reports the first that does |
| Settings.WindowInTicks | internal/config/config.go:141-146 | The windows are 1,000,000,000 and 60,000,000,000 nanoseconds long |
| Settings.BlockingCondition | internal/config/config.go:109-112 | For validated configurations: abuse implies blocking if and only if global limit + burst <= global limit * multiplier |
| Settings.ValidateIsTooWeak | internal/config/config.go:109-112 | Limit 10, multiplier 10, burst 99 pass, yet 101 allowed requests in one slot are charged |

## Left out

- HTTP servers, signals, flag parsing, logger set-up, Prometheus registration and HTML pages: input and output only.
- The Redis client, SCAN cursors, timeouts and expiry of keys: Redis is a map with
  arbitrary replies; a failed upsert may or may not have been written.
- Log lines are taken to appear in the order of the compare-and-swaps behind them; only transitions are modelled.
- Cleanup.Run beyond its two loops (gauges, duration, database sizes) and Len, SizeBytes and UnknownMap.Delete (never
  called): they would only add easy members.
- Machine overflow and clock readings before 1970.
- The split between wall clock and monotonic clock: one clock, with a lag between reading and lock.
- The library sort of the admin tables is replaced by an insertion sort; `TopRows.SortedIsUnique` makes the choice
  irrelevant.
- internal/handler/check.go, pagination, delete and purge pages, and the octal parse of the socket mode.
- Settings.Validate: the messages of the errors are not modelled, only which check fails first.
- AbuseStore.Store.UpsertAbuse: leaves out the expiry that is set with each record; Redis here never forgets.
- AbuseStore.Store.ScanAbuse: leaves out rows that are skipped because their own read fails.
- Transfers.DeletedAbuserIsOnRecord: leaves out an administrator's delete and the expiry of records, which are not in
  the state: records change by upserts alone.
- Refinement.RunIsCycle: does not cover two loops over the unknown map at once, which are no single cycle; `Transfers`
  and `Overlap` do.
