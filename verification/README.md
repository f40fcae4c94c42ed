# GearShare, modelled and proved in Dafny

GearShare is a marketplace for renting gear. This project models the parts of its Go code where correctness depends on
how several pieces work together, and proves what they promise. Every main theorem is about all inputs or all runs.

* **Booking creation** (`BookingProtocol`, `BookingTheorems`, `TxRunner`, `Availability`, `Pricing`). Any number of
  calls to `CreateAtomic` interleave, statement by statement, over the shared tables under InnoDB's locks at REPEATABLE
  READ: gap locks that exclude inserts but not one another, row locks of the locking count, deadlocks, lock-wait
  timeouts, other failures, rollback and up to three attempts. Proved: no double booking; one block for each booking;
  linearizability to a sequential first-come allocator, in real-time order; exactly when one of a group of rivals wins,
  among any other traffic; a bound on each call's steps. The class `TxRunner.Runner` follows the Go code statement by
  statement, over the protocol's state, with other calls moving between any two statements.
* **The listing feed** (`Sql`, `Feed`, `FeedGaps`, `FeedMeaning`). Filter, order, page, join, left join and grouping as
  functions on tables; the per-row loop, the batched maps and the single JOIN/GROUP BY query are proved to return the same list, and
  what is on it is said from the tables alone; without foreign keys, exactly when they still agree.
* **Shard routing** (`Sharding`). FNV-1a at the level of bits: exact balance for 2^k shards, k up to 8, and different
  hashes for ids that differ in one byte.
* **The booking lifecycle** (`BookingModel`, `Lifecycle`). Read on a replica, unconditional write on the primary. The
  status histories that interleaving and lag allow are characterised exactly, and so are the runs that obey the table.
* **The consumer pool and the search index** (`ConsumerPool`, `SearchIndex`, `IndexedPool`). Conservation of messages,
  draining and termination of the shutdown, when a crash loses nothing, and exactly when the index is that of the log,
  under failing requests, overlapping handlers and replay.
* **The realtime hub** (`Hub`). No send on a closed channel; what each subscriber gets, in what order, drops and is
  owed.
* **The rate limiter** (`RateLimiter`). The exact number of admissions in a slot, and the tight bound for any interval.
* **The listing cache** (`ListingCache`). Keys that never collide, bounded staleness, and exactly when an invalidation
  protects later hits.
* **The session cookie and the scrypt hash** (`Text`, `Base64`, `SessionCookie`, `ScryptHash`). Round trips and exact
  acceptance, for every keyed hash and every key derivation.

A concurrent component is a state machine: `Enabled` says when a step can be taken, `Apply` what it does, and a run is
any sequence of enabled steps. Where the Go code changes state in place there is also a class whose methods are proved
against the same functions. In `TxRunner.Runner` and `Lifecycle.Repository` the surroundings of a call are inputs: the
steps others take before each statement, which statements fail, how far the replica is.

## Where the code does less than its comments say

* Of rival calls for a free range, every one can exhaust its retries when a wait times out against a transaction that
  has itself timed out for the last time (`BookingTheorems.RivalsCanExhaustEachOther`).
  `BookingTheorems.ExactlyOneWinsIff` says exactly when one of them wins. A loser may end with exhausted retries rather
  than with "unavailable".
* The transition table is checked against a replica, so a rejected booking can become approved and active
  (`Lifecycle.RejectedCanBecomeActive`). `Lifecycle.PathsIffHarmless` says exactly which runs obey the table.
* The consumer is described as at-least-once. With more than one worker a later message can be committed while an
  earlier one is still in its handler, so a crash loses it although nothing failed
  (`ConsumerPool.AtLeastOnceIffOneWorker`), and up to one message less than there are workers
  (`ConsumerPool.FewArePassed`). A failed message is skipped and passed by later commits
  (`ConsumerPool.FailedMessageIsPassed`, `ConsumerPool.OneWorkerPassesNothingIff`).
* `Delete` on the search index does not look at the status of its answer, so a deletion answered with an error counts as
  done and the document stays (`SearchIndex.SwallowedDeleteStays`). Handlers that overlap may also write in the opposite
  order of the log (`IndexedPool.OverlappingWritesReverse`); `IndexedPool.NoOverlapBuildsTheLogIff` is exact for
  handlers that do not.
* The comment on `InvalidateDetail` speaks of dropping all the feed pages; only the default page is dropped
  (`ListingCache.OtherPagesSurvive`). A reader overtaken by the deletion stores its old answer behind it, and a failed
  deletion goes unnoticed (`ListingCache.InvalidationHoldsIff`).
* Prices of rentals longer than 106752 days are those of 106752 days, since the duration saturates
  (`Pricing.PriceIsDaysTimesRate`).
* A shard count that is a positive multiple of 2^32 is truncated to zero, and routing then divides by zero
  (`Sharding.ShardRouter.ShardFor`). A rate-limit window below one second divides by zero too
  (`RateLimiter.Limiter.Allow`). A window is cut to whole seconds for the slots, and when it is longer one window length
  can admit three times the limit (`RateLimiter.WindowBoundIsReached`).
* Cancelled and rejected bookings keep their block, so their dates stay taken (`BookingTheorems.NoDoubleBooking` holds
  whatever the statuses).

## Model

| member | source | states |
|---|---|---|
| BookingTheorems.NoDoubleBooking | internal/booking/tx.go:18-28 | in every reachable state two different bookings of one listing share no day, whatever their statuses |
| BookingTheorems.OneBlockPerBooking | internal/booking/tx.go:71-90 | each booking has exactly one block, with its listing and dates, and each booked block has its booking, across aborts, retries and status changes |
| BookingTheorems.Linearizable | internal/booking/tx.go:59-91 | each answer, granted at the commit or denied at the locking count, is the one a sequential first-come allocator gives on the blocks committed at that moment, and the committed blocks are exactly the allocator's |
| BookingTheorems.EveryCallAnsweredOnce | internal/db/tx.go:42-51 | each answered call appears once and ends with its logged answer; a call that exhausts its retries or fails has no entry, hence no effect |
| BookingTheorems.RealTimeOrder | internal/booking/tx.go:59-91 | a call that ended before another arrived is served before it |
| BookingTheorems.SomeoneWinsIff | internal/db/tx.go:34-51 | for any group of calls that asked for what was free, that no call outside clashes with, and that has ended, whatever calls outside the group and on other listings did: one of them created a booking exactly when, right after the group's last arrival or error, some call of it had won or had an attempt to spare |
| BookingTheorems.ExactlyOneWinsIff | internal/booking/tx.go:18-28 | when the group's calls overlap one another, the same condition is exact for one alone having won |
| BookingTheorems.ExactlyOneWins | internal/booking/tx.go:18-28 | when the group's only errors are lock errors, each because of a call of the group that is not giving up itself, exactly one call has created a booking and every other one is unavailable or exhausted |
| BookingTheorems.AtMostOneWins | internal/booking/tx.go:63-69 | of two calls that clash at most one creates a booking, in every run, whatever errors occur and whatever other calls do |
| BookingTheorems.ChanceLasts | internal/db/tx.go:34-50 | under that condition on lock errors, from its first arrival on the group always has a winner or a call with an attempt to spare |
| BookingTheorems.BlocksComeFromCalls | internal/booking/tx.go:79-91 | every block that was not there at the start is the block of a call that reports its booking as created |
| BookingTheorems.RivalsCanExhaustEachOther | internal/db/tx.go:34-51 | a run in which two rivals for a free range both exhaust three attempts, when timeouts are blamed on a transaction that is itself about to give up |
| BookingTheorems.CallsOwnTheirRows | internal/booking/tx.go:71-97 | every call that reports success owns its own row with the requested listing, renter, dates and price, and no two calls report the same one |
| BookingTheorems.CallsTakeFewSteps | internal/db/tx.go:34-51 | no call takes more than three attempts of seven steps, whatever the others do |
| BookingTheorems.NoCallIsStuck | internal/db/tx.go:16-24 | a call that has not ended can always take a step of its own: when its statement must wait, the wait can time out |
| BookingProtocol.ReachableInv | internal/availability/repository.go:21-34 | in every reachable state no row of anyone else overlaps the range of a live transaction that counted zero, ids of pending rows are unused elsewhere, and the tables correspond |
| BookingProtocol.StepKeepsGuarded | internal/availability/repository.go:25-44 | every step keeps that invariant: an insert waits for others' gap locks and a count for others' uncommitted rows |
| BookingProtocol.CommitKeepsTables | internal/booking/tx.go:79-90 | a commit keeps the one-to-one match of bookings and blocks and keeps booked blocks apart |
| BookingProtocol.WaitsFor | internal/availability/repository.go:25-44 | a count waits exactly for uncommitted rows in its range and rows locked by another count, an insert exactly for gap locks of others on the listing that reach its start |
| TxRunner.Runner.WithinTransaction | internal/db/tx.go:32-52 | at most three attempts, every one before the last failed with a retryable error, success exactly when an attempt, the last, committed, the captured booking is then that attempt's row; a fatal error needs a statement that was to fail or a price that does not fit, a retry needs a wait for another call's lock or a commit that was to fail; undisturbed, the first attempt answers "unavailable" exactly when the range is taken and succeeds otherwise |
| TxRunner.Runner.AttemptTx | internal/db/tx.go:54-74 | given what surrounds it, an attempt commits with its booking in the table, or is rolled back in the state its error calls for; the count, if it can run, alone decides "unavailable"; a fatal error or a lock error has its cause; undisturbed, it succeeds exactly when the range is free |
| TxRunner.Runner.CommitTx | internal/db/tx.go:60-70 | the commit fails exactly when it was to fail; otherwise it adds the booking; a failed one leaves the call rolled back and settled |
| TxRunner.Runner.Body | internal/booking/tx.go:59-91 | success leaves both rows pending and the booking captured; the count, if it can run, alone decides "unavailable"; every other error has its cause |
| TxRunner.Runner.CountOverlappingRows | internal/availability/repository.go:25-34 | it succeeds exactly when it is not to fail and no conflicting lock is held, and is then the number of committed overlapping blocks at that moment; otherwise it reports the failure or the lock conflict |
| TxRunner.Runner.CreateInTx | internal/booking/repository.go:28-36 | it fails exactly when it is to fail or the price does not fit its column; otherwise the booking row is pending under a new id |
| TxRunner.Runner.InsertBlockRow | internal/availability/repository.go:36-44 | it succeeds exactly when it is not to fail and no gap lock covers its start, and the block of that booking is then pending |
| TxRunner.Runner.CreateAtomic | internal/booking/tx.go:47-94 | a missing listing or a reversed range changes nothing; otherwise the call takes only steps of the protocol and its result is its outcome there; success means the booking is committed with the requested dates and the computed price; undisturbed and with no locks held on the listing it succeeds exactly when the range is free and is unavailable otherwise; fatal errors and exhausted retries have a cause outside the call |
| Availability.CountIsZeroWhenFree | internal/availability/repository.go:25-34 | the count is positive exactly when some block overlaps |
| Availability.CountGrowsByMatches | internal/availability/repository.go:25-34 | the count is zero on no rows and grows by one with each overlapping row, and with no other |
| Availability.MatchesIsDatesOverlap | internal/availability/repository.go:27-28 | the SQL condition is the date predicate of the service layer on one listing's rows |
| Pricing.PriceIsDaysTimesRate | internal/booking/pricing.go:14-30 | an error exactly for a reversed range; otherwise no 64-bit overflow, and days times price exactly up to 106751 days apart or when the gear is free |
| Pricing.PriceIsAdditive | internal/booking/pricing.go:14-30 | splitting a rental into adjacent ones keeps the total exactly when the whole range is at most 106751 days apart or the gear is free |
| Pricing.NightsBetweenInstants | internal/booking/pricing.go:14-20 | for any two instants in order the charged days are the whole days between them and one more |
| Pricing.MulInt64Wraps | internal/booking/pricing.go:29-29 | the product is that of 64-bit integers, wrapped |
| Pricing.OverlapMeansSharedDay | internal/booking/pricing.go:37-39 | two proper ranges overlap exactly when some day belongs to both |
| Feed.AllFeedsAgree | internal/listing/query_optimized.go:10-17 | on every database that meets the schema's keys, and for every limit and offset, the three services return the same list in the same order |
| FeedMeaning.FeedShowsThePage | internal/listing/query_optimized.go:39-57 | said from the tables alone: place i of what all three services return is the active listing that exactly offset + i active listings precede, newest first, with each field its own, its owner's name, its category's name and its own reviews' count and average |
| FeedMeaning.SummaryIsOfOwnReviews | internal/review/repository.go:34-36 | a listing's count is the number of reviews whose booking is of that listing, its average times the count is the sum of exactly their ratings, and without any both are zero |
| FeedMeaning.PageHoldsRanks | internal/listing/repository.go:48-58 | the page holds exactly the active listings with ranks offset to offset + limit - 1 that exist, in order |
| FeedMeaning.ItemDescribes | internal/listing/query_naive.go:61-72 | each field of an item is the one of its listing, owner, category and reviews |
| Feed.NaiveGetFeed | internal/listing/query_naive.go:36-75 | the loop fails exactly when some row of the page lacks its owner or category, with the error of the first such row, and otherwise yields the item of each row of the page |
| Feed.NaiveItem | internal/listing/query_naive.go:44-72 | the lookups for one row yield its item, or the error of the first lookup that finds nothing |
| Feed.BatchedGetFeed | internal/listing/loader.go:35-91 | four batched queries and two loops yield the item of each row of the page, zero values for missing rows included |
| Feed.UsersByIDs | internal/user/repository.go:100-122 | the map holds exactly the requested users that exist |
| Feed.CategoriesByIDs | internal/category/repository.go:40-60 | the map holds exactly the requested categories that exist |
| Feed.GetRatingSummaries | internal/review/repository.go:47-73 | the map holds the per-listing summary of exactly the requested listings that have reviews |
| Feed.GroupIsSummary | internal/review/repository.go:53-57 | grouping gives one row for each listing with ratings, equal to that listing's own aggregate, and none for the others |
| Feed.OptimizedGetFeed | internal/listing/query_optimized.go:96-110 | the items are the query's rows, and under the schema the items of the rows of the page |
| Feed.RatingJoin | internal/listing/query_optimized.go:49-54 | the grouped LEFT JOIN gives each listing its own aggregate, zeros for no review |
| Feed.JoinIsRowByRow | internal/listing/query_optimized.go:46-54 | under the foreign and primary keys the whole join is one row for each listing |
| Feed.JoinThenCut | internal/listing/query_optimized.go:39-57 | filtering, ordering and cutting the joined rows is enriching the rows of the cut page |
| Feed.PageOrderIsDetermined | internal/listing/repository.go:48-58 | any list of the active listings in the asked order has the same pages, however it was sorted |
| FeedGaps.FeedsAgreeIff | internal/listing/loader.go:71-89 | on any tables with unique ids, foreign keys or not: the three services return the same list exactly when the page is empty by its bounds or every sorted active listing up to the end of the page has its owner and its category |
| FeedGaps.OptimizedSkipsGaps | internal/listing/query_optimized.go:46-57 | the single query returns the page of the listings that have owner and category |
| Feed.DanglingOwnerSplitsThem | internal/listing/loader.go:71-75 | an instance of disagreement: the loop stops with the owner error, the maps give an item with zero owner, the query returns no item |
| Sql.OrderByOrders | internal/listing/query_optimized.go:56-56 | ordering keeps the rows, as a multiset, and orders them |
| Sql.OrderIsUnique | internal/listing/query_optimized.go:56-56 | only one list has these rows in this order |
| Sql.JoinIsMap | internal/listing/query_optimized.go:47-48 | a join in which each row has exactly one match is a map |
| Sql.LeftJoinIsMap | internal/listing/query_optimized.go:49-54 | a left join in which each row has at most one match is a map |
| Sql.OrderByOfMap | internal/listing/query_optimized.go:55-57 | ordering commutes with enriching the rows when the order looks at the original row |
| Sharding.SharesDifferByAtMostOne | internal/availability/sharding.go:32-42 | with 2^k shards, k up to 8, the shards' shares of owners 0..n-1 are n/2^k or one more, for every n |
| Sharding.BlockHitsEachShardOnce | internal/availability/sharding.go:32-42 | every aligned block of 2^k consecutive ids puts exactly one owner on each shard |
| Sharding.OneByteChangesHash | internal/availability/sharding.go:36-41 | ids that differ in exactly one byte have different 32-bit hashes |
| Sharding.MixOneToOneInState | internal/availability/sharding.go:40-41 | one hash step is one-to-one in the state, because the prime is odd |
| Sharding.MixOneToOneInByte | internal/availability/sharding.go:40-41 | with equal state, the low k bits of the result determine the low k bits of the byte |
| Sharding.BytesDetermineOwner | internal/availability/sharding.go:36-39 | two signed 64-bit ids with the same big-endian bytes are equal |
| Sharding.ShardRouter.ShardFor | internal/availability/sharding.go:32-42 | filling the buffer byte by byte and hashing it routes to the hash modulo the count, within range; it panics exactly for a zero count |
| Sharding.HashOfLetter | internal/availability/sharding.go:33-41 | the hash of one letter is the published 32-bit FNV-1a value |
| Sharding.ShardRouter.constructor | internal/availability/sharding.go:21-26 | the count is at least one before truncation to 32 bits, and zero after it exactly for positive multiples of 2^32 |
| Lifecycle.ReachableHistories | internal/booking/repository.go:55-69 | the status histories that interleaving and replica lag allow are exactly those that start as requested and in which each status follows, in the table, some status held earlier |
| Lifecycle.EveryHistoryIsJustified | internal/booking/repository.go:55-69 | every run keeps such histories |
| Lifecycle.NoLifecycleStageIsSkipped | internal/booking/model.go:29-36 | no booking returns to requested, none is active without an earlier approval, none completed or disputed without having been active after an approval |
| BookingModel.EnteredFrom | internal/booking/model.go:32-45 | from which statuses each status can be entered, and that exactly rejected, completed, cancelled and disputed are final |
| Lifecycle.ReadDecides | internal/booking/repository.go:55-62 | an update that reads nothing is not found, one whose read status does not lead to the new one is refused, any other goes on |
| Lifecycle.PathsIffHarmless | internal/booking/repository.go:55-69 | in every run, whatever the lag and interleaving, every history is a path in the table exactly when at each write the status read was still current, or was requested while the booking had become approved and was now cancelled |
| Lifecycle.AllowedIffHarmless | internal/booking/model.go:32-45 | after a path, a step justified by an earlier status is allowed by the table exactly in those two cases |
| Lifecycle.FreshReadsGivePaths | internal/booking/model.go:32-45 | in particular every history is a path when the status read is current at each write, as in serial runs on an up-to-date replica |
| Lifecycle.RejectedCanBecomeActive | internal/booking/repository.go:64-65 | the history requested, rejected, approved, active is reachable and not a path |
| Lifecycle.Repository.UpdateStatus | internal/booking/repository.go:55-69 | given how far the replica is and what others do between read and write: not found exactly when the replica has nothing of the booking, success exactly when the table allows the new status after the one there; on success the status is added to whatever the others made of the booking; on error nothing was written |
| Lifecycle.Repository.GetByID | internal/booking/repository.go:38-50 | a read gives the last status the replica has applied, the current one when it has applied all, and none when it has applied none |
| ConsumerPool.MessagesAreConserved | internal/eventbus/kafka_consumer.go:46-89 | each fetched message is in hand, queued, in a handler, finished or dropped, in exactly one of them; the queue keeps fetch order; at most depth + workers + 1 are unfinished |
| ConsumerPool.CommitOnlyAfterSuccess | internal/eventbus/kafka_consumer.go:55-61 | a message is passed to the commit only after its own handler returned nil |
| ConsumerPool.NoSendAfterClose | internal/eventbus/kafka_consumer.go:70-87 | the queue is closed at most once and never sent to afterwards |
| ConsumerPool.ReturnMeansDrained | internal/eventbus/kafka_consumer.go:69-87 | when Run returns all workers have stopped, the queue is empty, all but at most one message dropped at shutdown were handled, and every success was passed to the commit |
| ConsumerPool.ReturnsErrorIff | internal/eventbus/kafka_consumer.go:67-88 | Run returns an error exactly when a fetch failed and the context was not cancelled by then; a message is dropped only on a cancelled context |
| ConsumerPool.ShutdownEnds | internal/eventbus/kafka_consumer.go:70-78 | once draining, every continuation is bounded in length, and one that cannot go on has returned |
| ConsumerPool.DrainNeverSticks | internal/eventbus/kafka_consumer.go:70-73 | while draining some step can be taken |
| ConsumerPool.AtLeastOnceIffOneWorker | internal/eventbus/kafka_consumer.go:43-64 | runs in which no handler fails never have a committed message behind one not yet handled, exactly when there is a single worker |
| ConsumerPool.OneWorkerPassesNothingIff | internal/eventbus/kafka_consumer.go:52-64 | with one worker and any failures: everything fetched before a committed message has been handled successfully, exactly when no committed message was handled after a failed one, and exactly when the committed messages are the first ones fetched |
| ConsumerPool.FewArePassed | internal/eventbus/kafka_consumer.go:52-64 | whatever fails, of the messages fetched before a committed one the handlers of all but at most `workers - 1` have returned |
| ConsumerPool.AsManyCanBePassed | internal/eventbus/kafka_consumer.go:52-64 | for every number of workers some run without failures has exactly that many unreturned |
| ConsumerPool.SecondCommitted | internal/eventbus/kafka_consumer.go:52-64 | with two workers or more, a run without any failure in which the second message is committed while the first is still in its handler |
| ConsumerPool.FailedMessageIsPassed | internal/eventbus/kafka_consumer.go:55-58 | with two workers or more, a run in which a later message is committed and an earlier one then fails and is skipped |
| ConsumerPool.OneWorkerKeepsOrder | internal/eventbus/kafka_consumer.go:52-64 | with one worker messages finish in fetch order |
| SearchIndex.Index.Handle | cmd/search-indexer/main.go:71-85 | the handler returns nil for a decoded event whose request succeeded, and also for a deletion answered with an error status; when the request takes effect the listing's document is gone or shows the event field by field, and no other document changes; otherwise nothing does |
| SearchIndex.Index.Upsert | cmd/search-indexer/esindex.go:72-95 | nil exactly on success; the document is written exactly when the request took effect |
| SearchIndex.Index.Delete | cmd/search-indexer/esindex.go:97-108 | nil for every answer, error status or not; the document goes exactly when the request took effect |
| SearchIndex.BuiltIsTheLogIff | cmd/search-indexer/esindex.go:72-108 | whatever was written, in whatever order and with whatever failures: the index is the log's exactly when for each listing the last effective write leaves what the last event leaves |
| SearchIndex.WrittenInOrderIff | cmd/search-indexer/esindex.go:72-108 | writes made in log order give the log's index exactly when no listing's last write failed to take effect on an entry it would have changed |
| SearchIndex.OnlyDeletionsAreLost | cmd/search-indexer/esindex.go:97-108 | when every handler returned nil, a wrong entry is a document that the log deletes and the index still has |
| SearchIndex.SwallowedDeleteStays | cmd/search-indexer/esindex.go:97-108 | a creation followed by a deletion answered with an error status: both handlers return nil and the document stays |
| SearchIndex.LastEventDecides | cmd/search-indexer/main.go:76-84 | each entry is decided by the last event of its own listing and by nothing else in the log |
| SearchIndex.IndexShowsLastEvents | cmd/search-indexer/main.go:76-84 | after any writes a listing is indexed exactly when its last effective event is no deletion, and its document has each field of that event, an empty owner name and rating zero |
| SearchIndex.ReorderingAcrossListings | cmd/search-indexer/main.go:71-85 | any order that keeps each listing's events in log order gives the same index |
| SearchIndex.ReplayIsHarmless | cmd/search-indexer/main.go:79-80 | replaying the log from any earlier offset over the finished index leaves it as it was |
| SearchIndex.ReplayRepairsIff | cmd/search-indexer/main.go:71-85 | replaying a tail repairs any index exactly when every listing without an event in the tail was already right |
| SearchIndex.OrderWithinListingMatters | cmd/search-indexer/main.go:76-84 | swapping two events of one listing keeps the index exactly when both have the same effect |
| IndexedPool.NoOverlapBuildsTheLogIff | internal/eventbus/kafka_consumer.go:46-89 | any number of workers, any failures: if no message is taken while a handler still has a request for the same listing to send, then once Run has returned with nothing dropped the index is that of the fetched log exactly when no listing's last write was lost |
| IndexedPool.AlwaysTheLogIffOneWorker | internal/eventbus/kafka_consumer.go:52-64 | when every fetched message has been handled and every request has worked, the index is in all runs the log's exactly for a pool with a single worker |
| IndexedPool.NoOverlapKeepsOnlyDeleted | cmd/search-indexer/esindex.go:97-108 | without such overlaps, if every handler returned nil, each entry is the log's or a document that the log deletes |
| IndexedPool.OverlappingWritesReverse | internal/eventbus/kafka_consumer.go:52-64 | with two workers or more, a run in which two handlers of one listing return nil in log order and the older event decides the document, since their writes met the index in reverse |
| IndexedPool.OnlyEventsSucceed | cmd/search-indexer/main.go:72-75 | a handler returns nil only for a value that is an event |
| IndexedPool.OneWorkerBuildsTheLogIff | internal/eventbus/kafka_consumer.go:46-89 | with one worker the same without any condition on the handlers |
| IndexedPool.OneWorkerKeepsOnlyDeleted | cmd/search-indexer/esindex.go:97-108 | with one worker each entry is the log's or a document that the log deletes, if every handler returned nil |
| IndexedPool.FullReplayRepairs | internal/eventbus/kafka_consumer.go:10-14 | whatever failed, was swallowed, reordered or dropped, a serial replay of a log covering the fetched messages in which every write takes effect gives the log's index, and further replays change nothing |
| Hub.NeverSendsOnClosed | internal/realtime/hub.go:49-83 | no interleaving sends on a closed channel; channels in the map are open and under their own key; no key has an empty set |
| Hub.EveryPublishIsDeliveredOrDropped | internal/realtime/hub.go:71-83 | a subscriber receives the accepted payloads in order, at most eight behind; at every moment each payload published on its key while it was subscribed has been accepted, dropped or is still to be offered, exactly as often as published; with nothing left to offer it, accepted and dropped payloads are all of them |
| Hub.DropsOnlyWhenFull | internal/realtime/hub.go:75-81 | a payload is dropped only on a full buffer, and channels of other keys are untouched |
| Hub.MessagesArriveInOrder | internal/realtime/hub.go:71-83 | when the publishes on a key do not overlap, what a subscriber accepts is a subsequence of the payloads published on its key while it was subscribed |
| Hub.BufferedCanBeReceived | internal/realtime/hub.go:59-67 | whatever is buffered can still be received, also after the channel was closed |
| Hub.PublishNeverWaits | internal/realtime/hub.go:71-83 | a publish can begin beside others, offer to every channel it has left, and end |
| Hub.WritersWaitForPublishes | internal/realtime/hub.go:52-66 | subscribing and cancelling wait for publishes only, and closing for nothing |
| Hub.Registry.SubscribeTo | internal/realtime/hub.go:49-57 | the channel is registered under its key, creating the key's set when missing |
| Hub.Registry.RemoveChannel | internal/realtime/hub.go:59-65 | the channel leaves the map, and the key with it when it was the last |
| Hub.Registry.PublishTo | internal/realtime/hub.go:71-83 | each channel of the key is offered the payload once, in whatever order, and no other channel changes |
| Hub.OfferEach | internal/realtime/hub.go:74-82 | the loop over the set gives the same channels in every iteration order |
| RateLimiter.SlotAdmitsExactly | internal/cache/ratelimiter.go:42-55 | in every run and slot exactly min(max, arrivals) requests of a key are admitted |
| RateLimiter.CounterLivesThroughItsSlot | internal/cache/ratelimiter.go:49-53 | the expiry never removes a counter inside its own slot |
| RateLimiter.ExpirySetOnce | internal/cache/ratelimiter.go:49-53 | exactly the first request of a slot sets the expiry of its counter, once, and to at most one slot length ahead |
| RateLimiter.AnyIntervalAdmitsAtMost | internal/cache/ratelimiter.go:42-55 | every interval, of any length, admits at most the limit for each slot it meets |
| RateLimiter.AnyWindowAdmitsAtMost | internal/cache/ratelimiter.go:21-28 | for windows and arrivals in whole milliseconds: every interval of one window length admits at most twice the limit when the window exceeds whole seconds by at most one millisecond, and at most three times otherwise |
| RateLimiter.WindowBoundIsReached | internal/cache/ratelimiter.go:21-28 | for every limit and window some run admits exactly that many in one window length |
| RateLimiter.WindowKeyOneToOne | internal/cache/ratelimiter.go:43-43 | different keys and slots never share a counter |
| RateLimiter.KnownKey | internal/cache/ratelimiter.go:43-43 | an instance of a counter's key, spelled out |
| RateLimiter.Limiter.Allow | internal/cache/ratelimiter.go:42-55 | the count is incremented or restarted after expiry, the first request of a counter sets the expiry, and the answer compares the new count with the limit |
| ListingCache.BoundedStaleness | internal/listing/handler.go:45-66 | under every interleaving each body served answers its own query with data read less than `delay + ttl` ago, `delay` bounding the time from a request's read to its store |
| ListingCache.StalenessIsReached | internal/cache/listing_cache.go:76-78 | a body one millisecond younger than that bound can be served |
| ListingCache.InvalidationHoldsIff | internal/cache/listing_cache.go:63-66 | after a deletion, successful or not, all later hits serve data read since it exactly when it overtook no reader that may still store older data, and it succeeded or met no live older entry |
| ListingCache.FailedDropKeeps | internal/cache/listing_cache.go:63-66 | after a deletion that failed unnoticed, the next request can hit the older entry |
| ListingCache.OtherPagesSurvive | internal/cache/listing_cache.go:58-66 | right after an invalidation that succeeded a cached feed page still hits its old data, unless it is the default page |
| ListingCache.KeyOneToOne | internal/cache/listing_cache.go:30-36 | no two queries share a key |
| ListingCache.KnownKeys | internal/cache/listing_cache.go:30-36 | the keys of the default page and of a listing, spelled out |
| ListingCache.EntriesStay | internal/cache/listing_cache.go:63-78 | an entry leaves only by being dropped and changes only by being stored again |
| ListingCache.Cache.InvalidateDetail | internal/cache/listing_cache.go:63-66 | of the cached queries exactly the listing's detail and the default feed page are dropped, each unless its deletion fails, which goes unnoticed |
| ListingCache.Cache.Set | internal/cache/listing_cache.go:76-78 | the payload becomes the entry of its query and of no other; a Redis failure changes nothing |
| ListingCache.Cache.Get | internal/cache/listing_cache.go:68-74 | a hit is exactly the payload last stored for this very query and not dropped since, unexpired; a Redis failure is a miss |
| ListingCache.Handler.GetFeed | internal/listing/handler.go:31-67 | defaults and bounds of the page, then a hit is served unchanged, and a miss serves and stores the service's answer unless that fails |
| ListingCache.Handler.GetDetail | internal/listing/handler.go:69-98 | a malformed id touches nothing; otherwise as for the feed, with its own error |
| ListingCache.Page | internal/listing/handler.go:32-43 | the page asked for always has a limit of 1 to 100 and a non-negative 64-bit offset |
| ListingCache.PageOfPrinted | internal/listing/handler.go:34-43 | printed numbers name their own page exactly when they are within bounds |
| ListingCache.PageDefaults | internal/listing/handler.go:32-43 | a limit that is no number from 1 to 100 gives 20, an offset that is no natural 64-bit number gives 0, and any other gives its value |
| SessionCookie.IssuedCookieVerifies | internal/auth/session_cookie.go:55-123 | for every int64 user and expiry an issued cookie verifies to its user up to and including its expiry, and is expired after it |
| SessionCookie.AcceptedIsGenuine | internal/auth/session_cookie.go:83-123 | a cookie is accepted for a user exactly when it carries the signature of its own decoded payload, whose fields are that user and an expiry not yet passed |
| SessionCookie.RefusedCookies | internal/auth/session_cookie.go:84-104 | exactly which error a missing cookie, a missing dot, an undecodable payload and a wrong signature give |
| SessionCookie.RefusedFields | internal/auth/session_cookie.go:106-120 | exactly which error a missing bar, a malformed user id, a malformed expiry and a past expiry give |
| SessionCookie.SignatureDecodes | internal/auth/session_cookie.go:43-47 | the signature is the keyed hash of the payload in the URL alphabet |
| SessionCookie.CookiesAreDistinct | internal/auth/session_cookie.go:55-59 | different users or expiries never share a cookie |
| ScryptHash.HashAcceptsItsPassword | internal/auth/password_scrypt.go:30-74 | a stored hash accepts exactly the passwords that derive the same key under its own parameters; the verifying hasher's parameters play no part |
| ScryptHash.AcceptedIsAHash | internal/auth/password_scrypt.go:50-74 | a text is accepted exactly when it is seven fields joined by dollar signs, the second naming the scheme, whose numbers and encodings give the stored key; any other text is refused |
| ScryptHash.HashSpelledOut | internal/auth/password_scrypt.go:43-47 | the stored text, spelled out |
| ScryptHash.FieldsComeBack | internal/auth/password_scrypt.go:43-54 | splitting a stored hash gives back its seven fields |
| ScryptHash.ScanThreePrinted | internal/auth/password_scrypt.go:56-59 | scanning three printed int64 numbers with a space between them gives them back |
| Base64.DecodeEncode | internal/auth/session_cookie.go:95-99 | decoding undoes encoding on all byte strings, in both alphabets |
| Base64.DecodesIff | internal/auth/password_scrypt.go:60-67 | a text is refused exactly when, line breaks aside, it has a character outside the alphabet or one more than whole groups of four |
| Base64.KnownEncodings | internal/auth/session_cookie.go:59-59 | the test vectors of section 10 of RFC 4648 for up to three bytes |
| Base64.KnownAlphabets | internal/auth/password_scrypt.go:43-47 | the standard and the URL alphabet |
| Base64.EncodeAvoidsSeparators | internal/auth/session_cookie.go:59-59 | encoded text contains neither a dot nor a dollar sign |
| Text.ParsePrintInt | internal/auth/session_cookie.go:110-117 | parsing undoes printing on all 64-bit integers |
| Text.ParseInt64Iff | internal/auth/session_cookie.go:110-117 | exactly the decimal numerals of 64-bit integers, with an optional sign, are accepted, each for its place value |
| Text.JoinSplit | internal/auth/password_scrypt.go:51-51 | joining undoes splitting, and no part has a separator |
| Text.CutJoin | internal/auth/session_cookie.go:89-93 | splitting at the first separator gives back both parts when the first has none |
| Text.SplitJoinAll | internal/auth/password_scrypt.go:50-54 | splitting undoes joining when no part contains the separator |

## Left out

- BookingTheorems.ExactlyOneWins: a sufficient condition on the lock errors, for readers who want one about the errors alone; the exact one is in BookingTheorems.ExactlyOneWinsIff, and that some condition is needed is BookingTheorems.RivalsCanExhaustEachOther.
- BookingProtocol.Enabled: lets a lock wait fail against any transaction that holds locks, where InnoDB names a particular conflicting one; the theorems hold for the larger set of runs.
- TxRunner.Runner.CreateAtomic: ends with the transaction; the final re-read goes to a replica that may lag, and may report "not found" for a committed booking.
- TxRunner.Runner.WithinTransaction: the pause with jitter between attempts, the retry metric and a panic inside the body are not modelled.
- Lifecycle.Repository.UpdateStatus: failures of the read or of the write statement are not modelled; both leave the row as it was.
- Feed.AllFeedsAgree: one snapshot of the tables for all queries of a call, listings with equal creation time ordered by id, averages as exact rationals, and database failures are not modelled.
- Sharding.SharesDifferByAtMostOne: stated for ids 0..n-1 and shard counts 2^k up to 256; other counts are left open.
- RateLimiter.SlotAdmitsExactly: replicas share one clock, reading it and INCR are one step, and Redis errors, which let the request pass, are not modelled.
- RateLimiter.Limiter.Allow: runs its EXPIRE at once; in the machine it comes at any later moment or never.
- RateLimiter.AnyWindowAdmitsAtMost: windows and arrivals are whole milliseconds, so the change from two to three slots comes at two milliseconds beyond whole seconds; with finer times any excess can be enough.
- ListingCache.BoundedStaleness: times are on one clock and in whole milliseconds; the age counts from the read, so replica lag comes on top; a lifetime of zero, which Redis takes as no expiry, is not modelled.
- ListingCache.Handler.GetFeed: the body is any value; JSON, ETag and the response headers are not modelled.
- ScryptHash.HashAcceptsItsPassword: the key derivation is any function that returns keys of the length asked for.
- SessionCookie.AcceptedIsGenuine: the keyed hash is any function on bytes; how hard it is to forge is out of scope, and so is comparing in constant time.
- Hub.MessagesArriveInOrder: publishes on one key that overlap in time may be accepted in either order, as in the code; cancelling twice, which panics, is not modelled.
- ConsumerPool.MessagesAreConserved: the broker's side, redelivery to another consumer, is not modelled, and a failed commit is only logged.
- ConsumerPool.OneWorkerPassesNothingIff: one partition, in which a commit covers every message fetched before.
- IndexedPool.NoOverlapBuildsTheLogIff: a request without an answer has taken effect by the time its handler returns or never does; one that takes effect later is not modelled.
- The single-listing query of internal/listing/query_optimized.go and the review insert would only add easy members.
- Routing, JSON, authentication by tokens, metrics, mail, notifications, long polling, thumbnails, configuration, the web pages and deployment are not modelled.
