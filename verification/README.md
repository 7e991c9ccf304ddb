# Pick-up point orders: a verified model

A pick-up point takes in orders, issues them to their recipients, takes refunds for 48 hours and
returns expired orders to the courier. This project models how the service keeps that state: the
Postgres tables, the Redis cache beside them, the cursor reports, the outbox that feeds Kafka and
the audit pipeline in front of it. It proves what holds in every run of them.

`dafny verify dfyconfig.toml` checks everything.

## How it is laid out

| file | part of the system |
|---|---|
| Orders, Packaging | order value with its derived status; packaging parser and price list |
| OrderDb, OrderDatabase | the tables as a value with one function per write; the storage code as a class with its loops |
| Lifecycle, Batches, PackagingTable | invariants of every serial run; issue and refund batches; the price table |
| WriteRules | what accepts and returns do, told by the request, the stamps and the clock |
| CommitOrder | writes that commit in any order, with clock readings taken before the row locks |
| ReturnGuard, Windows, AuditReplay | check-then-delete races; the time windows; status events against the table |
| Keyset, Reports, ReportContents, ReportWalk | keyset pagination, the three reports and what they return, a walk through a report while orders change |
| ReportSplit | the same walk with the two queries of a page apart |
| Calendar, CursorText, HistoryClient | the history cursor as text, and the walk of a client that follows it |
| CachedOrders, CacheCoherence, OrderService, ActiveReads | cache and table run one call at a time; the service methods as a class; what reads answer and calls leave behind |
| AsyncCache, LateDeletes, CacheDrain, CacheRefinement | the same with every cache access a separate, losable step, and the check and the delete of a return apart; what the pending accesses lead to |
| Outbox, OutboxInvariant, OutboxFairness, OutboxWorker, OutboxProgress | the outbox as a step machine, its invariants and bounds, the worker as a class, and what it gets done |
| AuditPipeline, AuditLog | fan-out to pools, channels and batching workers; the log they write against the table |

Code that changes things step by step is a class or a method with the source's loops, proved equal
to a function (`Database.State() == Apply(old ...)`, `Service.State() == Step(old ...)`,
`Worker.Outbox(...) == Run(old ...)`); the theorems are about runs of those functions.

Times are integers after Go's zero time, and a serial run is one in which each write reads the
clock no earlier than the write before it. Every clock reading the code makes is a separate input.
CommitOrder, the report walks, AsyncCache and AuditReplay do not ask for serial runs: there a write
may carry a reading older than that of a write before it.

## What the code does that its names do not say

- An id without a row aborts a whole issue or refund batch: `ScanOrder` has already turned "no rows"
  into another error, so `lockAndGetOrder` reports a database error and the `continue` branches of
  the two loops cannot be reached (`BatchRefinement`).
- Issue and refund read the clock before they lock the rows. With a reading older than the stamp it
  follows, a batch reports the order as processed and its stage stays behind
  (`ReadingMustNotBeStale`). Stamps stay in order exactly when this never happens
  (`ChronologyIffFresh`). A stale issue is the worse half: the order still counts as stored, and its
  return deletes a row that was issued (`StaleIssueIsLost`, `StaleIssueIsReachable`). The time
  windows hold even so (`WindowsInAnyOrder`).
- A return checks the row and deletes by order id later. The delete can hit an issued row in three
  ways: at the very instant of expiry (`DeleteSafeIffStrictlyPast`), after another return and a
  re-accept of the id (`DeleteCanHitANewRow`), and when an issue that read the clock before the
  expiry commits after the check (`EarlierReadingBreaksCopies`).
- An order cached at the last instant of its refund window, or after its window, gets no Redis
  deadline (`DeadlineIsEndOfWindow`, `InactiveHasNoDeadline`).
- An accept on a cold user index hides the user's other active orders (`ReadAfterAccept`).
- A refund leaves the user index alone, so a warm index keeps listing the refunded order as an
  active one until the index is lost (`ReadAfterRefund`, `RefundedStaysListed`).
- Late cache writes do not keep cache and table coherent (`LateCopyOutlivesRow`). Throughout a run
  the accesses still pending can only end with a row for every cached order exactly when each delete
  of a return finds no copy of its order coming, and no delete of a cached key without a row is lost
  (`RowsThroughoutIffQuiet`, `DeletedCopyGoesIff`).
- Late cache writes never invent an issue or refund (`AsyncSafety`), as long as no delete of a return
  removes an issued row: such a delete leaves an issued copy without a row
  (`LateDeleteSafeIffStrictlyPast`, `OtherRowsDeleteBreaksCopies`).
- The cursor's serial id is read after the page, by order id. If the last order is returned and
  accepted again in between, the history offers rows of the page with the same time again, and the
  orders of a user start again from the top (`OfferedAgainIff`, `RestartsFromTop`,
  `SplitRepeatIsReachable`). The refund report cannot be hit (`RefundWalkNeverRepeats`).
- The events of a stale batch name a stage its orders do not reach (`ReplayIffFresh`). Each event
  waits in a goroutine of its own, so two events of one order can be logged the wrong way round
  (`SwappedLogMisleads`); the log tells the truth exactly when the last one to enter for each order
  says what the last one emitted says (`LogReplayIff`).
- A task left PROCESSING by a stop, a refused save or a reported mark is never picked up again, so
  not every task ends FINISHED or NO_ATTEMPTS_LEFT (`GetsStuckIff`, `StuckForever`).
- `finished_at` of an outbox task is never written (`OutboxSafety`).

## Model

| member | source | states |
|---|---|---|
| Orders.StageOf | internal/domain/order.go:66-83 | the status is the stage of the latest stamp after the zero time, a tie going to the later stage; empty exactly without such a stamp |
| Orders.Status | internal/domain/order.go:66-83 | the guarded updates compute that stage for every pattern of stamps |
| Orders.LastUpdated | internal/domain/order.go:85-108 | the loop returns the greatest stamp present, or the zero time |
| Orders.KeyAgreement | internal/domain/order.go:85-108 | the Go maximum equals the SQL GREATEST/COALESCE key, except exactly when a stamp is missing and all present ones precede the zero time |
| Orders.StageIsFurthest | internal/domain/order.go:66-83 | with stamps in order the status is the furthest stamp set, also on ties |
| Packaging.ParsePackaging | internal/repository/repoutils/utils_repository.go:10-46 | succeeds iff all tokens are known and at most one is a main type; keeps the strategies in order; the error belongs to the first offending token |
| Packaging.CalculatePrice | internal/domain/packaging.go:42-48 | the sum equals 5, 20 and 1 times the number of bags, boxes and films |
| Packaging.CheckWeight | internal/domain/packaging.go:49-56 | the early-exit loop accepts iff weight is under 10 with a bag and under 30 with a box |
| Packaging.PriceList | internal/domain/packaging.go:5-36 | by name: a bag costs 5 and holds under 10, a box 20 and under 30, film 1 without a limit |
| Packaging.PermutationInvariant | internal/repository/repoutils/utils_repository.go:10-46 | reordering tokens changes neither verdict, price nor weight limit |
| PackagingTable.PackagingTableIsRight | internal/storage/postgres/orderstorage/storage.go:27-31 | in every run each order has an acceptable packaging and weight and its packaging row holds the price of its tokens |
| PackagingTable.ConflictDoesNothing | internal/storage/postgres/orderstorage/storage.go:27-31 | an insert for a packaging that has a row leaves its price alone |
| OrderDb.Cut | internal/storage/postgres/userorderstorage/storage.go:34-55 | the first position of a batch that does not succeed, told from the table before the batch |
| OrderDatabase.Database.AcceptOrder | internal/repository/orderrepo/repository.go:33-66 | verdict of the first failing guard; on success one new row under the next serial and its packaging row |
| OrderDatabase.Database.SaveOrder | internal/storage/postgres/orderstorage/storage.go:20-53 | inserts the packaging row unless present, and the order row under the next serial |
| OrderDatabase.Database.CheckReturn | internal/repository/orderrepo/repository.go:68-81 | passes iff the row exists, is stored and its expiry is not in the future; otherwise the first failing guard |
| OrderDatabase.Database.DeleteOrder | internal/storage/postgres/orderstorage/storage.go:55-73 | removes whatever row has the id, checked or not, and reports whether there was one |
| OrderDatabase.Database.ReturnOrder | internal/repository/orderrepo/repository.go:68-89 | check and delete in sequence: deletes the row iff it exists, is stored and its expiry is not in the future |
| OrderDatabase.Database.StampInTurn | internal/storage/postgres/userorderstorage/storage.go:34-51 | the loop stops at the first position told from the initial table, with exactly the positions before it stamped |
| OrderDatabase.Database.ProcessBatch | internal/storage/postgres/userorderstorage/storage.go:23-126 | the loop over the changing table, committed or rolled back, gives the outcome and table told from the initial table |
| OrderDatabase.GetFailedOrders | internal/storage/postgres/userorderstorage/storage.go:182-195 | the requested ids not processed, in order, with repeats |
| Batches.BatchRefinement | internal/storage/postgres/userorderstorage/storage.go:23-126 | processed is the prefix before the first missing, repeated or invalid id of the initial table; exactly those rows get the stamp; a missing id there leaves everything untouched |
| Batches.BatchReport | internal/storage/postgres/userorderstorage/storage.go:53-65 | processed and failed are disjoint and cover the request; error nil iff every position was processed; for distinct ids the two lists end to end are the request |
| Batches.FailedCounts | internal/storage/postgres/userorderstorage/storage.go:182-195 | an id that was not processed is reported failed as often as it was requested |
| Batches.RepeatFails | internal/storage/postgres/userorderstorage/storage.go:128-158 | a row with this batch's own stamp does not validate again |
| Batches.BatchErrorIff | internal/storage/postgres/userorderstorage/storage.go:128-158 | which error a batch reports, by owner, stage, repetition, expiry and 48 hours of its first failing position in the initial table |
| WriteRules.ReturnRemovesIff | internal/repository/orderrepo/repository.go:68-89 | a return removes exactly the row of its id, iff that is in storage and its expiry is not after the reading |
| WriteRules.ReturnAnswers | internal/repository/orderrepo/repository.go:68-89 | each of the four answers by its own condition on the row |
| WriteRules.GoneWasReturned | internal/repository/orderrepo/repository.go:68-89 | in any run a row that is gone was in storage when a return with a reading not before its expiry came |
| WriteRules.AcceptAnswers | internal/repository/orderrepo/repository.go:33-55 | each verdict of an accept by its own condition on expiry, id, packaging and weight |
| WriteRules.AcceptAddsRow | internal/storage/postgres/orderstorage/storage.go:20-53 | an accept adds one row with the request's fields, its stored stamp and no other, under a serial above all; a refused one changes nothing |
| WriteRules.EveryRowWasAccepted | internal/api/api_handler.go:55-64 | in every run each live row still has all fields of the accept that made it |
| Lifecycle.OnlyOwnOrdersChange | internal/storage/postgres/userorderstorage/storage.go:128-147 | a batch changes only rows of the user who asked |
| Lifecycle.FreshOk | internal/storage/postgres/userorderstorage/storage.go:23-126 | a write whose reading is not stale keeps unique serials, stamps in order and inside the windows, whatever committed before it |
| Lifecycle.ApplyOk | internal/storage/postgres/userorderstorage/storage.go:23-126 | every write keeps unique serials, stamps in order and inside the windows |
| Lifecycle.LifecycleInvariant | internal/domain/order.go:66-83 | in every serial run stored <= issued <= refunded, issued <= expiry, refunded <= issued + 48h, status is the furthest stamp |
| Lifecycle.IssuedRowsStay | internal/repository/orderrepo/repository.go:68-89 | over every serial run an issued row is never deleted or re-issued and a refunded row never changes |
| CommitOrder.ReadingMustNotBeStale | internal/storage/postgres/userorderstorage/storage.go:128-180 | a validated issue or refund reaches its stage iff its clock reading is not before the stamp it follows |
| CommitOrder.ChronologyIffFresh | internal/storage/postgres/userorderstorage/storage.go:23-111 | in every commit order all rows keep their stamps in order throughout iff no processed batch reading precedes the stamp it follows |
| CommitOrder.IssuedRowsStayIfFresh | internal/repository/orderrepo/repository.go:68-89 | in every commit order without stale batches an issued row is never deleted or re-issued and a refunded one never changes |
| CommitOrder.StaleIssueIsLost | internal/storage/postgres/userorderstorage/storage.go:31-51 | after any accept, an issue with an earlier reading is reported as processed, the order stays stored and issuable, and its return deletes the issued row |
| CommitOrder.StaleIssueIsReachable | internal/storage/postgres/userorderstorage/storage.go:31-51 | three writes from the empty table do so |
| CommitOrder.WindowsInAnyOrder | internal/storage/postgres/userorderstorage/storage.go:128-158 | in every commit order from the empty tables, stale or not, issued <= expiry, and a refund follows an issue that counted by at most 48h |
| CommitOrder.RunKeepsTable | internal/storage/postgres/userorderstorage/storage.go:23-126 | every commit order keeps unique serials, rows under their own id, and the windows |
| CommitOrder.RefundedRowsStay | internal/repository/orderrepo/repository.go:68-89 | in every commit order the row of an order with a refund stamp is never returned |
| CommitOrder.RunGrowsTimes | internal/storage/postgres/userorderstorage/storage.go:128-180 | in every commit order the time of last update of a surviving row never falls, even by a stale batch |
| ReturnGuard.ReturnGuardStable | internal/repository/orderrepo/repository.go:68-89 | a stored row strictly past expiry is changed by no later write while it exists |
| ReturnGuard.DeleteSafeIffStrictlyPast | internal/repository/orderrepo/repository.go:74-83 | after a passed check no run can change the checked row before its delete iff the check was strictly after expiry |
| ReturnGuard.DeleteCanHitANewRow | internal/storage/postgres/orderstorage/storage.go:55-73 | after every passed check some run puts a different, issued row under the id |
| Windows.WindowAgreement | internal/storage/postgres/reportorderstorage/storage.go:216-222 | the active predicate holds iff the recipient could issue or refund, except at the exact expiry instant |
| Windows.AcceptedWhileIssuable | internal/repository/orderrepo/repository.go:33-36 | the expiry guard of accept is the one of issue |
| Windows.DeadlineIsEndOfWindow | internal/cache/cache.go:150-161 | an order cached while active expires where the active predicate turns false; no deadline iff cached at the last instant of the refund window |
| Windows.InactiveHasNoDeadline | internal/cache/cache.go:150-161 | an order cached when inactive gets no deadline |
| Windows.UnstampedKeptADay | internal/cache/cache.go:150-161 | an order without stamps is kept for 24 hours |
| AuditReplay.EmitBatch | internal/api/api_handler.go:143-148 | one event per processed id, in order |
| AuditReplay.ReplayWriteIff | internal/api/api_handler.go:80-148 | the events of one handler call turn the known stages into the new ones iff no processed reading is stale |
| AuditReplay.ReplayIffFresh | internal/api/api_handler.go:42-156 | in any commit order the folded events are the map from live id to stage at every moment iff no batch is stale |
| AuditReplay.AuditReplayIsFaithful | internal/api/api_handler.go:42-156 | folding all events of any run from the empty table without a stale batch gives exactly that map |
| AuditReplay.SerialReplayIsFaithful | internal/api/api_handler.go:42-156 | so does folding the events of any serial run |
| AuditReplay.SameReplayIff | internal/api/api_handler.go:42-156 | two logs give the same map iff for every order their last events agree |
| AuditLog.LogReplayIff | internal/audit/pipeline.go:48-60 | the drained log of a pool replays to the table iff for every order the last event to enter agrees with the last emitted |
| AuditLog.LogFaithfulInOrder | internal/audit/pipeline.go:48-60 | entering in emission order, order by order, is enough |
| AuditLog.SwappedLogMisleads | internal/audit/pipeline.go:48-60 | two events of one order sent one after the other can be logged swapped, and the log then names the earlier stage |
| Keyset.PageContents | internal/storage/postgres/reportorderstorage/storage.go:131-161 | a page is descending and holds exactly the rows below its cursor that are not below its last key |
| Keyset.PageThenRest | internal/storage/postgres/reportorderstorage/storage.go:184-190 | the next cursor leaves exactly the rest of the listing |
| Keyset.PageCountIsCeiling | internal/storage/postgres/reportorderstorage/storage.go:47-48 | the number of non-empty pages is the ceiling of rows over limit |
| Keyset.FollowCompletes | internal/storage/postgres/reportorderstorage/storage.go:131-161 | following cursors over a fixed table yields the whole listing once, in that many pages and one empty page |
| Reports.ReportsComplete | internal/storage/postgres/reportorderstorage/storage.go:23-194 | all three reports, followed from the start with any limit, return their rows once and in order |
| ReportContents.HistoryReturnsAll | internal/storage/postgres/reportorderstorage/storage.go:119-194 | the history returns every row once, by time of last update and then serial, descending |
| ReportContents.UserOrdersAreOwn | internal/storage/postgres/reportorderstorage/storage.go:30-48 | without a filter a user's report returns exactly the rows with that recipient, by descending serial |
| ReportContents.StoredUserOrders | internal/storage/postgres/reportorderstorage/storage.go:38-46 | with the filter "stored" exactly those of them in storage |
| ReportContents.OtherFilterIsEmpty | internal/storage/postgres/reportorderstorage/storage.go:38-46 | with any other filter every page is empty |
| ReportContents.RefundsAreRefunded | internal/storage/postgres/reportorderstorage/storage.go:80-92 | the refund report returns exactly the rows with a refund stamp |
| ReportContents.UserPageIsOwn | internal/storage/postgres/reportorderstorage/storage.go:36 | no page of a user's report shows an order of another user |
| ReportContents.UserWalkIsOwn | internal/storage/postgres/reportorderstorage/storage.go:36 | nor does a walk, whatever is written between its pages |
| Reports.HistoryCursorIsKey | internal/storage/postgres/reportorderstorage/storage.go:186-190 | the emitted cursor is the sort key of the last row and never the first-page sentinel |
| Reports.FiltersAreStages | internal/storage/postgres/reportorderstorage/storage.go:35-46 | the stored and refunded filters select exactly the rows in that stage |
| ReportWalk.PassedNeverReturns | internal/storage/postgres/reportorderstorage/storage.go:23-191 | a row not below the cursor appears on no later page of the report |
| ReportWalk.WalkNeverRepeats | internal/storage/postgres/reportorderstorage/storage.go:23-191 | no walk through a report returns a row twice, whatever is written between its pages and in whatever commit order |
| ReportWalk.WalkExactlyOnce | internal/storage/postgres/reportorderstorage/storage.go:23-191 | a finished walk returns each listed row that stayed present and unmodified exactly once, in every commit order |
| ReportSplit.SplitWalkIsWalk | internal/storage/postgres/reportorderstorage/storage.go:23-191 | with the two queries of a page apart the walk is the same, if the last order of each page keeps its row until its serial is read |
| ReportSplit.RefundWalkNeverRepeats | internal/storage/postgres/reportorderstorage/storage.go:75-117 | the refund report always keeps its last orders, so its walk never repeats a row with the queries apart |
| ReportSplit.OfferedAgainIff | internal/storage/postgres/reportorderstorage/storage.go:178-190 | a surviving listed row of a page is below the emitted cursor iff the last order's id has another row by then and, in the history, the times are equal |
| ReportSplit.RestartsFromTop | internal/storage/postgres/reportorderstorage/storage.go:60-70 | a report sorted by id then offers every listed row again that was there when the page was read |
| ReportSplit.SplitRepeats | internal/storage/postgres/reportorderstorage/storage.go:178-190 | in that case a client that asks for enough rows gets one twice |
| ReportSplit.SplitRepeatIsReachable | internal/storage/postgres/reportorderstorage/storage.go:60-70 | a run from the empty table with such a walk, of the history and of a user's orders |
| HistoryClient.TextWalkIsSplitWalk | internal/api/api_handler.go:236-284 | a client that sends back the cursor texts sees exactly the walk by keys, in every commit order and while all readings lie before the year 10000 |
| HistoryClient.EarlyCursorIsEmpty | internal/storage/postgres/reportorderstorage/storage.go:131-148 | a cursor at or before the zero time gives an empty page, except zero time with id 0, which is the first page |
| HistoryClient.RefusedText | internal/api/api_handler.go:252-271 | a text that does not parse gives no page |
| HistoryClient.ClientGetsEachRowOnce | internal/api/api_handler.go:236-284 | such a client, with kept last orders, gets no row twice and each row that stays exactly once |
| Calendar.CivilRoundTrip | internal/storage/postgres/reportorderstorage/storage.go:186-190 | breaking a time into UTC fields and back changes nothing |
| Calendar.DateByRule | internal/storage/postgres/reportorderstorage/storage.go:186-190 | the date of day n is the one whose number by the Gregorian rules is n |
| Calendar.FieldsByRule | internal/storage/postgres/reportorderstorage/storage.go:186-190 | the fields of a time are its days, hours, minutes, seconds and nanoseconds |
| Calendar.GregorianCycle | internal/storage/postgres/reportorderstorage/storage.go:186-190 | 400 years are 146097 days |
| CursorText.FormatLayout | internal/storage/postgres/reportorderstorage/storage.go:186-190 | each field stands where the RFC 3339 layout puts it |
| CursorText.ShortestText | internal/storage/postgres/reportorderstorage/storage.go:186-190 | the fraction has no trailing and the id no leading zero |
| CursorText.TimeRoundTrip | internal/api/api_handler.go:260-264 | parsing a printed time, fraction zeros trimmed, gives the same fields |
| CursorText.CursorRoundTrip | internal/api/api_handler.go:252-271 | printing `time,id`, splitting and parsing gives back the same pair |
| OrderService.Service.AcceptOrder | internal/service/storage_service.go:75-89 | table accept, then order key, history and recipient's index |
| OrderService.Service.ReturnOrder | internal/service/storage_service.go:91-117 | table return, then order key and recipient's index without the id |
| OrderService.Service.IssueOrders | internal/service/storage_service.go:119-148 | table batch, then each processed order still cached gets its own issue reading |
| OrderService.Service.RefundOrders | internal/service/storage_service.go:150-170 | table batch, then processed orders leave the cache and the history set |
| OrderService.Service.GetUserActiveOrders | internal/service/storage_service.go:232-280 | answers index or active ids from cache then table, filling both |
| OrderService.Service.GetAllActiveOrders | internal/service/storage_service.go:282-330 | the same over the global set |
| OrderService.Service.InitCache | internal/service/storage_service.go:332-364 | active set, history set and every row under its key |
| OrderService.UserReadIsSound | internal/service/storage_service.go:255-279 | after every serial run a user read returns only live orders of that user in their current stage, one per id |
| OrderService.AllReadIsSound | internal/service/storage_service.go:282-330 | after every serial run a read of all active orders answers each live id of its list once, with that order in its current stage, and nothing else |
| ActiveReads.ColdUserRead | internal/service/storage_service.go:232-280 | without an index a read works through exactly the user's orders that could be refunded, or issued before the instant of expiry; they become the index and are cached |
| ActiveReads.ColdUserAnswer | internal/service/storage_service.go:255-279 | and answers each of them once, in its current stage, and no other |
| ActiveReads.ReadAfterLostIndex | internal/service/storage_service.go:232-280 | so it is after every serial run once the index is lost |
| ActiveReads.GlobalSetIsOpen | internal/service/storage_service.go:282-364 | a cold read of all orders, a refresh and the start-up take exactly the open orders; the start-up caches every row and fills the history set |
| ActiveReads.CacheAnswersFirst | internal/service/storage_service.go:255-279 | for a cached id the answer is the copy, otherwise the row |
| ActiveReads.CallConcernsOnly | internal/service/storage_service.go:75-170 | a call changes the row, copy and index places of no order it does not accept, return, issue or refund |
| ActiveReads.AcceptCaches | internal/service/storage_service.go:79-87 | an accepted order is cached with the request's fields and the handler's stamp, indexed and in the history set |
| ActiveReads.ReturnForgets | internal/service/storage_service.go:99-115 | a returned order is neither cached nor in any index; history and global sets keep its id |
| ActiveReads.IssueCaches | internal/service/storage_service.go:125-141 | an issued order that is cached gets one of the later readings and keeps its places |
| ActiveReads.RefundCaches | internal/service/storage_service.go:156-163 | a refunded order loses its copy and history place and keeps its index place |
| ActiveReads.HistorySetIsComplete | internal/service/storage_service.go:75-170 | in every serial run the history set holds every live order that is not refunded |
| CacheCoherence.RefreshedOrders | internal/service/storage_service.go:125-141 | exactly the listed cached orders are re-stamped |
| CacheCoherence.RunCoherent | internal/service/storage_service.go:75-170 | every serial run of calls, reads, refreshes and lost keys keeps cache and table coherent |
| CacheCoherence.SequentialCoherence | internal/service/storage_service.go:75-170 | from the empty service every cached order is a live row equal in all fields but clock readings, and every index entry a live row of that user |
| CacheCoherence.ReadAfterAccept | internal/service/storage_service.go:79-87 | after an accept the recipient's read lists the new order, and another exactly when the index already had it |
| CacheCoherence.WarmIndexInactive | internal/service/storage_service.go:232-280 | the ids a warm index answers that are not active: refunded, stored past expiry, issued past the 48 hours |
| CacheCoherence.ReadAfterRefund | internal/service/storage_service.go:150-170 | a refund drops the order keys and keeps the index: each processed order it held is listed as refunded |
| CacheCoherence.RefundedStaysListed | internal/service/storage_service.go:232-280 | every serial run that does not lose the index keeps listing it, although it is never active again |
| AsyncCache.AsyncSafety | internal/service/storage_service.go:75-170 | in every interleaving and commit order no cached or in-flight copy has an issue or refund stamp its live row lacks, if no batch reading is stale, no issue reading precedes a pending check of its row, and each delete finds the row it checked strictly after expiry |
| AsyncCache.OrderlyIsSound | internal/service/storage_service.go:75-170 | with clock readings in commit order only the condition on deletes is left |
| AsyncCache.AsyncSafetyFromEmpty | internal/service/storage_service.go:75-170 | the same from the empty tables and cache, spelled out for one key |
| CacheRefinement.CallIsAsyncRun | internal/service/storage_service.go:75-170 | every serial call is a run of the asynchronous machine to the same tables and order keys |
| LateDeletes.LateDeleteSafeIffStrictlyPast | internal/repository/orderrepo/repository.go:68-89 | after a passed check, the delete keeps all copies true at every later moment, clean deletes of other orders in between, iff the check was strictly after expiry |
| LateDeletes.OtherRowsDeleteBreaksCopies | internal/repository/orderrepo/repository.go:68-89 | from every returnable order past its expiry a run with clean deletes leads to a second delete that leaves an issued copy without its row |
| LateDeletes.EarlierReadingBreaksCopies | internal/storage/postgres/userorderstorage/storage.go:31-51 | an issue with a reading before the check, committed after it, makes even a delete of the checked row do so |
| LateDeletes.LateCopyOutlivesRow | internal/service/storage_service.go:261-277 | wherever an order can be returned, a concurrent read can cache it after it is gone |
| CacheDrain.GoneIffLeaves | internal/service/storage_service.go:75-170 | every way of making the pending accesses ends without a copy of the id iff none is coming and a cached one is about to be deleted |
| CacheDrain.DeletedCopyGoesIff | internal/service/storage_service.go:91-117 | after the delete of a return that is so iff no copy of the order was coming |
| CacheDrain.RowsThroughoutIffQuiet | internal/service/storage_service.go:75-277 | throughout a run the pending accesses can only end with a row for every cached order iff no delete finds a copy coming and no delete of a rowless cached key is lost |
| CacheDrain.RowsThroughoutFromEmpty | internal/service/storage_service.go:75-277 | the same for every run from the empty tables and cache |
| OutboxInvariant.OutboxSafety | internal/audit/outbox_worker.go:93-123 | with failures at every step: attempts fit the status, at most 3 sends and one success, finished implies success, copies not yet reached equal their rows |
| OutboxInvariant.SettledForever | internal/storage/postgres/auditlogstorage/storage.go:46-48 | finished and exhausted tasks are never written or sent again |
| OutboxInvariant.RetryAfterDelay | internal/audit/outbox_worker.go:104-116 | a failed task is eligible again iff attempts remain and strictly after two seconds |
| OutboxInvariant.StuckForever | internal/storage/postgres/auditlogstorage/storage.go:46-48 | a PROCESSING task that is not in hand is never eligible, written or sent again |
| OutboxInvariant.GetsStuckIff | internal/audit/outbox_worker.go:93-123 | a task becomes so exactly by a stop with it in hand, a mark that commits and reports an error, or a refused final update |
| OutboxProgress.NewTaskIsFetched | internal/storage/postgres/auditlogstorage/storage.go:39-52 | a new task is in every fetch that is not full of 100 tasks created no later |
| OutboxProgress.NeverFetched | internal/storage/postgres/auditlogstorage/storage.go:44-49 | no fetch returns a row that is done, lost, not due or out of attempts |
| OutboxProgress.RoundMakesProgress | internal/audit/outbox_worker.go:56-123 | with a new task waiting, each round in which nothing fails finishes at least one task, and all it fetched |
| OutboxProgress.BacklogClears | internal/audit/outbox_worker.go:56-123 | with at most 100 waiting tasks for each such round every new task is finished |
| OutboxProgress.NewTasksAreSent | internal/audit/outbox_worker.go:56-123 | so it is after any run with failures that leaves the worker idle |
| OutboxProgress.RowsAreInserts | internal/storage/postgres/auditlogstorage/storage.go:19-33 | in every run the rows are the inserts, each with its log and creation time |
| OutboxProgress.SendsCarryTheirLogs | internal/audit/outbox_worker.go:93-110 | every send carries the log its row was inserted with |
| OutboxProgress.RowsChangeByUpdates | internal/storage/postgres/auditlogstorage/storage.go:81-109 | a row changes only by a committed mark or save, and carries the time of that update |
| OutboxFairness.StepTotal | internal/audit/outbox_worker.go:93-123 | a mark that takes effect lowers the sum of remaining marks, an insert adds at most three |
| OutboxFairness.AtMostThreeMarksPerTask | internal/audit/outbox_worker.go:56-91 | n tasks are marked at most 3n times in any run |
| OutboxFairness.BoundedWaiting | internal/storage/postgres/auditlogstorage/storage.go:39-52 | an eligible task is passed over by at most 3r/100 fetches, r the other rows created no later |
| OutboxWorker.FetchPendingTasks | internal/storage/postgres/auditlogstorage/storage.go:39-79 | a distinct, eligible, created-ordered batch that leaves out an eligible row only when full of no younger ones |
| OutboxWorker.Worker.SaveLog | internal/storage/postgres/auditlogstorage/storage.go:19-33 | one fresh row, whatever the worker is doing |
| OutboxWorker.Worker.UpdateTask | internal/storage/postgres/auditlogstorage/storage.go:81-109 | four columns written unless refused; success only when committed and reported |
| OutboxWorker.Worker.ProcessTask | internal/audit/outbox_worker.go:93-123 | mark, send and save are a run of the step machine |
| OutboxWorker.Worker.ProcessBatch | internal/audit/outbox_worker.go:56-91 | fetch and loop, finished or cancelled, are a run of the step machine |
| AuditPipeline.Worker.Run | internal/audit/worker.go:27-56 | the loop over its reused buffer folds the worker step over the signals |
| AuditPipeline.Worker.ProcessBatch | internal/audit/worker.go:58-67 | hands over the buffered events one by one, in order |
| AuditPipeline.ChannelsPartition | internal/audit/pipeline.go:52-57 | every event of a known type goes to exactly one channel of a pool |
| AuditPipeline.FiveAtATime | internal/audit/worker.go:27-56 | between ticks a worker hands over its events five at a time |
| AuditPipeline.LaneDrains | internal/audit/worker.go:27-67 | from every state of a running lane, receiving the queue and one tick hand over all that entered |
| AuditPipeline.CancelStops | internal/audit/worker.go:49-53 | cancelling hands over what is held and stops the worker |
| AuditPipeline.StoppedForever | internal/audit/worker.go:49-53 | a stopped worker hands over nothing more in any run |
| AuditPipeline.WaitingEnters | internal/audit/pipeline.go:48-60 | a waiting event enters as soon as the queue holds fewer than a thousand |
| AuditPipeline.EventConservation | internal/audit/worker.go:27-67 | per pool and channel the sent events are those waiting, queued, batched and handled; handled in order, fewer than five held, none after cancellation |

## Left out

- HTTP and gRPC transport, middleware, authentication, metrics, tracing, logging and configuration: no state worth proving.
- Kafka: a send is only reported as success or error; a transaction that commits and still reports an error counts as failed.
- Postgres and Redis themselves, JSON, and SKIP LOCKED: the tables are maps and sequences, each table operation is one atomic step, and one outbox worker runs.
- OrderDatabase.Database.ReturnOrder: runs its check and its delete with no other write in between, and so do the serial runs of OrderService and CacheCoherence; ReturnGuard, AsyncCache and LateDeletes treat them apart.
- ReportWalk.WalkNeverRepeats: reads the cursor's serial id together with the page; ReportSplit treats the two queries apart.
- ReportWalk.WalkExactlyOnce: as WalkNeverRepeats.
- Locks and lock waits: a batch is one step at its commit, with the clock reading it made before; AsyncCache leaves out the index sets.
- GetOrderHistoryV2: its cached set loses refunded orders and keeps returned ids, and its fallback asks for LIMIT 0, so it is no refinement of the history.
- Completeness of the per-user index: the code does not provide it; ReadAfterAccept says what it provides.
- Rounding of prices and weights to two decimals, and of clock readings to microseconds.
- Redis KEEPTTL: a computed duration of exactly minus one nanosecond is treated as no expiration.
- Parsing of the expiry date of an accept request, and request validation by the web framework.
- CursorText.CursorRoundTrip: times in the year 10000 or later are excluded because the layout prints four-digit years, and the parser models texts in UTC only, without offsets and integer overflow.
- HistoryClient.TextWalkIsSplitWalk: stops at the year 9999, as CursorText.CursorRoundTrip does.
- OutboxFairness.BoundedWaiting: asks that every PROCESSING mark takes effect and that the worker is not stopped; sends and final updates may fail. Without the marks a stuck database could pass a task over for ever.
- Column widths: packaging_types.id holds 36 characters, so an acceptable description that is longer makes the accept fail with a database error; ids and descriptions are unbounded here.
- The cursor texts of GetUserOrders and GetRefundedOrders, which are plain decimal ids, and the JSON of an audit event, which LogReplayIff takes as a reading function.
- Gaps in SERIAL values after failed inserts: serials only need to grow.
- The stdout pool's printing and its keyword filter: the handler discards the event.
