# Verified model of the invoice satellite

The satellite takes in invoice rows, holds them until the load they came with is
complete, sends them in groups to an external system, applies the results that
system calls back with, and spools an outbox event for every send. This project
models that behaviour and proves what it promises, for every input and every run.

`dafny verify dfyconfig.toml` checks everything.

| file | what it models |
|---|---|
| `Rows.dfy`, `Statements.dfy` | rows, loads, outbox events; what each UPDATE and short transaction does to them |
| `Upserts.dfy`, `Ingest.dfy`, `BatchAgreement.dfy` | the guarded upsert, the in-memory dedup, and exactly when one call equals one call per row |
| `RowIdentity.dfy`, `IngestRows.dfy` | what a row is known and grouped by; what each row holds after a call |
| `TableRowsService.dfy`, `CallbackRows.dfy` | the row service as a class over its database, each method proved against `Statements` and field by field; what a callback does to one row |
| `Lifecycle.dfy`, `Operations.dfy`, `SendRace.dfy` | the whole satellite as a state machine and what every run keeps; that what runs on the database is such a run; what may happen between the fetch and the commit of a send |
| `Loads.dfy`, `LoadLocks.dfy` | staging and sealing a load: any order and repetition, then any interleaving of statements |
| `Sweep.dfy`, `JsonText.dfy`, `JsonReading.dfy`, `WriteBatch.dfy`, `SweepPasses.dfy`, `WorkerPool.dfy`, `Chunks.dfy` | the capped sweep, group keys, partitioning into calls, repeated passes and what they mark, bounded concurrency |
| `GroupIntegrity.dfy` | from arrival to first send: a group of one load leaves whole |
| `LockOrder.dfy` | row locks of concurrent ingests, and exactly when they can wait in a circle |
| `SqlParams.dfy`, `Filters.dfy`, `FilterMeaning.dfy`, `ColumnFilters.dfy` | `LIKE` escaping, numbered parameters, the filter compiler, what a filtered query selects, and exactly which column filters are honoured |
| `Json.dfy`, `Collapse.dfy`, `Payload.dfy` | camel-casing at every depth, the combined payload item, the payload of a call |
| `SiiResult.dfy`, `VendorAnswers.dfy` | the vendor result mapper, and what it makes of an answer |
| `OutboxDrain.dfy` | the outbox spool and its drain |
| `Backup.dfy` | the backup container's writer and streaming reader |
| `Text.dfy`, `Sets.dfy` | string order, rendering and joining; counting sets |

The stored state is a value `State`; the classes hold it in fields and every
method's contract says what it does to that value. Results that span several
operations are lemmas about those values. A transaction is one step, except in
`LoadLocks.dfy`, where each statement is one and the serial form is proved.

## What turned out not to hold as promised

Each of these is a property of the code, stated exactly.

- A composite dedup key is joined with U+0001, and the comment beside it says
  that character cannot occur in JSON strings. It can: two different id tuples may
  share a key, for every template with two or more id columns and for none with one
  (`Ingest.DedupSeparatesRowsIffOneColumn`).
- A group id joins connection and grouping texts with U+001F, which the comment beside
  it also rules out. Groups of different values stay apart, for connection ids without
  that character and all values, if and only if there is one grouping column
  (`RowIdentity.GroupsStayApartIffOneColumn`).
- Memory and SQL read a recency differently when it is null, a flag or a text that
  is no number. Over any set of rows, every call on every table of such rows equals
  one call per row if and only if, for any two different members, the first casts
  and, where both are copies of one row, memory ranks the second no lower just when
  the guard lets it through (`BatchAgreement.CallsAgreeIffPairsAgree`). A null copy
  disagrees exactly with copies of recency 0 or -1, or of none
  (`BatchAgreement.NullAgreesUnlessMinusOneOrZero`). The rows here have dedup keys
  that stand for their ids (see the first point) and no blank id column.
- A batch without rows is never counted, so its load never seals
  (`Loads.SealsIffNoEmptyBatch`).
- A blank id column puts an appended row under the unique index, behind the rising
  lock order. With one id column all such rows of a call are one row, locked last;
  with two or more, two calls can lock two of them in opposite orders. So concurrent
  ingests can never wait in a circle if and only if the template has at most one id
  column (`LockOrder.NeverCirclesIffOneColumn`), or no call has a blank id
  (`LockOrder.IngestsNeverDeadlock`).
- A vendor state spelled like the internal `staged` strands a row
  (`Lifecycle.CallbackSafeIffNoVendorStaged`).
- A limit that is not a number starts no worker at all, and the pool resolves at
  once (`WorkerPool.ResolvesAfterAllUnlessNaN`). This is about the exported function:
  its only caller passes 1 or a configured integer above one
  (`src/tables/table-write-batch.service.ts:216` and `:249`), so no sweep meets it.
- An artefact cut within four bytes of a table boundary is restored without an
  error (`Backup.RestoreOfCutArtefact`), and an empty COPY buffer is read as the end
  of its table (`Backup.RoundTripIffNoEmptyChunk`); whether a COPY stream ever
  delivers an empty buffer is not known here.
- When an artefact ends inside the data of a wanted table, the statement that turns
  its triggers back on is issued while its COPY still runs on the same connection,
  and in no other case (`Backup.Reader.RestoreTables`, `Backup.OpenTableOfCut`).
- Marking the outcome of a send does not re-check acceptance. The commit keeps every
  accepted row if and only if no callback accepted a fetched row between fetch and
  commit (`SendRace.CommitKeepsAcceptedIffNoneOnTheWay`), and every row of a table
  that sends can be accepted just then (`SendRace.AcceptanceIsOverwritten`).
- Filters on a table's columns all select by their column if and only if no
  filterable column has the key of a physical column or one that ends in `_from` or
  `_until` (`ColumnFilters.HonouredIffPlainKeys`). A filter on a column `valid_from`
  is dropped (`ColumnFilters.ValidFromIsDropped`).

## Model

| member | source | states |
|---|---|---|
| Upserts.EachRowByItsCopies | src/tables/table-rows.service.ts:252-266 | a guarded upsert of many rows acts on each stored row through the incoming copies of that row alone, and returns exactly the rows some copy inserted or got past the guard of |
| Upserts.CopiesCollapse | src/tables/table-rows.service.ts:218-219 | upserting every copy of a row in turn leaves what upserting the dedup's choice leaves, and affects the row in the same cases |
| Ingest.JoinKeyIdentifiesRow | src/tables/table-rows.service.ts:198-202 | equal dedup keys mean equal id tuples when there is one id column or no value holds the separator |
| Ingest.DedupSeparatesRowsIffOneColumn | src/tables/table-rows.service.ts:196-202 | the dedup key tells all rows of a template apart if and only if the template has one id column |
| RowIdentity.RowIsKnownBy | src/tables/table-rows.service.ts:196-216 | a row is known by the texts of its id columns, numbers in decimal and flags as words, when all have a value, and can be upserted exactly when none is empty besides |
| RowIdentity.TwoRowsOneKey | src/tables/table-rows.service.ts:198-202 | two rows of a template with two id columns that share a dedup key through U+0001 and are two rows in the store |
| RowIdentity.GroupIdIsTheGroup | src/tables/table-rows.service.ts:1587-1597 | without the separator in the texts, two rows share a group id exactly when connection and grouping texts are equal, a missing value counting as empty |
| RowIdentity.GroupsStayApartIffOneColumn | src/tables/table-rows.service.ts:1576-1597 | the group id keeps rows of different values apart, for all values, if and only if there is one grouping column |
| Upserts.ConcordantCopiesCollapse | src/tables/table-rows.service.ts:218-219 | the same wherever memory order and guard verdict agree on the copies and the stored row, whatever their recencies |
| Ingest.BatchIsRowByRow | src/tables/table-rows.service.ts:171-293 | where memory and SQL judge the copies of each row alike, one call leaves the same table, and the same rows queued, as upserting and queueing its rows in arrival order |
| Ingest.NewestCopyIsStored | src/tables/table-rows.service.ts:241-256 | after any arrivals a row holds a copy of the greatest recency seen, stored or incoming, and an accepted row is as it was |
| Ingest.StoredRecencyIgnoresOrder | src/tables/table-rows.service.ts:204-209 | the recency a row ends with depends neither on the order nor on the number of the copies |
| BatchAgreement.CallsAgreeIffPairsAgree | src/tables/table-rows.service.ts:190-251 | for every set of rows with faithful keys: every call over the set, on every table holding rows of it, leaves what one call per row leaves, raising calls included, if and only if any two different members agree: the first casts, and memory order is the guard's verdict where they are copies of one row |
| BatchAgreement.TwoCopiesAgreeIff | src/tables/table-rows.service.ts:218-256 | of a new row, one call with two copies equals two calls exactly when the copies are equal or memory ranks the second no lower just when the guard takes it |
| BatchAgreement.NullAgreesUnlessMinusOneOrZero | src/tables/table-rows.service.ts:190-251 | over two copies of a row, one with a null recency and one with an integer recency or none (-1), every call equals one call per row exactly when that recency is neither 0 nor -1 |
| BatchAgreement.UncastableAgreesIff | src/tables/table-rows.service.ts:190-251 | a second copy with a flag, or a text that is no integer, is treated alike by one call and two exactly when the first copy's recency is above 1 for true, 0 for false or the empty text, -1 for any other text |
| BatchAgreement.EachCallIsRowByRow | src/tables/table-rows.service.ts:157-297 | one `ingest` call per row, each rolled back when it raises, leaves the table and the counter of row-by-row upserts |
| BatchAgreement.CleanCallIsEachCall | src/tables/table-rows.service.ts:157-297 | a call of rows with absent or integer recencies and faithful keys, over such a table, leaves the state that one call per row leaves |
| TableRowsService.Dedup | src/tables/table-rows.service.ts:210-220 | the map holds, per key met, the last copy of greatest recency, and the rows without a usable id are kept in order |
| TableRowsService.SortKeys | src/tables/table-rows.service.ts:229 | the keys come out strictly rising and are the keys of the map, each once |
| TableRowsService.UpsertAll | src/tables/table-rows.service.ts:231-266 | thousand-row statements have the effect of one upsert per row in plan order, and raise when one of those would |
| TableRowsService.AppendAll | src/tables/table-rows.service.ts:268-277 | rows without an id are inserted one by one, numbered in order |
| TableRowsService.InsertRows | src/tables/table-rows.service.ts:171-277 | all statements of a call together upsert the plan and then the rows without an id; the counts add up; a raising statement leaves nothing |
| TableRowsService.CastingBatchDoesNotRaise | src/tables/table-rows.service.ts:249-251 | a call with faithful keys does not roll back when every recency, incoming and stored, casts |
| TableRowsService.Database.Ingest | src/tables/table-rows.service.ts:157-297 | the new state is that of the upserts in lock order followed by staging or queueing, or the old state exactly when a statement raises; the rows locked and the counts reported are those of the plan |
| IngestRows.IngestedRow | src/tables/table-rows.service.ts:241-293 | after a call without load metadata a row is new with the call's connection and time, or has an incoming copy's data and is queued afresh in its group, or is as it was, the last exactly when RETURNING did not name it |
| TableRowsService.Database.MarkQueued | src/tables/table-rows.service.ts:1401-1412 | the named rows of a table that sends start over: the given state, the group id of their data, no trace of a send; data, connection, time and load and every other row stay |
| TableRowsService.Database.MarkStaged | src/tables/table-rows.service.ts:1421-1433 | of the named rows those without a state, staged, queued or edited are staged under the load in the group of their data; all other rows stay |
| TableRowsService.Database.StageLoadRows | src/tables/table-rows.service.ts:1447-1471 | the load is opened if new and the batch counted; the rows are held back, and released with the load when it is complete; after the seal the rows start over and nothing is counted |
| TableRowsService.Database.SealLoad | src/tables/table-rows.service.ts:1480-1492 | the announced total is stored, and the load closed with its staged rows queued exactly when it was open and that many batches are in |
| TableRowsService.Database.FlipLoadIfComplete | src/tables/table-rows.service.ts:1500-1517 | the staged rows of a complete open load are queued and the load sealed, else nothing changes |
| TableRowsService.Database.UpdateAndWrite | src/tables/table-rows.service.ts:1056-1126 | an edit goes through exactly for an existing row of the connection that is not accepted and may be edited; the row then holds the new data, and in a table that sends is `revisado` in the group of that data without a trace of a send; no other row changes |
| TableRowsService.Database.SubmitGroup | src/tables/table-rows.service.ts:1143-1349 | sent exactly on a 2xx whose commit succeeds: the marked rows are `pending`, sent and without error; otherwise they are `queued` again, failed, with an error text; the batch id and one event go with either; data, group, load, answer and all other rows stay, and nothing changes when no commit succeeds |
| TableRowsService.Database.ProcessCallback | src/callbacks/sii-result.processor.ts:40-172 | a row that was not accepted takes state and answer of its line result, and over them of its batch result unless the line result accepted it; its data gets code and message, each under its column if declared, of the line result if that has an error, else of the batch result; all else stays |
| CallbackRows.LastItemIsLast | src/callbacks/sii-result.processor.ts:79-92 | the error fields come from the last result of a name |
| TableRowsService.Database.DeleteByIds | src/tables/table-rows.service.ts:861-930 | named rows of the connection go, rows outside it and all kept rows are as they were, and in a grouped table of two rows of one group both go or both stay |
| TableRowsService.Database.ReapStaleLoads | src/tables/stale-load.cron.ts:29-51 | a load is flagged stale exactly when it was or is open past the timeout; nothing else of it, no sealed load and no row changes |
| Lifecycle.CorrectoStep | src/callbacks/sii-result.processor.ts:66-112 | no step of any operation changes an accepted row, and only a delete removes it |
| Lifecycle.GuardsLetThrough | src/tables/table-rows.service.ts:1056-1126 | no operation of the state machine is kept from running by more than its own guard |
| Operations.Perform | src/tables/table-rows.service.ts:1056-1349 | whatever operation runs on the database, it changes nothing or takes one step of the state machine that its guard allows |
| Operations.PerformAll | src/tables/table-rows.service.ts:157-1517 | the states any series of operations goes through are a run of the state machine, so what every run keeps is kept by the service |
| Lifecycle.CorrectoIsFinal | src/tables/table-rows.service.ts:1073-1078 | in every run whose sends mark sendable rows, an accepted row, in any letter case, keeps its status, data and stamps until it is deleted |
| SendRace.OnlyCallbacksAccept | src/callbacks/sii-result.processor.ts:66-112 | a row that becomes accepted in a step of any operation does so by a callback |
| SendRace.CommitKeepsAcceptedIffNoneOnTheWay | src/tables/table-rows.service.ts:1320-1349 | whatever runs between the fetch of sendable rows and the commit of their send, the commit keeps every accepted row exactly when no callback accepted a fetched row on the way |
| SendRace.AcceptanceIsOverwritten | src/tables/write-sweep-query.util.ts:49-74 | for every row of every table that sends: a run in which a callback accepts the row after a force-submit fetched it, and the commit takes the acceptance away |
| Lifecycle.NoRowIsStranded | src/tables/table-rows.service.ts:1494-1516 | in every reachable state a staged row names an existing load that is not sealed |
| Lifecycle.CallbackSafeIffNoVendorStaged | src/callbacks/sii-result.mapper.ts:52-57 | a callback keeps staged rows tied to open loads, from every state, exactly when no result it applies is spelled `staged` |
| Lifecycle.EverySendHasItsEvent | src/tables/table-rows.service.ts:1329-1349 | in every run there is at most one event per batch id, and a row carrying a batch id has an event of that key that lists it and says sent exactly when the row does |
| Loads.CountIsCoverage | src/tables/table-rows.service.ts:1506-1510 | counting the distinct batch indices reaches the total exactly when every index is there |
| Loads.LoadIsAllOrNothing | src/tables/table-rows.service.ts:1447-1517 | after any prefix of any delivery the load is sealed exactly when all batches and a seal are in; until then its rows are staged and unsendable, from then on all queued |
| Loads.DeliveryOrderIsIrrelevant | src/tables/table-rows.service.ts:1473-1479 | two deliveries of the same events in any order and repetition leave each new row of the load equal, its creation time apart, and the load equally sealed |
| Loads.SealsIffNoEmptyBatch | src/tables/ingest-table.operation.ts:70-81 | once everything has been delivered a load is sealed exactly when none of its batches was empty |
| Loads.EmptyBatchNeverSeals | src/tables/table-rows.service.ts:158 | with an empty batch the load stays open whatever arrives and however often |
| LoadLocks.InterleavingIsSerial | src/tables/table-rows.service.ts:1435-1517 | in every statement-level interleaving, any transaction aborting, the committed store is that of the committed transactions one by one in log order |
| LoadLocks.WaitsForWhatItTakes | src/tables/table-rows.service.ts:1447-1517 | a statement waits for no lock but those it takes |
| LoadLocks.LogOrderIsLockOrder | src/tables/table-rows.service.ts:1447-1465 | of two commits the later one's transaction took the load's lock after the earlier one committed, and comes later in the log: log order is the order of the load's lock |
| LoadLocks.EveryOrderCanHappen | src/tables/table-rows.service.ts:1435-1517 | every list of batches and seals that go through one after the other is the log of an interleaving that ends with nothing running |
| LoadLocks.AtMostOneFlip | src/tables/table-rows.service.ts:1494-1500 | of any number of committed transactions at most one flips the load |
| LoadLocks.FlipNeedsEveryBatch | src/tables/table-rows.service.ts:1505-1516 | the flip happens when the distinct batches in, its own included, reach the announced total, and leaves no row of the load staged |
| LoadLocks.InterleavedLoadIsAllOrNothing | src/tables/table-rows.service.ts:1447-1517 | if only batches and seals of the load are begun, then at every moment of every interleaving the log is a list of its events and the committed load is sealed exactly when they are complete, its rows all staged before and all queued after |
| Sweep.ChosenIsGreedy | src/tables/write-sweep-query.util.ts:104-126 | the windowed query takes exactly the rows a greedy loop over groups, oldest first, takes |
| Sweep.OldestGroupsGoFirst | src/tables/write-sweep-query.util.ts:104-118 | the oldest row of a group that is taken is older than the oldest row of one that is left, or as old, and then the taken group has the smaller name |
| Sweep.SweepTakesTheOldest | src/tables/write-sweep-query.util.ts:81-126 | a sweep takes queued and edited rows of the connection only, never a row without the queued rows of its group, and leaves no row older than all queued rows of a group it takes |
| Sweep.WholeGroupsInOrder | src/tables/write-sweep-query.util.ts:95-103 | a taken row brings all candidate rows of its group and of every group before it |
| Sweep.FitsOrTakesTheFirst | src/tables/write-sweep-query.util.ts:97-101 | a pass stays within the limit or takes exactly the first group, and takes that group whenever there is one |
| Sweep.TakesAsManyAsFit | src/tables/write-sweep-query.util.ts:115-122 | the first group left out would have exceeded the limit |
| Sweep.ForceSubmitTakesWholeGroups | src/tables/table-write-batch.service.ts:128-138 | a force-submit takes only sendable rows and every sendable row of each group it touches, never a staged or accepted one |
| Sweep.ForceSubmitTakes | src/tables/write-sweep-query.util.ts:49-74 | a row is taken exactly when it may go out, having a state that is neither staged nor an acceptance in any letter case, and was asked for or shares a non-empty group with such a row that was |
| Chunks.ChunkRows | src/tables/write-sweep-query.util.ts:188-192 | the pieces put together are the list, none is empty, and all but the last are full |
| JsonText.ObjectTextIsNoSuffix | src/tables/table-write-batch.service.ts:175-180 | no JSON text of the grouping columns is a proper ending of another one, whatever the values |
| JsonReading.ObjectTextTellsValues | src/tables/table-write-batch.service.ts:177-179 | two rows with the same JSON text of the grouping columns have the same grouping values, whatever characters they hold |
| JsonReading.QuoteReadsBack | src/tables/table-write-batch.service.ts:179 | a quoted value reads back whole by the rules of JSON, whatever follows it |
| WriteBatch.KeySeparates | src/tables/table-write-batch.service.ts:175-180 | rows with one bucket key share connection, phase and group, whatever the connection ids; a group is a stored digest or, without one, the values of the grouping columns |
| WriteBatch.FillBuckets | src/tables/table-write-batch.service.ts:170-184 | buckets stand in first-met order, each opened for its first row and holding its rows in input order |
| WriteBatch.SubmitBucket | src/tables/table-write-batch.service.ts:194-229 | the calls of a bucket mark its rows in order: one combined call, or calls of at most a thousand rows and the configured size, all but the last full |
| WriteBatch.PartitionAndSubmit | src/tables/table-write-batch.service.ts:154-230 | the calls are those of the buckets one after the other, each bucket cut as above |
| WriteBatch.EveryRowIsMarkedOnce | src/tables/table-write-batch.service.ts:154-230 | each row is marked as often as it was fetched |
| WriteBatch.CallsMarkApart | src/tables/table-write-batch.service.ts:194-229 | no two calls mark one row |
| WriteBatch.CallsAreHomogeneous | src/tables/table-write-batch.service.ts:163-229 | a call marks rows of one connection, phase and group; uncombined it ships exactly those, at most a thousand and at most the configured size; combined it ships at least those |
| WriteBatch.CombinedCallTakesTheBucket | src/tables/table-write-batch.service.ts:195-213 | a combined call that marks one row of a group marks all fetched rows of its bucket |
| SweepPasses.SubmissionsArePasses | src/tables/table-write-batch.service.ts:92-100 | the calls made for the swept rows mark exactly the rows the cap let through |
| SweepPasses.AcknowledgedPass | src/tables/table-write-batch.service.ts:92-100 | after a fully acknowledged pass the queue holds exactly what the cap left out |
| SweepPasses.PassesEmptyTheQueue | src/tables/table-write-batch.service.ts:92-100 | whatever the limit, as many acknowledged passes as there are groups empty the queue |
| SweepPasses.PassIsEnabled | src/tables/table-write-batch.service.ts:92-100 | a scheduled sweep marks sendable rows only, in every call of its partition, whatever siblings combined payloads name |
| SweepPasses.ForceSubmitIsEnabled | src/tables/table-write-batch.service.ts:128-140 | so does a force-submit grown to whole groups |
| SweepPasses.AcceptedOutlivesEverySend | src/tables/table-write-batch.service.ts:92-140 | in every run of ingests, edits, callbacks, loads and sends as the two send paths make them, an accepted row stays as it is until it is deleted |
| WorkerPool.StartsInOrderOnce | src/tables/write-sweep-query.util.ts:207-213 | in every interleaving tasks start in index order, each once, and settle at most once |
| WorkerPool.BoundedInFlight | src/tables/write-sweep-query.util.ts:202-208 | never more tasks are in flight than there are, than the limit rounded down, or than one when that is less |
| WorkerPool.LimitIsUsed | src/tables/write-sweep-query.util.ts:202-208 | as many tasks as that do run side by side in some interleaving |
| WorkerPool.ResolvesAfterAllUnlessNaN | src/tables/write-sweep-query.util.ts:201-215 | the pool resolves only after every task has finished, exactly unless the limit is NaN and there are two tasks or more |
| WorkerPool.RunsSettle | src/tables/write-sweep-query.util.ts:207-214 | every run ends, settled; a rejection stops only its own worker, so a task stays unstarted only if every worker met one |
| WorkerPool.LimitOneIsSequential | src/tables/write-sweep-query.util.ts:203-206 | with a limit below two the run is the plain loop, stopping at the first rejection |
| GroupIntegrity.OwnKeepsInv | src/tables/table-rows.service.ts:1447-1517 | every batch or seal of the load keeps its group rows together: staged while it is open, queued and complete once sealed |
| GroupIntegrity.AvoidingIsUnmoved | src/callbacks/sii-result.processor.ts:107-112 | any step of another operation that names neither the load nor a row of the group leaves both as they were |
| GroupIntegrity.FirstPassTakesTheWholeGroup | src/tables/table-write-batch.service.ts:92-100 | in every history in which a group comes in through one load and nothing else names its rows, the first sweep that takes one of them takes them all |
| GroupIntegrity.WholeGroupGoesInOneCall | src/tables/table-write-batch.service.ts:195-213 | and where groups are combined, the call that marks one of them marks them all |
| GroupIntegrity.CallIsOfItsRows | src/tables/table-write-batch.service.ts:163-229 | the rows a sweep's call marks are stored on the connection it goes out through, edited or new as its phase says, and of one group where they have groups |
| LockOrder.NoWaitCircle | src/tables/table-rows.service.ts:222-229 | transactions that lock rows in rising order, blank rows last, never wait in a circle |
| LockOrder.SomeTransactionGoesOn | src/tables/table-rows.service.ts:222-229 | while any such transaction is open, one of them can lock its next row or commit |
| LockOrder.IngestLocksRise | src/tables/table-rows.service.ts:229-266 | an ingest locks rows in strictly rising order across all its statements, whatever the order of its rows, when it has no blank ids or one id column |
| LockOrder.LaterUpdatesAreHeld | src/tables/table-rows.service.ts:289-293 | the rows it marks at the end are among those it locked before |
| LockOrder.IngestsNeverDeadlock | src/tables/table-rows.service.ts:222-270 | at every moment of every run of concurrent calls of that kind no wait circle stands, and some open call can go on |
| LockOrder.NeverCirclesIffOneColumn | src/tables/table-rows.service.ts:222-270 | no run of concurrent ingests over a template, blank ids included, ever reaches a wait circle if and only if the template has at most one id column |
| SqlParams.ContainsIffLike | src/core/sql/sql-params.util.ts:22-24 | percent, escaped text, percent matches exactly the texts that contain the text |
| SqlParams.UnescapedMatchesMore | src/core/sql/sql-params.util.ts:22-24 | without the escape an underscore matches any character, a percent anything, and a backslash hides itself |
| SqlParams.ContainsIffILike | src/tables/table-rows.service.ts:603 | the same without regard to case |
| SqlParams.QuotedReadsBack | src/core/sql/sql-params.util.ts:18-20 | any text, quoted as a literal, is read back whole and what follows it is left alone |
| SqlParams.ParamList.Push | src/core/sql/sql-params.util.ts:31-42 | the value is appended and its number returned |
| Filters.LaterPushesChangeNothing | src/core/sql/sql-params.util.ts:34-37 | parameters pushed later never change what an earlier placeholder denotes |
| Filters.StatusCaseEval | src/tables/table-rows.service.ts:46-52 | the status CASE has, on every row, the state the grid shows |
| Filters.EvalDateCast | src/tables/table-rows.service.ts:623-631 | the date expression is the column's date when it is an ISO date or epoch milliseconds, and null otherwise |
| Filters.ApplyFilters | src/tables/table-rows.service.ts:547-612 | in its two passes each filter that takes part gets exactly one conjunct, and that conjunct says of every row what the filter means |
| Filters.CompiledFiltersKeepMeaning | src/tables/table-rows.service.ts:547-612 | the conjuncts under the parameters select a row exactly when it passes every active filter, and raise exactly when one of those does |
| ColumnFilters.HonouredIffPlainKeys | src/tables/table-rows.service.ts:557-602 | whatever is emitted for a filter on a filterable column selects, on every row, by that column's value, for all filters, if and only if no filterable key is reserved or ends like a range edge |
| ColumnFilters.ValidFromIsDropped | src/tables/table-rows.service.ts:580-589 | for a column `valid_from` nothing is emitted, so rows that lack the column are selected although the filter rejects them |
| Filters.Query | src/tables/table-rows.service.ts:764-813 | page and count statement ask for the same rows; their limits denote the page size and the cap, and the count binds all it refers to |
| Filters.SelectsWhatWasAsked | src/tables/table-rows.service.ts:764-813 | either statement selects exactly the connection's rows of the table that pass the filters |
| FilterMeaning.SelectsWhatIsWanted | src/tables/table-rows.service.ts:547-631 | a statement selects exactly the connection's rows of the table that have what every filter asks for, by the grid's state, the submission state, the update time, a date range, a number, a flag, a missing value or a contained text |
| Json.CamelKeysAreNoReferences | src/tables/table-rows.service.ts:1608-1621 | no renamed key equals `internal_ref` or `batch_ref` |
| Json.CamelKeyConcat | src/tables/table-rows.service.ts:1615 | renaming goes piece by piece, an underscore taking the lower-case letter after it along |
| Json.CamelKeyUndone | src/tables/table-rows.service.ts:1615 | a key without capitals is read back from its renamed form |
| Json.CamelKeepsFields | src/tables/table-rows.service.ts:1612-1619 | each field stands under its renamed key when renaming merges no keys |
| Json.CamelKeepsPaths | src/tables/table-rows.service.ts:1608-1621 | at every depth each value stands at its renamed path, scalars as they were, arrays in length and order, when no keys merge at any depth |
| Json.CamelAddsNoPaths | src/tables/table-rows.service.ts:1608-1621 | and nothing stands at any other path |
| Json.CamelKeysAtEveryDepth | src/tables/table-rows.service.ts:1608-1621 | at no depth does a renamed value have a key with an underscore before a lower-case letter, merged keys or not |
| Json.LastOfMergedKeys | src/tables/table-rows.service.ts:1614-1617 | of fields whose keys become one the last is kept |
| Collapse.BuildCollapsedPayloadItem | src/tables/write-collapse.util.ts:12-33 | header, lines and references of the item, field by field |
| Collapse.CollapsedKeepsEveryRow | src/tables/write-collapse.util.ts:1-33 | header and line rebuild every row: other fields as they were, grouping fields with their value as text, references ours |
| Payload.BuildPayload | src/tables/table-rows.service.ts:1204-1216 | one item per row with its reference and the renamed fields that may leave, or one combined item for all rows under the configured name |
| Payload.ItemCarriesField | src/tables/table-rows.service.ts:1205-1216 | every field that is not excluded goes out under its renamed key, beside the row's own reference |
| Payload.ItemCarriesNothingElse | src/tables/table-rows.service.ts:1204-1216 | and nothing else does, in particular no excluded field |
| Payload.CombinedItemCarriesField | src/tables/table-rows.service.ts:1212-1215 | a combined item carries every such field of every row, in the row's line with its reference or, for a grouping column, as text in the header |
| SiiResult.FindNestedRows | src/callbacks/sii-result.mapper.ts:118-127 | the first non-empty array property whose elements all carry `internal_ref` |
| SiiResult.MapVendorResult | src/callbacks/sii-result.mapper.ts:60-116 | a list is answered item by item, anything else as one item, in order |
| VendorAnswers.FlatAnswer | src/callbacks/sii-result.mapper.ts:88-112 | an object without nested rows gives one row result when it refers to a row, else one batch result when it refers to a batch, else none; with that reference as text, its non-empty state or else unknown, its own error fields and itself as raw |
| VendorAnswers.NestedAnswer | src/callbacks/sii-result.mapper.ts:71-86 | the first property that lists rows gives one row result per row with a reference, in order, the row's own word before its parent's, and no batch result |
| VendorAnswers.ListItem | src/callbacks/sii-result.mapper.ts:118-127 | the same for an item that is itself a list |
| SiiResult.EchoGivesOneResultPerRow | src/callbacks/sii-result.mapper.ts:34-88 | the vendor's answer to a combined item gives one result per row in order, with the line's own status, else the item's, else unknown, and no batch result |
| SiiResult.ResultsConcat | src/callbacks/sii-result.mapper.ts:65-115 | a payload of several answers is mapped answer by answer |
| SiiResult.ItemsAnswerOneWay | src/callbacks/sii-result.mapper.ts:73-112 | no item yields both row and batch results, and a batch result needs a batch reference and no row reference |
| OutboxDrain.Outbox.Save | src/outbox/typeorm-outbox.store.ts:19-31 | the event is spooled last, untried |
| OutboxDrain.Outbox.GetPending | src/outbox/typeorm-outbox.store.ts:33-50 | the oldest pending events up to the limit, in order |
| OutboxDrain.Outbox.Drain | src/outbox/outbox-drain.cron.ts:28-56 | every item of the window up to one that aborts is published, counted as failed or moved to the dead letters, and nothing else changes |
| OutboxDrain.NoEventIsLost | src/outbox/outbox-drain.cron.ts:28-56 | whatever raises, attempts never exceed five, drained without dead letter means published, dead-lettered means five recorded failures |
| OutboxDrain.AtMostFivePublications | src/outbox/outbox-drain.cron.ts:42-50 | when only publishing and marking can raise, an event is published at most five times |
| OutboxDrain.EveryDrainCounts | src/outbox/outbox-drain.cron.ts:28-56 | a drain that finds work strictly lessens the attempts left over all pending events |
| OutboxDrain.EveryEventLeaves | src/outbox/outbox-drain.cron.ts:30-55 | with at most 50k pending events up to it, an event is published or dead-lettered after 6k drains, whatever arrives behind it |
| Backup.U32RoundTrip | src/backup/pg-tools.ts:25-26 | a length below 2^32 is read back as written |
| Backup.LowByteFirst | src/backup/pg-tools.ts:25-26 | a length is written in four bytes, the low one first |
| Backup.OutFile.WriteChunk | src/backup/pg-tools.ts:23-34 | prefix and bytes are appended, or nothing when the length does not fit |
| Backup.OutFile.DumpTables | src/backup/pg-tools.ts:43-67 | the artefact is the encoding of the tables, unless a length does not fit |
| Backup.Reader.ReadExact | src/backup/pg-tools.ts:69-83 | the next bytes however the stream is cut into buffers, or null exactly when fewer are left |
| Backup.Reader.RestoreTables | src/backup/pg-tools.ts:91-133 | exactly the wanted tables of the parsed artefact are fed, an error is raised exactly when a table is cut short, and triggers are enabled inside a running COPY exactly when the artefact ends inside the data of a wanted table |
| Backup.ParsePrefix | src/backup/pg-tools.ts:91-133 | any prefix of an artefact is parsed into its whole tables |
| Backup.RestoreOfCutArtefact | src/backup/pg-tools.ts:91-133 | of an artefact cut anywhere exactly the whole tables are restored, byte for byte and filtered, and the cut is reported exactly when four bytes or more are left over |
| Backup.FilteredAreWanted | src/backup/pg-tools.ts:91-108 | the tables asked for are fed and no others |
| Backup.FilteredAreAll | src/backup/pg-tools.ts:91-108 | when none is named, or each, all tables are fed in their order |
| Backup.OpenTableOfCut | src/backup/pg-tools.ts:103-126 | a cut artefact ends inside the data of the next table exactly when that table's whole name is left |
| Backup.RoundTripIffNoEmptyChunk | src/backup/pg-tools.ts:57-61 | a dump of named tables is restored byte for byte exactly when no COPY buffer was empty |

## Left out

- HTTP, queues, encryption, mail, wiring, DTO checks, controllers, metrics, migrations: plumbing around libraries.
- Aggregates, summaries, statistics, pagination defaults, dataset descriptors, find-missing-ids, the delete ledger and retention purges: mostly the database's work.
- Deletes sent to the external system before a local delete (`propagateExternalDeletes`).
- Operation runs, write cron, backup cron, token rotation, send-target resolution: short guards.
- `trace_id`, `last_written_at`, `external_ref`, `updated_at` and a load's table and connection: stored, never decided on here, except `updated_at` in filters.
- md5: the stored state keeps the string that is hashed, so two groups with one digest are not modelled; where rows are partitioned into calls the digest is any function to 32 hex characters.
- Grouping columns are taken as distinct, and their values as text; keys that look like integers, which JavaScript would put first, are not modelled.
- Recency values are integers or decimal-integer texts; other numeric notations, infinities and rounding are not modelled, nor are JavaScript numbers beyond the limits a pool is given.
- One table of rows: the `table_key` scope of the statements is not modelled (the load flip and the callbacks have none).
- Time is a number handed in; random ids are parameters, assumed fresh where a result needs it.
- Row deletion does not free the number of an appended row; a re-ingested keyed row gets the identity it had.
- Text casts, ISO dates and regular expressions in filters are unknown functions that may raise; case folding is ASCII.
- JSON object keys keep insertion order; the reordering of integer-like keys and `__proto__` are not modelled.
- TableRowsService.Database.ProcessCallback: when several results name one row the database may take any of them for its state, and so does the model; when a line and a batch result both carry an error, the database may merge either, and the model merges the line's.
- Concurrency across operations: each operation is one step, the fetch and commit of a send apart (`SendRace.dfy`).
- Combined calls ship all siblings of a group as context, staged ones included; only the marked rows are protected by the results here.
- TableRowsService.Database.UpdateAndWrite: taken as one step, while the source runs the save and the re-queue as two statements.
- TableRowsService.Database.DeleteByIds: deletes by id only; deleting by filter or age selects rows by the same filters and is not repeated here.
- TableRowsService.Database.SubmitGroup: the payload is the set of row ids; its content is in `Payload.dfy`, and the run history is not kept.
- WriteBatch.PartitionAndSubmit: the calls in the order they start, none of them rejecting; what a rejection leaves unsent follows from `WorkerPool.dfy`.
- LockOrder.IngestLocksRise: for calls without load metadata, whose later statements lock no further rows.
- LockOrder.NeverCirclesIffOneColumn: for such calls too; the flip of a load locks rows of other calls.
- BatchAgreement.CallsAgreeIffPairsAgree: for rows whose dedup key stands for their ids and that have no blank id column, and for calls without load metadata.
- GroupIntegrity.FirstPassTakesTheWholeGroup: deletes, edits, plain re-ingests and force-submits of the group's rows are excluded, as any of them can split it.
- OutboxDrain.Outbox.Drain: drains do not overlap, and events become visible in spool order.
- Backup.RoundTripIffNoEmptyChunk: table names are non-empty byte strings; name decoding is not modelled.
- Filters.Query: sort expressions and the offset are bound but not evaluated, since they decide no row's membership.
