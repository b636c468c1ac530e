# Verified cores of the reporting platform

This project models the parts of the platform whose correctness depends on an argument over many steps, and proves
it: the structured-output validator of the AI layer, the resource machine and the result paths of the connector
service, the embedding outbox, the identity, approval, quota and export protocols, and two grouping algorithms.

Verify everything with `dafny verify dfyconfig.toml` (Dafny 4.11).

## How the files follow the program

| Program part | Modules |
|---|---|
| `internal/ai/validation.go` | `EqualityKey.dfy` (values, structural equality, keys), `Rationals.dfy`, `Strings.dfy`, `JsonPointer.dfy`, `SchemaMeaning.dfy` (the plain meaning of a schema), `SchemaWork.dfy` (how many applications an evaluation runs), `SchemaEvaluator.dfy` (the budgeted evaluator), `StrictSchema.dfy` (the linter) |
| `connector_service/app/main.py` | `ConnectionPool.dfy` (one pool), `ConnectorMachine.dfy` (all threads), `PoolKeys.dfy` (whose pool a thread has), `ResultStream.dfy`, `SqlScanner.dfy`, `ReadOnlySql.dfy`, `Placeholders.dfy` |
| `internal/assetembedding` | `EmbeddingOutbox.dfy` (tables and transactions), `OutboxRuns.dfy` (competing workers), `OutboxWorker.dfy` (one pass of a worker) |
| `internal/access/admin.go` | `DomainGovernance.dfy`, `AdminStore.dfy`, `GovernanceRuns.dfy` |
| `internal/ai/postgres_store.go`, `internal/ai/service.go` | `QuotaLedger.dfy`, `AiInvocation.dfy` |
| `internal/dataset/dwd_dimension_validation.go` | `DimensionNames.dfy`, `DuplicateDecisions.dfy` |
| `internal/datarequest` | `RequestClusters.dfy`, `DataRequests.dfy`, `DataRequestStore.dfy`, `DataRequestRuns.dfy` |
| shared | `Prelude.dfy`, `FiniteSets.dfy`, `FiniteSums.dfy`, `Sorting.dfy`, `Trimming.dfy` |

Code that changes state is modelled by classes and methods with loops. Each such method is tied by its `ensures` to a
function of the old state, and the theorems over whole runs are lemmas about those functions. The stores of the
governance, data-request and outbox protocols require and keep the invariants of their runs.

## What is assumed

- A database transaction is one atomic step; an error leaves the tables as they were. Rows that another transaction
  has locked may be skipped, so a claim may pick any set of claimable rows.
- SHA-256 and the canonical JSON of a hashed record are injective. Clocks are integers.
- Strings are sequences of characters; in the validator they are the bytes of UTF-8 text. Trimming, case mapping,
  character classes, UUID syntax and regular-expression matching are parameters.
- Drivers, providers and contexts are parameters that may answer anything. Closing a pooled connection returns
  normally; the generator of a stream is the one place where closing may raise (`StreamQueryEvents`).
- A placeholder driver is any function that says what a percent sign and the text after it do, where `%s` takes the
  next value, the escape of a percent sign ends with another one, and all values must be taken. Psycopg 3 is proved to
  be one; that python-tds, which formats with Python's `%`, is another is assumed.
- No white-space character is a letter, digit, quote or comment mark.
- The name of a document format has at most 100 characters and no line break.
- While a provider is called, others may do to the ledger whatever steps of theirs can do (`QuotaLedger.OthersOnlySweep`).
- All domain memberships are active, and the platform administrator role exists and is active.

## Where a claim one might expect is false

- *A superseded outbox worker changes neither table.* True of every settlement, exactly under the condition of
  `OutboxRuns.SettlementIsFencedExactly`; false of `Prepare`, which never looks at the lease
  (`OutboxRuns.PreparingIsNotFenced` says exactly when it writes, `OutboxRuns.SupersededClaimStillPrepares` gives a
  run). A re-claim fences every other worker but not an earlier claim of the same worker name
  (`OutboxRuns.ReclaimFencesOtherWorkers`). What the outbox is for survives all of this: see
  `OutboxRuns.SucceededEventsAreFresh`.
- *A stream has exactly one terminal event.* It does unless the query id is taken and closing the cursor then raises;
  two error events go out in that case (`ResultStream.StreamQueryEvents`).
- *Rewriting placeholders keeps the meaning of a statement.* It does exactly when there are no parameters, or some
  placeholder and no percent sign (`Placeholders.RewritingIsFaithfulExactly`). Failing inputs are `$1%` with one
  parameter (`Placeholders.PercentBesidePlaceholderFails`) and `A` with one parameter
  (`Placeholders.UnnamedParametersFail`).
- *The retry delay is the capped doubling.* It is exactly under `AiInvocation.ShiftIsHarmless`, a condition on the
  attempt, the base delay and the cap; a failing input is five attempts with both delays at 2^62 nanoseconds
  (`AiInvocation.LongDelaysWrap`).
- *An admitted AI request is settled by its caller.* It is unless another start sweeps it first: until it is settled, a
  request is still running exactly when no start was admitted at or after the end of its lease
  (`QuotaLedger.UnsettledRequestsRunExactly`); `QuotaLedger.StartSweepsExpiredRequest` is a run in which the settlement
  is lost. `AiInvocation.Invoke` settles exactly the requests that are still running.
- *Startup reconciliation rebuilds the assets of an earlier release that is still draining.* True once its workers have
  stopped (`OutboxRuns.RequeuedRowsReachTheFormat`), false while one still holds an unprepared claim: preparing spoils an
  up-to-date row exactly when the row is in another format (`OutboxRuns.PreparingSpoilsExactly`), and
  `OutboxRuns.DrainingWorkerUndoesTheRebuild` gives a run that ends with SUCCEEDED over a row without a vector. For the
  same reason `OutboxRuns.SucceededEventsAreFresh` speaks of runs of one release.

## Model

| member | source | states |
|---|---|---|
| `EqualityKey.KeysAgreeExactlyOnEqualValues` | internal/ai/validation.go:835-942 | For all values whose numbers are valid, the keys are equal exactly when structural comparison holds, whatever the order of object keys or the spelling of numbers |
| `EqualityKey.KeyIsDelimited` | internal/ai/validation.go:882-942 | Self-delimitation: if two keys with any texts after them are equal, the values are structurally equal and the rests coincide |
| `EqualityKey.EqualValuesShareKey` | internal/ai/validation.go:835-942 | Structurally equal values have the same key |
| `EqualityKey.AppendEqualityKey` | internal/ai/validation.go:882-942 | The builder gains exactly the key of the value, and succeeds exactly when every number renders and the depth limit holds |
| `EqualityKey.CanonicalEqualityKey` | internal/ai/validation.go:874-880 | Returns the key of the value, or none exactly when it has none |
| `EqualityKey.AllDistinct` | internal/ai/validation.go:601-613 | De-duplication by a set of seen keys accepts exactly the lists in which no two items are structurally equal and all have keys |
| `Rationals.RatStringIsInjective` | internal/ai/validation.go:882-900 | The rendering of lowest-terms rationals that number keys use is injective |
| `JsonPointer.TwoPassesAreOneUnescape` | internal/ai/validation.go:751-769 | On every token the two ReplaceAll passes equal one left-to-right unescape |
| `JsonPointer.DecodingUndoesEscaping` | internal/ai/validation.go:751-769 | For every key, its RFC 6901 (section 4) escape is a valid token without separator, and decoding gives the key back |
| `JsonPointer.EscapingUndoesDecoding` | internal/ai/validation.go:454-470 | Every valid token is the escape of what it decodes to |
| `JsonPointer.ValidLocalSchemaReference` | internal/ai/validation.go:454-470 | The index loop accepts exactly the two-segment references under `$defs` or `definitions` whose second token escapes correctly |
| `JsonPointer.ReferencesAreDefinitionPointers` | internal/ai/validation.go:454-470 | The accepted references are exactly the pointers to some named definition with its name escaped |
| `JsonPointer.ResolveLocalReference` | internal/ai/validation.go:751-769 | The loop over decoded segments finds what walking the pointer from the root finds |
| `JsonPointer.EscapedNameResolves` | internal/ai/validation.go:751-769 | The escaped name of an existing definition resolves to that definition |
| `JsonPointer.AcceptedReferenceLeadsToDefinition` | internal/ai/validation.go:454-470 | An accepted reference that resolves leads to a definition directly under the root |
| `SchemaMeaning.StepIsConsistent` | internal/ai/validation.go:524-640 | One level of evaluation cannot both accept and reject, whatever is known about subschemas |
| `SchemaMeaning.StepIsMonotone` | internal/ai/validation.go:524-700 | Knowing more verdicts of subschemas never changes a verdict already reached, so a limit never becomes one through anyOf, oneOf or not |
| `SchemaMeaning.DeeperDecidesMore` | internal/ai/validation.go:524-700 | Allowing one more nesting level keeps every verdict |
| `SchemaMeaning.MeaningIsUnique` | internal/ai/validation.go:524-700 | A schema means at most one of accept and reject for a value, over all nesting depths |
| `SchemaWork.WorkIsReached` | internal/ai/validation.go:524-700 | The number of applications, with multiplicity, that an evaluation can run is a number of schema and value alone: where subschemas nest less than m deep, allowing more levels adds none |
| `SchemaWork.UntilAcceptedIsPart` | internal/ai/validation.go:658-685 | The members of anyOf up to the first accepted one never take more applications than any scan that finds an accepted one |
| `SchemaEvaluator.Validate` | internal/ai/validation.go:524-640 | Any verdict of the budgeted evaluator is the meaning at its remaining levels. The budget loses at most the applications the evaluation can run (one, and those of the reference, every member, `not`, field and item) and at least those that the verdict needs; a limit error comes only when the budget is below that number and used up, or the nesting exceeds the limit |
| `SchemaEvaluator.ValidateAllOf` | internal/ai/validation.go:643-657 | allOf: acceptance and rejection are those of the meaning, and an undecided member ends the scan as a limit; the budget loses between what the verdict needs and what all subschemas can take |
| `SchemaEvaluator.ValidateAlternatives` | internal/ai/validation.go:658-685 | anyOf and oneOf: acceptance and rejection are those of the meaning, with anyOf stopping at the first match; the budget loses between what the verdict needs and what all subschemas can take |
| `SchemaEvaluator.ValidateNot` | internal/ai/validation.go:686-699 | not: inverts a decided subschema and passes a limit on; the budget loses between what the verdict needs and what all subschemas can take |
| `SchemaEvaluator.ValidateObject` | internal/ai/validation.go:564-596 | Objects, with fields visited in any order: decided as the meaning says or a limit; the budget loses between what the verdict needs and what all subschemas can take |
| `SchemaEvaluator.ValidateArray` | internal/ai/validation.go:597-624 | Arrays: counts, uniqueItems and items decided as the meaning says or a limit; the budget loses between what the verdict needs and what all subschemas can take |
| `SchemaEvaluator.MatchesEnum` | internal/ai/validation.go:524-563 | The scan finds a structurally equal enum value exactly when there is one |
| `SchemaEvaluator.ValidateJsonValue` | internal/ai/validation.go:518-522 | Whatever it decides is the meaning of the schema, on cyclic references too; it never runs more than 10,000 applications, gives up only when 10,000 ran and more can be needed or the nesting exceeds 128, and otherwise runs at least what the verdict needs and at most what all subschemas can take |
| `SchemaEvaluator.TwoEvaluationsAgree` | internal/ai/validation.go:518-700 | Two evaluations with different budgets, depths and iteration orders that avoid the limit give the same verdict |
| `StrictSchema.CheckRequired` | internal/ai/validation.go:256-304 | The loop accepts exactly distinct required names as many as the properties and covering them |
| `StrictSchema.RequiredNamesAreTheProperties` | internal/ai/validation.go:256-304 | Counting: such names are exactly the property names |
| `StrictSchema.AcceptedObjectIsClosed` | internal/ai/validation.go:564-593 | An object accepted at a strict node with properties has exactly the property names as its keys |
| `StrictSchema.ReferencedNodeIsStrict` | internal/ai/validation.go:161-200 | A reference in a strict schema leads only to nodes the linter accepted |
| `StrictSchema.ChildOfStrictIsStrict` | internal/ai/validation.go:161-378 | Every subschema an evaluation can descend into is strict again |
| `StrictSchema.LinterForcesClosedObjects` | internal/ai/validation.go:161-378 | If the linter accepts a root, then at every node with properties an evaluation reaches, under failing alternatives and `not` too, an accepted object has exactly the properties as its keys |
| `ConnectionPool.PoolObject.constructor` | connector_service/app/main.py:470-476 | A new pool is empty, with the smaller of the two maxima |
| `ConnectionPool.PoolObject.AddRegistryReference` | connector_service/app/main.py:478-483 | Counts a reference, or refuses on a closed pool |
| `ConnectionPool.PoolObject.TryBorrow` | connector_service/app/main.py:491-507 | One pass under the condition: reuses the connection returned last, reserves room to open one, waits, or refuses on a closed pool |
| `ConnectionPool.PoolObject.Release` | connector_service/app/main.py:524-535 | A healthy connection becomes idle; a broken one, or any in a closed pool, leaves the pool and owes a global slot |
| `ConnectionPool.PoolObject.Close` | connector_service/app/main.py:537-549 | Empties the idle list and reports exactly how many slots that frees |
| `ConnectionPool.PoolObject.EvictOneIdleConnection` | connector_service/app/main.py:559-571 | Takes the idle connection returned last, and only from an open pool that has one |
| `ConnectionPool.PoolObject.IsEvictable` | connector_service/app/main.py:551-555 | True exactly for an open pool without references whose created connections are all idle |
| `ConnectionPool.PoolObject.CloseIfEvictable` | connector_service/app/main.py:551-557 | An evicted pool is closed and owes back a slot for every connection it had created, so none is lost; any other pool is untouched |
| `ConnectorMachine.VictimIsUntouched` | connector_service/app/main.py:551-557 | Between the eviction check and the close no other thread can change the victim |
| `ConnectorMachine.StepKeepsInvariant` | connector_service/app/main.py:467-698 | Every critical section of every thread keeps the structural invariant and the accounts of all counters |
| `ConnectorMachine.GlobalCountIsExact` | connector_service/app/main.py:647-691 | In every state of every run the global count equals created connections, minus acquires not yet reserved, plus destroyed connections not yet returned, plus one-shots |
| `ConnectorMachine.OpenConnectionsAreBounded` | connector_service/app/main.py:647-674 | Open sockets are at most the global count, which is at most the limit and never negative |
| `ConnectorMachine.PoolsAreSound` | connector_service/app/main.py:467-571 | Every pool has created = in use + idle, at most its maximum; closed means no idle; in use and references equal the threads they count; the registry stays within its limit |
| `ConnectorMachine.TimeoutMeansExhausted` | connector_service/app/main.py:491-507 | In every run a thread gives up on a pool only when its maximum of connections is created and in use |
| `ConnectorMachine.FullMeansFull` | connector_service/app/main.py:647-660 | In every run a thread finds the global quota full exactly when it is used up to the last slot |
| `ConnectorMachine.EvictionClosesUnusedPools` | connector_service/app/main.py:551-557 | When the close of an eviction runs, no thread borrows from the pool or stands between get_pool and acquire on it, despite the gap after the check |
| `ConnectorMachine.GetPoolFindsOpenPool` | connector_service/app/main.py:591-604 | get_pool never finds a closed pool in the registry; whose pool it finds is `PoolKeys.ThreadsGetTheirPool` |
| `PoolKeys.StepKeepsKeys` | connector_service/app/main.py:591-604 | Every critical section keeps each pool under the key it was created for, and each thread on the key its call names |
| `PoolKeys.RegistryLeadsToItsPool` | connector_service/app/main.py:595-602 | In every run the registry leads from a key only to the pool created for that key, through evictions and closes |
| `PoolKeys.ThreadsGetTheirPool` | connector_service/app/main.py:591-698 | In every run a thread that has got, references, waits for, borrows from, gives back to or closes a pool has one created for the key its call asked for, so a query never runs on the connection of another data source |
| `PoolKeys.RunsAreTracked` | connector_service/app/main.py:591-698 | Recording who asked for what forbids nothing: every run of the machine is followed by a recorded one |
| `ConnectorMachine.LocksAreOrdered` | connector_service/app/main.py:591-674 | A thread holding a lock only waits for a later kind in the order registry, pool, global |
| `ConnectorMachine.SomeThreadAdvances` | connector_service/app/main.py:591-691 | No deadlock: whenever a thread is busy, it or the holder of a lock can take a step that moves it on |
| `ResultStream.RowsFitExactly` | connector_service/app/main.py:1369-1400 | Encoding reports no failure exactly when every cell is a scalar within the cell limit and every row within the row limit |
| `ResultStream.BoundedRows` | connector_service/app/main.py:1369-1400 | Returns the encodings of all rows in order, or the failure of the first row and cell at fault |
| `ResultStream.EmitBatches` | connector_service/app/main.py:2073-2112 | The fetch loop finishes exactly when all rows are deliverable within every budget; its events carry a prefix of the rows, all of them when it finishes |
| `ResultStream.StreamQueryEvents` | connector_service/app/main.py:2045-2132 | Total bytes stay within the limit; one optional schema event, batches, then exactly one terminal event unless a conflict meets a failing close; a complete event counts exactly the rows sent, all of them, at most max_rows; and it is sent exactly when everything is deliverable |
| `ResultStream.Terminate` | connector_service/app/main.py:2116-2132 | Adds the one terminal event the outcome calls for, within the byte limit |
| `ResultStream.CompletionFitsTheReserve` | connector_service/app/main.py:2125-2132 | The terminal reserve always suffices for a completion of realistic size, so its last check cannot fail |
| `ResultStream.CompletionTellsCounts` | connector_service/app/main.py:2125-2128 | The completion event that is sent determines its row count and duration |
| `ResultStream.SuffixTellsCounts` | connector_service/app/main.py:2014-2017 | The end of a document determines its row count and duration, whatever texts are before it |
| `ResultStream.AppendRow` | connector_service/app/main.py:1992-2013 | The running counter always equals the length of prefix and joined rows; a refused row means the whole result does not fit |
| `ResultStream.Query` | connector_service/app/main.py:1944-2042 | The document is sent exactly when the whole result fits, and holds every row once and in order within the limit |
| `SqlScanner.PiecesSpellTheText` | connector_service/app/main.py:1268-1294 | The structure the scanners see is well formed and spells the text |
| `SqlScanner.TextHasThesePieces` | connector_service/app/main.py:1268-1294 | Every well-formed structure is found again in its text, so a text has at most one |
| `SqlScanner.AcceptedTextsAreWellFormed` | connector_service/app/main.py:1292-1294 | Exactly the texts whose quoted regions all end are accepted |
| `SqlScanner.TokenIsRun` | connector_service/app/main.py:1268-1294 | Every token is a maximal run of word characters outside quotes |
| `SqlScanner.RunIsToken` | connector_service/app/main.py:1268-1294 | Every such run is a token |
| `SqlScanner.TokensAreInOrder` | connector_service/app/main.py:1268-1294 | Tokens come in the order of the text, each run once |
| `SqlScanner.SqlTokens` | connector_service/app/main.py:1268-1294 | Returns the upper-cased tokens of the structure, or none for an unterminated quote |
| `SqlScanner.KeywordOccurrencesAreFunctionCalls` | connector_service/app/main.py:1297-1330 | On accepted text, true exactly when every token equal to the keyword is followed, after white space, by a parenthesis |
| `SqlScanner.QuotedRegionsDoNotMatter` | connector_service/app/main.py:1268-1330 | Texts that differ only inside quoted regions get the same tokens and the same keyword answer |
| `ReadOnlySql.ValidateReadOnlySql` | connector_service/app/main.py:1236-1254 | Accepts exactly the texts that, stripped, are unmarked, have tokens starting with SELECT or WITH and holding no forbidden word, and use REPLACE only as a function |
| `ReadOnlySql.StrippingDoesNotMatter` | connector_service/app/main.py:1236-1254 | The check reads the stripped text and the driver gets the text as it came: both have the same verdict |
| `Placeholders.PartsSpellTheText` | connector_service/app/main.py:1232 | The division by the placeholder pattern loses nothing: rendered again it is the text |
| `Placeholders.PartsAreWellDivided` | connector_service/app/main.py:1232 | The division takes every digit of a placeholder and leaves no placeholder unnoticed |
| `Placeholders.DivisionIsUnique` | connector_service/app/main.py:1232 | No other such division spells the text, so `$12` is the twelfth parameter and nothing else |
| `Placeholders.AdaptQueryParameters` | connector_service/app/main.py:1215-1233 | Rewrites each placeholder to `%s` and lists its parameter, in order; an error exactly when some index is out of range |
| `Placeholders.CountsMatch` | connector_service/app/main.py:1223-1233 | The list has one value for each placeholder |
| `Placeholders.RewritingIsFaithfulExactly` | connector_service/app/main.py:1215-1233 | For every driver of a format style: what is executed is the text with each placeholder filled by the parameter it numbers, exactly when there are no parameters, or some placeholder and no percent sign |
| `Placeholders.PercentsArePaid` | connector_service/app/main.py:1215-1233 | Whatever such a driver does, each percent sign in the result costs two in the text and each value taken costs one |
| `Placeholders.PercentBesidePlaceholderFails` | connector_service/app/main.py:1952-1957 | A failing input: a percent sign beside a placeholder makes the driver refuse the statement |
| `Placeholders.UnnamedParametersFail` | connector_service/app/main.py:1233 | A failing input without percent sign: parameters no placeholder names are passed on, and the driver refuses them |
| `Placeholders.PercentAloneIsKept` | connector_service/app/main.py:1952-1957 | An input with a percent sign and without parameters, executed as it stands |
| `Placeholders.PsycopgIsFormatStyle` | connector_service/app/main.py:1156-1161 | The style of psycopg 3 is one of those drivers |
| `EmbeddingOutbox.Store.RequeueStaleDocuments` | internal/assetembedding/postgres_store.go:42-61 | The event of every row in another document format is due at once with all its attempts under a newer version, no claim on it is held any more, and no other event changes |
| `EmbeddingOutbox.Store.ClaimBatch` | internal/assetembedding/postgres_store.go:63-102 | Sweeps spent leases, then grants the picked events: each returned claim is held by the worker; a granted event can be claimed again exactly when its lease is over and attempts are left |
| `EmbeddingOutbox.Store.Prepare` | internal/assetembedding/postgres_store.go:104-214 | The document is exactly the fitting text of the metadata in the given format, and its hash; afterwards the row holds that very text in that format, and either its vector is stored and nothing has changed, or the row waits for it; no other row changes |
| `EmbeddingOutbox.Store.Complete` | internal/assetembedding/postgres_store.go:220-238 | Stores the vector and ends the event together, or names the reason and changes nothing |
| `EmbeddingOutbox.Store.Skip` | internal/assetembedding/postgres_store.go:240-251 | Deletes the row and ends the event together, or changes nothing |
| `EmbeddingOutbox.Store.Fail` | internal/assetembedding/postgres_store.go:253-285 | Clears the row of the same hash and returns the event with its back-off, or changes nothing |
| `EmbeddingOutbox.Store.Acknowledge` | internal/assetembedding/postgres_store.go:216-218 | Ends the event, or changes nothing when the lease is lost |
| `OutboxRuns.StepKeepsInvariant` | internal/assetembedding/postgres_store.go:42-305 | Every step of every worker, metadata change and requeue keeps the outbox invariant |
| `OutboxRuns.RunTablesAreSound` | internal/assetembedding/postgres_store.go:42-305 | The tables of every run satisfy what the methods of the store require and keep |
| `OutboxRuns.EmbeddedRowsHoldTheirVector` | internal/assetembedding/postgres_store.go:199-238 | In every run a stored vector was computed for the text whose hash is stored |
| `OutboxRuns.SucceededEventsAreFresh` | internal/assetembedding/postgres_store.go:104-305 | In every run of one release, from whatever an earlier one left, an event that says SUCCEEDED means the stored vector answers the metadata as it is now, in the format of its row |
| `OutboxRuns.SkippedEventsHaveNoRow` | internal/assetembedding/postgres_store.go:240-251 | In every run a SKIPPED event means the metadata has no document in the format it was skipped for, and no vector is kept |
| `OutboxRuns.AttemptsAreBounded` | internal/assetembedding/postgres_store.go:63-102 | No version is handed out more than three times, and FAILED comes only after three |
| `OutboxRuns.UnexpiredLeaseIsExclusive` | internal/assetembedding/postgres_store.go:63-102 | An unexpired lease ends only by its holder's settlement or a newer version; nobody else can claim it |
| `OutboxRuns.RestartVoidsClaims` | internal/assetembedding/postgres_store.go:42-61 | A restart leaves no earlier claim held |
| `OutboxRuns.ExpiredLeasesEnd` | internal/assetembedding/postgres_store.go:69-85 | Every expired running event is claimable again, or its attempts are spent and the next claim sweeps it to FAILED |
| `OutboxRuns.SettlementIsFencedExactly` | internal/assetembedding/postgres_store.go:216-305 | A settlement changes the tables exactly when its worker holds the claimed version (and a completion's row waits for that hash, and a skip has a reason) |
| `OutboxRuns.ReclaimFencesOtherWorkers` | internal/assetembedding/postgres_store.go:76-86 | After a re-claim the earlier claim is still held exactly when the same worker name claimed |
| `OutboxRuns.FailuresBackOff` | internal/assetembedding/postgres_store.go:267-283 | A failed event is claimable again after 30 seconds, then after 2 minutes, and after the third attempt not at all |
| `OutboxRuns.PreparingIsNotFenced` | internal/assetembedding/postgres_store.go:192-212 | Exactly when preparing writes, with no regard to the lease |
| `OutboxRuns.SupersededClaimStillPrepares` | internal/assetembedding/postgres_store.go:192-212 | A run in which a superseded claim, held by nobody, overwrites the row |
| `OutboxRuns.ReleasesFollow` | internal/assetembedding/postgres_store.go:39-61 | What any run reaches is a start for the workers of the next release, whatever its document format, once the earlier ones have stopped |
| `OutboxRuns.RequeuedRowsReachTheFormat` | internal/assetembedding/postgres_store.go:39-61 | In every run, a row requeued because of its format is in the new format and up to date whenever its event succeeds again, and has no document in it when the event is skipped |
| `OutboxRuns.CurrentIsFresh` | internal/assetembedding/postgres_store.go:192-198 | A document counts as current exactly when the stored vector answers the present metadata in the format of the release: equal texts have equal formats |
| `OutboxRuns.PreparingSpoilsExactly` | internal/assetembedding/postgres_store.go:192-212 | Preparing a claim spoils an up-to-date row exactly when the row is in a format other than the worker's and the document fits |
| `OutboxRuns.DrainingWorkerUndoesTheRebuild` | internal/assetembedding/worker.go:27-30 | A run in which a worker of an earlier release, still draining, undoes the rebuild: the event says SUCCEEDED, the row is back in the old format without a vector, and no claim on it is held |
| `OutboxWorker.PrepareAll` | internal/assetembedding/worker.go:58-78 | Every claim without a document to embed is settled at once, the others wait in order |
| `OutboxWorker.ProcessClaims` | internal/assetembedding/worker.go:58-98 | Without interference, the event and the row of every claim end exactly as its document and the vector at its place among the waiting claims say; only an empty vector is refused, and its claim stays leased |
| `AdminStore.Store.UpdateUserStatus` | internal/access/admin.go:511-590 | Every method keeps the invariant of the runs. Here: succeeds exactly for a platform administrator and a known user who, to be disabled, must hold no administrator identity (so nobody disables their own account); nothing else changes |
| `AdminStore.Store.CreateDomain` | internal/access/admin.go:681-772 | The transaction: the count of valid administrators decides exactly whether all are valid |
| `AdminStore.Store.AssignUserDomain` | internal/access/admin.go:775-829 | Afterwards the user is a plain member everywhere and no administrator; every earlier membership keeps its role, and only this one can be new |
| `AdminStore.Store.RevokeUserDomain` | internal/access/admin.go:833-880 | Takes exactly the one membership away, and no domain loses an administrator by it |
| `AdminStore.Store.UpdateDomainAccessSensitivity` | internal/access/admin.go:888-929 | Only the level changes: every review is accepted afterwards exactly when it was before, so applications in flight keep their seats |
| `AdminStore.Store.UpdateDomainStatus` | internal/access/admin.go:931-990 | Afterwards a review about the domain succeeds exactly when it is due and its reviewer is a platform administrator, or the domain is enabled and the reviewer administers it; to a disabled domain nobody can be assigned or apply |
| `AdminStore.Store.SetPlatformAdministrator` | internal/access/admin.go:1026-1119 | Removal succeeds exactly when somebody else remains, by the two queries on count and assignment; an appointee holds no membership; no domain gains or loses an administrator; an appointment succeeds exactly when made by a platform administrator, of an active user who administers no domain |
| `AdminStore.Store.ReplaceDomainAdministrators` | internal/access/admin.go:1704-1804 | The transaction: the administrators of the domain become exactly the given users, exactly when a platform administrator names eligible ones |
| `AdminStore.Store.ApplyDomainAccess` | internal/access/admin.go:1230-1303 | The transaction: a second submission only refreshes the reason, a new one pins seats and due time |
| `AdminStore.Store.WithdrawDomainApplication` | internal/access/admin.go:1309-1333 | Only the applicant, only while pending: signatures stay, no review, escalation or withdrawal of it succeeds any more, and the applicant has no other pending application there |
| `AdminStore.Store.ReviewDomainApplication` | internal/access/admin.go:1460-1630 | The transaction: receipt, decision and membership together, or nothing. It succeeds exactly when the application is pending and somebody else's, the seat is left for the reviewer, and the reviewer is a platform administrator or an administrator of the active domain |
| `AdminStore.Store.EscalateDomainApplication` | internal/access/admin.go:1639-1699 | One level on, at most three, still pending with the same signatures; every review is accepted afterwards exactly when it was before; only by a platform administrator or an administrator of the active domain |
| `GovernanceRuns.StepKeepsInvariant` | internal/access/admin.go:511-1804 | Every operation keeps the identity invariant, sound applications, one pending application per user and domain, and active default domains |
| `GovernanceRuns.IdentitiesAreExclusive` | internal/access/admin.go:511-1804 | In every run: nobody is member and administrator, platform administrators hold no membership, administrators are active, and the platform has an administrator |
| `GovernanceRuns.AdministeredDomainsStayAdministered` | internal/access/admin.go:681-1804 | In every run a domain that has an administrator never loses its last one |
| `GovernanceRuns.ReviewsNeedAuthority` | internal/access/admin.go:1482-1583 | By the tables: a review succeeds exactly when it is due and its reviewer is a platform administrator, or holds the administrator role in the application's active domain |
| `GovernanceRuns.EscalationsNeedAuthority` | internal/access/admin.go:1639-1699 | By the tables: an escalation succeeds exactly on an overdue pending application below the third level, by somebody with that authority |
| `GovernanceRuns.AdministratorsAct` | internal/access/admin.go:511-1804 | Every other administrative operation succeeds only for somebody who is a platform administrator at that moment |
| `GovernanceRuns.ReceiptsWereAuthorized` | internal/access/admin.go:1460-1630 | In every run every receipt was signed at some earlier moment by somebody other than the applicant who had authority over the domain then, as platform administrator exactly if recorded so |
| `GovernanceRuns.AccessIsGranted` | internal/access/admin.go:774-1630 | A new membership comes from a platform administrator or from an application approved with every seat signed |
| `GovernanceRuns.ReplacementIsExact` | internal/access/admin.go:1756-1795 | After a replacement the administrators of the domain are exactly the given users, removed ones hold nothing there, and no other domain is touched |
| `GovernanceRuns.AppointmentIsExclusive` | internal/access/admin.go:1047-1080 | An appointment takes all memberships of the appointed user and of nobody else |
| `GovernanceRuns.SubmissionPinsSeats` | internal/access/admin.go:1243-1275 | A new application pins its seats by the sensitivity of the moment and its due time; a repeated one changes the reason of the pending row only |
| `GovernanceRuns.ReviewsAdmitOnApproval` | internal/access/admin.go:1598-1618 | A review changes memberships exactly when it completes an approval, in the role the applicant already has |
| `GovernanceRuns.ApprovalsAreEarned` | internal/access/admin.go:1460-1630 | An approval that pinned two seats has approving owner and security receipts from two reviewers, neither the applicant, the security one signing as platform administrator |
| `GovernanceRuns.PendingIsUndecided` | internal/access/admin.go:1538-1597 | A pending application has no rejection and misses a seat |
| `GovernanceRuns.OnlyReviewsDecide` | internal/access/admin.go:888-929 | Sensitivity changes, escalations and all other operations neither decide, relax nor sign an application |
| `GovernanceRuns.ReviewsAreUnaffected` | internal/access/admin.go:885-929 | Escalations and sensitivity changes open no door: exactly the same reviews are accepted after them |
| `GovernanceRuns.RevokingUndoesAssigning` | internal/access/admin.go:775-880 | Revoking a new assignment restores the tables |
| `GovernanceRuns.DecisionsAreFinal` | internal/access/admin.go:1230-1699 | Through any later run the pinned seats stay, receipts are only added, and a decided application never changes |
| `QuotaLedger.Store.Total` | internal/ai/postgres_store.go:74-87 | The aggregate over the rows is their sum |
| `QuotaLedger.Store.Start` | internal/ai/postgres_store.go:30-102 | Admits exactly when valid, allowed and within every quota; a refusal rolls the sweep back too |
| `QuotaLedger.AdmissionIsExact` | internal/ai/postgres_store.go:59-102 | A start is admitted exactly when the day has room for one request more and the month for its tokens and its cost; numbers below zero have no room under a limit |
| `QuotaLedger.Store.Complete` | internal/ai/postgres_store.go:105-142 | Settles exactly a valid completion of a running request |
| `QuotaLedger.Store.Fail` | internal/ai/postgres_store.go:145-169 | Settles exactly a running request as failed or canceled |
| `QuotaLedger.StepKeepsInvariant` | internal/ai/postgres_store.go:30-185 | Every step keeps charges within reservations under each monthly limit and counts under the daily limit |
| `QuotaLedger.MonthStaysWithinLimit` | internal/ai/postgres_store.go:30-142 | In every run a month's accounted usage is at most the limit plus what settled requests used beyond their reservations, saturation of the aggregate included |
| `QuotaLedger.DayStaysWithinLimit` | internal/ai/postgres_store.go:271-276 | In every run no day has more requests than a positive limit |
| `QuotaLedger.SettledRequestsStay` | internal/ai/postgres_store.go:172-185 | A request leaves RUNNING at most once and never changes its reservation |
| `QuotaLedger.OthersOnlySweep` | internal/ai/postgres_store.go:59-72 | Through any steps that do not settle a request, others leave it as it is or sweep it to failed, and the latter only after its lease; `QuotaLedger.UnsettledRequestsRunExactly` says exactly when |
| `QuotaLedger.UnsettledRequestsRunExactly` | internal/ai/postgres_store.go:59-72 | Through such steps a running request is still running exactly when no start was admitted at or after the end of its lease |
| `QuotaLedger.StartSweepsExpiredRequest` | internal/ai/postgres_store.go:59-72 | A run in which it happens: 300 seconds after its start the next admitted start fails a running request, and no settlement of it is accepted any more |
| `AiInvocation.EstimateInputTokens` | internal/ai/service.go:380-391 | Input bytes plus a fixed amount for each image, at least one |
| `AiInvocation.SaturatingMultiplyIsExact` | internal/ai/service.go:393-411 | The division test saturates exactly when the product does not fit |
| `AiInvocation.PriceCoversTokens` | internal/ai/service.go:428-440 | A price below saturation is the least whole number of micros covering the tokens |
| `AiInvocation.CostIsPrice` | internal/ai/service.go:413-440 | What is charged is the least whole number of micros covering the prompt at the input rate plus the least covering the completion at the output rate, as far as it fits |
| `AiInvocation.PriceIsUnique` | internal/ai/service.go:413-440 | Tokens and rates leave one price only |
| `AiInvocation.PriceIsClose` | internal/ai/service.go:413-440 | Below saturation a price covers prompt times input rate plus completion times output rate and is less than two micros above; with one kind of tokens it is the least that covers them at their own rate |
| `AiInvocation.UsageWithinEstimateIsReserved` | internal/ai/service.go:413-440 | Usage within the estimate never costs more than the reservation, saturation included |
| `AiInvocation.RetryDelayIsCappedDoubling` | internal/ai/service.go:497-509 | Between any two attempts the loop can make, the delay is the capped doubling exactly under a condition on attempt, base delay and cap; a delay that the provider asks for is kept up to the cap |
| `AiInvocation.LongDelaysWrap` | internal/ai/service.go:497-509 | Permitted options under which the delay is negative |
| `AiInvocation.CallProvider` | internal/ai/service.go:263-289 | Between one and maxAttempts calls; another follows exactly after a timeout of the attempt alone or an error the provider calls retryable, with call and wait still live; the result is an output exactly when the last attempt returned one in time, and no output in time is passed over |
| `AiInvocation.Invoke` | internal/ai/service.go:198-315 | A refused start calls nothing; an admitted one settles its request once with the outcome of its last call, unless another start has swept it meanwhile, which cannot happen within its lease; a swept request stays charged with its reservation. A settled request succeeded exactly when its last attempt returned a conforming output in time, and is then charged the price of the tokens it used; the reservation is the price of the estimate times the attempts |
| `DimensionTexts.NamingIsValid` | internal/dataset/dwd_dimension_validation.go:549-561 | Trimming is idempotent and leaves default reasons alone, for the real name normalisation |
| `DimensionNames.UniqueSortedNonEmpty` | internal/dataset/dwd_dimension_validation.go:563-576 | The distinct trimmed values in ascending order |
| `DimensionNames.CheckPlan` | internal/dataset/dwd_dimension_validation.go:451-474 | Accepts exactly plans of disjoint groups, each of two or more known versions of one name with a reason, and keeps the last reason of each name |
| `DimensionNames.BuildClasses` | internal/dataset/dwd_dimension_validation.go:478-484 | The map holds exactly the classes under normalized names |
| `DimensionNames.CanonicalizeNameValidation` | internal/dataset/dwd_dimension_validation.go:440-505 | An accepted plan is completed to exactly the classes of two or more, whole and in order |
| `DimensionNames.CanonicalIsUnique` | internal/dataset/dwd_dimension_validation.go:485-504 | Candidates and reasons leave only one completion |
| `DimensionNames.GroupedExactlyByName` | internal/dataset/dwd_dimension_validation.go:440-505 | Two candidates share a group exactly when they share a normalized name that is not empty |
| `DimensionNames.GroupingIgnoresThePlan` | internal/dataset/dwd_dimension_validation.go:475-504 | The groups are the same whatever partial groups the plan proposed |
| `DimensionNames.CompletionIsIdempotent` | internal/dataset/dwd_dimension_validation.go:834-886 | A completed plan is accepted again and completes to itself, so a reloaded checkpoint reproduces it |
| `DuplicateDecisions.ValidateDuplicateValidation` | internal/dataset/dwd_dimension_validation.go:507-547 | Accepts exactly the well-formed decisions to keep one or to keep all under names that stay apart |
| `DuplicateDecisions.SeparateNamesCoverCandidates` | internal/dataset/dwd_dimension_validation.go:526-542 | Counting: an accepted decision to keep all names every candidate |
| `RequestClusters.NormalizedUuids` | internal/datarequest/model.go:252-270 | Trimmed valid identifiers without repetition in ascending order, or an error exactly otherwise |
| `RequestClusters.NormalizeClusterObservation` | internal/datarequest/cluster.go:128-161 | Reads an observation as its key, hash and purpose, or refuses it: the identifiers of a key are the trimmed valid ones, each once, ascending and none lost, the grain is upper-cased, the purpose trimmed and bounded |
| `RequestClusters.ReadingIsFaithful` | internal/datarequest/cluster.go:152-160 | Equal hashes mean equal keys |
| `RequestClusters.SameGroupSameQuestion` | internal/datarequest/cluster.go:128-161 | Two observations share a group exactly when tenant, domain, grain and the sets of metrics and dimensions agree |
| `RequestClusters.TypicalPurposes` | internal/datarequest/cluster.go:163-178 | The most frequent purposes, equals by name, at most the limit; every purpose left out is at most as frequent as each one listed |
| `RequestClusters.TypicalPrecedeOthers` | internal/datarequest/cluster.go:163-178 | The listed purposes precede, by frequency and then by name, one another and every purpose left out, and none is left out below the limit |
| `RequestClusters.ClusterRequests` | internal/datarequest/cluster.go:69-126 | Fails exactly on invalid input; otherwise lists the candidates of the groups in the window |
| `RequestClusters.ClusteringIgnoresOrder` | internal/datarequest/cluster.go:69-126 | Permuted observations give the same candidates |
| `RequestClusters.ErrorIgnoresOrder` | internal/datarequest/cluster.go:79-86 | Permuted observations fail alike |
| `RequestClusters.GroupSizesAddUp` | internal/datarequest/cluster.go:79-105 | The sizes of all groups sum to the number of observations in the window |
| `RequestClusters.ObservationsAreFacts` | internal/datarequest/cluster.go:79-105 | The size of a group is the number of observations in the window that read to its hash |
| `RequestClusters.CandidatesAreExact` | internal/datarequest/cluster.go:107-125 | A hash is returned exactly when its group has three or more observations and it is not known; counts are those of its group |
| `RequestClusters.KnownCandidatesAreNotRepeated` | internal/datarequest/cluster.go:66-68 | Feeding the returned hashes back yields nothing |
| `DataRequests.DeriveSensitivity` | internal/datarequest/policy.go:16-39 | The maximum over facts from distinct bounded sources, or an error exactly otherwise |
| `DataRequests.RefusalsAreExplained` | internal/datarequest/controlled_export_postgres.go:122-181 | The update's guard and the check that explains its failure agree exactly |
| `DataRequestStore.Store.Create` | internal/datarequest/postgres_store.go:50-134 | Every method keeps the invariant of the runs. Here: a draft at version one with one event, which only its requester can move on and nobody can export; without approvers or with a known id it is refused |
| `DataRequestStore.Store.Transition` | internal/datarequest/postgres_store.go:200-300 | One version on along an allowed transition, with exactly one event numbered for both; a version conflict is reported exactly for another version, and the version used is refused ever after; a sensitive approval has an independent cosigner; the mover is entitled to the phase, and assignee, delivery and cosigner are recorded when their phase is entered and kept otherwise |
| `DataRequestStore.Store.EnqueueControlledExport` | internal/datarequest/controlled_export_postgres.go:18-82 | Afterwards the request has exactly one export; the first call adds it and one event, for a cosigned request past approval, and every later call changes nothing |
| `DataRequestStore.Store.MarkControlledExportReady` | internal/datarequest/controlled_export_postgres.go:95-120 | Before, every download is refused; afterwards one succeeds exactly until the job expires, and the job cannot be marked again |
| `DataRequestStore.Store.AcquireControlledExportDownload` | internal/datarequest/controlled_export_postgres.go:122-159 | Succeeds exactly for a ready, unexpired job with fewer than three downloads; counts one more and logs it with the next audit number |
| `DataRequestRuns.StepKeepsInvariant` | internal/datarequest/postgres_store.go:200-300 | Every operation keeps sound trails, cosigns, jobs and audit numbers |
| `DataRequestRuns.VersionsCountMoves` | internal/datarequest/postgres_store.go:200-300 | The version minus one is the number of transitions, each version used once along allowed transitions; audit numbers run on from one |
| `DataRequestRuns.VersionsAreConsumedOnce` | internal/datarequest/postgres_store.go:214-216 | Once a move has used a version, every other move naming it is refused in every later state of the run |
| `DataRequestRuns.MovesNeedEntitlement` | internal/datarequest/postgres_store.go:200-300 | A move succeeds exactly from the present version along the workflow, by the requester (submit), an approver (approve, reject, start), the assignee or an approver (deliver), the requester or an approver (close), with a valid cosign, an active assignee, or a ready export where asked for |
| `DataRequestRuns.MovesWereEntitled` | internal/datarequest/postgres_store.go:200-300 | In every run every logged move was made at some earlier moment by somebody entitled to it then |
| `DataRequestRuns.SensitiveRequestsAreCosigned` | internal/datarequest/policy.go:56-77 | A confidential or restricted request past approval has a cosigner other than requester and approver who was an active member at approval |
| `DataRequestRuns.DownloadsAreBoundedAndAudited` | internal/datarequest/controlled_export_postgres.go:122-159 | A job's downloads never exceed three, each with its own numbered audit event, and a request has at most one job |

## Left out

- The HTTP handlers, route tables, configuration loading, command mains, polling loops and audit-log texts: plumbing without a property over several steps.
- SQL text, row-level security and database triggers: tables are maps and unique constraints are guards. The identity triggers of the database are not needed: the Go guards alone keep the identity invariant when transactions are atomic.
- Concurrent administrative transactions that both pass their guards before either commits (write skew): transactions are atomic steps here.
- The JSON byte parser, regular-expression engines, bcrypt and HMAC: library code behind parameters.
- Validation of JSON literals, provider requests and message parts in `internal/ai/validation.go`: local checks that would only add easy members.
- The tenant and query semaphores of `pooled_connection`, and LRU and TTL order: the machine lets any registered pool be considered for eviction at any time, which covers every order.
- Thread waits on a condition are modelled by re-entering the section; wake-up order and fairness are not modelled.
- Cancellation of a stream by its reader: the theorems speak of streams that run to their end.
- Column metadata, sampling and connection diagnostics in the connector service.
- The linter's verdict is the predicate `Strict`: its maps of seen names are modelled where they count (required names, enum values), its other loops are quantifiers, and its error texts are not modelled.
- Rank queries and metadata joins of the embedding store, and document texts beyond their first line, which names the format: the other lines are whatever the metadata gives when it is read, the same in every format.
- The dimension of stored vectors, and runs in which workers embed with different models: every worker uses one model.
- The domain code, name and description checks of domain creation, sessions and token versions in `internal/access/admin.go`.
- Membership states other than active, and user lifecycle operations outside `internal/access/admin.go`.
- Provider selection, redaction and hashing before an invocation: they do not touch the ledger.
- The text sent to and read from the model about dimension names, and `buildCanonicalDIMDocument`, which rewrites a document field by field.
- Parsing and normalising the required fields of a data request, `normalizeFields` included, and the sources of sensitivity facts in the database.
- Delivery outside controlled exports, and jobs marked FAILED or EXPIRED by code outside the modelled files.
