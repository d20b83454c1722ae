# A verified model of the vldb-lancedb engine

The repository is a vector database service on top of LanceDB. Requests create, fill, search, trim and
drop tables; they arrive over gRPC or through a C interface with a Go wrapper. This project models the
code that decides whether those requests keep their promises, and proves what it promises.

## What is modelled

**The table-access protocol** (`EngineOps`, `OperationEffects`, `EngineProtocol`, `ProtocolSafety`,
`ProtocolSerial`, `ProtocolProgress`, `TableAccess`, `RowAccounting`). Any number of requests run interleaved on one
engine. A request is a program counter that passes the checks, takes a permit and gives it back, finds
the lock object of its trimmed table name, queues, and then makes its database calls one at a time under
the lock. A library call may fail at any point inside, and the caller may drop the request at any await
point, as the gRPC timeout does. The same five operations are also written as one whole step
(`EngineOps.Perform`), with a *fate* that says whether the operation completes, breaks or is dropped, and
after how many steps. The main theorem connects the two: every interleaved run has a serial run, made of
exactly the requests that have left their locks, with the same replies and the same tables, in an order that
respects real time. No run can get stuck, and every run drains once requests stop arriving. While they keep
arriving, no request waits for its table longer than those in front of it take. `OperationEffects` says of each
whole operation, from its request and the libraries alone, what it does to its table and what it answers.

**The JSON codec** (`Columnar`, `JsonValues`, `JsonDecode`, `DecodeTheorems`, `JsonEncode`, `RoundTrip`,
`TableSchema`). Rows of JSON are read column by column into typed columns; vector columns share one flat
child buffer. The decoder is proved against row-by-row rules for every schema and all rows, down to which
error is reported. Decoding and encoding are proved to undo each other, with the exact conditions.

**The connection cache** (`DatabasePaths`, `ConnectionCache`, `DatabaseManager`). `DatabasePaths` takes a
name to its cache key and its path, over an explicit model of path components. `ConnectionCache` races
any number of callers through look, open and insert.

**The C boundary** (`FfiWorker`, `FfiStrings`, `FfiLedger`). One worker thread with a queue of jobs and a
one-slot reply channel per call; strings and the last-error cell; and the books of every handle, string
and buffer that crosses into Go and must come back once.

What the libraries do is a parameter of the model (`EngineOps.Library`): JSON text, Arrow IPC, filter
matching, merging, nearest-neighbour search. Rounding to `f64` and `f32` is a parameter as well
(`JsonValues.Rounding`); the one law asked of it, that narrowing a value twice is narrowing it once, is
`JsonValues.Lawful` and appears in the `requires` of the members that need it. Members of state-changing
classes state their whole new state; loops are proved against specification functions, whose own properties
are proved beside them.

## Where the code and its promises part

Each of these is a theorem or a concrete run, not a remark.

- `docs/README.en.md:146` says that requests above `max_concurrent_requests` queue. The permit is given
  back as soon as it is obtained (`src/engine.rs:454-461`), so any number of requests can be in their
  bodies at once, whatever the maximum: `LimiterDoesNotBoundBodies`.
- The search limit (`docs/README.en.md:322`) caps every search except one that leaves its limit out while
  the configured maximum is below 10: `SearchLimitCapped`.
- A vector dimension of 2^31 or more wraps below zero, and no decode for such a schema succeeds: it ends in a
  panic of the list builder, unless a field before it fails first. Whether a table with such a schema can exist
  at all depends on the database library: `DimensionsKept`, `NegativeSizePanics`.
- A number that overflows its 32-bit float field is stored as an infinity and printed as null. With distinct
  column names, encoding and decoding again returns the same batch exactly when that does not happen:
  `DecodeAfterEncodeDistinct`.
- Column names need not be distinct, and the last column of a name is the one printed. Encoding and decoding
  again then returns the same batch exactly when each column can read its value back from that one:
  `DecodeAfterEncode`, which holds for every schema, with `DuplicateNamesLoseValues` as an instance.
- The blank name and the literal name "default" share a cache key. Cache and resolver agree in all
  reachable states exactly when the two paths coincide or no root is configured:
  `KeysAgreeWithPaths`, `CacheAgreesWithResolver`; the run that shows it is `DefaultAliasRun`.
- A root such as "s3://" with nothing behind it resolves to a local path: `UriRootGivesUri`.
- A write whose reply is lost may have happened. Row counts equal the reported sums exactly when such
  changes cancel out: `RowsAccountedFor`, with `LostReplyKeepsRows` as an instance.
- A string handed to the library arrives whole exactly when it holds no NUL: `PassedStringReadsBack`.

## Model

| member | source | states |
|---|---|---|
| EngineOps.StepRefinesWhole | src/engine.rs:176-438 | One undisturbed database call of a request keeps its locals and its table as the whole operation has them at that point, and the last call gives exactly the outcome and the table of the whole operation. |
| EngineOps.CutRefinesWhole | src/service.rs:77-87 | Stopping a request after any number of its calls, by a library failure or because its caller dropped it, is the whole operation cut at that point, with the table as far as it had been changed. |
| EngineOps.SearchLimitCapped | src/engine.rs:331-336 | The effective limit stays within the configured maximum if and only if the request does not leave the limit out under a maximum below 10; limits within the maximum are taken as they are. |
| OperationEffects.RefusedExactly | src/engine.rs:180-192 | A request is refused up front if and only if its table name is blank, its columns are none or not good, its payload is too large, its vector is empty or its condition is blank; and it is told which, for the first bad column if it is a column. |
| OperationEffects.CreateEffect | src/engine.rs:192-206 | A create leaves an empty table whose fields are the columns asked for, name, type and null rule, as version 1 or one more than the table it overwrote; a table not to be overwritten stays and the request fails. |
| OperationEffects.UpsertEffect | src/engine.rs:231-297 | A completed upsert writes exactly the rows of its payload: appended behind the old ones, or merged under the key columns with the merge's own three numbers reported; schema kept, version one more; nothing at all if there are no rows. |
| OperationEffects.ArrowUpsertEffect | src/engine.rs:548-561 | For Arrow IPC these are the rows of every batch of the stream in order, cell by cell. |
| OperationEffects.JsonUpsertEffect | src/engine.rs:565-582 | For JSON, with every row acceptable, these are one row for each JSON row, each cell the value stored for the row's member or null. |
| OperationEffects.UpsertFailure | src/engine.rs:231-241 | An upsert that cannot decode leaves its table as it was and says why: no table, unreadable stream, no JSON rows, or the fault of the first bad row of the first bad field. |
| OperationEffects.SearchEffect | src/engine.rs:302-346 | A search gathers what the database gives for its vector, its trimmed column and filter unless blank, and the limit asked for, 10 if none, no more than the maximum; it changes nothing. |
| OperationEffects.ReplyIsAnswer | src/engine.rs:348-378 | The answer counts all rows of all batches and is Arrow IPC unless JSON rows were asked for; then it is their JSON rows in order, or the error of the first cell without a rendering. |
| OperationEffects.DeleteEffect | src/engine.rs:399-411 | A delete keeps each row its trimmed condition does not match as often as it was there and none it matches, keeps the schema, makes one version and reports it with the number of rows gone. |
| OperationEffects.DropEffect | src/engine.rs:427-437 | A drop leaves no table, and fails where there was none. |
| OperationEffects.AllOrNothing | src/service.rs:77-87 | However an operation breaks or is dropped, its table is as before or as the completed operation leaves it, and its client is told the completed answer, a library failure, or nothing. |
| ProtocolSafety.StepKeepsLocks | src/engine.rs:118-145 | Every step of every request, failures and drops included, keeps the lock discipline: a lock's guards are exactly the requests inside under it, a writer is alone, each name has a lock of its own. |
| ProtocolSafety.TableExclusion | src/engine.rs:136-144 | In every reachable state two requests inside whose names trim alike are both searches, and each guard given out belongs to a live request inside under the lock of its own table. |
| ProtocolSafety.DropLeavesNoGuard | src/service.rs:77-87 | At every await point a request can be dropped; it then holds no guard, and tables, permits and other requests are as they were. |
| ProtocolSafety.LockTableGrows | src/engine.rs:121-132 | Over any run the lock table only grows and no name is ever given another lock. |
| ProtocolSafety.StepKeepsPermits | src/engine.rs:454-461 | No step creates or loses a permit. |
| ProtocolSafety.PermitsConserved | src/engine.rs:150-158 | In every reachable state the permits that are free and those held for a moment add up to the configured number, or 1. |
| ProtocolSerial.StepExplained | src/engine.rs:176-438 | After any step the state is still explained by a serial run of whole operations, the old one or the old one with one entry more. |
| ProtocolSerial.Serialisable | src/engine.rs:176-438 | Every run has one serial run of which each state of the run is explained by a prefix, and each step adds to it exactly the request that leaves its lock in that step. |
| ProtocolSerial.RepliesAndTablesAreSerial | src/engine.rs:176-438 | At the end of any run there is a serial run of exactly those requests of the run that have left their locks, each once, with the outcome its client was told and after all those answered before it arrived; every reply sent is the one of that run or the refusal due at any time, and every table nobody is writing is as that run leaves it. |
| ProtocolSerial.SerialOrderRespectsTime | src/engine.rs:136-144 | In every serial run that explains a run, a request answered before another arrived comes before it. |
| ProtocolSerial.UpsertViewIsStable | src/engine.rs:229-276 | In every reachable state the schema an upsert decoded with is the one the table still has when the reader is given it, and after its write the table's version is the one that write made. |
| ProtocolSerial.EncodesOneInstant | src/engine.rs:319-346 | What a search carries out of the lock is what the query its request spells gives on the table as it was in an earlier state, in which the search held its guard. |
| ProtocolSerial.SearchSeesOneInstant | src/engine.rs:342-378 | A search that answers does so with the rows the query its request spells gives on the table of one state before the answer in which it held its guard, all of them and in order, although it encodes after the guard is gone. |
| ProtocolProgress.StepLowersRemaining | src/engine.rs:193-206 | Every step but an arrival, failures and drops included, lowers one measure on the work left. |
| ProtocolProgress.RunsAreBounded | src/engine.rs:318-346 | A run without arrivals has at most as many steps as the measure of its first state: nothing waits by spinning. |
| ProtocolProgress.NeverStuck | src/engine.rs:442-461 | In every good state with a request left some request can take a step of its own, for any number of permits. |
| ProtocolProgress.Drain | src/engine.rs:442-461 | From every good state there is a run without drops or failures that answers all requests there. |
| ProtocolProgress.EveryRunDrains | src/service.rs:77-87 | Once requests stop arriving every run, however drops and failures fall, ends within the measure, and where it stops early some request can still go on. |
| ProtocolProgress.LineShrinks | src/engine.rs:136-144 | What stands before a waiting request, those inside included, is raised by no step of any request, arrivals included, and lowered by each step of those in front. |
| ProtocolProgress.LineCanMove | src/engine.rs:136-144 | While a request waits for its table, it or one in front of it can take a step of its own. |
| ProtocolProgress.WaitIsBounded | src/engine.rs:136-144 | However many requests keep arriving, one seen waiting for its table waits no longer once those in front of it took a number of steps fixed at that moment, and until then one of them, or it, can go on. |
| ProtocolProgress.LimiterDoesNotBoundBodies | src/engine.rs:454-461 | For every configuration and every k some run has k requests inside their bodies at once. |
| TableAccess.TableAccessCoordinator.LockFor | src/engine.rs:121-132 | The lock found is kept under the trimmed name, made only if there was none, and all other entries stay. |
| TableAccess.LookUpAll | src/engine.rs:121-132 | Over any sequence of look-ups two return the same lock object if and only if their names trim alike. |
| Text.TrimIsIdempotent | src/engine.rs:477-479 | Trimming a trimmed name changes nothing, so the name locked and the name opened are the same. |
| Text.TrimCutsSpaces | src/engine.rs:477-479 | Trimming cuts off all whitespace at both ends and nothing else. |
| RowAccounting.CountsOfOne | src/engine.rs:243-296 | A whole request, however it ends, changes the row count of its table by what its reply reports, unless it rebuilt the table, which leaves it empty, or its reply was lost. |
| RowAccounting.RowsAccountedFor | src/engine.rs:402-411 | After any serial run a table's rows are those reported since its last creation plus those whose reply was lost, so count and reports agree if and only if the lost changes cancel, and in particular when every write was answered. |
| RowAccounting.RunsAccountForRows | src/engine.rs:243-296 | After any interleaved run a table nobody is writing holds the rows reported plus those of lost replies, summed over exactly the requests of the run that have left their locks and with what their clients were told; and if each of these that wrote the table told its client what happened, it holds the rows reported. |
| RowAccounting.EmptyUpsertChangesNothing | src/engine.rs:243-253 | An upsert without rows leaves contents and version as they were however it ends, and reports that version. |
| RowAccounting.JsonAppendStoresRows | src/engine.rs:229-276 | An append of acceptable JSON rows keeps the old rows in front, adds for each JSON row one row that holds, field by field, what the row says, and reports the version it made. |
| TableSchema.BuildArrowSchema | src/engine.rs:483-494 | The loop over the column definitions gives the schema of the specification, or the error of the first bad definition. |
| TableSchema.SchemaBuilt | src/engine.rs:483-529 | A schema is built if and only if every definition has a name, a type and, for vectors, a dimension; the fields carry the names, the null rules, the data type of each column type and the dimensions, in the order given. |
| TableSchema.SchemaFault | src/engine.rs:485-526 | A schema that is not built fails for the first definition that is not good, by what is wrong with it. |
| TableSchema.DimensionsKept | src/engine.rs:508-519 | The cast of dimensions is exact for all of them if and only if each is below 2^31, which is also when no list size is negative. |
| TableSchema.FieldsTakeWhatColumnsPromise | src/engine.rs:498-529 | The field made for a column takes exactly the JSON values the column type is documented to take. |
| JsonDecode.AppendVectorRow | src/engine.rs:711-738 | One turn of the vector loop grows the child buffer by exactly that row's floats, or by nulls for a null row, and reports the row's own error otherwise. |
| JsonDecode.BuildVectorArray | src/engine.rs:703-742 | The vector loop builds the specified column from all rows, or reports the first error. |
| JsonDecode.BuildScalarArray | src/engine.rs:613-702 | The loop of a scalar column builds the specified column from all rows, or reports the first error. |
| JsonDecode.BuildArrayForField | src/engine.rs:606-748 | A field's builder loops give the specified column, and a type without a builder is refused. |
| JsonDecode.JsonRowsToRecordBatch | src/engine.rs:586-602 | The loop over the fields gives the specified batch: all columns and the final check, or the error of the first column that fails. |
| DecodeTheorems.SlotOk | src/engine.rs:752-863 | Reading one field of one row succeeds if and only if the row is an object with a fitting value there, or with none where the field is nullable. |
| DecodeTheorems.SlotMeans | src/engine.rs:752-863 | One field of one row comes to null for a missing or null member, to the value stored for a fitting one, and to the error of its own kind of fault otherwise. |
| DecodeTheorems.DecodeRefinesRowRules | src/engine.rs:586-748 | Column-major decoding succeeds if and only if every row is acceptable for every field; otherwise its error is the one of the first fault in (field, row) order. |
| DecodeTheorems.DecodeSucceedsExactly | src/engine.rs:586-748 | For every schema whatever, decoding succeeds if and only if there are fields, all of supported types and non-negative sizes, and every row is acceptable for each. |
| DecodeTheorems.FinalCheckPasses | src/engine.rs:601 | Once all columns are built, the final check on counts, lengths, nulls and types cannot fail, for any schema with fields. |
| DecodeTheorems.FlatLayout | src/engine.rs:703-741 | Row i owns exactly the child slots from i * size up to (i + 1) * size, null rows included, and the buffer has no others. |
| DecodeTheorems.VectorColumnLayout | src/engine.rs:703-741 | In a decoded vector column row i's slots hold the floats of JSON row i or, for a null row, nulls. |
| DecodeTheorems.ReadBackPacked | src/engine.rs:974-981 | Reading a row through its slice returns what was appended for that row and nothing of its neighbours. |
| DecodeTheorems.DecodedBatch | src/engine.rs:586-602 | In a decoded batch the cell of any field and row is the one the row-by-row reading gives. |
| DecodeTheorems.FirstBadFieldDecides | src/engine.rs:586-748 | For every schema the first field that has no builder, a builder that panics, or a row it does not take decides how the decode fails, and which row's error it is. |
| DecodeTheorems.NegativeSizePanics | src/engine.rs:703-708 | With a list size below zero no rows decode, and unless a field before it fails the decode ends in a panic. |
| JsonEncode.JsonValueFromArray | src/engine.rs:903-1006 | The value of one cell is the specified one: null for a null slot, the floats of the row's own slice for vectors, an error for types without a rendering. |
| JsonEncode.CellPrints | src/engine.rs:904-1005 | Texts, numbers and flags print as they are, floats that are not finite and vector slots without a value as null, and row i of a vector as its own stretch of the child buffer. |
| JsonEncode.EncodeBatchesAsJson | src/engine.rs:882-899 | The loops over batches, rows and fields give the specified rows in order, or the error of the first cell without a rendering. |
| JsonEncode.RowsPrintInOrder | src/engine.rs:887-896 | Row r of batch b stands behind all rows of the batches before it, and has for each name the value of the last field of that name; an error is that of the first bad cell in the order of batches, rows and fields. |
| JsonEncode.CountMatchesRows | src/engine.rs:1010-1014 | The row count reported with a search is the number of JSON rows printed. |
| RoundTrip.EncodeAfterDecode | src/engine.rs:565-602 | Whatever was decoded prints as the input rows cut to the schema, in order, with missing turned to null and numbers of float fields rounded. |
| RoundTrip.DecodeAfterEncode | src/engine.rs:882-1006 | For every schema, names repeated or not, decoding what was printed gives the very same batch if and only if each value, by its field's type and that of the last field of the name, can be read back from the member printed. |
| RoundTrip.DecodeAfterEncodeDistinct | src/engine.rs:882-1006 | With distinct names that is so if and only if no number overflowed its 32-bit float field. |
| RoundTrip.DuplicateNamesLoseValues | src/engine.rs:889-893 | With a 64-bit and a 32-bit float field of one name, a row whose number is not exact in 32 bits decodes to another batch. |
| DatabasePaths.AcceptedNames | src/manager.rs:186-200 | A name is accepted if and only if it has no slash or backslash and is not empty, "." or "..". |
| DatabasePaths.LocalChild | src/manager.rs:172-182 | Under a local root an accepted name resolves to a direct child: the components of the root and one more. |
| DatabasePaths.UriChild | src/manager.rs:173-176 | Under a URI root an accepted name is one segment more behind those of the trimmed root. |
| DatabasePaths.DistinctNamesDistinctPaths | src/manager.rs:49-66 | Different accepted names have different paths under any root. |
| DatabasePaths.PathResolves | src/manager.rs:49-66 | A name resolves if and only if it is blank, or one ordinary segment under a configured root; it resolves to the default path or to that child of the root, and is refused for its separators, its form or the missing root otherwise. |
| DatabasePaths.DifferentNamesDifferentPaths | src/manager.rs:49-66 | Names that trim to different texts resolve to different paths. |
| DatabasePaths.KeysTellNamesApart | src/manager.rs:150-156 | Two names share a key if and only if they trim alike, are both blank, or one is blank and the other "default". |
| DatabasePaths.UriRootGivesUri | src/manager.rs:160-176 | A URI root gives URI paths if and only if something other than slashes follows its "://". |
| DatabasePaths.LocalRootGivesLocal | src/manager.rs:178-182 | A local root gives local paths. |
| DatabasePaths.OneKeyOnePath | src/manager.rs:150-156 | Names with one cache key resolve to one path, but for the blank name against the literal "default". |
| DatabasePaths.KeysAgreeWithPaths | src/manager.rs:49-66 | Cache keys determine paths for all names if and only if no root is configured or the child "default" is the default database. |
| ConnectionCache.StepKeeps | src/manager.rs:101-130 | Every step of every racing caller keeps the cache invariant: answered callers hold the cached connection, connections have one opener, losers are in no entry. |
| ConnectionCache.EntriesStay | src/manager.rs:125-129 | A cached entry is never changed or removed for the rest of the run. |
| ConnectionCache.OneConnectionAKey | src/manager.rs:101-130 | All successful opens of one key, whenever they are seen, gave the same connection, and no caller is ever given one that lost its race. |
| ConnectionCache.OnlyResolvedNamesAreOpened | src/manager.rs:101-130 | Whatever names are used, a connection is given only for a name that resolves, on the path of a name with the same key, and only names that do not resolve are rejected. |
| ConnectionCache.ConnectionIsOnItsPath | src/manager.rs:101-130 | A caller's connection was opened on the child of the root that its name stands for, or the default path, if the default database is unambiguous or nobody says "default". |
| ConnectionCache.DefaultAliasRun | src/manager.rs:150-156 | Where the default database is ambiguous there is a run in which a caller is given a connection on another path than its own. |
| ConnectionCache.CacheAgreesWithResolver | src/manager.rs:101-156 | Cache and resolver agree in all reachable states if and only if the default database is unambiguous. |
| DatabaseManager.Manager.InsertIfAbsent | src/manager.rs:125-129 | The first connection under a key stays and everyone is given it. |
| DatabaseManager.Manager.OpenNamed | src/manager.rs:101-130 | A name that is not blank and not a segment under a root is refused and changes nothing; a cached key gives its connection; otherwise a new one on that child of the root, or the default path, is cached and given, or the failure to open changes nothing. |
| FfiWorker.StepKeeps | src/ffi.rs:1113-1185 | Every step of callers and worker keeps the queue in order, each job sent once, and each reply slot in line with how its job ended. |
| FfiWorker.JobsRunInOrder | src/ffi.rs:1138-1145 | In every state of a run jobs have ended in the order sent, each once, with at most one running. |
| FfiWorker.CallersGetTheirOwn | src/ffi.rs:1162-1185 | A call that returned has the outcome of its own job, an error for a panic included, or the remembered message of a failed start. |
| FfiWorker.ReplySlotIsFree | src/ffi.rs:1170-1179 | When a job ends its reply slot is empty and its caller is waiting, so the worker never blocks and is free again. |
| FfiWorker.NeverStuck | src/ffi.rs:1162-1185 | While a call is out, some step is possible. |
| FfiWorker.EveryCallReturns | src/ffi.rs:1162-1185 | Once calls stop arriving every run ends within the measure on calls and queue, and then all calls have returned. |
| FfiWorker.NeverFurther | src/ffi.rs:1162-1185 | No step, those of calls that arrive later included, takes a call back to an earlier stage or further back in the queue. |
| FfiWorker.CallCanAdvance | src/ffi.rs:1162-1185 | Whatever else goes on, while a call is out something can be done that brings that very call nearer to its answer. |
| FfiWorker.SentCallIsAnswered | src/ffi.rs:1138-1185 | However many calls keep arriving, a sent job has ended once the worker took as many steps as were ahead of it, until then the worker can take one, and from then on the caller has its own answer or can collect it. |
| FfiStrings.ReadCString | examples/go-ffi/lancedbffi/lancedbffi.go:556-570 | The length loop returns what lies before the first NUL, and nothing for a nil pointer. |
| FfiStrings.OwnedStringReadsBack | src/ffi.rs:1097-1103 | A string handed out always has a pointer, and the caller reads the sanitised text, which is the text itself if and only if that holds no NUL. |
| FfiStrings.PassedStringReadsBack | examples/go-ffi/lancedbffi/lancedbffi.go:510-515 | A string handed in is read as a prefix of itself, whole if and only if it holds no NUL. |
| FfiStrings.MakeCStringArray | examples/go-ffi/lancedbffi/lancedbffi.go:537-552 | Each string has a pointer to its own terminated copy, in order. |
| FfiStrings.KeyColumnsArrive | src/ffi.rs:990-1009 | Key columns arrive as they were given if and only if none is blank and none holds a NUL. |
| FfiStrings.CopyFails | src/ffi.rs:990-1009 | An array that is not copied fails for its first string that is missing or blank, by its index. |
| FfiStrings.ErrorIsOfLastClearing | src/ffi.rs:1189-1208 | After any calls of a thread its error is set if and only if the last call that clears it failed, and then reads as that call's sanitised message. |
| FfiStrings.LastErrorCell.SetLastError | src/ffi.rs:1189-1194 | Whatever the message, a terminated text is stored: the conversion never fails. |
| FfiStrings.LastErrorCell.MakeCalls | src/ffi.rs:1189-1202 | A thread's calls leave the cell as the specification of the sequence says. |
| FfiLedger.StringIsCopiedThenFreed | examples/go-ffi/lancedbffi/lancedbffi.go:486-493 | The wrapper returns the sanitised text, read while it was alive, and frees the string exactly once. |
| FfiLedger.BytesAreCopiedThenFreed | examples/go-ffi/lancedbffi/lancedbffi.go:472-481 | The wrapper returns all the bytes, copied before the release, and frees the buffer once with the length and capacity it was made with; an empty reply frees nothing. |
| FfiLedger.StepKeeps | examples/go-ffi/lancedbffi/lancedbffi.go:323-383 | Every wrapper call, Close and finaliser run keeps the books: live blocks are the handles of open objects, released ones never come back. |
| FfiLedger.CloseEffect | examples/go-ffi/lancedbffi/lancedbffi.go:323-383 | A Close or finaliser run closes its object and releases its block, once, and leaves all others; closing again does nothing. |
| FfiLedger.OpenEffect | examples/go-ffi/lancedbffi/lancedbffi.go:296-361 | A call that opens something adds one object for one new block of its kind, to be finalised; one that fails, or asks a closed runtime, adds nothing. |
| FfiLedger.BooksBalance | src/ffi.rs:696-720 | After any sequence of calls no release missed or hit twice, and a block is live if and only if it is the handle of an open object. |
| FfiLedger.NothingLeaksOnceClosed | examples/go-ffi/lancedbffi/lancedbffi.go:323-331 | With all objects closed no native block is left. |
| FfiLedger.Library.TakeSearchBytes | src/ffi.rs:1013-1028 | The bytes are copied out and the native heap has no block more than before. |
| FfiLedger.Runtime.Close | examples/go-ffi/lancedbffi/lancedbffi.go:323-331 | Closing, again or by the finaliser, destroys the native runtime the first time and changes nothing after. |

## Left out

- LanceDB itself: calls into it are uninterpreted and each takes effect at one point. A call that fails has changed nothing, a call dropped midway either took effect or never will, and a successful write makes the next version.
- What merge, filter and nearest-neighbour search return; row accounting asks one law of merging, `RowAccounting.MergesAddUp`, and names it in its `requires`.
- Bytes: serde_json text, Arrow IPC and protobuf. Round trips are about JSON values and columns.
- Real floating-point arithmetic and signed zero: JSON decimals are reals, and rounding is any function with the stated law.
- JsonDecode.BuildScalarArray: stands for the nine scalar loops of the source, which differ only in the builder and the accessor they call.
- Texts of error messages: errors are constructors that carry the field, type and lengths involved.
- Fairness of the table locks is taken from tokio, whose `RwLock` serves its queue in order: `Grant` is only enabled for the first in line. `ProtocolProgress.NoOvertaking` follows from that; what is proved with it is that no request starves.
- The limiter's queue: permits are taken in any order, so nothing is claimed of the wait for a permit; the semaphore is never closed, as in the code.
- Other engines on the same database, `connection()`, other processes, S3 and read consistency: each is outside the locks of one engine.
- DatabaseManager.Manager.OpenNamed: one caller at a time; the races are those of `ConnectionCache`.
- Creating directories for local databases, and Windows path rules; paths follow the Unix rules.
- Jobs that never end: an FFI job finishes or panics, and the worker thread itself is not killed.
- FfiLedger.Runtime.Close: `Engine.Close` is the same code on the other handle and has no class of its own; both are operations of the ledger's state machine.
- Go finalisers that run during a call on the same object, goroutines that move between threads, the C ABI, and reuse of addresses by the allocator: blocks are numbered by allocation.
- UTF-8: text is a sequence of characters. In UTF-8 a zero byte occurs only as NUL, so the scans agree.
- FfiStrings.KeyColumnsArrive: Go strings that are not valid UTF-8, which `c_string_to_owned` refuses (`src/ffi.rs:1086-1093`), are not among its inputs.
- The JSON entry points of the C interface, enum-to-enum maps, `preview_text`, logging, configuration and `main`: each is settled by reading one branch.
