# mongo-psql-streamer in Dafny

A model of the core of mongo-psql-streamer, a change-data-capture service. It
tails the MongoDB replication log (the oplog) and forwards every insert,
update and delete to a list of destination connectors (PostgreSQL writers).

It covers these parts:

- **The per-entry dispatcher** (`OplogStreamer.processOperation`).
  - It splits the namespace into database and collection and looks up the
    table mappings of that collection.
  - Each mapping's filters are OR-combined.
  - Inserts and updates go to every connector. A write to a named
    destination is bracketed by `disableTriggers` before it and
    `enableTriggers` once all mappings are done.
  - Deletes go to every connector, unfiltered and unbracketed.
  - It returns the entry's `ts`.
- **The tailing loop** (`watchFromCheckpoint`, `oplogDocuments`, `oplogfilters`).
  - It builds the cursor query and falls back to no checkpoint when the
    stored one has left the log.
  - It processes each delivered document and then `keep`s its timestamp.
  - It reopens the cursor with the original checkpoint after a
    `CappedPositionLost` or cursor-not-found query failure, returns when
    the pause is interrupted, and rethrows anything else.
- **The checkpoint store** (`CheckpointManager`): one record per
  identifier, with the fields `ts`, `import`, `start`, `end` and `length`.
  Each method sets exactly its own fields.
- **Start-up** (`StreamerApplication.run`).
  - The initial load runs when no checkpoint is stored or a reimport is
    forced.
  - The bookkeeping calls are ordered `storeImportStart`, import, `keep`,
    `storeImportEnd`.
  - Watching follows, and an `IllegalStateException` raised by shutdown is
    swallowed.
- **Health and helpers**: the health report, the test that the checkpoint
  is still in the oplog, the `Lag` arithmetic and the type-string rules of
  `FieldMapping`.

Collaborators are abstracted:

- Connector calls, cursor openings and `keep` calls are appended to one
  trace of `Effect`s.
- The oplog is a sequence of `OplogEntry` values.
- The `mongooplog` collection is a `map` from identifier to `Record`.
- Document flattening, filters and the source-database read are function
  values in `Env`.
- Wall-clock readings are parameters.
- The endless `while (true)` loop runs over a finite sequence of
  `CursorRun`s. Each says what the log looks like, how many documents the
  cursor hands out, how the cursor stops, and whether the pause after a
  lost cursor is interrupted.

Modules, each in its own file:

- `Base` (base.dfy): Java values, exceptions, `long` wrap-around and BSON
  timestamps.
- `Oplog` (oplog.dfy): entries, the cursor query, the stale-checkpoint
  fall-back and the namespace split.
- `Checkpoints` (checkpoints.dfy): the class `CheckpointManager`.
- `FieldMappings` (field_mapping.dfy): the type-string rules.
- `Monitoring` (monitoring.dfy): `Lag` and the health report.
- `Dispatch` (dispatch.dfy): `processOperation` as a function
  (`DispatchEntry`) and its properties.
- `Tailing` (tailing.dfy): `watchFromCheckpoint` as a function (`Watch`)
  and its properties.
- `Streamer` (streamer.dfy): the class `OplogStreamer`. It holds the
  imperative `processOperation` and `watchFromCheckpoint`, with their loops,
  each proved to produce exactly the trace and store of the functions
  above.
- `Application` (application.dfy): the class `StreamerApplication`.

Behaviours kept as the source has them:

- Writes are sent even when the mapping name is null.
- Duplicate names in `updatedTable` re-enable triggers once per
  occurrence.
- Retries reuse the original checkpoint, so documents already kept are
  replayed.
- `lagLength` subtracts seconds from milliseconds.

## Model

| member | source | states |
|---|---|---|
| Base.Wrap64 | src/main/java/com/malt/mongopostgresqlstreamer/StreamerApplication.java:56 | a `long` subtraction: the exact difference when it fits, otherwise the value congruent to it modulo 2^64 |
| Oplog.OplogFiltersSelect | src/main/java/com/malt/mongopostgresqlstreamer/OplogStreamer.java:190-201 | the cursor query matches exactly the entries whose `ns` is mapped, without `fromMigrate`, with `op` in {d, u, i}, and, given a checkpoint, with `ts` strictly after it |
| Oplog.OplogFilters | src/main/java/com/malt/mongopostgresqlstreamer/OplogStreamer.java:190-201 | the `ts` bound is in the query exactly when a checkpoint is given |
| Oplog.EffectiveCheckpoint | src/main/java/com/malt/mongopostgresqlstreamer/OplogStreamer.java:88-95 | a checkpoint is kept if and only if some log entry carries exactly that `ts`; otherwise it is replaced by none |
| Oplog.OplogQuery | src/main/java/com/malt/mongopostgresqlstreamer/OplogStreamer.java:88-95 | the query of `oplogDocuments`: the filters of the effective checkpoint; `ResumeAfterCheckpoint` and `StaleCheckpointRescans` state what it selects |
| Oplog.ResumeAfterCheckpoint | src/main/java/com/malt/mongopostgresqlstreamer/OplogStreamer.java:86-97 | from a checkpoint still in the log, the cursor yields exactly the watched log entries strictly after it |
| Oplog.StaleCheckpointRescans | src/main/java/com/malt/mongopostgresqlstreamer/OplogStreamer.java:88-96 | a checkpoint that has left the log gives the same documents as no checkpoint, with no `ts` bound in the query |
| Oplog.Select | src/main/java/com/malt/mongopostgresqlstreamer/OplogStreamer.java:96 | the cursor returns only matching entries and never more than the log holds |
| Oplog.SelectComplete | src/main/java/com/malt/mongopostgresqlstreamer/OplogStreamer.java:96 | every matching log entry is returned by the cursor |
| Oplog.SelectSound | src/main/java/com/malt/mongopostgresqlstreamer/OplogStreamer.java:96 | every returned document comes from the log |
| Oplog.SelectAppend | src/main/java/com/malt/mongopostgresqlstreamer/OplogStreamer.java:96 | the cursor keeps the log's natural order: selecting from a grown log extends the earlier selection |
| Oplog.OplogDocuments | src/main/java/com/malt/mongopostgresqlstreamer/OplogStreamer.java:86-97 | the documents the cursor yields: the log entries the query selects, in natural order; `ResumeAfterCheckpoint` and `StaleCheckpointRescans` state which |
| Oplog.SplitNamespace | src/main/java/com/malt/mongopostgresqlstreamer/OplogStreamer.java:101-104 | raises an index error exactly when the namespace has no segment after a dot that is not itself empty, as `split` drops trailing empty segments; otherwise the database and the collection are the first two dot-free segments, which the namespace starts with |
| Oplog.SplitNamespaceRoundTrip | src/main/java/com/malt/mongopostgresqlstreamer/OplogStreamer.java:101-104 | `<database>.<collection>` splits back into the database and the collection |
| Oplog.SplitNamespaceIgnoresRest | src/main/java/com/malt/mongopostgresqlstreamer/OplogStreamer.java:101-104 | `<database>.<collection>.<rest>` splits into the database and the collection whatever the rest holds, so a collection name with dots is cut at its first dot |
| Oplog.JoinSplitAll | src/main/java/com/malt/mongopostgresqlstreamer/OplogStreamer.java:102 | the segments of `split` before trailing empties are dropped join back to the original string |
| Oplog.TrimTrailingEmpty | src/main/java/com/malt/mongopostgresqlstreamer/OplogStreamer.java:102 | `split` drops exactly the trailing empty segments |
| Checkpoints.Minutes | src/main/java/com/malt/mongopostgresqlstreamer/CheckpointManager.java:97-98 | the stored length in minutes is the millisecond duration divided by 60000 |
| Checkpoints.CheckpointManager.GetLastKnown | src/main/java/com/malt/mongopostgresqlstreamer/CheckpointManager.java:44-53 | none exactly when no record exists or its `ts` is null; otherwise that `ts` |
| Checkpoints.CheckpointManager.LastImportStatus | src/main/java/com/malt/mongopostgresqlstreamer/CheckpointManager.java:55-69 | fails with a null dereference exactly when no record exists; otherwise returns `start`, `end`, `import` and `length` unchanged |
| Checkpoints.CheckpointManager.GetLastOplog | src/main/java/com/malt/mongopostgresqlstreamer/CheckpointManager.java:71-81 | the `ts` of the last entry in natural order; `IllegalStateException` with the replica-set message exactly when the oplog is empty |
| Checkpoints.CheckpointManager.Keep | src/main/java/com/malt/mongopostgresqlstreamer/CheckpointManager.java:83-86 | upserts only `ts` of this identifier's record, every other field and record unchanged; afterwards `GetLastKnown` returns the value kept |
| Checkpoints.CheckpointManager.StoreImportStart | src/main/java/com/malt/mongopostgresqlstreamer/CheckpointManager.java:88-95 | sets `import` to running, `start` to now and `ts` to null, nothing else; afterwards no checkpoint is known |
| Checkpoints.CheckpointManager.StoreImportEnd | src/main/java/com/malt/mongopostgresqlstreamer/CheckpointManager.java:97-108 | sets `import` to done, `end` to now and `length` to the duration in minutes, nothing else; the checkpoint is unchanged |
| FieldMappings.IsAnArray | src/main/java/com/malt/mongopostgresqlstreamer/model/FieldMapping.java:24-26 | true exactly when the type starts with `_ARRAY`, case-sensitively; a null type raises |
| FieldMappings.GetType | src/main/java/com/malt/mongopostgresqlstreamer/model/FieldMapping.java:28-33 | `BOOLEAN DEFAULT FALSE` when the type equals `_PRESENCE` ignoring case, otherwise the type unchanged; a null type raises |
| FieldMappings.GetTrueType | src/main/java/com/malt/mongopostgresqlstreamer/model/FieldMapping.java:35-37 | the raw configured type: null exactly when `getType` raises, and different from the column type only for the presence marker |
| FieldMappings.TrueTypeDiffersOnlyForPresence | src/main/java/com/malt/mongopostgresqlstreamer/model/FieldMapping.java:28-37 | the raw type and the column type differ only for the presence marker |
| FieldMappings.ArrayTypeIsTrueType | src/main/java/com/malt/mongopostgresqlstreamer/model/FieldMapping.java:24-37 | for an array type, the column type is the raw type |
| FieldMappings.TypeStringExamples | src/main/java/com/malt/mongopostgresqlstreamer/model/FieldMapping.java:24-33 | the presence test ignores case (long s included), the array test does not, and the raw type keeps the marker |
| Monitoring.NoCheckpointLag | src/main/java/com/malt/mongopostgresqlstreamer/monitoring/Lag.java:15-19 | no checkpoint date and a lag of -1 |
| Monitoring.CheckpointLag | src/main/java/com/malt/mongopostgresqlstreamer/monitoring/Lag.java:21-25 | the checkpoint date is a whole number of seconds in milliseconds |
| Monitoring.LagMixesUnits | src/main/java/com/malt/mongopostgresqlstreamer/monitoring/Lag.java:21-25 | the checkpoint date is seconds × 1000 and does not depend on now; `lagLength` is now minus the raw seconds, off from the millisecond lag by 999 × seconds |
| Monitoring.CheckpointInOplog | src/main/java/com/malt/mongopostgresqlstreamer/monitoring/StatusHealthIndicator.java:44-57 | true exactly when the log has a first entry with a `ts` that is not after the checkpoint |
| Monitoring.ReachabilityMatchesResume | src/main/java/com/malt/mongopostgresqlstreamer/monitoring/StatusHealthIndicator.java:44-57 | on an ordered log, a checkpoint the streamer can resume from is reported reachable, and one reported unreachable makes the streamer rescan the whole log |
| Monitoring.Health | src/main/java/com/malt/mongopostgresqlstreamer/monitoring/StatusHealthIndicator.java:29-42 | fails exactly when no record exists; otherwise always UP, with the import status as stored, the checkpoint flag true only for a stored and reachable checkpoint, and the lag of the matching constructor |
| Dispatch.FanOut | src/main/java/com/malt/mongopostgresqlstreamer/OplogStreamer.java:124-136 | the same call once on every connector, in registration order |
| Dispatch.AcceptsIffSomeFilter | src/main/java/com/malt/mongopostgresqlstreamer/OplogStreamer.java:113-116 | a mapping accepts a document exactly when it has no filter or some filter accepts it |
| Dispatch.Accepts | src/main/java/com/malt/mongopostgresqlstreamer/OplogStreamer.java:113-116 | the `reduce(Predicate::or).orElse(x -> true)` combination; `AcceptsIffSomeFilter` states its meaning |
| Dispatch.BySourceName | src/main/java/com/malt/mongopostgresqlstreamer/OplogStreamer.java:110 | the table mappings reading from the entry's collection: every one returned reads from it and comes from the configuration, and every configured one that reads from it is returned |
| Dispatch.BySourceNameAppend | src/main/java/com/malt/mongopostgresqlstreamer/OplogStreamer.java:110 | the selection keeps configuration order: selecting from two lists in turn is selecting from their concatenation |
| Dispatch.TableMappingsOf | src/main/java/com/malt/mongopostgresqlstreamer/OplogStreamer.java:108-110 | none for an unmapped database; otherwise exactly the mapped database's table mappings reading from the collection |
| Dispatch.RejectedWriteIsSilent | src/main/java/com/malt/mongopostgresqlstreamer/OplogStreamer.java:119-121 | an insert rejected by every filter of a mapping makes no call for it |
| Dispatch.AcceptedNamedInsert | src/main/java/com/malt/mongopostgresqlstreamer/OplogStreamer.java:119-137 | an accepted insert to a named destination disables triggers on every connector before inserting on any, and remembers the name |
| Dispatch.AcceptedUnnamedInsert | src/main/java/com/malt/mongopostgresqlstreamer/OplogStreamer.java:122-136 | an accepted insert without a name is still sent to every connector, with no trigger call and nothing remembered |
| Dispatch.UpdateRereadsSource | src/main/java/com/malt/mongopostgresqlstreamer/OplogStreamer.java:139-165 | an update re-reads the document by `o2._id`; a missing or rejected document makes no call, otherwise it is written like an insert |
| Dispatch.MappingStep | src/main/java/com/malt/mongopostgresqlstreamer/OplogStreamer.java:113-178 | the body of `tableMappings.forEach` for one mapping raises exactly for an update without `o2`, with a null dereference, and remembers at most that mapping's own name |
| Dispatch.Walk | src/main/java/com/malt/mongopostgresqlstreamer/OplogStreamer.java:111-179 | the mappings in order, stopping at the first exception, which can only be a null dereference; at most one name remembered per mapping |
| Dispatch.WalkFault | src/main/java/com/malt/mongopostgresqlstreamer/OplogStreamer.java:139-142 | the walk over the mappings fails exactly for an update without `o2` that some mapping concerns, with a null dereference and no call made |
| Dispatch.WalkHasShape | src/main/java/com/malt/mongopostgresqlstreamer/OplogStreamer.java:111-179 | a walk that does not fail disables triggers once per connector for each remembered table in order, enables none, and writes to a named destination only after disabling it |
| Dispatch.TouchedAreNamedWrites | src/main/java/com/malt/mongopostgresqlstreamer/OplogStreamer.java:107-149 | every remembered table is some mapping's name, and only inserts and updates remember any |
| Dispatch.TriggerPairsEnableAll | src/main/java/com/malt/mongopostgresqlstreamer/OplogStreamer.java:182-186 | the closing loop enables triggers for each remembered table, per connector, in order, and makes no other call |
| Dispatch.EnableAll | src/main/java/com/malt/mongopostgresqlstreamer/OplogStreamer.java:182-186 | the closing `for` loop over `updatedTable`; `TriggerPairsEnableAll` states its calls |
| Dispatch.DispatchResult | src/main/java/com/malt/mongopostgresqlstreamer/OplogStreamer.java:99-188 | `processOperation` returns the entry's own `ts`; it throws exactly for a namespace without two segments (an index error) or an update without `o2` that a mapping concerns (a null dereference), and then, in this model where collaborators do not throw, it makes no call |
| Dispatch.DispatchEntry | src/main/java/com/malt/mongopostgresqlstreamer/OplogStreamer.java:99-188 | `processOperation`: split the namespace, walk the mappings, then re-enable the remembered triggers; `DispatchResult` and the lemmas beside it state its calls and result |
| Dispatch.UnmappedPassthrough | src/main/java/com/malt/mongopostgresqlstreamer/OplogStreamer.java:108-110 | an unmapped database, a collection without mappings, or an operation other than i/u/d makes no call and returns the `ts` |
| Dispatch.RejectedInsertIsSilent | src/main/java/com/malt/mongopostgresqlstreamer/OplogStreamer.java:119-138 | an insert no mapping accepts makes no call and returns the `ts` |
| Dispatch.DispatchDisablesBeforeWrites | src/main/java/com/malt/mongopostgresqlstreamer/OplogStreamer.java:122-162 | every write to a named destination follows a `disableTriggers` of it on the same connector, and every call goes to a connector |
| Dispatch.DispatchEnablesAfterWrites | src/main/java/com/malt/mongopostgresqlstreamer/OplogStreamer.java:182-186 | all `enableTriggers` calls come after every other call, and they repeat the `disableTriggers` pairs one for one, in order, duplicates included |
| Dispatch.DeletesAreUnbracketed | src/main/java/com/malt/mongopostgresqlstreamer/OplogStreamer.java:166-175 | a delete sends `remove` to every connector for every mapping, unfiltered, and makes no other call |
| Dispatch.WalkRemovesAll | src/main/java/com/malt/mongopostgresqlstreamer/OplogStreamer.java:166-175 | every mapping of a delete sends `remove` to every connector |
| Tailing.Delivered | src/main/java/com/malt/mongopostgresqlstreamer/OplogStreamer.java:60-61 | the cursor hands out a prefix of the selected documents |
| Tailing.DispatchAndKeep | src/main/java/com/malt/mongopostgresqlstreamer/OplogStreamer.java:61-64 | `forEachRemaining(d -> keep(processOperation(d)))`: each document dispatched, then its `ts` kept, until one raises; `KeepFollowsEachDocument` and `DispatchAndKeepStops` state its properties |
| Tailing.Handle | src/main/java/com/malt/mongopostgresqlstreamer/OplogStreamer.java:65-81 | only a query failure mentioning `CappedPositionLost` or `MongoCursorNotFoundException` is caught; it returns exactly when the pause is interrupted |
| Tailing.Pass | src/main/java/com/malt/mongopostgresqlstreamer/OplogStreamer.java:60-82 | one iteration: the cursor opened with the original checkpoint's query, the documents processed, the exception handled; `CursorEndDecides`, `PassExit` and `PassGoesOn` state how it ends |
| Tailing.CursorEndDecides | src/main/java/com/malt/mongopostgresqlstreamer/OplogStreamer.java:65-81 | when processing raised nothing, a dry cursor loops again, a recoverable query failure loops again or returns when its pause is interrupted, and anything else is thrown unchanged |
| Tailing.ProcessingFaultEscapes | src/main/java/com/malt/mongopostgresqlstreamer/OplogStreamer.java:60-81 | an exception from `processOperation` is an index error or a null dereference, so it is never caught and the pass throws it |
| Tailing.PassGoesOn | src/main/java/com/malt/mongopostgresqlstreamer/OplogStreamer.java:65-81 | a pass lets the loop go round again exactly when it ended with a dry cursor or with a recoverable query failure whose pause was not interrupted |
| Tailing.PassExit | src/main/java/com/malt/mongopostgresqlstreamer/OplogStreamer.java:65-81 | a pass that throws, throws what ended it, which is not a recoverable failure; a pass that returns met a recoverable failure and was interrupted |
| Tailing.Thrown | src/main/java/com/malt/mongopostgresqlstreamer/OplogStreamer.java:60-81 | the exception leaving the `try` block: a document's exception when one raised, otherwise the cursor's own; none exactly when no document raised and the cursor ran dry |
| Tailing.ImplementationWellBehaved | src/main/java/com/malt/mongopostgresqlstreamer/OplogStreamer.java:62-63 | processing only calls connectors and hands `keep` the entry's own `ts` |
| Tailing.KeepFollowsEachDocument | src/main/java/com/malt/mongopostgresqlstreamer/OplogStreamer.java:61-64 | the stored timestamps are those of the delivered documents, in cursor order, up to the document that raised |
| Tailing.DispatchAndKeepStops | src/main/java/com/malt/mongopostgresqlstreamer/OplogStreamer.java:61-64 | once a document has raised, the rest of the cursor is not processed |
| Tailing.SessionEffects | src/main/java/com/malt/mongopostgresqlstreamer/OplogStreamer.java:61-64 | processing the cursor only calls connectors and stores checkpoints |
| Tailing.PassOpensOnce | src/main/java/com/malt/mongopostgresqlstreamer/OplogStreamer.java:60 | a pass opens the cursor once, first, with the query for its checkpoint |
| Tailing.PassOpened | src/main/java/com/malt/mongopostgresqlstreamer/OplogStreamer.java:60 | the cursors a pass opens are exactly its own, with the query for the original checkpoint |
| Tailing.Queries | src/main/java/com/malt/mongopostgresqlstreamer/OplogStreamer.java:60 | the query each pass opens its cursor with: one per pass, for the original checkpoint on the log that pass sees |
| Tailing.Ran | src/main/java/com/malt/mongopostgresqlstreamer/OplogStreamer.java:57-83 | the number of passes that run: all of them while the loop goes on, otherwise up to the one that stopped it, and the loop over those is the whole loop |
| Tailing.ReopensFromOriginalCheckpoint | src/main/java/com/malt/mongopostgresqlstreamer/OplogStreamer.java:57-60 | the cursors the loop opens are, in order, one per pass that ran, each with the query for the checkpoint `watchFromCheckpoint` was given, never a kept one |
| Tailing.ReopenReplays | src/main/java/com/malt/mongopostgresqlstreamer/OplogStreamer.java:57-64 | when the log has only grown, a reopened cursor hands out every earlier document again before the new ones |
| Tailing.StoreAfterOnlyMovesCheckpoint | src/main/java/com/malt/mongopostgresqlstreamer/CheckpointManager.java:83-86 | a run of `keep` calls changes only this identifier's `ts`, to the last value kept |
| Tailing.StoreAfter | src/main/java/com/malt/mongopostgresqlstreamer/CheckpointManager.java:83-86 | the `mongooplog` collection after the `keep` calls of a trace; `StoreAfterOnlyMovesCheckpoint` states what changes |
| Tailing.WatchStopsAfterExit | src/main/java/com/malt/mongopostgresqlstreamer/OplogStreamer.java:57-83 | after a pass returns or throws, later passes never run |
| Tailing.Loop | src/main/java/com/malt/mongopostgresqlstreamer/OplogStreamer.java:57-83 | the `while (true)` loop over the given passes, stopping once a pass returns or throws; `LoopGoesOn` and `LoopStoppedBy` state when |
| Tailing.LoopGoesOn | src/main/java/com/malt/mongopostgresqlstreamer/OplogStreamer.java:57-83 | the loop is still running exactly when every pass so far let it go on |
| Tailing.LoopStoppedBy | src/main/java/com/malt/mongopostgresqlstreamer/OplogStreamer.java:57-83 | a loop that stopped was stopped by one pass, run after every earlier pass went on, whose outcome is the loop's |
| Tailing.Watch | src/main/java/com/malt/mongopostgresqlstreamer/OplogStreamer.java:54-84 | `watchFromCheckpoint(checkpoint)` over the given passes; `WatchGoesOn` and `WatchOutcomes` state how it ends |
| Tailing.WatchGoesOn | src/main/java/com/malt/mongopostgresqlstreamer/OplogStreamer.java:57-83 | the loop is still running exactly when every pass ended with a dry cursor or with a recoverable query failure whose pause was not interrupted: every such failure is retried |
| Tailing.WatchOutcomes | src/main/java/com/malt/mongopostgresqlstreamer/OplogStreamer.java:65-81 | the loop throws only after the passes before went on, and then it throws the exception that ended one pass, which is not a recoverable query failure; it returns only after the passes before went on and one pass met a recoverable query failure with its pause interrupted |
| Streamer.OplogStreamer.CallEach | src/main/java/com/malt/mongopostgresqlstreamer/OplogStreamer.java:124-136 | `connectors.forEach`: appends the call for each connector in order |
| Streamer.OplogStreamer.ApplyMapping | src/main/java/com/malt/mongopostgresqlstreamer/OplogStreamer.java:113-178 | one mapping's calls and remembered names are exactly its step, and it raises exactly when the step fails, with no call made |
| Streamer.OplogStreamer.ApplyMappings | src/main/java/com/malt/mongopostgresqlstreamer/OplogStreamer.java:111-179 | the loop over the mappings makes exactly the walk's calls, stops at its failure, and collects `updatedTable` |
| Streamer.OplogStreamer.EnableTriggersOf | src/main/java/com/malt/mongopostgresqlstreamer/OplogStreamer.java:182-186 | the nested loop appends the enabling calls for each remembered table, in order |
| Streamer.OplogStreamer.ProcessOperation | src/main/java/com/malt/mongopostgresqlstreamer/OplogStreamer.java:99-188 | appends exactly `DispatchEntry`'s calls and returns or throws what it does |
| Streamer.OplogStreamer.ProcessAndKeep | src/main/java/com/malt/mongopostgresqlstreamer/OplogStreamer.java:62-63 | processes one document, then `keep`s the result when it returns |
| Streamer.OplogStreamer.ForEachRemaining | src/main/java/com/malt/mongopostgresqlstreamer/OplogStreamer.java:61-64 | the trace, the store and the exception after processing the delivered documents in order are those of `DispatchAndKeep` |
| Streamer.OplogStreamer.RunPass | src/main/java/com/malt/mongopostgresqlstreamer/OplogStreamer.java:60-64 | opens the cursor, then processes what it delivers; the trace, store and exception are those of one `Pass` |
| Streamer.OplogStreamer.Attempt | src/main/java/com/malt/mongopostgresqlstreamer/OplogStreamer.java:60-82 | one iteration with its `catch` clause: trace, store and loop outcome of one pass |
| Streamer.OplogStreamer.WatchLoop | src/main/java/com/malt/mongopostgresqlstreamer/OplogStreamer.java:57-83 | the `while (true)` loop over the given passes ends with the trace, store and outcome of the loop function |
| Streamer.OplogStreamer.WatchFromCheckpoint | src/main/java/com/malt/mongopostgresqlstreamer/OplogStreamer.java:54-84 | trace, store and outcome are those of `Watch`, about which the Tailing lemmas speak |
| Application.StartingPoint | src/main/java/com/malt/mongopostgresqlstreamer/StreamerApplication.java:34-47 | without a load, the stored checkpoint; with one, the last oplog `ts`, or the exception reading it raises, or a null dereference for an entry without `ts` |
| Application.PerformInitialLoad | src/main/java/com/malt/mongopostgresqlstreamer/StreamerApplication.java:34-36 | the condition for the initial load: no stored checkpoint, or a forced reimport; `StreamerApplication.Run` states its use |
| Application.ExitOf | src/main/java/com/malt/mongopostgresqlstreamer/StreamerApplication.java:61-69 | only an `IllegalStateException` mentioning `state should be: open` is swallowed; every other exception escapes unchanged |
| Application.Bootstrapped | src/main/java/com/malt/mongopostgresqlstreamer/StreamerApplication.java:50-58 | after loading, the record holds the captured `ts`, `import` done, the start and end dates and the import's duration in minutes |
| Application.StartingPointInLog | src/main/java/com/malt/mongopostgresqlstreamer/StreamerApplication.java:47 | the captured checkpoint is in the log, so the first pass does not fall back to a rescan |
| Application.NothingLostAfterImport | src/main/java/com/malt/mongopostgresqlstreamer/StreamerApplication.java:47-62 | entries written after the captured one are exactly what the first pass delivers once the log has grown |
| Application.StreamerApplication.Bootstrap | src/main/java/com/malt/mongopostgresqlstreamer/StreamerApplication.java:47-58 | the bookkeeping runs as `storeImportStart`, import, `keep`, `storeImportEnd`, with the captured `ts` and the import's duration; a failure to read the oplog changes nothing |
| Application.StreamerApplication.Run | src/main/java/com/malt/mongopostgresqlstreamer/StreamerApplication.java:32-70 | loads exactly when no checkpoint is stored or a reimport is forced, then watches from the starting point; without a load the store receives only the watch's `keep`s; an oplog failure escapes before any write |

## Left out

- MongoDB driver mechanics are not modelled: cursors, tailable cursors,
  `find`, `updateOne` and natural-order sorting. The oplog is a sequence,
  the admin collection a map, and a cursor's delivery is a `CursorRun`.
- Spring wiring, `@Transactional`, the `Health` builder and all logging
  are framework plumbing with no effect on the calls made.
- The `watches` counter only feeds a log message.
- `Thread.sleep` is not timed. Only whether it is interrupted is kept,
  as a flag of each `CursorRun`, and setting the thread's interrupt flag
  is not modelled.
- Streamer.OplogStreamer.WatchFromCheckpoint: the endless loop is
  followed over a finite sequence of passes. A run that is still looping
  ends as `Looping`.
- Checkpoints.Minutes: the `float` division of `storeImportEnd` is exact
  `real` arithmetic, without `float` rounding.
- `Connector` is not part of this model. Its calls are recorded in the
  trace.
- `FlattenMongoDocument`, `FilterMapping`, `TableMapping`, `MappingsManager`
  and `InitialImporter` are not part of this model.
  - Flattening and filters are uninterpreted functions.
  - `getBySourceName` is taken to keep a database mapping's table mappings
    whose source collection is the entry's collection, in order.
  - `mappedNamespaces()` is a set parameter.
  - The import is a `RunImport` step with no effect on the store.
- The mapping context passed to connectors is represented by the
  database name.
- The source-database read of an update is a function of (database,
  collection, `_id`). A failure of that read is not modelled.
- Wall-clock readings (`new Date()`, `System.currentTimeMillis()`) are
  parameters.
- Exceptions raised by collaborators are not modelled. This covers
  `Connector` calls, `FlattenMongoDocument.fromDocument`, the filter tests
  and `CheckpointManager.keep`. In the source such an exception leaves
  `processOperation` after the calls already made. Triggers disabled so
  far stay disabled, because the closing loop at OplogStreamer.java:182-186
  is skipped. No `keep` is stored for that entry. The exception is not a
  `MongoQueryException`, so it leaves `watchFromCheckpoint`. The model's
  `processOperation` therefore throws only before any call.
- A null `ns` or `op` in an oplog entry is not modelled: both are always
  strings. A missing `o2` on an update is modelled.
- FieldMappings.GetType: `equalsIgnoreCase` is modelled only on the
  characters that can match `_PRESENCE`. Those are ASCII letters and the
  long s, which is exact for this comparison.
- `FieldMapping.foreignReferrences` has no behaviour here.
- Tailing.ReopenReplays: stated only for a log that has grown at its end
  since the previous pass. It does not cover a capped oplog that dropped
  old entries in between.
- Monitoring.LagMixesUnits: stated only for checkpoints before 2038 and a
  clock far from the `long` minimum, where the `int` cast and the `long`
  subtraction are exact. `CheckpointLag` itself models the signed reading
  and the wrap-around for every input.
