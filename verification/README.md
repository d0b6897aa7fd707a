# A verified model of the Postgres-to-MongoDB change pipeline

The repository moves Postgres row changes to MongoDB in two at-least-once stages: Debezium writes change
events to Kafka, a transformer renames fields and republishes them, and a sink decodes them and writes them to
Mongo. Two rules carry its correctness. Every Mongo write is gated by the Postgres LSN, and offsets are
committed only after the side effect. This project models both stages, the checkpointer, the retry loop and the
dead-letter tool, and proves what the two rules give over whole runs.

## How it is built

| files | what they hold |
|---|---|
| `Writer`, `Mongo`, `MongoWriter` | the write of one event, the server's contract, and the batch writer (a class over a shared database) |
| `Survivor`, `BulkOrder` | what any sequence of gated writes leaves behind, and when an unordered bulk is harmless |
| `Kafka`, `KafkaClient` | logs, offsets and polls, and the group consumer (a class) |
| `Decoder`, `Consumer`, `SinkProtocol`, `SinkRuns` | envelope to event, the consume loop (a class), the state machine whose batches that class takes, and its whole runs |
| `Mapper`, `Commute`, `Transformer`, `TransformerProtocol` | rules and renaming, transform against decode, the republishing service (a class) and its state machine |
| `Pipeline`, `Convergence`, `Deployment` | both stages interleaved, end-to-end convergence with its exact condition, and the two classes running side by side as such a run |
| `Checkpoint`, `Flushes` | marks and any number of flushes as interleaved atomic steps, the same object used sequentially, and what overlapping flushes do to the document |
| `SinkMain`, `DlqTool` | the retry loop with its 64-bit delay, progress reporting, and the dead-letter scan |

What an operation does is also said apart from the functions the theorems use: what a stored document shows
(`Writer.ShowsAfter`), which name a field gets (`Mapper.RenamesTo`), which bytes are malformed
(`Decoder.GoodEnvelope`), when a batch is applied (`Consumer.Applies`) and when a record goes through the
transformer (`Transformer.GoesAt`).

A class stands for code that updates state in place, and its methods are proved against the functions the
theorems are about: `Consumer.Loop.RunOnce` takes one batch step of the sink machine,
`Transformer.Service.RunOnce` one round of the transformer machine, and `Deployment.Deployment.Run` any
interleaving of the two, whatever the environment does. A run is a sequence of moves; the state after it is a
function of the moves, so that a statement over all runs is a statement over all sequences.
What the environment decides is a parameter: what a poll returns and whether it fails, the order in which Go
iterates a map, the order in which the server executes a bulk, which models it refuses, whether a connection
or an acknowledgement is lost, and whether a commit takes.

## Assumptions

- **Redelivery.** After an error or a restart the next poll starts at the committed offsets
  (`SinkProtocol.Resumed`, `TransformerProtocol.AtCommitted`). The comments at
  `services/sink/internal/consumer/consumer.go:64-67` and `services/sink/internal/kafka/franz.go:56-58` promise
  it. The retry loop at `services/sink/cmd/sink/main.go:163-190` polls again without rewinding, so this is what
  the loop needs of its client. `CommitSafeIff` says exactly when a commit is safe without it, and
  `WithoutResumeLoses` shows the loss.
- **Source log.** The records of a row share a partition, their LSNs rise in log order, and upserts carry full
  rows (`Pipeline.OrderlySource`; `docs/invariants.md:7`, `docs/decisions/002-lsn-gated-upserts.md:48`,
  `schema/postgres/001_init.sql:48-53`).
- **Server.** `_id` is the only unique index, one-document writes are atomic, and stored documents come from
  this writer, so their `sourceLsn` is an integer.
- **Numbers.** `canon` stands for reading a JSON number into a double and printing it back; a double prints
  and reads back to itself (`JsonValues.Stable`). `Commute.PrintsDoubles` says where integers move; such printers
  exist (`Commute.SomePrinter`).

## What the proofs say about the code

- **Rows that end alive converge with no assumption on bulk order.** Rows that end deleted need more, because a
  delete leaves no LSN behind and the bulk is unordered (`services/sink/internal/writer/mongo_writer.go:84`). The
  exact condition speaks of what the sink polled: whatever orders the servers pick, Mongo ends as the fold of the
  source exactly when, for each row that ends deleted, the batch that committed its last record had polled no
  upsert of the row (`Convergence.EndToEndIff`). `Convergence.ResurrectedRow` is a run that drains both stages and
  keeps a deleted row. `BulkOrder.BulkOrderImmaterialIff` is the exact condition on a single bulk.
  `docs/architecture.md:129-133` says an out-of-order upsert of a deleted row is dropped by the gate; it is
  inserted (`Survivor.DeleteFirstResurrects`).
- **Skips.** On the all-E11000 path the count is the size of the bulk, which exceeds the number of rejections
  whenever another model of the bulk took effect (`MongoWriter.SkipAccounting`). A write-concern error that
  comes with duplicate keys is absorbed with them (`MongoWriter.Absorbed`).
- **LSNs above 2^53.** The transformer reads numbers as doubles, so an odd LSN above 2^53 reaches the gate as
  another number (`Commute.LsnSurvivesIff`, up to 2^54). Above 2^54 every LSN shares its double with a neighbour,
  and LSNs that share a double reach the gate as one, so that the later of two such updates is dropped
  (`Commute.NeighbourShares`, `Commute.LsnsCollapse`, `MongoWriter.SecondIsDropped`). The decoder by itself keeps
  all 64 bits.
- **Map order in the transformer.** When only the suffix scan is left, the rule depends on map order unless all
  matching rules are the same (`Mapper.TailLookupDeterministicIff`), and a rename does unless colliding fields
  carry equal values (`Mapper.RenameOrderFreeIff`). Otherwise a replay publishes what the first execution did,
  although Go redraws the order (`Mapper.TransformOrderFree`); the theorems about bytes ask for that of the log
  (`Transformer.AllDetermined`), those about offsets do not.
- **Decoder.** `services/sink/internal/decoder/decoder.go:51-52` says missing fields are never defaulted. A
  missing table or operation is the empty string (`Decoder.MissingNamesDecode`).
- **Checkpoint.** Periodic flushes alone never take the document back, unless a write that one gave up on lands
  later. With other flushes beside them, or such late writes, the document can go back exactly when some write
  lands after the write of a flush that read its LSN later (`Flushes.OverlapIff`); a flush at shutdown that
  overlaps the periodic one can do that (`Flushes.OverlappingFlushRegresses`), one that waits cannot.
- **Dead-letter scan.** `-max` is documented as a cap, but it is looked at between polls only. With at least that
  many records waiting it is kept for certain only if a poll returns one record at a time (`DlqTool.MaxKeptIff`).

## Model

| member | source | states |
|---|---|---|
| Writer.BuildWriteOp | services/sink/internal/writer/writer.go:54-90 | fails exactly for a non-delete without a row image; otherwise the gated delete or the gated upsert, whose assignment has exactly the fields of the row's `after`, each with its value, and the event's LSN and the schema version on top |
| Writer.ImageIffAfter | services/sink/internal/writer/writer.go:71-76 | a document is the one an upsert assigns exactly when it shows the event's `after` field by field, with LSN and schema version and nothing else |
| Mongo.FilterMeaning | services/sink/internal/writer/writer.go:63-86 | a filter accepts a document exactly when its numeric sourceLsn is below the event's, or, for upserts only, when it has none |
| Mongo.KeyIdentifiesRow | services/sink/internal/writer/writer.go:55 | two events address the same document exactly when table and primary key agree |
| Mongo.RunConcat | services/sink/internal/writer/mongo_writer.go:59-63 | writes and their outcomes compose: executing two lists is executing the second from where the first ends |
| Survivor.SurvivorTheorem | services/sink/internal/writer/writer.go:61-89 | after any sequence of gated writes a row is absent exactly when every upsert was followed by a delete with a higher LSN; otherwise it carries the LSN and all fields of the newest upsert that was not |
| Survivor.SurvivorDocument | services/sink/internal/writer/writer.go:71-89 | with one field set per row the document shows exactly that upsert's `after`, field by field |
| Survivor.NewestUpsertWins | services/sink/internal/writer/writer.go:71-89 | gated upserts form a join: in any order and with any repetitions the row ends at its highest-LSN event and shows its `after` |
| Survivor.OrderImmaterial | services/sink/internal/writer/mongo_writer.go:83-85 | any two executions of the same writes end in the same state when neither puts a delete ahead of an older upsert of its row |
| Survivor.DeleteFirstResurrects | services/sink/internal/writer/writer.go:61-69 | in list order the row goes, delete first it comes back |
| BulkOrder.BulkOrderImmaterialIff | services/sink/internal/writer/mongo_writer.go:83-85 | every execution order of a bulk ends in the list-order state exactly when the batch does not both write a row and delete it above those writes and above its document |
| BulkOrder.WinnerShows | services/sink/internal/writer/mongo_writer.go:83-85 | a row whose newest event, stored or in the batch, is an upsert shows that event in every order |
| BulkOrder.ContestedRowDiffers | services/sink/internal/writer/mongo_writer.go:83-85 | a row the batch both writes and newly deletes is absent after one order and present after another |
| MongoWriter.RejectedExactlyWhenRedundant | services/sink/internal/writer/writer.go:51-89 | an upsert gives a duplicate key exactly when the row is at its LSN or newer, a delete misses exactly when there is no older document, neither changes the row, and every other write takes effect |
| MongoWriter.OutcomesPartition | services/sink/internal/writer/mongo_writer.go:96-107 | matched, upserted, deleted, missed deletes and duplicate keys add up to the number of models |
| MongoWriter.SkipAccounting | services/sink/internal/writer/mongo_writer.go:86-107 | the reported skips are never below the rejections; without duplicate keys they are the missed deletes, with them the whole bulk, which is exact only if no model took effect |
| MongoWriter.ReplyMeaning | services/sink/internal/writer/mongo_writer.go:85-108 | success means no duplicate key and everything executed; the all-duplicate test on the error holds exactly when everything executed and some duplicate key was hit |
| MongoWriter.AbsorbedLosesNothing | services/sink/internal/writer/mongo_writer.go:86-91 | when a bulk counts as applied every event ran, and it was without effect exactly when its row was at its LSN or newer, or was a delete of an absent row |
| MongoWriter.BatchLosesNothing | services/sink/internal/writer/mongo_writer.go:45-108 | when ApplyBatch returns nil, over all tables, every event ran, and was without effect exactly when its row was then at its LSN or newer, or was a delete of an absent row |
| MongoWriter.SecondIsDropped | services/sink/internal/writer/writer.go:51-89 | of two events of a row with one LSN the second to run is dropped, even if it is the newer one |
| MongoWriter.RunStaysStamped | services/sink/internal/writer/writer.go:75 | documents keep an integer sourceLsn through any writes |
| MongoWriter.ModelsAreWrites | services/sink/internal/writer/mongo_writer.go:50-57 | a table's models are the writes of exactly its events, in batch order |
| MongoWriter.ApplyTablesRunsTrace | services/sink/internal/writer/mongo_writer.go:59-64 | a batch, whatever the map order and the server do, executes distinct events of the batch, and all of them if it succeeds |
| MongoWriter.BulksKeepOrder | services/sink/internal/writer/mongo_writer.go:59-63 | if each table's bulk keeps deletes behind the upserts they cover, so does the whole batch, in any table order |
| MongoWriter.AllDuplicateKey | services/sink/internal/writer/mongo_writer.go:119-133 | true exactly for a bulk exception with at least one write error, all of them E11000 |
| MongoWriter.Database.BulkWrite | services/sink/internal/writer/mongo_writer.go:82-85 | the server's contract: the chosen models run in the chosen order, and the reply counts their outcomes |
| MongoWriter.BatchWriter.RecordSkip | services/sink/internal/writer/mongo_writer.go:111-115 | adds a positive count to what the table's counter held, and leaves all other counters |
| MongoWriter.BatchWriter.BulkWriteTable | services/sink/internal/writer/mongo_writer.go:71-109 | store, counters and result are those of one table step, on the success, absorbed and failing paths |
| MongoWriter.BatchWriter.Group | services/sink/internal/writer/mongo_writer.go:49-57 | fails exactly when some event is not buildable; otherwise each table's list holds the writes of its events in order |
| MongoWriter.BatchWriter.ApplyBatch | services/sink/internal/writer/mongo_writer.go:45-65 | an unbuildable event leaves everything unchanged; otherwise the state is that of the tables' bulks one after the other up to the first failure. It succeeds exactly when every event is buildable and every table's bulk, judged against the store at the start, is executed whole with its write concern met or excused by a duplicate key; each counter then grows by what its bulk reports |
| MongoWriter.AppliedIff | services/sink/internal/writer/mongo_writer.go:59-108 | a batch succeeds exactly when each table's bulk does, whatever the map order, since no bulk changes another's outcome; then every table's counter has grown by its own bulk's report and no other has |
| MongoWriter.StopsAtFirst | services/sink/internal/writer/mongo_writer.go:59-64 | row by row: tables up to and with the first whose bulk fails hold what that bulk alone makes of them, the tables after it are untouched |
| Decoder.EnvelopeRoundTrip | services/sink/internal/decoder/decoder.go:53-97 | every event with a key and 64-bit LSN and timestamp decodes from its own envelope unchanged, key token to the last digit, except that the numbers of its row images are read as doubles |
| Decoder.NamesAreTheEnvelopesIff | services/sink/internal/decoder/decoder.go:67-96 | an event has the envelope's table and operation exactly when those are strings and "" otherwise; its key is never empty |
| Decoder.TombstoneIff | services/sink/internal/decoder/decoder.go:54-56 | a record is a tombstone exactly when its value is absent, empty or the JSON null |
| Decoder.PoisonIff | services/sink/internal/decoder/decoder.go:53-97 | a record is malformed exactly when it is no tombstone and its value is not an object with payload and source of the right shape, members of the right type and a 64-bit LSN, or its key has no id |
| Decoder.MissingNamesDecode | services/sink/internal/decoder/decoder.go:48-53 | an envelope with no table and no operation decodes, against the comment |
| Kafka.FetchCovers | services/sink/internal/kafka/franz.go:56-87 | a poll reads exactly the offsets it advances over, in order within each partition |
| KafkaClient.GroupConsumer.Poll | services/sink/internal/kafka/franz.go:59-87 | a poll advances the position over what it read, also when a fetch error makes it drop those records |
| KafkaClient.GroupConsumer.MarkCommit | services/sink/internal/kafka/franz.go:93-97 | marks the offset after the record |
| KafkaClient.GroupConsumer.CommitMarked | services/sink/internal/kafka/franz.go:101-103 | commits the marks, possibly without an acknowledgement |
| Consumer.Loop.DecodeAll | services/sink/internal/consumer/consumer.go:103-115 | succeeds exactly when every record on the wire is a tombstone or has a good key and a good envelope, with exactly the events in order, tombstones skipped |
| Consumer.Loop.MarkAll | services/sink/internal/consumer/consumer.go:133-135 | marks every polled record, tombstones included |
| Consumer.Loop.Apply | services/sink/internal/consumer/consumer.go:118-131 | Mongo's new state is a run of distinct events of the batch, all of them on success; it succeeds exactly when every event is buildable and every table's bulk goes through |
| Consumer.Loop.Deliver | services/sink/internal/consumer/consumer.go:118-141 | the batch is applied exactly when every event is buildable and every bulk goes through; then it is marked and a commit is tried, otherwise nothing is marked or committed; it succeeds exactly if applied and acknowledged |
| Consumer.Loop.RunOnce | services/sink/internal/consumer/consumer.go:75-141 | every call is one valid batch step of the sink machine. The batch is applied exactly when the poll works, holds records, none malformed, and every bulk goes through; then the write of every writable polled event has run, and a commit that takes passes every polled record. It succeeds exactly on an empty poll or an applied and acknowledged batch; a poll of tombstones succeeds, leaves the store and commits past them; a batch not applied leaves all marks and commits, and one with a malformed record also the store |
| Consumer.BatchMeans | services/sink/internal/consumer/consumer.go:75-141 | what an applied batch means for every polled record, the committed offsets and the store, and that with no trouble a batch is applied |
| Consumer.TombstonePoll | services/sink/internal/consumer/consumer.go:103-139 | a poll of tombstones that works is applied and leaves the store as it was |
| Consumer.TraceIsBatch | services/sink/internal/consumer/consumer.go:118-139 | the bulk's execution trace over the decoded events is a valid batch over the polled records |
| SinkProtocol.SafeStep | services/sink/internal/consumer/consumer.go:64-67 | every step keeps the sink safe: committed offsets never go back and pass only tombstones and events whose write ran, and the store is the result of the writes that ran |
| SinkProtocol.OffsetsAfter | services/sink/internal/consumer/consumer.go:133-139 | a partition's committed offset stays or becomes its mark, and a mark moves only with an applied batch |
| SinkProtocol.CommitsPast | services/sink/internal/consumer/consumer.go:133-139 | a commit that takes moves the committed offsets past every record of the batch |
| SinkProtocol.EffectIffShown | services/sink/internal/writer/writer.go:54-90 | a row holds an event's effect exactly when it is absent after a delete, or shows the event's `after` field by field |
| SinkProtocol.FailureKeeps | services/sink/internal/consumer/consumer.go:109-129 | a batch that is not applied leaves all offsets; one with a malformed record or an unbuildable event also leaves the store |
| SinkProtocol.SuccessResumes | services/sink/internal/consumer/consumer.go:133-140 | after a commit that took, position and committed offsets coincide again |
| SinkProtocol.CommitSafeIff | services/sink/internal/consumer/consumer.go:133-139 | without the redelivery contract a commit loses nothing exactly when no unsettled record lies between the committed offset and where the batch began |
| SinkProtocol.WithoutResumeLoses | services/sink/cmd/sink/main.go:169-182 | polling on after a failed batch and then committing passes a record whose write never ran |
| SinkRuns.RunIsSafe | services/sink/internal/consumer/consumer.go:75-141 | the sink is safe after every sequence of batches, failures, crashes and redeliveries |
| SinkRuns.PassingBatch | services/sink/internal/consumer/consumer.go:118-139 | a record is committed only by a batch that polled it and was applied, and its write has then run |
| SinkRuns.RowStays | services/sink/internal/consumer/consumer.go:64-67 | once a row's newest record is committed no later batch, failure or redelivery touches the row |
| SinkRuns.DeletedRowDecided | services/sink/internal/writer/mongo_writer.go:83-85 | in every reachable state after its newest delete was committed a row is absent exactly when the committing batch ran no upsert of it without a newer delete behind it |
| SinkRuns.RowShowsNewestIff | services/sink/internal/consumer/consumer.go:118-139 | in every reachable state a row whose newest record is committed shows it, always if it is an upsert, and if it is a delete exactly when the committing batch cleared the row |
| SinkRuns.OrderedBulkClears | services/sink/internal/writer/mongo_writer.go:83-85 | a bulk that keeps list order within a row clears every row it newly deletes |
| SinkRuns.DeletedRowAbsentIff | services/sink/internal/writer/mongo_writer.go:83-85 | over all execution orders of all bulks of a run, a row whose last record is a committed delete ends absent exactly when the committing batch had polled no upsert of it |
| SinkProtocol.DocumentsHaveProvenance | services/sink/internal/writer/writer.go:71-76 | any other document carries the LSN and fields of some delivered event of its row |
| SinkRuns.SinkFollowsLog | services/sink/internal/consumer/consumer.go:75-141 | over an LSN-ordered log every reachable state shows the last committed event of each row without pending writes, deletes under the same exact condition |
| TransformerProtocol.MarkedIsProducedPrefix | services/transformer/cmd/transformer/main.go:124-178 | the marked records are in each partition exactly the offsets from the read position up to a bound, and each was produced, wherever the first error falls |
| TransformerProtocol.StageStep | services/transformer/cmd/transformer/main.go:115-179 | every step keeps, for each committed record, a copy in the output behind which only later records of its partition follow; committed offsets and the output only grow |
| TransformerProtocol.FullRoundResumes | services/transformer/cmd/transformer/main.go:172-178 | after a round acknowledged and committed in full the next poll starts at the committed offsets |
| Pipeline.SinkRunIsLegal | services/transformer/cmd/transformer/main.go:161-169 | whatever the transformer appended meanwhile, the sink ran as it would have over the final transformed log |
| Pipeline.PipeRunIsSafe | services/transformer/cmd/transformer/main.go:115-179 | both stages' invariants hold after every interleaving of their steps |
| Pipeline.NewestEndsDownstream | services/transformer/cmd/transformer/main.go:127-177 | once committed, the newest event of a row is its last and highest-LSN event in the transformed log, for all the replays before it |
| Pipeline.EndToEnd | services/transformer/cmd/transformer/main.go:115-179 | for one execution: once both stages have drained, a row shows its newest source event, always if that is an upsert, and if it is a delete exactly when the batch that committed it left no upsert of the row uncovered |
| Pipeline.LiveRowConverges | services/sink/internal/consumer/consumer.go:75-141 | a row that ends alive converges with no assumption on bulk order, and shows the `after` of its newest event field by field |
| Convergence.EndToEndIff | services/transformer/cmd/transformer/main.go:115-179 | for every source log and every interleaving with errors, partial bulks, lost commits and crashes that drains both stages: Mongo is the fold of the source log in whatever orders the bulks execute, exactly when for each row that ends deleted the batch that committed its last record had polled no upsert of the row |
| Convergence.MirrorsSourceIff | services/sink/internal/writer/writer.go:54-90 | being the fold of the source means, field by field, that every row shows the `after` of its newest source event, or nothing if that is a delete, and that there is no other document |
| Convergence.SeparatedRowConverges | services/sink/internal/consumer/consumer.go:75-141 | a row that meets that condition converges in every order |
| Convergence.UnseparatedRowStays | services/sink/internal/writer/mongo_writer.go:83-85 | for a row that does not there is an order of the same bulks that leaves the wrong document |
| Convergence.ResurrectedRow | services/sink/internal/writer/mongo_writer.go:83-85 | a legal run in which every call succeeds and both stages drain, and a deleted row is still there |
| Pipeline.NoForeignDocuments | services/sink/internal/writer/writer.go:54-90 | in every reachable state each document carries an event of its row from the source |
| Transformer.Service.Outgoing | services/transformer/cmd/transformer/main.go:141-155 | a nil value is forwarded as it is, anything else is rewritten under the same key |
| Transformer.TargetTopicIs | services/transformer/cmd/transformer/main.go:181-189 | "cdc.x" is forwarded to "transformed.x", and a name without that prefix to itself behind "transformed." |
| Transformer.TargetTopicsMeetIff | services/transformer/cmd/transformer/main.go:181-189 | two input topics share an output topic exactly when they are equal or one is the other, unprefixed, behind "cdc." |
| Transformer.SendsAgree | services/transformer/cmd/transformer/main.go:141-155 | executions of one record agree on whether it is published, and on the bytes if its rule and renames do not depend on map order |
| Transformer.Service.Produce | services/transformer/cmd/transformer/main.go:161-169 | an acknowledged record is at the end of the partition its renamed topic and key select, an unacknowledged one may be; nothing else is |
| Transformer.Service.ProcessAll | services/transformer/cmd/transformer/main.go:124-170 | every committable record transforms and is acknowledged; if not all are, the first other one does not transform or is not acknowledged; the output has grown by that prefix, and by the failed record exactly if it transforms and is stored all the same |
| Transformer.Service.RunOnce | services/transformer/cmd/transformer/main.go:115-179 | every call is one round of the transformer machine, acknowledged exactly up to the first record that does not transform or is not acknowledged; if all go, the whole poll is, and an acknowledged commit makes the call succeed; a failed poll publishes nothing |
| Transformer.SinkReadsDownstream | services/transformer/cmd/transformer/main.go:141-169 | the published bytes, each from an execution with its own map iteration orders, decode to the log the pipeline theorems read |
| Transformer.ForwardedBodyIsRenamed | services/transformer/cmd/transformer/main.go:141-155 | what the sink decodes of a forwarded record is its source event with the row images renamed |
| Transformer.RenamedRecordIs | services/transformer/cmd/transformer/main.go:141-155 | the renamed event has the rule of its payload and topic: every field of both images sits under the name that rule gives it, and nothing else of the event changes; without a rule nothing does |
| Transformer.MongoShowsRenamedRow | services/transformer/cmd/transformer/main.go:115-179 | end to end on the wire: once drained, Mongo shows for each row that meets the condition of EndToEndIff, field by field, the `after` of the newest source event with its fields renamed, or nothing after a delete, in whatever orders the bulks execute |
| Deployment.Deployment.TransformerTurn | services/transformer/cmd/transformer/main.go:89-100 | one turn of the transformer's loop extends a run of the pipeline by the round its call makes of the poll, acknowledged up to the first record that does not go, and after an error by a restart |
| Deployment.Deployment.SinkTurn | services/sink/cmd/sink/main.go:163-190 | one turn of the sink's loop extends a run of the pipeline by the batch its call makes of the poll, applied exactly when nothing keeps it from that, and after an error by a rewind |
| Deployment.Deployment.Run | services/sink/cmd/sink/main.go:163-190 | any interleaving of the two loops is a run of the pipeline, both programs standing where it ends: turn by turn, the call of the program whose turn it is, on the poll it meets where the moves before have left it, and no other move |
| Deployment.DrainedDeploymentMirrors | services/transformer/cmd/transformer/main.go:115-179 | whatever the two loops have been through, once both have committed everything Mongo holds the fold of the source log if each row that ends deleted is separated |
| Mapper.Load | services/transformer/internal/mapper/mapper.go:47-79 | succeeds exactly when every file parses, names a source, and no two name the same one; then it holds exactly those rules, each under its trimmed source |
| Mapper.TrimIs | services/transformer/internal/mapper/mapper.go:69 | trimming takes away space at both ends only, and all of it |
| Mapper.ScanFinds | services/transformer/internal/mapper/mapper.go:158-165 | the scan finds a rule exactly when some name ends in the suffix, and the rule is one of those |
| Mapper.TailIs | services/transformer/internal/mapper/mapper.go:147-166 | the tail of a topic is what follows its last dot, or all of it |
| Mapper.TailLookupIs | services/transformer/internal/mapper/mapper.go:147-166 | no topic selects no rule; otherwise the segment's own rule, else the rule of some schema with that segment if there is one |
| Mapper.PayloadLookupIs | services/transformer/internal/mapper/mapper.go:124-142 | the rule of schema and table, else that of the bare table, else what the topic selects |
| Mapper.TailLookupDeterministicIff | services/transformer/internal/mapper/mapper.go:147-166 | the fallback lookup is independent of map order exactly when an exact name decides or all rules with the suffix are equal |
| Mapper.LookupOrderFree | services/transformer/internal/mapper/mapper.go:124-166 | a payload whose source names a rule, or whose topic tail is unambiguous, selects one rule in every map order |
| Mapper.RenameKeys | services/transformer/internal/mapper/mapper.go:168-178 | every field of the row is in the result under its rule's target, or its own name without one, with its value if no other field is given that name; there are no other fields, and a contested name holds the value of the last field in iteration order |
| Mapper.RenamedMeans | services/transformer/internal/mapper/mapper.go:168-178 | the same of the rename in every iteration order |
| Mapper.RenameLosslessIff | services/transformer/internal/mapper/mapper.go:168-178 | no field is lost exactly when the effective rename is injective on the row; then every field is carried under its new name and the map order is immaterial |
| Mapper.RenameOrderFreeIff | services/transformer/internal/mapper/mapper.go:168-178 | the renamed row is independent of map order exactly when fields given one name carry equal values |
| Mapper.RenameInverts | services/transformer/internal/mapper/mapper.go:168-178 | an inverse rename restores an injectively renamed row |
| Mapper.RuleMapper.ApplyJSON | services/transformer/internal/mapper/mapper.go:86-115 | the mutating rewrite refines the pure one |
| Mapper.TransformIs | services/transformer/internal/mapper/mapper.go:86-115 | fails exactly for bytes that are no JSON object or null on a topic with a rule; passes on such bytes elsewhere, envelopes without a payload object and payloads without a rule; otherwise only the images of the payload change |
| Mapper.SentImageIs | services/transformer/internal/mapper/mapper.go:86-115 | each row image that is sent has exactly the fields of the original, under the names the selected rule gives them |
| Mapper.TransformOrderFree | services/transformer/internal/mapper/mapper.go:86-115 | whether a value is forwarded never depends on map order, and its bytes do not if one rule is selected and renames both images without conflict |
| Commute.TransformThenDecode | services/transformer/internal/mapper/mapper.go:86-115 | for every envelope that is forwarded and whose LSN and timestamp survive a double, decoding the rewritten value gives the original event with exactly its images renamed; malformed ones stay malformed |
| Commute.ImageCommutes | services/transformer/internal/mapper/mapper.go:106-111 | renaming a row image and decoding it is decoding it and renaming the row |
| Commute.SomePrinter | services/transformer/internal/mapper/mapper.go:87-114 | printers of doubles as assumed for LSNs exist |
| Commute.LsnSurvivesIff | services/transformer/internal/mapper/mapper.go:87-114 | an LSN up to 2^54 survives a rewriting transformer exactly when it is at most 2^53 or even |
| Commute.LsnsCollapse | services/transformer/internal/mapper/mapper.go:87-114 | two LSNs of any size with one nearest double reach the gate as one number |
| Commute.NeighbourShares | services/transformer/internal/mapper/mapper.go:87-114 | above 2^54 every LSN shares its nearest double with the one before or after it |
| Checkpoint.StepKeeps | services/sink/internal/checkpoint/checkpoint.go:130-209 | every atomic step of any number of markers, periodic and other flushes, and late writes keeps the invariant; neither the maximum nor the largest write goes back |
| Checkpoint.ConcurrentMarks | services/sink/internal/checkpoint/checkpoint.go:130-146 | for any number of interleaved callers, when all have returned the maximum is that of 0 and their LSNs and the count is the sum of their positive sizes |
| Checkpoint.RetryShrinks | services/sink/internal/checkpoint/checkpoint.go:132-140 | each CAS retry is strictly nearer its goal |
| Checkpoint.MarkerStepsBounded | services/sink/internal/checkpoint/checkpoint.go:130-146 | every call ends: in any interleaving it takes at most twice as many steps as there are calls, and three more |
| Checkpoint.MarksGetWritten | services/sink/internal/checkpoint/checkpoint.go:155-209 | a mark is written within the heartbeat's number of ticks while the periodic flushes succeed, even if another flush erased its dirty flag |
| Checkpoint.FlushSchedule | services/sink/internal/checkpoint/checkpoint.go:148-181 | after a success a tick attempts exactly if something is dirty or it is the heartbeat-th since, so successes are at most that far apart unless an attempt fails; after a failure every tick attempts until some flush clears the dirty flag |
| Flushes.OverlapIff | services/sink/internal/checkpoint/checkpoint.go:183-209 | for every schedule of any number of flushes: no placement of marks and ticks takes the document back exactly when no write lands after the write of a flush that read its LSN later |
| Flushes.TracesAreFeasible | services/sink/internal/checkpoint/checkpoint.go:189-209 | the flushes of every execution form such a schedule |
| Flushes.InOrderNeverBack | services/sink/internal/checkpoint/checkpoint.go:189-209 | without overtaking the document never goes back, at any point of the execution |
| Flushes.SequentialInOrder | services/sink/internal/checkpoint/checkpoint.go:183-187 | flushes that do not read while another is between its read and its landing do not overtake |
| Flushes.DocumentNeverRegresses | services/sink/internal/checkpoint/checkpoint.go:155-209 | the periodic flushes alone never take the document back, nor past the largest LSN reported |
| Flushes.MarksReachDocument | services/sink/internal/checkpoint/checkpoint.go:155-209 | without overtaking a mark is in the document within the heartbeat's number of ticks while the periodic flushes succeed |
| Flushes.OverlappingFlushRegresses | services/sink/internal/checkpoint/checkpoint.go:183-209 | a legal execution from the start in which a flush beside the periodic one takes the document to 2 and then back to 1 |
| Checkpoint.Checkpointer.constructor | services/sink/internal/checkpoint/checkpoint.go:83-113 | starts clean at LSN 0, written at creation, with a heartbeat of 6 unless configured |
| Checkpoint.Checkpointer.MarkProgress | services/sink/internal/checkpoint/checkpoint.go:130-146 | the maximum only rises, to the LSN if that is larger; the count grows by a positive size; dirty is set |
| Checkpoint.Checkpointer.FlushNow | services/sink/internal/checkpoint/checkpoint.go:189-209 | a stored flush writes the two counters, stamps the time and clears dirty; a failed one changes nothing |
| Checkpoint.Checkpointer.OnTick | services/sink/internal/checkpoint/checkpoint.go:163-178 | attempts exactly when dirty or when this is the heartbeat-th idle tick, and resets the idle count only on success |
| Checkpoint.Checkpointer.Staleness | services/sink/internal/checkpoint/checkpoint.go:211-218 | the time since the last write, never negative |
| SinkMain.BackoffExact | services/sink/cmd/sink/main.go:192-205 | for every n of at least 1 the wrapping 64-bit shift still gives min(500ms * 2^(n-1), 30s) |
| SinkMain.WrappedIsOutside | services/sink/cmd/sink/main.go:200-203 | a multiple of 2^35 wrapped to 64 bits is never inside (0, 30s] |
| SinkMain.BackoffMonotone | services/sink/cmd/sink/main.go:196-205 | delays grow with the retry number, from the base up to the cap, for all int arguments |
| SinkMain.DelaysNeverShrink | services/sink/cmd/sink/main.go:163-190 | within a run of failures delays start at the base after a success, never shrink and never exceed the cap |
| SinkMain.DelaysAre | services/sink/cmd/sink/main.go:163-205 | the delay after the n-th failure in a row is min(500ms * 2^(n-1), 30s) |
| SinkMain.RunLoop | services/sink/cmd/sink/main.go:163-190 | any number of turns, ended early exactly by a context error, each the batch its call makes of the poll, applied exactly when nothing keeps it from that, and a rewind if it failed; the sink stays safe with no committed offset moved back, and each failed turn waits as its run of failures demands; the rewind after a failure is the client's, by the redelivery assumption |
| SinkMain.MaxLsn | services/sink/cmd/sink/main.go:233-239 | the largest positive LSN of the batch, or 0 |
| SinkMain.InstrumentedWriter.ApplyBatch | services/sink/cmd/sink/main.go:227-255 | passes the inner result through; progress moves only on success, to the batch's largest LSN if that is ahead |
| DlqTool.HeaderString | services/sink/cmd/dlqtool/main.go:263-270 | the value of the first header of that name, or "" |
| DlqTool.ReplayIs | services/sink/cmd/dlqtool/main.go:161-174 | a record is replayed to the topic in its first source-topic header, with its own key and value, exactly if that topic is not empty and the produce is acknowledged |
| DlqTool.Truncate | services/sink/cmd/dlqtool/main.go:272-277 | short strings are kept, longer ones keep their first n characters |
| DlqTool.TotalLag | services/sink/cmd/dlqtool/main.go:255-261 | in any map order the sum is the number of offsets from start to end, less those by which a start is ahead of its end |
| DlqTool.ReplaysAreExact | services/sink/cmd/dlqtool/main.go:161-174 | the replays are exactly the acknowledged records with a source topic, in order, key and value their own |
| DlqTool.Scan.Take | services/sink/cmd/dlqtool/main.go:149-175 | one record keeps the tallies exact and is either replayed or counted as failed |
| DlqTool.Scan.EachRecord | services/sink/cmd/dlqtool/main.go:148-175 | the same for a whole poll |
| DlqTool.Scan.Run | services/sink/cmd/dlqtool/main.go:123-192 | the scan ends; it stops at the first poll after which it has enough, or at the deadline; reason and topic counts are the multisets of what was read, and processed is replayed plus failed |
| DlqTool.OvershootBound | services/sink/cmd/dlqtool/main.go:177-181 | the scan passes its stopping point by less than one poll |
| DlqTool.MaxKeptIff | services/sink/cmd/dlqtool/main.go:177-181 | with polls of up to b records every scan stays within `-max` exactly when b is at most max - min(max, target) + 1 |

## Left out

- JSON and YAML bytes, file reading and float formatting: records are abstract JSON with exact member names, and numbers go through `canon`. Case-insensitive member matching, repeated members and numerals that overflow a double are not modelled.
- The MongoDB driver and kgo beyond the contracts above, a nil bulk result, rebalances with two live owners, and secondary unique indexes, whose E11000 would be absorbed too.
- `$set` on `_id`, and field names containing '.' or starting with '$'.
- Documents that other programs store with a missing or non-integer sourceLsn: the theorems start from an empty store.
- Consumer.Loop.RunOnce: is wired to the batch writer directly; the instrumented writer between them in the source returns the inner result unchanged, which is its contract here.
- SinkMain.RunLoop: rewinds the consumer after each failed turn, which the source leaves to its client; see the redelivery assumption above.
- Deployment.Deployment.Run: the source log is given in full, records still to come being records not yet polled.
- Flushes.MarksReachDocument: counts the ticks the loop handles, not wall-clock time, and stops at a context error, which ends the source's loop.
- Flushes.DocumentNeverRegresses: is about one process, and about writes that have landed or never do by the time their flush gives up; restarts begin again at 0, and replicas share one document.
- Checkpoint.Checkpointer.MarkProgress: counters are unbounded integers, not 64-bit ones.
- Commute.LsnSurvivesIff: is exact up to 2^54 only; above it LsnsCollapse and NeighbourShares say what cannot survive, and the digits Go prints for such a double are not modelled.
- DlqTool.Scan.Run: an unacknowledged replay that the broker stored all the same is counted as failed, as the tool does, and is not among the published ones; exit codes and printing are left out.
- Tracing, metrics other than the skip counters, error classification, the lag probe, the load generator, HTTP servers, environment parsing, deployment and chaos scripts: no hard property.
