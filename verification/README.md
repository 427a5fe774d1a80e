# Verification of rustper's delivery, tracking and row building

rustper routes records from one Kafka source to any number of sinks. It promises at-least-once
delivery: the source commits only the contiguous prefix of batches that every sink has
acknowledged. This project models the parts that promise rests on and proves what they keep.

Check everything with `dafny verify dfyconfig.toml`.

## What is modelled

**The delivery protocol.** `SourceLoop` is the source's select loop (consume, dispatch, reap,
commit), `Offsets` and `Commit` the two functions it commits with, `Acknowledgement` the
acknowledgement state shared by the branches of one fan-out, `SinkRuntime` and `Retry` a sink task
with its coalescing, write slots, retries, verdicts and drain. `Fabric` joins fan-out tasks to
sinks, and `Protocol` is the whole router as a step machine over any number of process lifetimes,
with histories of the broker's log, of every requested commit and of every successful
`write_batches` call of each sink. One inductive invariant (`Protocol.StepInv`) carries the results
in `Delivery` (at-least-once, nothing skipped, rejection blocks, commits increase) and in
`Quiescence` (no deadlock with every sink alive, bounded work, coming to rest with everything
settled). `CatchUp` adds consuming: every stretch ends with the whole log delivered and committed
unless something fails, and after any restart the router can get there. `Witness` is a
concrete execution that delivers and commits a record, so none of this is vacuous.

**Delivery tracking in the Kafka sink.** `Tracker` splits each `settle` call into its shared-memory
actions and interleaves any number of them with the enqueuing writer.

**The JSON row builder.** `Utf8` and `Json` are the reader's side: RFC 3629 section 3, and RFC 8259
sections 2 to 7 as a lexer and a token reader. `JsonRow` is the writer, `JsonMeaning` says what a
row means to the reader compared with its payload, `JsonRows` is the loop that fills the buffer and
`JsonStream` what the whole buffer reads as.

**The arena.** `Arena` is `BatchBuffer` over real arrays: views, their contents and the cost.

Code that updates state in the source is a class or a method here (`Committer`, `AckState`,
`BranchAck`, `KafkaSource`, `BatchTracker`, `BatchBuffer`, `RowBuffer`, `OffsetsFor`, `Coalesce`,
`WriteWithRetry`, `BuildRows`), each proved against the function the lemmas speak about.

## What is assumed of the environment

- The broker appends records with growing offsets per partition. Within a session `recv` yields each
  partition's records in order from the resume offset, skipping none, and the partitions stay
  assigned.
- A restart resumes each partition from some offset whose commit was requested, not necessarily the
  latest one, or from the start of the log. It may happen at any moment, with or without a stop.
- librdkafka gives exactly one delivery report per record it accepted.
- A `write_batches` call returns, with success or an error: an attempt is a step the sink takes on its
  own. For the Kafka sink `Tracker.EveryWriteReturns` derives this from the reports arriving.
- The tracker's atomics and mutexes are read as sequentially consistent.
- No step is put off for ever while the router is waiting for it; only which step comes next is open.
- A sink's limits are those `Config::validate` and `runtime_settings` allow, and the set of sinks
  stays the same across restarts.
- Batches reach a sink's queue in any order; only queue order is used.
- Errors from `recv`, from building the offset list and from a panicking task end the source, which
  is the step `Stop` or `JoinFailed`. A refused commit request ends it inside `Join`.

## What the code does not keep

- The doc comment of `write_row` speaks of one line per event. A row has exactly one newline more
  than its body (`JsonMeaning.RowNewlines`), so a payload with a raw line break between two tokens
  gives two lines (`JsonMeaning.TwoLineRow`).
- `is_ascii_whitespace` includes the form feed, which JSON does not allow between tokens. A payload
  with a form feed in the trimmed margins is not JSON, and its row is (`JsonMeaning.FormFeedIsRepaired`);
  `JsonMeaning.PayloadMeaning` gives the exact condition.
- The check at the two ends of a payload lets through two objects in one payload: one event is
  counted as written and two rows are read (`JsonStream.TwoObjectsInOneRow`). The buffer is one
  object per accepted event if and only if each accepted body is an object
  (`JsonStream.BufferMeaning`). Whether or not they are, no row runs into the next
  (`JsonStream.RowsAreIndependent`).

## Limits of the arithmetic

The byte counter saturates at `usize::MAX`. The inputs below are beyond any real process, whose
payloads are at most `isize::MAX` bytes each and all resident; they mark where the arithmetic stops
being exact, and the theorems say exactly when it is.

- Past the ceiling the counter is below the true total: `SourceLoop.CounterSaturates` is a run with a
  budget of `usize::MAX`, which the validation accepts. The counter is exact all along a run if and
  only if the true total always fits its width, and if and only if nothing saturated
  (`SourceLoop.CounterExact`); for one dispatch the guard is that the addition fits
  (`SourceLoop.DispatchExact`). A budget that leaves room for one batch is enough
  (`SourceLoop.CounterExactWithinBudget`). The source never wedges either way, because that needs only
  counter <= total.
- The documented memory ceiling, the budget plus one batch, can be passed after such a saturation
  (`SourceLoop.CeilingOutgrown`). Whatever batch comes next stays below the ceiling if and only if the
  bytes in flight are below the budget (`SourceLoop.CeilingExact`), which is what the loop's comparison
  says as long as the counter is exact.

## Model

| member | source | states |
|---|---|---|
| `Delivery.AtLeastOnce` | src/lib.rs:1-7 | In every execution with any stops and restarts, each log record below a requested commit offset of its partition was in a batch of a successful write of every sink |
| `Delivery.HistoryIsExact` | src/sink/mod.rs:189-200 | The write histories at-least-once speaks of are exact: a successful attempt adds one call with precisely the batches of that write's group, in order, whose events and bytes are the sums the sink's limits looked at; no other step, a failed attempt included, adds anything |
| `Delivery.NothingReplayedBelow` | src/source/kafka.rs:331-338 | A lifetime consumes only records at or above the commit it resumed from |
| `Delivery.StoppedMeansAborted` | src/source/kafka.rs:336-337 | In a stopped lifetime no fan-out is left running |
| `Delivery.NothingSkipped` | src/source/kafka.rs:331-338 | At any moment each log record has reached every sink, or it lies at or above every requested commit of its partition, so that any restart consumes it again, and the present lifetime has consumed it or still has it ahead |
| `Delivery.RejectionBlocks` | src/source/kafka.rs:343-352 | Once a branch of a batch is refused or its fan-out failed, neither it nor any later batch is committed until the next restart |
| `Delivery.CommitsIncrease` | src/source/kafka.rs:207-215 | Within a lifetime the committed offsets of each partition strictly increase |
| `Delivery.ExecutionInv` | src/source/kafka.rs:292-376 | The system invariant holds in every state of every execution |
| `Witness.SomeRunCommits` | src/source/kafka.rs:292-376 | Under a validated configuration some execution ends with a logged record in a successful write of the sink, acknowledged by it, its fan-out delivered and its commit requested |
| `Protocol.StepInv` | src/source/kafka.rs:292-376 | Every step of broker, source, fan-out, sinks, stop and restart keeps the invariant |
| `Protocol.InitInv` | src/source/kafka.rs:281-286 | The invariant holds before the first record |
| `Protocol.ReceiveInv` | src/source/kafka.rs:365-374 | Consuming the next record, dispatching a full batch included, keeps the invariant: no record between resume point and position is missed |
| `Protocol.LingerInv` | src/source/kafka.rs:363-363 | A timer dispatch keeps the invariant |
| `Protocol.EnqueueInv` | src/topology.rs:99-105 | Handing an envelope to one sink's queue keeps the invariant |
| `Protocol.SendFailsInv` | src/topology.rs:99-106 | A closed queue fails the whole fan-out and drops the unsent envelopes, and the invariant stays |
| `Protocol.ConcludeInv` | src/topology.rs:106-111 | A fan-out returning its verdict keeps the invariant |
| `Protocol.SinkStepInv` | src/sink/mod.rs:139-220 | Every step of a sink task or of one of its writes keeps the invariant |
| `Protocol.JoinInv` | src/source/kafka.rs:343-358 | Joining a delivered batch and committing what became contiguous, a refused commit request included, keeps the invariant |
| `Protocol.HaltInv` | src/source/kafka.rs:331-338 | Stopping aborts the fan-outs in flight and keeps the invariant |
| `Protocol.RestartInv` | src/source/kafka.rs:331-338 | A new lifetime from any requested commits, or from the start, satisfies the invariant |
| `Protocol.PrefixWritten` | src/source/kafka.rs:197-217 | If batches 0 to n were delivered, every log record at or below a record of batch n has been written by every sink, in this lifetime or an earlier one |
| `Protocol.CommitHonoured` | src/source/kafka.rs:197-217 | The offsets of a batch whose whole prefix is delivered are safe to commit |
| `Quiescence.AlwaysProgress` | src/source/kafka.rs:328-375 | No deadlock: while a running source has a batch in flight, the router can take a step of its own; no stop, sink shutdown, dropped queue, restart or new record is needed |
| `Quiescence.SinkWorkDecreases` | src/sink/mod.rs:139-220 | Every step a sink takes on its own lowers a measure of the work it has left |
| `Quiescence.WorkDecreases` | src/source/kafka.rs:328-375 | Every internal step of the router lowers the work left in the whole system |
| `Quiescence.InternalStretchIsBounded` | src/sink/mod.rs:84-107 | Without new input a stretch of internal steps is no longer than the work present at its start |
| `Quiescence.RestMeansReaped` | src/source/kafka.rs:343-358 | When the router has no step of its own left, every sink holds nothing and is waiting with no write open, or has returned; every fan-out has its verdict; and every dispatched batch was joined and committed, unless the source has stopped |
| `Quiescence.SettlesDown` | src/source/kafka.rs:328-375 | From the end of every execution, the router's own steps lead to such a rest, in no more steps than the work that was left |
| `Quiescence.MaximalStretchSettles` | src/source/kafka.rs:328-375 | Whichever of its own steps the router takes, a stretch that cannot be continued is no longer than the work at its start and ends in such a rest |
| `CatchUp.StretchDelivers` | src/lib.rs:1-7 | With no further appends, a stretch of consuming and working steps that cannot be continued is no longer than the work at its start and ends with every log record written by every sink and below a requested commit, unless the source has stopped |
| `CatchUp.HealthyStretchDelivers` | src/sink/mod.rs:72-77 | If no write is given up and no commit refused, failed attempts that are retried included, such a stretch from a healthy lifetime always ends with the whole log delivered and committed |
| `CatchUp.HealthyCatchesUp` | src/source/kafka.rs:328-375 | A healthy router always has a continuation without failures that delivers and commits the whole log |
| `CatchUp.RecoveryDelivers` | src/source/kafka.rs:331-338 | Whatever happened before, after a restart from any requested commits some continuation delivers the whole log to every sink and commits it |
| `CatchUp.MovingWorks` | src/source/kafka.rs:328-375 | Every consuming, dispatching or working step lowers a measure of the work left, unread records included |
| `CatchUp.StepHealthy` | src/sink/mod.rs:195-206 | A lifetime stays free of refusals, failed fan-outs and returned sinks as long as no write is given up and no commit refused |
| `Quiescence.CaughtUpMeansDelivered` | src/lib.rs:1-7 | Once a running source has caught up with the log and joined everything, every record ever appended has reached every sink and every batch of the lifetime is committed |
| `Offsets.NextOffsetsDescribes` | src/source/kafka.rs:172-195 | For every event list: one entry per partition present, no other, each the highest offset plus one |
| `Offsets.OrderInsensitive` | src/source/kafka.rs:172-195 | Reordering the events changes at most the order of the entries |
| `Offsets.OffsetsFor` | src/source/kafka.rs:172-195 | The linear scan computes exactly that list |
| `Commit.DrainAccounts` | src/source/kafka.rs:207-216 | Draining extends the commits in sequence order and stops only at a gap or at a refused request, and nothing refused is committed |
| `Commit.AcceptSettles` | src/source/kafka.rs:204-216 | One new completion takes a settled ledger to a settled ledger and never retracts a commit |
| `Commit.CommitsTheMex` | src/source/kafka.rs:197-217 | For every arrival order the next sequence is the least one missing, exactly those above it wait, and the commits are 0, 1, 2, ... |
| `Commit.SettledIsUnique` | src/source/kafka.rs:197-217 | A set of completions has only one settled ledger |
| `Commit.OrderInsensitive` | src/source/kafka.rs:197-217 | The same completions in any order leave the same ledger |
| `Commit.Committer.constructor` | src/source/kafka.rs:282-284 | Nothing completed, nothing committed |
| `Commit.Committer.CommitContiguous` | src/source/kafka.rs:197-217 | The loop leaves the ledger of the specification, an error only on a refused request, and returns exactly the events and bytes it added to the committed sums |
| `SourceLoop.ReceiveInv` | src/source/kafka.rs:365-374 | Receiving keeps the loop invariant and adds exactly one event to what was consumed |
| `SourceLoop.LingerInv` | src/source/kafka.rs:363-363 | A timer dispatch keeps the loop invariant and moves no event |
| `SourceLoop.ReapShape` | src/source/kafka.rs:343-352 | After a join, in flight and completed still split the window, completions still stand for their batches, and only the joined batch and waiting ones were committed |
| `SourceLoop.ReapBudget` | src/source/kafka.rs:346-346 | The subtraction frees the batch's bytes and truncates only after a saturation |
| `SourceLoop.ReapInv` | src/source/kafka.rs:343-358 | A successful join keeps the loop invariant and loses no event |
| `SourceLoop.RunInv` | src/source/kafka.rs:281-375 | Over every run: the window is the disjoint union of in flight and completed, batches hold 1 to batch_size events, and the messages consumed are batches 0, 1, 2, ... followed by pending |
| `SourceLoop.BatchesFillUp` | src/source/kafka.rs:363-374 | Over every run a message completes a batch exactly when it is the batch_size-th, the timer closes the pending batch, and a join touches neither |
| `SourceLoop.CommittedSums` | src/source/kafka.rs:302-304 | The committed event and byte sums are those of the events in the committed prefix of batches |
| `SourceLoop.NeverWedges` | src/source/kafka.rs:293-294 | In every reachable state under a validated configuration there is a batch to reap or room to consume |
| `SourceLoop.InFlightCeilings` | docs/PERFORMANCE.md:297-297 | At most max_in_flight_batches in flight; the byte counter and the pending batch stay below the budget plus the largest batch, and so do the bytes really held as long as their total has always fitted the counter |
| `SourceLoop.CounterExact` | src/source/kafka.rs:305-305 | The byte counter is the exact total in every state of a run if and only if that total always fits its width, and if and only if no addition saturated |
| `SourceLoop.DispatchExact` | src/source/kafka.rs:305-305 | From an exact counter, a dispatch leaves it exact if and only if the addition fits its width |
| `SourceLoop.CounterExactWithinBudget` | src/config.rs:424-429 | The counter is exact all along a run whose budget plus largest batch fits its width |
| `SourceLoop.CounterSaturates` | src/source/kafka.rs:305-305 | A run under accepted settings in which the counter ends below the true total |
| `SourceLoop.CeilingExact` | docs/PERFORMANCE.md:297-297 | Every possible next batch stays below the documented ceiling if and only if the bytes in flight are below the budget |
| `SourceLoop.CeilingOutgrown` | docs/PERFORMANCE.md:297-297 | A run under accepted settings that ends with more bytes in flight than the documented ceiling |
| `SourceLoop.KafkaSource.constructor` | src/source/kafka.rs:275-286 | The loop starts in the start state, which satisfies the invariant |
| `SourceLoop.KafkaSource.DispatchPending` | src/source/kafka.rs:298-326 | The pending events become the next batch, and the completion carries that batch's offsets and sizes |
| `SourceLoop.KafkaSource.OnMessage` | src/source/kafka.rs:365-374 | The receive arm refines the specification and keeps the invariant |
| `SourceLoop.KafkaSource.OnTimer` | src/source/kafka.rs:363-363 | The linger arm refines the specification and keeps the invariant |
| `SourceLoop.KafkaSource.OnJoined` | src/source/kafka.rs:343-358 | The join arm refines the specification; unless a commit was refused the invariant stays and `processed` is the number of events in the committed prefix of batches |
| `Acknowledgement.ApplyConsistent` | src/topology.rs:46-66 | Every flag swap and every locked update keeps `remaining` equal to the branches not yet counted, never below zero |
| `Acknowledgement.RunConsistent` | src/topology.rs:46-66 | Over every schedule the invariant holds and each branch carries what its first completion said |
| `Acknowledgement.VerdictIsUnanimity` | src/topology.rs:46-112 | Over every order of delivered, failed and drop: at most one verdict, sent exactly when all branches are counted, true if and only if each branch was first completed with true; the sender is gone if and only if it has sent, so the closed-channel arm is never taken |
| `Acknowledgement.AckState.constructor` | src/topology.rs:85-89 | All branches outstanding, the sender in place |
| `Acknowledgement.BranchAck.constructor` | src/topology.rs:94-97 | A branch starts uncompleted on its shared state |
| `Acknowledgement.BranchAck.Complete` | src/topology.rs:47-59 | Only the first call counts the branch; a later one changes nothing |
| `Acknowledgement.BranchAck.Drop` | src/topology.rs:62-66 | Dropping an uncompleted branch counts it as refused, and a completed one not at all |
| `Fabric.CallSizes` | src/sink/mod.rs:153-171 | The event and byte sums of a group are those of the events in the batches it hands over |
| `Fabric.AbandonOk` | src/topology.rs:99-106 | A failed or aborted send refuses exactly the branches it had not handed over and claims no delivery |
| `Fabric.ConcludeOk` | src/topology.rs:106-111 | A finished send succeeded if and only if every branch was counted as delivered, trivially so without destinations |
| `Fabric.DispatchInv` | src/source/kafka.rs:315-324 | A new fan-out disturbs nothing that is on its way |
| `Fabric.WeakenInv` | src/topology.rs:106-111 | Task outcomes may change as long as nobody waits less or claims more |
| `Fabric.EnqueueInv` | src/topology.rs:91-105 | After a send the envelope is in exactly one place and its branch waits for it |
| `Fabric.VerdictCovered` | src/sink/mod.rs:195-201 | A delivered verdict goes only to an envelope whose batch is in a successful write |
| `Fabric.VerdictInv` | src/sink/mod.rs:200-206 | A verdict finds its branch still waiting, so no branch is counted twice, and keeps the fabric invariant |
| `Fabric.SinkStepInv` | src/sink/mod.rs:139-220 | Every step of a sink keeps the fabric invariant |
| `Fabric.DeliveredEverywhere` | src/topology.rs:80-112 | A delivered batch has been written by every sink |
| `SinkRuntime.StepHeld` | src/sink/mod.rs:139-220 | A step gives a verdict to at most one envelope it held, and otherwise keeps what it holds |
| `SinkRuntime.StepInv` | src/sink/mod.rs:139-220 | Every step of the sink task keeps the sink invariant |
| `SinkRuntime.RunInv` | src/sink/mod.rs:118-221 | The sink invariant holds over every run |
| `SinkRuntime.SettledExactlyOnce` | src/sink/mod.rs:139-220 | At every moment of every exit path arrived = held + acknowledged + refused as multisets, so nothing is lost or settled twice, and only envelopes of a successful write are acknowledged |
| `SinkRuntime.RestSettlesAll` | src/sink/mod.rs:139-220 | A sink with no step of its own left, returned or waiting, has acknowledged or refused everything that ever arrived, each envelope once |
| `SinkRuntime.RestHoldsNothing` | src/sink/mod.rs:139-220 | Such a sink holds no envelope, and has returned or waits with no write open |
| `SinkRuntime.GivingUpIsFatal` | src/sink/mod.rs:72-77 | A sink still in its accept loop has not got past a given-up group |
| `SinkRuntime.GroupsFollowTheQueue` | src/sink/mod.rs:153-189 | Groups are consecutive segments of the receive order, each with an event sum below max_events and a byte sum below max_bytes without its last envelope; open writes fit the slots; with one slot the calls follow queue order |
| `SinkRuntime.CountersConserved` | src/sink/mod.rs:194-206 | With no write open, events out plus dropped equal the events acknowledged, and batches, errors and retries equal the groups written, given up and the other calls |
| `SinkRuntime.CountersFollowSteps` | src/sink/mod.rs:197-199 | Written, dropped and batch counters are the sums of what the successful writes of the run reported, each its own; retries and errors together are the failed calls |
| `SinkRuntime.GivesUpAtTheLimit` | src/sink/mod.rs:85-105 | Over every run no group is called more than max_attempts times, and a failed call is a retry before that and gives the group up exactly then |
| `SinkRuntime.ShutdownDrains` | src/sink/mod.rs:211-220 | Unless a group was given up, a returned sink has finished every write it dispatched and acknowledged exactly the envelopes in them |
| `SinkRuntime.LoopIsWhere` | src/sink/mod.rs:141-177 | Where the loop stands when it receives, dispatches, joins, leaves its accept loop or returns |
| `SinkRuntime.CollectsPrefix` | src/sink/mod.rs:158-172 | Any prefix of the queue under both limits without its last envelope, so whatever `Coalesce` takes, is collected by receive steps of the loop |
| `SinkRuntime.QueueIsBounded` | src/topology.rs:148-148 | The queue never exceeds the channel's capacity |
| `SinkRuntime.NeverStuck` | src/sink/mod.rs:139-220 | A sink holding an envelope can always take a step of its own, without an arrival, a shutdown or a dropped queue |
| `SinkRuntime.Coalesce` | src/sink/mod.rs:153-172 | The loop takes a prefix of what arrives; without its last envelope its event sum is below max_events and its byte sum below max_bytes; it leaves an arrival behind only when one of the sums has reached its limit |
| `Retry.RuntimeSettings` | src/config.rs:242-251 | Both counts are at least one and otherwise as configured; the backoffs are as configured |
| `Retry.BackoffDoubles` | src/sink/mod.rs:99-99 | Doubling and capping the wait moves the closed form on by one attempt |
| `Retry.BackoffValidated` | src/config.rs:410-412 | Under a validated configuration the wait after attempt k is min(initial * 2^(k-1), max), the first one included |
| `Retry.WriteWithRetry` | src/sink/mod.rs:78-108 | The first success within the limit or the last error; every earlier attempt failed; retries, errors and each wait in closed form; total waiting at most (attempts - 1) * max |
| `Tracker.StepInv` | src/sink/kafka.rs:55-73 | Every atomic action of any settler or of the writer keeps the tracker invariant |
| `Tracker.RunInv` | src/sink/kafka.rs:155-215 | The tracker invariant holds over every interleaving |
| `Tracker.NoErrorIsLost` | src/sink/kafka.rs:155-215 | The write returns Ok if and only if the producer took all records and no report of the run carried an error, fails as an enqueue if and only if a record was not taken, and otherwise returns a reported error, the first to swap the flag, leaving the slot empty; the count stays within range and the signal fires at most once |
| `Tracker.ErrorVisibleAtSignal` | src/sink/kafka.rs:55-73 | When the signal has fired, the error slot is filled if and only if some report of the run carried an error |
| `Tracker.WriterIsWoken` | src/sink/kafka.rs:200-206 | Once all reports are settled, a failed enqueue's own settle included, the waiting writer can return |
| `Tracker.RunIsBounded` | src/sink/kafka.rs:155-215 | No interleaving of a write of n records has more than 6n + 7 actions |
| `Tracker.EveryWriteReturns` | src/sink/kafka.rs:155-215 | Every interleaving that cannot go on ends, within that bound, with the write returned and every report in |
| `Tracker.BatchTracker.constructor` | src/sink/kafka.rs:43-52 | All records remaining, no error, the sender in place |
| `Tracker.BatchTracker.Settle` | src/sink/kafka.rs:55-73 | One undisturbed call is the composition of the interleaved actions |
| `Tracker.BatchTracker.TakeError` | src/sink/kafka.rs:75-80 | Returns the stored error and empties the slot only |
| `Arena.CopyAmortised` | src/event.rs:98-109 | Each copy keeps the account that two consecutive chunks hold more than one chunk's worth |
| `Arena.AllocationsAreAmortised` | src/event.rs:68-110 | For every sequence of copies, n >= 2 allocations mean (n / 2) times the requested chunk size is less than the bytes copied |
| `Events.BatchBytesIs` | src/event.rs:27-46 | A batch's bytes are its structs plus the bytes of all its keys and payloads |
| `Arena.BatchBuffer.constructor` | src/event.rs:90-95 | The requested chunk size, raised to one if it was zero; no chunk, no views |
| `Arena.BatchBuffer.Reserve` | src/event.rs:104-106 | A new chunk of max(chunk, n) bytes exactly when the rest is too small; no view changes |
| `Arena.BatchBuffer.Write` | src/event.rs:107-107 | Writing above the views changes none of them |
| `Arena.BatchBuffer.Split` | src/event.rs:108-108 | The written bytes become a view and the write position moves past them |
| `Arena.BatchBuffer.CopyIn` | src/event.rs:98-109 | The view reads the source, all earlier views still read their own bytes, no two views overlap, and the cost is that of the cost model |
| `Utf8.DecodeEncode` | src/sink/clickhouse/json.rs:171-174 | Decoding undoes `encode_utf8` for every scalar value |
| `Utf8.Examples` | src/sink/clickhouse/json.rs:171-174 | The encodings of RFC 3629's own examples |
| `Json.StructuralBytes` | src/sink/clickhouse/json.rs:153-153 | The reader's structural characters and whitespace have the code points of RFC 8259 section 2 |
| `Json.EscapeTable` | src/sink/clickhouse/json.rs:153-153 | The reader's eight short escapes are those of RFC 8259 section 7 |
| `JsonRow.EscapeForm` | src/sink/clickhouse/json.rs:162-175 | Which characters get a two-byte escape, which a lower-case `\u` escape, and which are written as they are |
| `JsonRow.EscapingRoundTrip` | src/sink/clickhouse/json.rs:158-178 | For every text and every suffix, a reader gets back exactly the text and continues exactly at the suffix |
| `JsonRow.QuotedPrintable` | src/sink/clickhouse/json.rs:158-178 | The escaped text has no raw control character |
| `JsonRow.ItoaRoundTrip` | src/sink/clickhouse/json.rs:149-151 | Every integer prints as a JSON number that reads back as itself, with a sign exactly when it is negative |
| `JsonRow.RowBuffer.WriteJsonString` | src/sink/clickhouse/json.rs:158-178 | Appends the quoted, escaped text |
| `JsonRow.RowBuffer.WriteField` | src/sink/clickhouse/json.rs:134-147 | Appends name, colon and value |
| `JsonRow.RowBuffer.Separate` | src/sink/clickhouse/json.rs:96-103 | A comma before everything but the first part |
| `JsonRow.RowBuffer.WriteMetadata` | src/sink/clickhouse/json.rs:104-123 | Appends one field per configured column, in the order topic, partition, offset, timestamp, key, each with its configured name and the event's own value, joined by commas |
| `JsonRow.RowBuffer.WriteRow` | src/sink/clickhouse/json.rs:81-132 | Appends exactly one row for an accepted payload, with those fields in front; on a rejection leaves the buffer alone and says why |
| `Json.LexLine` | src/sink/clickhouse/json.rs:130-130 | The newline that ends a row separates tokens whatever precedes it, even a string left open |
| `JsonMeaning.RowMeaning` | src/sink/clickhouse/json.rs:95-131 | For all fields and bodies the row is an object exactly when the braced body is one, with the metadata in order and then the body's members |
| `JsonMeaning.PayloadMeaning` | src/sink/clickhouse/json.rs:57-76 | The payload means what its braced, trimmed body means, except that it is invalid if a form feed was trimmed |
| `JsonMeaning.ValidIsAccepted` | src/sink/clickhouse/json.rs:57-66 | The check at the two ends turns no valid object away |
| `JsonMeaning.ObjectBodyCases` | src/sink/clickhouse/json.rs:57-76 | A blank payload is refused as empty; one that is a body in braces with only ASCII whitespace around and inside them is accepted with exactly that body; every other one is refused as no object |
| `JsonMeaning.SplicePreservesMeaning` | src/sink/clickhouse/json.rs:57-132 | For every payload that is an object and all metadata fields, the row is an object with the metadata in order followed by the payload's own members |
| `JsonMeaning.FormFeedIsRepaired` | src/sink/clickhouse/json.rs:68-76 | A payload that is no JSON because of a form feed is accepted and gives a valid row |
| `JsonMeaning.RowNewlines` | src/sink/clickhouse/json.rs:78-132 | Metadata adds no newline: a row has one more than its body |
| `JsonMeaning.TwoLineRow` | src/sink/clickhouse/json.rs:78-78 | A payload with a line break between tokens gives a row of two lines |
| `JsonRows.TallyIs` | src/sink/clickhouse/mod.rs:123-131 | Every event is written or dropped, and the refusal kept is the first |
| `JsonRows.BuildRows` | src/sink/clickhouse/mod.rs:118-131 | The buffer holds the accepted rows in order; `written` is the number of events whose payload has an object body, `dropped` the rest; the remembered refusal is the reason and offset of the first event without one, and none exactly if there is no such event |
| `JsonStream.EventRowMeaning` | src/sink/clickhouse/mod.rs:123-131 | An event whose payload is an object is written; the row's leading members are the configured columns in the order topic, partition, offset, timestamp, key, each with its name and the event's own value as the reader sees it, and the rest are the payload's |
| `JsonStream.RowsAreIndependent` | src/sink/clickhouse/mod.rs:123-131 | Whatever the payloads hold, the buffer reads as its rows read one by one, and is unreadable exactly when one of them is |
| `JsonStream.BufferMeaning` | src/sink/clickhouse/mod.rs:116-131 | The buffer is exactly one object per accepted event, in order, if and only if every accepted body is an object |
| `JsonStream.TwoObjectsInOneRow` | src/sink/clickhouse/json.rs:57-66 | A payload of two objects passes the check and its one row reads as two |

## Left out

- Foreign clients: librdkafka, the ClickHouse client and `ClientConfig` construction are steps that may succeed or fail; what a failed write leaves at its destination is not tracked.
- Time: clocks, linger deadlines and the bias of `select!` are steps that may fire at any moment, so nothing is said about how long anything takes.
- Partition reassignment within a session and log retention are not modelled; the router does not handle the first.
- Order of batches at a sink relative to the source is not established by the code, so nothing is claimed about it.
- A bound on the map of completed batches: the in-flight limits do not give one.
- Integer widths other than the byte counter's: offsets, sequence numbers, event counts and durations are unbounded.
- `String::from_utf8_lossy` is an arbitrary function parameter applied to the key; topic and column names are text already.
- Surrogate pairs: an escaped surrogate in a payload stays a unit of its own in the reader's text.
- Typed `RowBinary` writing, identifier escaping, TOML parsing, the rest of `Config::validate`, metrics and the HTTP server would only add easy members.
- `TopicCache` and `ThroughputReporter` are a cache and a log line; the component id of an event is left out with them.
- `topology::run`: task spawning and signal handling; a sink's shutdown is a step that may come at any time.
- Protocol.HaltInv: aborting the fan-outs in flight is one step with the source's return, while a task on another worker may hand over one more envelope before it sees the abort; nothing is committed after a stop, so no result depends on it.
- Protocol.StepInv: a branch's flag swap and its locked update are one step there; their interleavings are covered by Acknowledgement alone.
- SinkRuntime.StepInv: the sink's run loop and its spawned writes are a step machine on values rather than a method, because they run concurrently; the coalescing and retry loops are also methods.
- SinkRuntime.CountersConserved: a successful write is taken to report written + dropped equal to its events, as the Kafka and JSON sinks do.
- Tracker.NoErrorIsLost: a write of no records returns before a tracker exists and is not part of the step machine; the error kept by a failed enqueue is one value, without its message.
- Retry.WriteWithRetry: the sink's answers are a function of the attempt number, and the doubling of a duration cannot overflow.
- Arena.BatchBuffer.CopyIn: chunks are never freed, so residency of a chunk until its last view drops is not stated.
