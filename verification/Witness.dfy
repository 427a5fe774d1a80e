/**
 * A complete run: one record is consumed, written by a sink, acknowledged and committed. The
 * theorems about executions are therefore about something.
 */
module Witness {
  import opened Events
  import opened Offsets
  import opened Wrappers
  import Commit
  import Source = SourceLoop
  import Sink = SinkRuntime
  import Ack = Acknowledgement
  import opened Fabric
  import opened Protocol
  import opened Delivery

  const TP := TopicPartition([], 0)

  const RECORD := Event(None, [], None, TP, 0)

  const CONFIG := Protocol.Config(Source.Config(1, 1, 1), [Sink.Config(1, 1, 1, 1, 1)])

  /** A run under this configuration has reached `w`. */
  ghost predicate ReachableIn(c: Protocol.Config, w: World) {
    exists steps, worlds :: Execution(c, steps, worlds) && worlds[|steps|] == w
  }

  ghost predicate Reachable(w: World) {
    ReachableIn(CONFIG, w)
  }

  lemma ExtendIn(c: Protocol.Config, w: World, st: Step, v: World)
    requires ReachableIn(c, w) && Leads(c, w, st, v)
    ensures ReachableIn(c, v)
  {
    var steps, worlds :| Execution(c, steps, worlds) && worlds[|steps|] == w;
    ExtendExecution(c, steps, worlds, st, v);
    assert (worlds + [v])[|steps + [st]|] == v;
  }

  lemma Extend(w: World, st: Step)
    requires Reachable(w) && Enabled(CONFIG, w, st)
    ensures Reachable(Protocol.Apply(CONFIG, w, st))
  {
    ExtendIn(CONFIG, w, st, Protocol.Apply(CONFIG, w, st));
  }

  // ----- the states the run goes through

  const BATCH := [RECORD]
  const ENVELOPE := Sink.Envelope(0, 1, STRUCT_BYTES)
  const GROUP := [ENVELOPE]

  function InSession(written: seq<seq<Batch>>, task: Task, sink: Sink.State): World {
    World({RECORD}, {}, [written],
      Session(map[], map[TP := 1], Source.State([], 1, [BATCH], {0}, STRUCT_BYTES, Commit.EMPTY, false), false,
        [task], [sink]))
  }

  const SENT := Task(Ack.Start(1), {0}, Running)

  lemma BatchSizes()
    ensures BatchBytes(BATCH) == STRUCT_BYTES && EnvelopeOf([BATCH], 0) == ENVELOPE
    ensures Sink.EventCount(GROUP) == 1 && BatchesOf([BATCH], GROUP) == [BATCH]
  {
    assert BATCH[..0] == [] && GROUP[..0] == [];
  }

  /** The record is appended and consumed; the batch is full at once. */
  lemma Consumes(w: World)
    requires Init(CONFIG, w)
    ensures Enabled(CONFIG, w, Append(RECORD))
    ensures var v := Protocol.Apply(CONFIG, w, Append(RECORD));
      Enabled(CONFIG, v, Protocol.Receive(RECORD)) &&
      Protocol.Apply(CONFIG, v, Protocol.Receive(RECORD)) == InSession([], NewTask(1), Sink.START)
  {
    BatchSizes();
    var v := Protocol.Apply(CONFIG, w, Append(RECORD));
    assert w.session.sinks == [Sink.START];
    assert [] + [RECORD] == BATCH;
    assert [] + [BATCH] == [BATCH];
    assert {} + {0} == {0};
    assert {} + {RECORD} == {RECORD};
    assert w.written == [[]];
    assert IsNext(v, RECORD);
  }

  /** The envelope reaches the sink's queue. */
  lemma Enqueues()
    ensures var w := InSession([], NewTask(1), Sink.START);
      Enabled(CONFIG, w, Enqueue(0, 0)) &&
      Protocol.Apply(CONFIG, w, Enqueue(0, 0)) == InSession([], SENT, QUEUED)
  {
    BatchSizes();
    assert {} + {0} == {0} && [] + [ENVELOPE] == GROUP;
  }

  const QUEUED := Sink.START.(queue := GROUP, arrived := GROUP)

  const TAKEN := QUEUED.(queue := [], received := GROUP, group := GROUP, phase := Sink.Coalescing)

  const READY := TAKEN.(phase := Sink.WaitingSlot)

  const WRITE := Sink.Write(0, GROUP, 0, Sink.Attempting(1))

  const WRITING := TAKEN.(group := [], phase := Sink.Accepting, writes := [WRITE], dispatched := [GROUP])

  const WRITTEN := WRITING.(writes := [WRITE.(progress := Sink.Settling(true))], calls := [0],
    successes := [GROUP], counters := Sink.Counters(1, 0, 1, 0, 0))

  const ACKED := WRITTEN.(writes := [WRITE.(progress := Sink.Settling(true), settled := 1)], acked := GROUP)

  /** The sink's own steps: receive, close the group, dispatch, write and acknowledge. */
  lemma SinkWrites()
    ensures var c := CONFIG.sinks[0];
      && Sink.Enabled(c, QUEUED, Sink.Receive) && Sink.Apply(c, QUEUED, Sink.Receive) == TAKEN
      && Sink.Enabled(c, TAKEN, Sink.CloseGroup)
      && Sink.Apply(c, TAKEN, Sink.CloseGroup) == READY
      && Sink.Enabled(c, READY, Sink.Dispatch) && Sink.Apply(c, READY, Sink.Dispatch) == WRITING
      && Sink.Enabled(c, WRITING, Sink.AttemptOk(0, 1, 0)) && Sink.Apply(c, WRITING, Sink.AttemptOk(0, 1, 0)) == WRITTEN
      && Sink.Enabled(c, WRITTEN, Sink.Settle(0)) && Sink.Apply(c, WRITTEN, Sink.Settle(0)) == ACKED
  {
    BatchSizes();
  }

  lemma SinkStepReaches(written: seq<seq<Batch>>, task: Task, s: Sink.State, st: Sink.Step)
    requires Reachable(InSession(written, task, s)) && Sink.Enabled(CONFIG.sinks[0], s, st) && !st.Arrive?
    ensures var effect := Sink.EffectOf(CONFIG.sinks[0], s, st);
      Reachable(InSession(WrittenAfter([BATCH], [written], 0, effect)[0], TasksAfter([task], 0, effect)[0],
        Sink.Apply(CONFIG.sinks[0], s, st)))
  {
    var w, effect := InSession(written, task, s), Sink.EffectOf(CONFIG.sinks[0], s, st);
    Extend(w, SinkStep(0, st));
    var history := WrittenAfter([BATCH], [written], 0, effect);
    assert [written][0 := history[0]] == history;
    assert Protocol.Apply(CONFIG, w, SinkStep(0, st)) ==
      InSession(WrittenAfter([BATCH], [written], 0, effect)[0], TasksAfter([task], 0, effect)[0],
        Sink.Apply(CONFIG.sinks[0], s, st));
  }

  const COUNTED := SENT.(fan := Ack.Fan([Ack.Counted(true)], Ack.Shared(0, true, false, [true])))

  const DELIVERED := COUNTED.(outcome := Delivered)

  lemma Counts()
    ensures TasksAfter([SENT], 0, Sink.Verdict(ENVELOPE, true)) == [COUNTED]
    ensures CanConclude(COUNTED) && Conclude(COUNTED) == DELIVERED
  {
    assert SENT.fan.branches == [Ack.Open];
    var claimed := Ack.Apply(SENT.fan, Ack.Swap(0, true));
    assert claimed.branches == [Ack.Claimed(true)];
    assert Ack.Apply(claimed, Ack.Enter(0)) == COUNTED.fan by {
      assert [] + [true] == [true];
    }
    assert Complete(SENT.fan, 0, true) == COUNTED.fan;
    assert [SENT][0 := COUNTED] == [COUNTED];
  }

  lemma SinkReaches()
    requires Reachable(InSession([], SENT, QUEUED))
    ensures Reachable(InSession([[BATCH]], COUNTED, ACKED))
  {
    SinkCollects();
    WriteReaches();
    SinkWrites();
    Counts();
    SinkStepReaches([[BATCH]], SENT, WRITTEN, Sink.Settle(0));
  }

  lemma SinkCollects()
    requires Reachable(InSession([], SENT, QUEUED))
    ensures Reachable(InSession([], SENT, WRITING))
  {
    SinkWrites();
    SinkStepReaches([], SENT, QUEUED, Sink.Receive);
    SinkStepReaches([], SENT, TAKEN, Sink.CloseGroup);
    SinkStepReaches([], SENT, READY, Sink.Dispatch);
  }

  lemma WriteReaches()
    requires Reachable(InSession([], SENT, WRITING))
    ensures Reachable(InSession([[BATCH]], SENT, WRITTEN))
  {
    SinkWrites();
    BatchSizes();
    SinkStepReaches([], SENT, WRITING, Sink.AttemptOk(0, 1, 0));
    assert [] + [[BATCH]] == [[BATCH]];
  }

  lemma BatchOffsets()
    ensures NextOffsets(BATCH) == [Entry(TP, 1)]
  {
    assert BATCH[..0] == [] && NextOffsets([]) == [];
    assert Find([], TP) == 0;
  }

  /** The log's record was in a successful write of the sink, which then acknowledged it. */
  ghost predicate Completed(w: World) {
    && RECORD in w.log
    && w.written == [[[BATCH]]]
    && |w.session.sinks| == 1 && w.session.sinks[0].acked == GROUP
    && |w.session.tasks| == 1 && w.session.tasks[0].outcome.Delivered?
  }

  /** Joining the delivered batch commits its offset. */
  lemma Commits()
    ensures var w := InSession([[BATCH]], DELIVERED, ACKED);
      && Enabled(CONFIG, w, Join(0, {}))
      && Entry(TP, 1) in Protocol.Apply(CONFIG, w, Join(0, {})).requested
      && Completed(Protocol.Apply(CONFIG, w, Join(0, {})))
  {
    var src := InSession([[BATCH]], DELIVERED, ACKED).session.source;
    var done := Source.CompletionOf(src.batches, 0);
    BatchOffsets();
    var l := Commit.EMPTY.(completed := map[0 := done]);
    assert Commit.EMPTY.completed[0 := done] == map[0 := done];
    assert l.completed - {0} == map[];
    assert Commit.Drain(l, {}).ledger.commits == [done];
    assert done in Source.Reap(src, 0, {}).state.ledger.commits;
    assert Entry(TP, 1) in done.offsets;
  }

  lemma Starts()
    ensures Reachable(InSession([], SENT, QUEUED))
  {
    var w := World({}, {}, seq(1, _ => []), NewSession(CONFIG, map[]));
    assert Execution(CONFIG, [], [w]) && [w][0] == w;
    Consumes(w);
    Extend(w, Append(RECORD));
    Extend(Protocol.Apply(CONFIG, w, Append(RECORD)), Protocol.Receive(RECORD));
    Enqueues();
    Extend(InSession([], NewTask(1), Sink.START), Enqueue(0, 0));
  }

  lemma Concludes()
    requires Reachable(InSession([[BATCH]], COUNTED, ACKED))
    ensures Reachable(InSession([[BATCH]], DELIVERED, ACKED))
  {
    var x := InSession([[BATCH]], COUNTED, ACKED);
    Counts();
    Extend(x, ConcludeTask(0));
    assert Protocol.Apply(CONFIG, x, ConcludeTask(0)) == InSession([[BATCH]], DELIVERED, ACKED);
  }

  lemma CommitReaches(w: World)
    requires w == InSession([[BATCH]], DELIVERED, ACKED) && Reachable(w)
    ensures exists v :: Reachable(v) && Completed(v) && Entry(TP, 1) in v.requested
  {
    Commits();
    Extend(w, Join(0, {}));
  }

  /** There is an execution in which a record is written, acknowledged and its commit requested. */
  lemma SomeRunCommits()
    ensures Protocol.Validated(CONFIG)
    ensures exists w :: Reachable(w) && Completed(w) && Entry(TP, RECORD.offset + 1) in w.requested
  {
    Starts();
    SinkReaches();
    Concludes();
    CommitReaches(InSession([[BATCH]], DELIVERED, ACKED));
  }
}
