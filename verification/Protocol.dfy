/**
 * The whole router over any number of process lifetimes: broker log, source, fan-out, sinks,
 * commits and restarts, one atomic step at a time.
 *
 * What is assumed of the broker: records are appended with growing offsets per partition; a
 * session receives each partition's records from its resume offset on, in order and without
 * skipping any; the partitions stay assigned for the session; and a restart resumes each
 * partition at an offset whose commit was requested, or at the start of the log.
 */
module Protocol {
  import opened Events
  import opened Offsets
  import Commit
  import Source = SourceLoop
  import Sink = SinkRuntime
  import opened Fabric

  datatype Config = Config(source: Source.Config, sinks: seq<Sink.Config>)

  predicate Validated(c: Config) {
    && Source.Validated(c.source)
    && forall k :: 0 <= k < |c.sinks| ==> Sink.Validated(c.sinks[k])
  }

  /** One process lifetime. `position` is the next offset the consumer will look for. */
  datatype Session = Session(
    resume: map<TopicPartition, int>,
    position: map<TopicPartition, int>,
    source: Source.State,
    stopped: bool,
    tasks: seq<Task>,
    sinks: seq<Sink.State>)

  /**
   * The broker's log, every commit ever requested, the successful `write_batches` calls of each
   * sink over all lifetimes, and the current session.
   */
  datatype World = World(
    log: set<Event>,
    requested: set<Entry>,
    written: seq<seq<seq<Batch>>>,
    session: Session)

  function At(m: map<TopicPartition, int>, tp: TopicPartition): int {
    if tp in m then m[tp] else 0
  }

  function NewSession(c: Config, resume: map<TopicPartition, int>): Session {
    Session(resume, resume, Source.START, false, [], seq(|c.sinks|, _ => Sink.START))
  }

  ghost predicate Init(c: Config, w: World) {
    && w.log == {} && w.requested == {}
    && w.written == seq(|c.sinks|, _ => [])
    && w.session == NewSession(c, map[])
  }

  datatype Step =
    | Append(event: Event)
    | Receive(event: Event)
    | Linger
    | Enqueue(batch: nat, sink: nat)
    | SendFails(batch: nat, sink: nat)
    | SinkStep(sink: nat, step: Sink.Step)
    | ConcludeTask(batch: nat)
    | Join(batch: nat, refused: set<nat>)
    | JoinFailed(batch: nat)
    | Stop
    | Restart(resume: map<TopicPartition, int>)

  /** `e` is the first record of its partition at or after the consumer's position. */
  ghost predicate IsNext(w: World, e: Event) {
    && e in w.log
    && At(w.session.position, e.tp) <= e.offset
    && forall r :: r in w.log && r.tp == e.tp && At(w.session.position, e.tp) <= r.offset ==> e.offset <= r.offset
  }

  ghost predicate CanSend(s: Session, b: nat, k: nat) {
    && b < |s.tasks| && b < |s.source.batches| && k < |s.sinks|
    && s.tasks[b].outcome.Running? && k !in s.tasks[b].sent
  }

  ghost predicate Enabled(c: Config, w: World, st: Step) {
    var s := w.session;
    match st
    case Append(e) => e.offset >= 0 && forall r :: r in w.log && r.tp == e.tp ==> r.offset < e.offset
    case Receive(e) => !s.stopped && Source.CanReceive(c.source, s.source) && IsNext(w, e)
    case Linger => !s.stopped && Source.CanLinger(c.source, s.source)
    case Enqueue(b, k) =>
      CanSend(s, b, k) && k < |c.sinks|
      && Sink.Enabled(c.sinks[k], s.sinks[k], Sink.Arrive(EnvelopeOf(s.source.batches, b)))
    case SendFails(b, k) => CanSend(s, b, k) && s.sinks[k].phase.Closed?
    case SinkStep(k, st) =>
      k < |s.sinks| && k < |c.sinks| && k < |w.written| && !st.Arrive? && Sink.Enabled(c.sinks[k], s.sinks[k], st)
    case ConcludeTask(b) => b < |s.tasks| && CanConclude(s.tasks[b])
    case Join(b, _) =>
      !s.stopped && b in s.source.inFlight && b < |s.tasks| && b < |s.source.batches|
      && s.tasks[b].outcome.Delivered?
    case JoinFailed(b) => !s.stopped && b in s.source.inFlight && b < |s.tasks| && s.tasks[b].outcome.Failed?
    case Stop => !s.stopped
    case Restart(resume) => forall tp :: tp in resume ==> Entry(tp, resume[tp]) in w.requested
  }

  /** The source's new state, with a task spawned for the batch it may have dispatched. */
  function Feed(c: Config, s: Session, source: Source.State): Session {
    s.(source := source,
       tasks := if |source.batches| > |s.tasks| then s.tasks + [NewTask(|c.sinks|)] else s.tasks)
  }

  /** The source returns: its in-flight tasks are aborted and nothing more is committed. */
  function Halt(s: Session): Session {
    s.(stopped := true, tasks := seq(|s.tasks|, b requires 0 <= b < |s.tasks| => AbortTask(s.tasks[b])))
  }

  function Entries(cs: seq<Commit.Completion>): set<Entry> {
    set c, x | c in cs && x in c.offsets :: x
  }

  function SinkMoves(c: Config, w: World, k: nat, st: Sink.Step): World
    requires k < |w.session.sinks| && k < |c.sinks| && k < |w.written|
    requires Sink.Enabled(c.sinks[k], w.session.sinks[k], st)
  {
    var s := w.session;
    var effect := Sink.EffectOf(c.sinks[k], s.sinks[k], st);
    w.(written := WrittenAfter(s.source.batches, w.written, k, effect),
       session := s.(sinks := s.sinks[k := Sink.Apply(c.sinks[k], s.sinks[k], st)],
                     tasks := TasksAfter(s.tasks, k, effect)))
  }

  ghost function Apply(c: Config, w: World, st: Step): World
    requires Enabled(c, w, st)
  {
    var s := w.session;
    match st
    case Append(e) => w.(log := w.log + {e})
    case Receive(e) =>
      w.(session := Feed(c, s, Source.Receive(c.source, s.source, e))
           .(position := s.position[e.tp := e.offset + 1]))
    case Linger => w.(session := Feed(c, s, Source.Dispatch(s.source)))
    case Enqueue(b, k) =>
      w.(session := s.(
        tasks := s.tasks[b := s.tasks[b].(sent := s.tasks[b].sent + {k})],
        sinks := s.sinks[k := Sink.Apply(c.sinks[k], s.sinks[k], Sink.Arrive(EnvelopeOf(s.source.batches, b)))]))
    case SendFails(b, k) => w.(session := s.(tasks := s.tasks[b := Abandon(s.tasks[b])]))
    case SinkStep(k, st) => SinkMoves(c, w, k, st)
    case ConcludeTask(b) => w.(session := s.(tasks := s.tasks[b := Conclude(s.tasks[b])]))
    case Join(b, refused) =>
      var r := Source.Reap(s.source, b, refused);
      w.(requested := w.requested + Entries(r.state.ledger.commits),
         session := if r.ok then s.(source := r.state) else Halt(s.(source := r.state)))
    case JoinFailed(b) => w.(session := Halt(s))
    case Stop => w.(session := Halt(s))
    case Restart(resume) => w.(session := NewSession(c, resume))
  }

  // ----- the invariant

  /** A record has been in a batch of some successful write of sink `k`. */
  ghost predicate Written(calls: seq<seq<Batch>>, r: Event) {
    exists batch :: r in batch && BatchWritten(calls, batch)
  }

  ghost predicate WrittenEverywhere(written: seq<seq<seq<Batch>>>, r: Event) {
    forall k :: 0 <= k < |written| ==> Written(written[k], r)
  }

  /** Everything in the log below `x` has reached every sink. */
  ghost predicate HonouredIn(log: set<Event>, written: seq<seq<seq<Batch>>>, x: Entry) {
    forall r :: r in log && r.tp == x.tp && r.offset < x.offset ==> WrittenEverywhere(written, r)
  }

  ghost predicate Honoured(w: World, x: Entry) {
    HonouredIn(w.log, w.written, x)
  }

  /** An offset that is one above some record of the log. */
  ghost predicate Anchored(log: set<Event>, tp: TopicPartition, offset: int) {
    exists r :: r in log && r.tp == tp && r.offset + 1 == offset
  }

  /** Every requested commit is honoured, and the session resumed from requested commits. */
  ghost predicate CommittedIn(
    log: set<Event>, requested: set<Entry>, written: seq<seq<seq<Batch>>>, resume: map<TopicPartition, int>)
  {
    && (forall x :: x in requested ==> HonouredIn(log, written, x) && Anchored(log, x.tp, x.offset))
    && (forall tp :: tp in resume ==> Entry(tp, resume[tp]) in requested)
  }

  ghost predicate Committed(w: World) {
    CommittedIn(w.log, w.requested, w.written, w.session.resume)
  }

  /** Offsets start at zero and name one record per partition. */
  ghost predicate LogOk(log: set<Event>) {
    && (forall r :: r in log ==> r.offset >= 0)
    && (forall r, q :: r in log && q in log && r.tp == q.tp && r.offset == q.offset ==> r == q)
  }

  ghost predicate InBatch(batches: seq<Batch>, r: Event) {
    exists b :: 0 <= b < |batches| && r in batches[b]
  }

  /** Later batches only hold later records of a partition. */
  ghost predicate Ordered(batches: seq<Batch>, pending: Batch) {
    && (forall a, b, x, y :: 0 <= a < b < |batches| && x in batches[a] && y in batches[b] && x.tp == y.tp ==>
          x.offset < y.offset)
    && (forall a, x, y :: 0 <= a < |batches| && x in batches[a] && y in pending && x.tp == y.tp ==>
          x.offset < y.offset)
  }

  ghost predicate Consumed(src: Source.State, r: Event) {
    InBatch(src.batches, r) || r in src.pending
  }

  /** Between resume and position every record of the log has been consumed, and nothing beyond. */
  ghost predicate FedIn(
    log: set<Event>, resume: map<TopicPartition, int>, position: map<TopicPartition, int>, src: Source.State)
  {
    && Ordered(src.batches, src.pending)
    && (forall r :: Consumed(src, r) ==> r in log && r.offset < At(position, r.tp))
    && (forall r :: r in log && At(resume, r.tp) <= r.offset < At(position, r.tp) ==> Consumed(src, r))
    && (forall tp :: tp in position ==> Anchored(log, tp, position[tp]))
  }

  ghost predicate Fed(w: World) {
    FedIn(w.log, w.session.resume, w.session.position, w.session.source)
  }

  /** The source's own invariant; whatever it has committed or set aside was delivered. */
  ghost predicate SourceIn(c: Config, source: Source.State, stopped: bool, tasks: seq<Task>) {
    && Source.Faithful(source)
    && (!stopped ==> Source.Inv(c.source, source))
    && |tasks| == |source.batches|
    && (forall b :: 0 <= b < |tasks| && (b < source.ledger.next || b in source.ledger.completed) ==>
          tasks[b].outcome.Delivered?)
  }

  ghost predicate SourceOk(c: Config, s: Session) {
    SourceIn(c, s.source, s.stopped, s.tasks)
  }

  ghost predicate FabricOk(c: Config, w: World) {
    Fabric.Inv(c.sinks, w.session.source.batches, w.session.tasks, w.session.sinks, w.written)
  }

  ghost predicate Inv(c: Config, w: World) {
    LogOk(w.log) && Committed(w) && Fed(w) && SourceOk(c, w.session) && FabricOk(c, w)
  }

  lemma InitInv(c: Config, w: World)
    requires Validated(c) && Init(c, w)
    ensures Inv(c, w)
  {
    FreshInv(c.sinks, w.written);
    Source.StartInv(c.source);
  }

  // ----- broker steps

  lemma AnchoredBelow(w: World, e: Event, tp: TopicPartition, offset: int)
    requires Anchored(w.log, tp, offset)
    requires forall r :: r in w.log && r.tp == e.tp ==> r.offset < e.offset
    ensures Anchored(w.log + {e}, tp, offset)
    ensures tp == e.tp ==> offset <= e.offset
  {
    var r :| r in w.log && r.tp == tp && r.offset + 1 == offset;
    assert r in w.log + {e};
  }

  lemma AppendCommitted(c: Config, w: World, e: Event)
    requires Committed(w) && Enabled(c, w, Append(e))
    ensures Committed(Apply(c, w, Append(e)))
  {
    var v := Apply(c, w, Append(e));
    forall x | x in v.requested ensures Honoured(v, x) && Anchored(v.log, x.tp, x.offset) {
      assert Honoured(w, x);
      AnchoredBelow(w, e, x.tp, x.offset);
    }
  }

  lemma AppendFed(c: Config, w: World, e: Event)
    requires Fed(w) && Enabled(c, w, Append(e))
    ensures Fed(Apply(c, w, Append(e)))
  {
    var v := Apply(c, w, Append(e));
    forall tp | tp in v.session.position ensures Anchored(v.log, tp, v.session.position[tp]) {
      AnchoredBelow(w, e, tp, v.session.position[tp]);
    }
    if e.tp in w.session.position {
      AnchoredBelow(w, e, e.tp, w.session.position[e.tp]);
    }
    assert At(w.session.position, e.tp) <= e.offset;
  }

  lemma AppendLog(log: set<Event>, e: Event)
    requires LogOk(log) && e.offset >= 0 && forall r :: r in log && r.tp == e.tp ==> r.offset < e.offset
    ensures LogOk(log + {e})
  {
  }

  lemma AppendInv(c: Config, w: World, e: Event)
    requires Inv(c, w) && Enabled(c, w, Append(e))
    ensures Inv(c, Apply(c, w, Append(e)))
  {
    AppendLog(w.log, e);
    AppendCommitted(c, w, e);
    AppendFed(c, w, e);
  }

  // ----- source steps

  lemma BatchesAppended(batches: seq<Batch>, pending: Batch, r: Event)
    ensures InBatch(batches + [pending], r) <==> InBatch(batches, r) || r in pending
  {
    var more := batches + [pending];
    if InBatch(batches, r) {
      var b :| 0 <= b < |batches| && r in batches[b];
      assert r in more[b];
    }
    if r in pending {
      assert r in more[|batches|];
    }
  }

  lemma DispatchFed(w: World, v: World)
    requires Fed(w) && v.log == w.log
    requires v.session.position == w.session.position && v.session.resume == w.session.resume
    requires v.session.source == Source.Dispatch(w.session.source)
    ensures Fed(v)
  {
    var s := w.session.source;
    DispatchOrdered(s.batches, s.pending);
    forall r ensures Consumed(v.session.source, r) <==> Consumed(s, r) {
      BatchesAppended(s.batches, s.pending, r);
    }
  }

  lemma DispatchOrdered(batches: seq<Batch>, pending: Batch)
    requires Ordered(batches, pending)
    ensures Ordered(batches + [pending], [])
  {
  }

  lemma ReceiveOrdered(w: World, e: Event)
    requires Fed(w) && IsNext(w, e)
    ensures Ordered(w.session.source.batches, w.session.source.pending + [e])
  {
    var s := w.session.source;
    forall a, x, y | 0 <= a < |s.batches| && x in s.batches[a] && y in s.pending + [e] && x.tp == y.tp
      ensures x.offset < y.offset
    {
      if y == e {
        assert Consumed(s, x);
      } else {
        assert y in s.pending;
      }
    }
  }

  lemma ReceiveAnchored(w: World, e: Event)
    requires Fed(w) && IsNext(w, e)
    ensures var position := w.session.position[e.tp := e.offset + 1];
      forall tp :: tp in position ==> Anchored(w.log, tp, position[tp])
  {
    var position := w.session.position[e.tp := e.offset + 1];
    forall tp | tp in position ensures Anchored(w.log, tp, position[tp]) {
      if tp != e.tp {
        assert Anchored(w.log, tp, w.session.position[tp]);
      }
    }
  }

  lemma ReceiveConsumed(w: World, e: Event, src: Source.State, r: Event)
    requires src == w.session.source.(pending := w.session.source.pending + [e])
    ensures Consumed(src, r) <==> Consumed(w.session.source, r) || r == e
  {
  }

  lemma ReceiveNoGap(w: World, e: Event, r: Event)
    requires LogOk(w.log) && Fed(w) && IsNext(w, e)
    requires r in w.log && At(w.session.resume, r.tp) <= r.offset
    requires r.offset < At(w.session.position[e.tp := e.offset + 1], r.tp)
    ensures Consumed(w.session.source, r) || r == e
  {
    if r.offset >= At(w.session.position, r.tp) {
      assert r.tp == e.tp && r.offset == e.offset;
    }
  }

  /** The record a session receives next extends what it has consumed, in order and without a gap. */
  lemma ReceiveFed(w: World, v: World, e: Event)
    requires LogOk(w.log) && Fed(w) && IsNext(w, e) && v.log == w.log
    requires v.session.position == w.session.position[e.tp := e.offset + 1]
    requires v.session.resume == w.session.resume
    requires v.session.source == w.session.source.(pending := w.session.source.pending + [e])
    ensures Fed(v)
  {
    var s, t := w.session, v.session;
    ReceiveOrdered(w, e);
    ReceiveAnchored(w, e);
    forall r | Consumed(t.source, r) ensures r in v.log && r.offset < At(t.position, r.tp) {
      ReceiveConsumed(w, e, t.source, r);
    }
    forall r | r in v.log && At(t.resume, r.tp) <= r.offset < At(t.position, r.tp)
      ensures Consumed(t.source, r)
    {
      ReceiveConsumed(w, e, t.source, r);
      ReceiveNoGap(w, e, r);
    }
  }

  lemma FeedSource(c: Config, s: Session, source: Source.State)
    requires SourceOk(c, s) && Source.Faithful(source) && (!s.stopped ==> Source.Inv(c.source, source))
    requires source.ledger == s.source.ledger
    requires |s.source.batches| <= |source.batches| <= |s.source.batches| + 1
    ensures SourceOk(c, Feed(c, s, source))
  {
    var t := Feed(c, s, source);
    forall b | 0 <= b < |t.tasks| && (b < source.ledger.next || b in source.ledger.completed)
      ensures t.tasks[b].outcome.Delivered?
    {
      assert b < |s.tasks| && t.tasks[b] == s.tasks[b];
    }
  }

  lemma ReceiveFabric(c: Config, w: World, e: Event)
    requires SourceOk(c, w.session) && FabricOk(c, w) && Enabled(c, w, Receive(e))
    ensures FabricOk(c, Apply(c, w, Receive(e)))
  {
    var s := w.session;
    if |s.source.pending + [e]| >= c.source.batchSize {
      DispatchInv(c.sinks, s.source.batches, s.tasks, s.sinks, w.written, s.source.pending + [e]);
    }
  }

  lemma ReceiveFeeds(c: Config, w: World, e: Event)
    requires LogOk(w.log) && Fed(w) && Enabled(c, w, Receive(e))
    ensures Fed(Apply(c, w, Receive(e)))
  {
    var s, v := w.session, Apply(c, w, Receive(e));
    var held := s.source.(pending := s.source.pending + [e]);
    var mid := v.(session := v.session.(source := held));
    ReceiveFed(w, mid, e);
    if |held.pending| >= c.source.batchSize {
      DispatchFed(mid, v);
    } else {
      assert mid == v;
    }
  }

  lemma ReceiveInv(c: Config, w: World, e: Event)
    requires Validated(c) && Inv(c, w) && Enabled(c, w, Receive(e))
    ensures Inv(c, Apply(c, w, Receive(e)))
  {
    var v := Apply(c, w, Receive(e));
    Source.ReceiveInv(c.source, w.session.source, e);
    FeedSource(c, w.session, v.session.source);
    ReceiveFabric(c, w, e);
    ReceiveFeeds(c, w, e);
    HonouredStays(w, v);
  }

  lemma LingerInv(c: Config, w: World)
    requires Validated(c) && Inv(c, w) && Enabled(c, w, Linger)
    ensures Inv(c, Apply(c, w, Linger))
  {
    var s, v := w.session, Apply(c, w, Linger);
    Source.LingerInv(c.source, s.source);
    FeedSource(c, s, v.session.source);
    DispatchFed(w, v);
    DispatchInv(c.sinks, s.source.batches, s.tasks, s.sinks, w.written, s.source.pending);
  }

  // ----- task and sink steps

  lemma HonouredStays(w: World, v: World)
    requires Committed(w) && v.log == w.log && v.requested == w.requested
    requires v.session.resume == w.session.resume
    requires |v.written| == |w.written| && forall k :: 0 <= k < |w.written| ==> w.written[k] <= v.written[k]
    ensures Committed(v)
  {
    forall r | WrittenEverywhere(w.written, r) ensures WrittenEverywhere(v.written, r) {
      forall k | 0 <= k < |v.written| ensures Written(v.written[k], r) {
        assert Written(w.written[k], r);
        var batch :| r in batch && BatchWritten(w.written[k], batch);
        BatchWrittenStays(w.written[k], v.written[k], batch);
      }
    }
    forall x | x in v.requested ensures Honoured(v, x) {
      assert Honoured(w, x);
    }
  }

  lemma SourceUntouched(c: Config, s: Session, t: Session)
    requires SourceOk(c, s) && t.source == s.source && t.stopped == s.stopped && |t.tasks| == |s.tasks|
    requires forall b :: 0 <= b < |s.tasks| ==> t.tasks[b].outcome == s.tasks[b].outcome
    ensures SourceOk(c, t)
  {
  }

  lemma EnqueueFabric(c: Config, w: World, b: nat, k: nat)
    requires Validated(c) && FabricOk(c, w) && Enabled(c, w, Enqueue(b, k))
    ensures FabricOk(c, Apply(c, w, Enqueue(b, k)))
  {
    var s, v := w.session, Apply(c, w, Enqueue(b, k));
    Fabric.EnqueueInv(c.sinks, s.source.batches, s.tasks, s.sinks, w.written, b, k);
    assert v.session.tasks == s.tasks[b := s.tasks[b].(sent := s.tasks[b].sent + {k})];
    assert v.session.sinks ==
      s.sinks[k := Sink.Apply(c.sinks[k], s.sinks[k], Sink.Arrive(EnvelopeOf(s.source.batches, b)))];
  }

  /** Only fan-outs and sinks have moved, and no fan-out has ended. */
  ghost predicate OnlyFabricMoved(w: World, v: World) {
    && v.log == w.log && v.requested == w.requested && v.written == w.written
    && v.session.resume == w.session.resume && v.session.position == w.session.position
    && v.session.source == w.session.source && v.session.stopped == w.session.stopped
    && |v.session.tasks| == |w.session.tasks|
    && forall b :: 0 <= b < |w.session.tasks| ==> v.session.tasks[b].outcome == w.session.tasks[b].outcome
  }

  lemma EnqueueMoves(c: Config, w: World, b: nat, k: nat)
    requires Enabled(c, w, Enqueue(b, k))
    ensures OnlyFabricMoved(w, Apply(c, w, Enqueue(b, k)))
  {
  }

  lemma FabricMoveInv(c: Config, w: World, v: World)
    requires Inv(c, w) && OnlyFabricMoved(w, v) && FabricOk(c, v)
    ensures Inv(c, v)
  {
    SourceUntouched(c, w.session, v.session);
  }

  lemma EnqueueInv(c: Config, w: World, b: nat, k: nat)
    requires Validated(c) && Inv(c, w) && Enabled(c, w, Enqueue(b, k))
    ensures Inv(c, Apply(c, w, Enqueue(b, k)))
  {
    EnqueueFabric(c, w, b, k);
    EnqueueMoves(c, w, b, k);
    FabricMoveInv(c, w, Apply(c, w, Enqueue(b, k)));
  }

  lemma SinkStepFabric(c: Config, w: World, k: nat, st: Sink.Step)
    requires Validated(c) && FabricOk(c, w) && Enabled(c, w, SinkStep(k, st))
    ensures FabricOk(c, SinkMoves(c, w, k, st))
  {
    var s := w.session;
    Fabric.SinkStepInv(c.sinks, s.source.batches, s.tasks, s.sinks, w.written, k, st);
  }

  lemma SinkStepOutcomes(c: Config, w: World, k: nat, st: Sink.Step)
    requires Enabled(c, w, SinkStep(k, st))
    ensures var v := SinkMoves(c, w, k, st);
      && |v.session.tasks| == |w.session.tasks| && |v.written| == |w.written|
      && (forall b :: 0 <= b < |w.session.tasks| ==> v.session.tasks[b].outcome == w.session.tasks[b].outcome)
      && (forall j :: 0 <= j < |w.written| ==> w.written[j] <= v.written[j])
  {
  }

  lemma SinkStepInv(c: Config, w: World, k: nat, st: Sink.Step)
    requires Validated(c) && Inv(c, w) && Enabled(c, w, SinkStep(k, st))
    ensures Inv(c, SinkMoves(c, w, k, st))
  {
    SinkStepFabric(c, w, k, st);
    SinkStepOutcomes(c, w, k, st);
    HonouredStays(w, SinkMoves(c, w, k, st));
    SourceUntouched(c, w.session, SinkMoves(c, w, k, st).session);
  }

  lemma TasksWeaken(c: Config, w: World, v: World)
    requires Inv(c, w) && |v.session.tasks| == |w.session.tasks|
    requires v == w.(session := w.session.(tasks := v.session.tasks, stopped := v.session.stopped))
    requires w.session.stopped ==> v.session.stopped
    requires forall b :: 0 <= b < |w.session.tasks| ==>
      var t, u := w.session.tasks[b], v.session.tasks[b];
      TaskOk(|c.sinks|, u) && Weakens(t, u) && (t.outcome.Delivered? ==> u.outcome.Delivered?)
    ensures Inv(c, v)
  {
    var s := w.session;
    WeakenInv(c.sinks, s.source.batches, s.tasks, v.session.tasks, s.sinks, w.written);
  }

  lemma OneTaskWeakens(c: Config, w: World, b: nat, u: Task)
    requires Inv(c, w) && b < |w.session.tasks| && TaskOk(|c.sinks|, u)
    requires Weakens(w.session.tasks[b], u)
    requires w.session.tasks[b].outcome.Delivered? ==> u.outcome.Delivered?
    ensures Inv(c, w.(session := w.session.(tasks := w.session.tasks[b := u])))
  {
    var v := w.(session := w.session.(tasks := w.session.tasks[b := u]));
    forall a | 0 <= a < |w.session.tasks| && a != b ensures Weakens(w.session.tasks[a], v.session.tasks[a]) {
    }
    TasksWeaken(c, w, v);
  }

  lemma SendFailsInv(c: Config, w: World, b: nat, k: nat)
    requires Inv(c, w) && Enabled(c, w, SendFails(b, k))
    ensures Inv(c, Apply(c, w, SendFails(b, k)))
  {
    assert TaskOk(|c.sinks|, w.session.tasks[b]);
    AbandonOk(|c.sinks|, w.session.tasks[b]);
    OneTaskWeakens(c, w, b, Abandon(w.session.tasks[b]));
  }

  lemma ConcludeInv(c: Config, w: World, b: nat)
    requires Inv(c, w) && Enabled(c, w, ConcludeTask(b))
    ensures Inv(c, Apply(c, w, ConcludeTask(b)))
  {
    assert TaskOk(|c.sinks|, w.session.tasks[b]);
    ConcludeOk(|c.sinks|, w.session.tasks[b]);
    OneTaskWeakens(c, w, b, Conclude(w.session.tasks[b]));
  }

  lemma HaltInv(c: Config, w: World)
    requires Inv(c, w)
    ensures Inv(c, w.(session := Halt(w.session)))
  {
    var v := w.(session := Halt(w.session));
    forall b | 0 <= b < |w.session.tasks|
      ensures var t, u := w.session.tasks[b], v.session.tasks[b];
        TaskOk(|c.sinks|, u) && Weakens(t, u) && (t.outcome.Delivered? ==> u.outcome.Delivered?)
    {
      var t := w.session.tasks[b];
      assert TaskOk(|c.sinks|, t);
      if t.outcome.Running? {
        AbandonOk(|c.sinks|, t);
      }
    }
    TasksWeaken(c, w, v);
  }

  // ----- commits

  /** Every record at or below a record of a delivered prefix has reached every sink. */
  lemma PrefixWritten(c: Config, w: World, n: nat, m: Event, r: Event)
    requires LogOk(w.log) && Committed(w) && Fed(w) && FabricOk(c, w)
    requires n < |w.session.source.batches| && m in w.session.source.batches[n]
    requires forall b :: 0 <= b <= n ==> w.session.tasks[b].outcome.Delivered?
    requires r in w.log && r.tp == m.tp && r.offset <= m.offset
    ensures WrittenEverywhere(w.written, r)
  {
    var s := w.session;
    assert Consumed(s.source, m);
    if r.offset < At(s.resume, r.tp) {
      assert Honoured(w, Entry(r.tp, s.resume[r.tp]));
    } else {
      assert Consumed(s.source, r);
      assert r !in s.source.pending;
      var a :| 0 <= a < |s.source.batches| && r in s.source.batches[a];
      assert a <= n;
      forall k | 0 <= k < |w.written| ensures Written(w.written[k], r) {
        DeliveredEverywhere(c.sinks, s.source.batches, s.tasks, s.sinks, w.written, a, k);
      }
    }
  }

  /** The offsets of a batch whose whole prefix is delivered are safe to commit. */
  lemma CommitHonoured(c: Config, w: World, n: nat, x: Entry)
    requires LogOk(w.log) && Committed(w) && Fed(w) && FabricOk(c, w)
    requires n < |w.session.source.batches| && x in NextOffsets(w.session.source.batches[n])
    requires forall b :: 0 <= b <= n ==> w.session.tasks[b].outcome.Delivered?
    ensures Honoured(w, x) && Anchored(w.log, x.tp, x.offset)
  {
    var batch := w.session.source.batches[n];
    NextOffsetsDescribes(batch);
    var i :| 0 <= i < |NextOffsets(batch)| && NextOffsets(batch)[i] == x;
    assert IsHighest(batch, x.tp, x.offset);
    var m :| m in batch && m.tp == x.tp && m.offset + 1 == x.offset;
    assert Consumed(w.session.source, m);
    forall r | r in w.log && r.tp == x.tp && r.offset < x.offset ensures WrittenEverywhere(w.written, r) {
      PrefixWritten(c, w, n, m, r);
    }
  }

  lemma JoinSource(c: Config, s: Session, b: nat, refused: set<nat>)
    requires SourceOk(c, s) && !s.stopped && b in s.source.inFlight && b < |s.tasks|
    requires s.tasks[b].outcome.Delivered?
    ensures var r := Source.Reap(s.source, b, refused);
      && r.state.batches == s.source.batches && r.state.pending == s.source.pending
      && SourceOk(c, s.(source := r.state, stopped := !r.ok))
  {
    var r := Source.Reap(s.source, b, refused);
    Source.ReapShape(s.source, b, refused);
    if r.ok {
      Source.ReapInv(c.source, s.source, b, refused);
    }
    Source.ReapAccounts(s.source, b, refused);
  }

  /** Every committed entry belongs to one of the batches of the committed prefix. */
  lemma CommitOfBatch(source: Source.State, x: Entry) returns (n: nat)
    requires Source.Faithful(source) && x in Entries(source.ledger.commits)
    ensures n < source.ledger.next && n < |source.batches| && x in NextOffsets(source.batches[n])
  {
    var done :| done in source.ledger.commits && x in done.offsets;
    n :| 0 <= n < |source.ledger.commits| && source.ledger.commits[n] == done;
    assert done == Source.CompletionOf(source.batches, n);
  }

  lemma NewCommitHonoured(c: Config, w: World, source: Source.State, x: Entry)
    requires LogOk(w.log) && Committed(w) && Fed(w) && FabricOk(c, w)
    requires source.batches == w.session.source.batches && |w.session.tasks| == |source.batches|
    requires Source.Faithful(source)
    requires forall b :: 0 <= b < source.ledger.next ==> w.session.tasks[b].outcome.Delivered?
    requires x in Entries(source.ledger.commits)
    ensures Honoured(w, x) && Anchored(w.log, x.tp, x.offset)
  {
    var n := CommitOfBatch(source, x);
    CommitHonoured(c, w, n, x);
  }

  lemma CommitsExtend(w: World, more: set<Entry>)
    requires Committed(w)
    requires forall x :: x in more ==> Honoured(w, x) && Anchored(w.log, x.tp, x.offset)
    ensures Committed(w.(requested := w.requested + more))
  {
    var v := w.(requested := w.requested + more);
    forall x | x in v.requested ensures Honoured(v, x) && Anchored(v.log, x.tp, x.offset) {
      assert Honoured(w, x);
    }
  }

  /** What joining leaves: a faithful source whose whole committed prefix was delivered. */
  lemma JoinDelivered(c: Config, s: Session, b: nat, refused: set<nat>)
    requires SourceOk(c, s) && !s.stopped && b in s.source.inFlight && b < |s.tasks|
    requires s.tasks[b].outcome.Delivered?
    ensures var t := Source.Reap(s.source, b, refused).state;
      && Source.Faithful(t) && t.batches == s.source.batches && |s.tasks| == |t.batches|
      && (forall a :: 0 <= a < t.ledger.next ==> s.tasks[a].outcome.Delivered?)
  {
    JoinSource(c, s, b, refused);
  }

  lemma JoinCommits(c: Config, w: World, b: nat, refused: set<nat>)
    requires Inv(c, w) && Enabled(c, w, Join(b, refused))
    ensures var r := Source.Reap(w.session.source, b, refused);
      Committed(w.(requested := w.requested + Entries(r.state.ledger.commits)))
  {
    var source := Source.Reap(w.session.source, b, refused).state;
    JoinDelivered(c, w.session, b, refused);
    forall x | x in Entries(source.ledger.commits) ensures Honoured(w, x) && Anchored(w.log, x.tp, x.offset) {
      NewCommitHonoured(c, w, source, x);
    }
    CommitsExtend(w, Entries(source.ledger.commits));
  }

  lemma JoinInv(c: Config, w: World, b: nat, refused: set<nat>)
    requires Inv(c, w) && Enabled(c, w, Join(b, refused))
    ensures Inv(c, Apply(c, w, Join(b, refused)))
  {
    var s, r := w.session, Source.Reap(w.session.source, b, refused);
    JoinSource(c, s, b, refused);
    JoinCommits(c, w, b, refused);
    var v := w.(requested := w.requested + Entries(r.state.ledger.commits),
                session := s.(source := r.state, stopped := !r.ok));
    assert forall x :: Honoured(w.(requested := v.requested), x) <==> Honoured(v, x);
    assert Fed(v) by {
      assert forall x :: Consumed(v.session.source, x) <==> Consumed(s.source, x);
    }
    if !r.ok {
      HaltInv(c, v);
    }
  }

  /** A new lifetime starts clean: whatever it may resume from has already been delivered. */
  lemma RestartInv(c: Config, w: World, resume: map<TopicPartition, int>)
    requires Validated(c) && Inv(c, w) && Enabled(c, w, Restart(resume))
    ensures Inv(c, Apply(c, w, Restart(resume)))
  {
    var v := Apply(c, w, Restart(resume));
    FreshInv(c.sinks, w.written);
    Source.StartInv(c.source);
    forall x | x in v.requested ensures Honoured(v, x) {
      assert Honoured(w, x);
    }
    forall tp | tp in resume ensures Anchored(v.log, tp, resume[tp]) {
      assert Entry(tp, resume[tp]) in w.requested;
    }
  }

  /** The inductive invariant: every step of the whole system keeps it. */
  lemma StepInv(c: Config, w: World, st: Step)
    requires Validated(c) && Inv(c, w) && Enabled(c, w, st)
    ensures Inv(c, Apply(c, w, st))
  {
    match st {
      case Append(e) => AppendInv(c, w, e);
      case Receive(e) => ReceiveInv(c, w, e);
      case Linger => LingerInv(c, w);
      case Enqueue(b, k) => EnqueueInv(c, w, b, k);
      case SendFails(b, k) => SendFailsInv(c, w, b, k);
      case SinkStep(k, st) => SinkStepInv(c, w, k, st);
      case ConcludeTask(b) => ConcludeInv(c, w, b);
      case Join(b, refused) => JoinInv(c, w, b, refused);
      case JoinFailed(b) => HaltInv(c, w);
      case Stop => HaltInv(c, w);
      case Restart(resume) => RestartInv(c, w, resume);
    }
  }
}
