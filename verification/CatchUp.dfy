/**
 * Complete delivery: with no further appends, every stretch of consuming and internal steps is
 * bounded, and unless something fails it ends with the whole log delivered and committed.
 */
module CatchUp {
  import opened Events
  import opened Offsets
  import Source = SourceLoop
  import Sink = SinkRuntime
  import Ack = Acknowledgement
  import opened Fabric
  import opened Protocol
  import opened Delivery
  import opened Quiescence

  /** Steps that consume what is in the log or work on what was consumed. */
  predicate Moving(st: Step) {
    Working(st) || st.Receive? || st.Linger?
  }

  /** Nothing is left to consume, to dispatch or to work on. */
  ghost predicate AtEnd(c: Config, w: World) {
    forall st :: Moving(st) ==> !Enabled(c, w, st)
  }

  // ----- the work that is left, unread records included

  /** The records the session has not consumed yet. */
  ghost function Backlog(w: World): set<Event> {
    set r | r in w.log && At(w.session.position, r.tp) <= r.offset
  }

  /** What dispatching a batch adds to the work. */
  function BatchWork(c: Config): nat {
    2 + UnsentWork(c.sinks, {})
  }

  ghost function PendingWork(c: Config, w: World): nat {
    if w.session.source.pending == [] then 0 else BatchWork(c) + 1
  }

  ghost function TotalWork(c: Config, w: World): nat
    requires |w.session.sinks| == |c.sinks|
  {
    Work(c, w) + PendingWork(c, w) + Times(|Backlog(w)|, BatchWork(c) + 2)
  }

  lemma {:induction false} TimesLess(a: nat, b: nat, weight: nat)
    requires a < b
    ensures Times(a, weight) + weight <= Times(b, weight)
  {
    if b == a + 1 {
    } else {
      TimesLess(a, b - 1, weight);
    }
  }

  lemma BacklogShrinks(c: Config, w: World, e: Event)
    requires Enabled(c, w, Receive(e))
    ensures |Backlog(Protocol.Apply(c, w, Receive(e)))| < |Backlog(w)|
  {
    var v := Protocol.Apply(c, w, Receive(e));
    assert v.session.position == w.session.position[e.tp := e.offset + 1];
    assert e in Backlog(w) && e !in Backlog(v);
    assert Backlog(v) <= Backlog(w);
    Fewer(Backlog(v), Backlog(w), e);
  }

  lemma Fewer(a: set<Event>, b: set<Event>, e: Event)
    requires a <= b && e in b && e !in a
    ensures |a| < |b|
  {
    var rest := b - a;
    assert a + rest == b && e in rest;
    assert |b| == |a| + |rest|;
  }

  /** Handing the source's new state to the session costs at most one batch. */
  lemma FeedWork(c: Config, w: World, source: Source.State, dispatched: bool)
    requires |w.session.sinks| == |c.sinks| && !w.session.stopped
    requires |w.session.tasks| == |w.session.source.batches|
    requires |source.batches| == |w.session.source.batches| + if dispatched then 1 else 0
    requires |source.inFlight| == |w.session.source.inFlight| + if dispatched then 1 else 0
    ensures var v := w.(session := Feed(c, w.session, source));
      Work(c, v) == Work(c, w) + if dispatched then BatchWork(c) else 0
  {
    var ts := w.session.tasks;
    if dispatched {
      assert (ts + [NewTask(|c.sinks|)])[..|ts|] == ts;
    }
  }

  /** What receiving does to the source: the batch is dispatched if that fills it. */
  lemma ReceiveSource(c: Source.Config, s: Source.State, e: Event)
    requires Source.Partitioned(s)
    ensures var t, full := Source.Receive(c, s, e), |s.pending + [e]| >= c.batchSize;
      && |t.batches| == |s.batches| + (if full then 1 else 0)
      && |t.inFlight| == |s.inFlight| + (if full then 1 else 0)
      && (full ==> t.pending == [])
  {
    assert s.sequence !in s.inFlight;
  }

  lemma ReceiveFeedsWork(c: Config, w: World, e: Event)
    requires |w.session.sinks| == |c.sinks| && |w.session.tasks| == |w.session.source.batches|
    requires Source.Partitioned(w.session.source) && Enabled(c, w, Receive(e))
    ensures var v, full := Protocol.Apply(c, w, Receive(e)), |w.session.source.pending + [e]| >= c.source.batchSize;
      && |v.session.sinks| == |c.sinks|
      && Work(c, v) == Work(c, w) + (if full then BatchWork(c) else 0)
      && (full ==> PendingWork(c, v) == 0)
  {
    var source := Source.Receive(c.source, w.session.source, e);
    ReceiveSource(c.source, w.session.source, e);
    FeedWork(c, w, source, |w.session.source.pending + [e]| >= c.source.batchSize);
  }

  /** What the measure needs to know of a world. */
  ghost predicate InShape(c: Config, w: World) {
    && |w.session.sinks| == |c.sinks| && |w.session.tasks| == |w.session.source.batches|
    && (!w.session.stopped ==> Source.Partitioned(w.session.source))
  }

  lemma InvInShape(c: Config, w: World)
    requires Protocol.Inv(c, w)
    ensures InShape(c, w)
  {
  }

  lemma ReceiveWork(c: Config, w: World, e: Event)
    requires InShape(c, w) && Enabled(c, w, Receive(e))
    ensures |Protocol.Apply(c, w, Receive(e)).session.sinks| == |c.sinks|
    ensures TotalWork(c, Protocol.Apply(c, w, Receive(e))) < TotalWork(c, w)
  {
    ReceiveFeedsWork(c, w, e);
    BacklogShrinks(c, w, e);
    OneRecordLess(c, w, Protocol.Apply(c, w, Receive(e)));
  }

  /** One unread record pays for a batch, pending or dispatched. */
  lemma OneRecordLess(c: Config, w: World, v: World)
    requires |w.session.sinks| == |v.session.sinks| == |c.sinks| && |Backlog(v)| < |Backlog(w)|
    requires Work(c, v) == Work(c, w) || (Work(c, v) == Work(c, w) + BatchWork(c) && PendingWork(c, v) == 0)
    ensures TotalWork(c, v) < TotalWork(c, w)
  {
    TimesLess(|Backlog(v)|, |Backlog(w)|, BatchWork(c) + 2);
  }

  lemma LingerWork(c: Config, w: World)
    requires InShape(c, w) && Enabled(c, w, Linger)
    ensures |Protocol.Apply(c, w, Linger).session.sinks| == |c.sinks|
    ensures TotalWork(c, Protocol.Apply(c, w, Linger)) < TotalWork(c, w)
  {
    var s, v := w.session, Protocol.Apply(c, w, Linger);
    assert s.source.sequence !in s.source.inFlight;
    FeedWork(c, w, v.session.source, true);
    assert Backlog(v) == Backlog(w);
  }

  lemma WorkingKeepsInput(c: Config, w: World, st: Step)
    requires Enabled(c, w, st) && Working(st)
    ensures var v := Protocol.Apply(c, w, st);
      Backlog(v) == Backlog(w) && v.session.source.pending == w.session.source.pending
  {
    var v := Protocol.Apply(c, w, st);
    assert v.log == w.log && v.session.position == w.session.position;
  }

  /** Every consuming or working step uses up some of the work that is left. */
  lemma MovingWorks(c: Config, w: World, st: Step)
    requires Protocol.Validated(c) && Protocol.Inv(c, w) && Enabled(c, w, st) && Moving(st)
    ensures |w.session.sinks| == |Protocol.Apply(c, w, st).session.sinks| == |c.sinks|
    ensures TotalWork(c, Protocol.Apply(c, w, st)) < TotalWork(c, w)
  {
    InvInShape(c, w);
    if st.Receive? {
      ReceiveWork(c, w, st.event);
    } else if st.Linger? {
      LingerWork(c, w);
    } else {
      WorkDecreases(c, w, st);
      WorkingKeepsInput(c, w, st);
    }
  }

  lemma RunMovingWorks(c: Config, steps: seq<Step>, worlds: seq<World>, i: nat)
    requires Protocol.Validated(c) && Execution(c, steps, worlds) && i < |steps| && Moving(steps[i])
    ensures |worlds[i].session.sinks| == |worlds[i + 1].session.sinks| == |c.sinks|
    ensures TotalWork(c, worlds[i + 1]) < TotalWork(c, worlds[i])
  {
    ExecutionInv(c, steps, worlds, i);
    MovingWorks(c, worlds[i], steps[i]);
  }

  /** Without new records and restarts the router cannot go on for ever, even while it is consuming. */
  lemma MovingStretchIsBounded(c: Config, steps: seq<Step>, worlds: seq<World>, i: nat, j: nat)
    requires Protocol.Validated(c) && Execution(c, steps, worlds) && i <= j < |worlds|
    requires forall m :: i <= m < j ==> Moving(steps[m])
    ensures |worlds[i].session.sinks| == |c.sinks| && j - i <= TotalWork(c, worlds[i])
  {
    forall m | 0 <= m < |worlds| ensures |worlds[m].session.sinks| == |c.sinks| {
      SinksPresent(c, steps, worlds, m);
    }
    var works := seq(|worlds|, m requires 0 <= m < |worlds| => TotalWork(c, worlds[m]));
    forall m | i <= m < j ensures works[m + 1] < works[m] {
      RunMovingWorks(c, steps, worlds, m);
    }
    DecreaseIsBounded(works, i, j);
  }

  // ----- where it ends

  /** The first unread record of a partition that has one. */
  lemma {:induction false} FirstUnread(some: set<Event>, tp: TopicPartition, e: Event) returns (first: Event)
    requires e in some && e.tp == tp
    ensures first in some && first.tp == tp
    ensures forall r :: r in some && r.tp == tp ==> first.offset <= r.offset
    decreases |some|
  {
    if r :| r in some && r.tp == tp && r.offset < e.offset {
      assert r in some - {e};
      first := FirstUnread(some - {e}, tp, r);
      assert forall x :: x in some && x.tp == tp && x != e ==> x in some - {e};
    } else {
      first := e;
    }
  }

  lemma ReceivesNext(c: Config, w: World, r: Event) returns (e: Event)
    requires !w.session.stopped && Source.CanReceive(c.source, w.session.source) && r in Backlog(w)
    ensures Enabled(c, w, Receive(e))
  {
    e := FirstUnread(Backlog(w), r.tp, r);
    assert IsNext(w, e);
  }

  /** An idle source has room for the next message. */
  lemma IdleAdmits(c: Config, s: Source.State)
    requires Source.Validated(c.source) && Source.Inv(c.source, s) && s.inFlight == {}
    ensures Source.Admits(c.source, s)
  {
    Source.BytesOfNone(s.batches);
  }

  lemma EndIsCaughtUp(c: Config, w: World)
    requires Protocol.Validated(c) && Protocol.Inv(c, w) && AtEnd(c, w)
    ensures w.session.stopped || CaughtUp(w)
  {
    if !w.session.stopped {
      SourceAtRest(c, w);
      IdleAdmits(c, w.session.source);
      assert !Enabled(c, w, Linger);
      forall r | r in w.log ensures r.offset < At(w.session.position, r.tp) {
        if r in Backlog(w) {
          var e := ReceivesNext(c, w, r);
        }
      }
    }
  }

  // ----- every record of the log is committed

  /** The commits in the source's ledger are among those requested from the broker. */
  ghost predicate LedgerRequested(w: World) {
    Entries(w.session.source.ledger.commits) <= w.requested
  }

  lemma StepRequests(c: Config, w: World, st: Step)
    requires LedgerRequested(w) && Enabled(c, w, st)
    ensures LedgerRequested(Protocol.Apply(c, w, st))
  {
  }

  lemma {:induction false} ExecutionRequests(c: Config, steps: seq<Step>, worlds: seq<World>, i: nat)
    requires Execution(c, steps, worlds) && i < |worlds|
    ensures LedgerRequested(worlds[i])
  {
    if i == 0 {
    } else {
      ExecutionRequests(c, steps, worlds, i - 1);
      StepRequests(c, worlds[i - 1], steps[i - 1]);
    }
  }

  /** Some requested commit lies above the record: a restart from the latest commits skips it. */
  ghost predicate IsCommitted(w: World, r: Event) {
    exists x :: x in w.requested && x.tp == r.tp && r.offset < x.offset
  }

  lemma BatchEntry(batch: Batch, r: Event) returns (x: Entry)
    requires r in batch
    ensures x in NextOffsets(batch) && x.tp == r.tp && r.offset < x.offset
  {
    NextOffsetsDescribes(batch);
    assert Mentions(NextOffsets(batch), r.tp);
    var i :| 0 <= i < |NextOffsets(batch)| && NextOffsets(batch)[i].tp == r.tp;
    x := NextOffsets(batch)[i];
    assert IsHighest(batch, x.tp, x.offset);
  }

  lemma BatchIsCommitted(w: World, b: nat, r: Event)
    requires Source.Faithful(w.session.source) && LedgerRequested(w)
    requires b < w.session.source.ledger.next && r in w.session.source.batches[b]
    ensures IsCommitted(w, r)
  {
    var src := w.session.source;
    var x := BatchEntry(src.batches[b], r);
    assert src.ledger.commits[b] == Source.CompletionOf(src.batches, b);
    assert x in Entries(src.ledger.commits);
  }

  lemma LogIsCommitted(c: Config, w: World, r: Event)
    requires Protocol.Inv(c, w) && LedgerRequested(w) && CaughtUp(w) && r in w.log
    ensures IsCommitted(w, r)
  {
    var s := w.session;
    if r.offset < At(s.resume, r.tp) {
      assert Entry(r.tp, s.resume[r.tp]) in w.requested;
    } else {
      assert Consumed(s.source, r);
      var b :| 0 <= b < |s.source.batches| && r in s.source.batches[b];
      IdleMeansCommitted(c, w);
      BatchIsCommitted(w, b, r);
    }
  }

  /** All of the log has reached every sink and is committed, and the source is idle. */
  ghost predicate Complete(w: World) {
    CaughtUp(w) && forall r :: r in w.log ==> WrittenEverywhere(w.written, r) && IsCommitted(w, r)
  }

  /**
   * Complete delivery: with no further appends, whichever steps the router takes, a stretch that
   * cannot be continued is no longer than the work there was, and ends with the whole log delivered
   * to every sink and committed, unless the source has stopped.
   */
  lemma StretchDelivers(c: Config, steps: seq<Step>, worlds: seq<World>, i: nat, j: nat)
    requires Protocol.Validated(c) && Execution(c, steps, worlds) && i <= j < |worlds|
    requires (forall m :: i <= m < j ==> Moving(steps[m])) && AtEnd(c, worlds[j])
    ensures |worlds[i].session.sinks| == |c.sinks| && j - i <= TotalWork(c, worlds[i])
    ensures worlds[j].session.stopped || Complete(worlds[j])
  {
    MovingStretchIsBounded(c, steps, worlds, i, j);
    EndDelivers(c, steps, worlds, j);
  }

  lemma EndDelivers(c: Config, steps: seq<Step>, worlds: seq<World>, j: nat)
    requires Protocol.Validated(c) && Execution(c, steps, worlds) && j < |worlds| && AtEnd(c, worlds[j])
    ensures worlds[j].session.stopped || Complete(worlds[j])
  {
    ExecutionInv(c, steps, worlds, j);
    EndIsCaughtUp(c, worlds[j]);
    if !worlds[j].session.stopped {
      CaughtUpMeansDelivered(c, steps, worlds, j);
      ExecutionRequests(c, steps, worlds, j);
      forall r | r in worlds[j].log ensures IsCommitted(worlds[j], r) {
        LogIsCommitted(c, worlds[j], r);
      }
    }
  }

  // ----- when nothing fails

  ghost predicate HealthySink(s: Sink.State) {
    && !s.phase.Draining? && !s.phase.Closed?
    && forall i :: 0 <= i < |s.writes| ==> s.writes[i].progress != Sink.Settling(false)
  }

  ghost predicate HealthyTask(t: Task) {
    !t.outcome.Failed? && forall k :: 0 <= k < |t.fan.branches| ==> t.fan.branches[k] != Ack.Counted(false)
  }

  /** Nothing has failed in this lifetime, and nobody has asked for an end. */
  ghost predicate Healthy(s: Session) {
    && !s.stopped
    && (forall k :: 0 <= k < |s.sinks| ==> HealthySink(s.sinks[k]))
    && (forall b :: 0 <= b < |s.tasks| ==> HealthyTask(s.tasks[b]))
  }

  /** The step neither gives a group up after its last attempt nor has a commit request refused. */
  ghost predicate Harmless(c: Config, w: World, st: Step)
    requires Enabled(c, w, st)
  {
    match st
    case SinkStep(k, AttemptFail(i)) => w.session.sinks[k].writes[i].progress.attempt < c.sinks[k].maxAttempts
    case Join(_, refused) => refused == {}
    case _ => true
  }

  lemma NewSessionHealthy(c: Config, resume: map<TopicPartition, int>)
    ensures Healthy(NewSession(c, resume))
  {
  }

  lemma HealthySinkStep(c: Sink.Config, s: Sink.State, st: Sink.Step)
    requires HealthySink(s) && Sink.Enabled(c, s, st) && Sink.Own(st)
    requires st.AttemptFail? ==> s.writes[st.i].progress.attempt < c.maxAttempts
    ensures HealthySink(Sink.Apply(c, s, st))
    ensures var effect := Sink.EffectOf(c, s, st); effect.Verdict? ==> effect.ok
  {
  }

  lemma HealthyVerdict(t: Task, k: nat)
    requires HealthyTask(t) && k < |t.fan.branches|
    ensures HealthyTask(t.(fan := Fabric.Complete(t.fan, k, true)))
  {
    if t.fan.branches[k].Open? {
      CompleteIs(t.fan, k, true);
    }
  }

  lemma SinkStepHealthy(c: Config, w: World, k: nat, st: Sink.Step)
    requires Healthy(w.session) && Enabled(c, w, SinkStep(k, st)) && Sink.Own(st) && Harmless(c, w, SinkStep(k, st))
    ensures Healthy(SinkMoves(c, w, k, st).session)
  {
    var s, v := w.session, SinkMoves(c, w, k, st);
    HealthySinkStep(c.sinks[k], s.sinks[k], st);
    forall b | 0 <= b < |v.session.tasks| ensures HealthyTask(v.session.tasks[b]) {
      if v.session.tasks[b] != s.tasks[b] {
        HealthyVerdict(s.tasks[b], k);
      }
    }
  }

  lemma ConcludeHealthy(n: nat, t: Task)
    requires TaskOk(n, t) && CanConclude(t) && HealthyTask(t)
    ensures HealthyTask(Conclude(t))
  {
    ConcludeOk(n, t);
    if n > 0 {
      Ack.OutstandingZero(t.fan.branches);
      assert forall k :: 0 <= k < n ==> t.fan.branches[k].Counted?;
    }
  }

  lemma JoinHealthy(c: Config, w: World, b: nat)
    requires Healthy(w.session) && Enabled(c, w, Join(b, {}))
    ensures Healthy(Protocol.Apply(c, w, Join(b, {})).session)
  {
    Source.JoinOne(w.session.source, b);
  }

  /** A lifetime stays healthy as long as no write is given up and no commit refused. */
  lemma StepHealthy(c: Config, w: World, st: Step)
    requires FabricOk(c, w) && Healthy(w.session)
    requires Enabled(c, w, st) && Moving(st) && Harmless(c, w, st)
    ensures Healthy(Protocol.Apply(c, w, st).session)
  {
    match st {
      case SinkStep(k, st) => SinkStepHealthy(c, w, k, st);
      case ConcludeTask(b) => ConcludeTaskHealthy(c, w, b);
      case Join(b, refused) => JoinHealthy(c, w, b);
      case Enqueue(b, k) => EnqueueHealthy(c, w, b, k);
      case Receive(e) => FeedHealthy(c, w.session, Source.Receive(c.source, w.session.source, e));
      case Linger => FeedHealthy(c, w.session, Source.Dispatch(w.session.source));
      case _ =>
    }
  }

  lemma ConcludeTaskHealthy(c: Config, w: World, b: nat)
    requires FabricOk(c, w) && Healthy(w.session) && Enabled(c, w, ConcludeTask(b))
    ensures Healthy(Protocol.Apply(c, w, ConcludeTask(b)).session)
  {
    assert TaskOk(|c.sinks|, w.session.tasks[b]);
    ConcludeHealthy(|c.sinks|, w.session.tasks[b]);
  }

  lemma FeedHealthy(c: Config, s: Session, source: Source.State)
    requires Healthy(s)
    ensures Healthy(Feed(c, s, source))
  {
  }

  lemma EnqueueHealthy(c: Config, w: World, b: nat, k: nat)
    requires Healthy(w.session) && Enabled(c, w, Enqueue(b, k))
    ensures Healthy(Protocol.Apply(c, w, Enqueue(b, k)).session)
  {
    var s, v := w.session, Protocol.Apply(c, w, Enqueue(b, k));
    assert HealthyTask(s.tasks[b]) && HealthySink(s.sinks[k]);
  }

  /** An enabled step that consumes or works and fails nothing. */
  ghost predicate Smooth(c: Config, w: World, st: Step) {
    Moving(st) && Enabled(c, w, st) && Harmless(c, w, st)
  }

  lemma RunStaysHealthy(c: Config, steps: seq<Step>, worlds: seq<World>, i: nat)
    requires Protocol.Validated(c) && Execution(c, steps, worlds) && i < |steps|
    requires Healthy(worlds[i].session) && Smooth(c, worlds[i], steps[i])
    ensures Healthy(worlds[i + 1].session)
  {
    ExecutionInv(c, steps, worlds, i);
    StepHealthy(c, worlds[i], steps[i]);
  }

  lemma StretchStaysHealthy(c: Config, steps: seq<Step>, worlds: seq<World>, i: nat, j: nat)
    requires Protocol.Validated(c) && Execution(c, steps, worlds) && i <= j < |worlds|
    requires Healthy(worlds[i].session) && forall m :: i <= m < j ==> Smooth(c, worlds[m], steps[m])
    ensures Healthy(worlds[j].session)
  {
    ghost var holds := seq(|worlds|, m requires 0 <= m < |worlds| => Healthy(worlds[m].session));
    forall m | i <= m < j && holds[m] ensures holds[m + 1] {
      RunStaysHealthy(c, steps, worlds, m);
    }
    Persists(holds, i, j);
  }

  /**
   * A healthy lifetime delivers everything: if no write is given up and no commit refused, a stretch
   * that cannot be continued ends with the whole log at every sink and committed. Failed attempts
   * that are retried do not matter.
   */
  lemma HealthyStretchDelivers(c: Config, steps: seq<Step>, worlds: seq<World>, i: nat, j: nat)
    requires Protocol.Validated(c) && Execution(c, steps, worlds) && i <= j < |worlds|
    requires Healthy(worlds[i].session) && forall m :: i <= m < j ==> Smooth(c, worlds[m], steps[m])
    requires AtEnd(c, worlds[j])
    ensures |worlds[i].session.sinks| == |c.sinks| && j - i <= TotalWork(c, worlds[i])
    ensures Complete(worlds[j])
  {
    StretchStaysHealthy(c, steps, worlds, i, j);
    StretchDelivers(c, steps, worlds, i, j);
  }

  /** Where a step could fail, the same place has one that does not. */
  lemma SmoothInstead(c: Config, w: World, st: Step) returns (better: Step)
    requires Enabled(c, w, st) && Moving(st)
    ensures Smooth(c, w, better)
  {
    better := st;
    if !Harmless(c, w, st) {
      match st {
        case SinkStep(k, step) =>
          better := SinkStep(k, Sink.AttemptOk(step.i, Sink.EventCount(w.session.sinks[k].writes[step.i].group), 0));
        case Join(b, _) => better := Join(b, {});
      }
    }
  }

  ghost function EndTotalWork(c: Config, steps: seq<Step>, worlds: seq<World>): nat
    requires Protocol.Validated(c) && Execution(c, steps, worlds)
  {
    SinksPresent(c, steps, worlds, |steps|);
    TotalWork(c, worlds[|steps|])
  }

  /** A healthy router can always get there: some smooth continuation delivers the whole log. */
  lemma {:induction false} HealthyCatchesUp(c: Config, steps: seq<Step>, worlds: seq<World>)
    returns (later: seq<Step>, after: seq<World>)
    requires Protocol.Validated(c) && Execution(c, steps, worlds) && Healthy(worlds[|steps|].session)
    ensures Execution(c, later, after) && steps <= later && worlds <= after
    ensures SmoothFrom(c, later, after, |steps|) && Complete(after[|later|])
    decreases EndTotalWork(c, steps, worlds)
  {
    var w := worlds[|steps|];
    if st :| Moving(st) && Enabled(c, w, st) {
      var better := SmoothInstead(c, w, st);
      var more, next := SmoothStep(c, steps, worlds, better);
      later, after := HealthyCatchesUp(c, more, next);
      SmoothBefore(c, later, after, |steps|, w, better);
    } else {
      later, after := steps, worlds;
      EndDelivers(c, steps, worlds, |steps|);
    }
  }

  /** The run goes on smoothly from step `n`. */
  ghost predicate SmoothFrom(c: Config, steps: seq<Step>, worlds: seq<World>, n: nat) {
    |worlds| == |steps| + 1 && forall m :: n <= m < |steps| ==> Smooth(c, worlds[m], steps[m])
  }

  lemma SmoothBefore(c: Config, steps: seq<Step>, worlds: seq<World>, n: nat, w: World, st: Step)
    requires SmoothFrom(c, steps, worlds, n + 1) && n < |steps| && worlds[n] == w && steps[n] == st
    requires Smooth(c, w, st)
    ensures SmoothFrom(c, steps, worlds, n)
  {
  }

  lemma SmoothStep(c: Config, steps: seq<Step>, worlds: seq<World>, st: Step)
    returns (more: seq<Step>, next: seq<World>)
    requires Protocol.Validated(c) && Execution(c, steps, worlds) && Healthy(worlds[|steps|].session)
    requires Smooth(c, worlds[|steps|], st)
    ensures more == steps + [st] && worlds <= next && Execution(c, more, next)
    ensures Healthy(next[|more|].session) && EndTotalWork(c, more, next) < EndTotalWork(c, steps, worlds)
  {
    var v := Protocol.Apply(c, worlds[|steps|], st);
    more, next := steps + [st], worlds + [v];
    ExtendExecution(c, steps, worlds, st, v);
    RunStaysHealthy(c, more, next, |steps|);
    RunMovingWorks(c, more, next, |steps|);
  }

  /**
   * Recovery: whatever has happened so far, after a restart from any requested commits the router can
   * deliver the whole log to every sink and commit it.
   */
  lemma RecoveryDelivers(
    c: Config, steps: seq<Step>, worlds: seq<World>, resume: map<TopicPartition, int>)
    returns (later: seq<Step>, after: seq<World>)
    requires Protocol.Validated(c) && Execution(c, steps, worlds)
    requires Enabled(c, worlds[|steps|], Restart(resume))
    ensures Execution(c, later, after) && steps + [Restart(resume)] <= later && worlds <= after
    ensures SmoothFrom(c, later, after, |steps| + 1) && Complete(after[|later|])
  {
    var v := Protocol.Apply(c, worlds[|steps|], Restart(resume));
    ExtendExecution(c, steps, worlds, Restart(resume), v);
    NewSessionHealthy(c, resume);
    later, after := HealthyCatchesUp(c, steps + [Restart(resume)], worlds + [v]);
  }
}
