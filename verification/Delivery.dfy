/** What the router promises over every execution: at-least-once delivery and orderly commits. */
module Delivery {
  import opened Events
  import opened Offsets
  import opened Sequences
  import Sink = SinkRuntime
  import Source = SourceLoop
  import Ack = Acknowledgement
  import opened Fabric
  import opened Protocol

  /** A run of the whole system from an empty log, through any number of restarts. */
  ghost predicate Execution(c: Config, steps: seq<Step>, worlds: seq<World>) {
    && |worlds| == |steps| + 1
    && Init(c, worlds[0])
    && forall i :: 0 <= i < |steps| ==>
         Enabled(c, worlds[i], steps[i]) && worlds[i + 1] == Protocol.Apply(c, worlds[i], steps[i])
  }

  ghost predicate Leads(c: Config, w: World, st: Step, v: World) {
    Enabled(c, w, st) && v == Protocol.Apply(c, w, st)
  }

  lemma ExtendExecution(c: Config, steps: seq<Step>, worlds: seq<World>, st: Step, v: World)
    requires Execution(c, steps, worlds) && Leads(c, worlds[|steps|], st, v)
    ensures Execution(c, steps + [st], worlds + [v])
  {
    var more, next := steps + [st], worlds + [v];
    forall i | 0 <= i < |more| ensures Leads(c, next[i], more[i], next[i + 1]) {
      if i < |steps| {
        assert Leads(c, worlds[i], steps[i], worlds[i + 1]);
      }
    }
  }

  lemma {:induction false} ExecutionInv(c: Config, steps: seq<Step>, worlds: seq<World>, i: nat)
    requires Protocol.Validated(c) && Execution(c, steps, worlds) && i < |worlds|
    ensures Protocol.Inv(c, worlds[i])
  {
    if i == 0 {
      InitInv(c, worlds[0]);
    } else {
      ExecutionInv(c, steps, worlds, i - 1);
      Protocol.StepInv(c, worlds[i - 1], steps[i - 1]);
    }
  }

  /** From `w` to `v` sink `k` has made one more successful call, for the group of its write `n`. */
  ghost predicate WroteGroup(w: World, v: World, k: nat, n: nat, call: seq<Batch>) {
    && k < |w.written| && k < |w.session.sinks| && n < |w.session.sinks[k].writes|
    && v.written == w.written[k := w.written[k] + [call]]
    && var group := w.session.sinks[k].writes[n].group;
       && |call| == |group|
       && (forall j :: 0 <= j < |group| ==>
             group[j].batch < |w.session.source.batches| && call[j] == w.session.source.batches[group[j].batch])
       && Sink.EventCount(group) == |Flatten(call)| && Sink.ByteCount(group) == BatchBytes(Flatten(call))
  }

  lemma SuccessWritesGroup(c: Config, w: World, k: nat, st: Sink.Step)
    requires FabricOk(c, w) && Enabled(c, w, SinkStep(k, st)) && st.AttemptOk?
    ensures exists call :: WroteGroup(w, Protocol.Apply(c, w, SinkStep(k, st)), k, st.i, call)
  {
    var s := w.session;
    var group := s.sinks[k].writes[st.i].group;
    var call := BatchesOf(s.source.batches, group);
    assert SinkOk(c.sinks[k], s.source.batches, s.sinks[k], w.written[k]);
    OpenGroupCall(c.sinks[k], s.source.batches, s.sinks[k], st.i);
    CallSizes(s.source.batches, group, call);
    assert WroteGroup(w, Protocol.Apply(c, w, SinkStep(k, st)), k, st.i, call);
  }

  /**
   * The write histories hold exactly the successful calls: a successful attempt of a sink adds one
   * call, with precisely the batches of that write's group in order, and no other step adds anything.
   */
  lemma HistoryIsExact(c: Config, steps: seq<Step>, worlds: seq<World>, i: nat)
    requires Protocol.Validated(c) && Execution(c, steps, worlds) && i < |steps|
    ensures var w, v, st := worlds[i], worlds[i + 1], steps[i];
      if st.SinkStep? && st.step.AttemptOk? then exists call :: WroteGroup(w, v, st.sink, st.step.i, call)
      else v.written == w.written
  {
    ExecutionInv(c, steps, worlds, i);
    assert Leads(c, worlds[i], steps[i], worlds[i + 1]);
    StepHistory(c, worlds[i], steps[i], worlds[i + 1]);
  }

  lemma StepHistory(c: Config, w: World, st: Step, v: World)
    requires FabricOk(c, w) && Leads(c, w, st, v)
    ensures if st.SinkStep? && st.step.AttemptOk? then exists call :: WroteGroup(w, v, st.sink, st.step.i, call)
      else v.written == w.written
  {
    if st.SinkStep? && st.step.AttemptOk? {
      SuccessWritesGroup(c, w, st.sink, st.step);
    }
  }

  /** The session reads on from where it resumed and has consumed nothing below. */
  ghost predicate ReadsOn(s: Session) {
    && (forall tp :: At(s.resume, tp) <= At(s.position, tp))
    && (forall r :: Consumed(s.source, r) ==> At(s.resume, r.tp) <= r.offset)
  }

  lemma StepReadsOn(c: Config, w: World, st: Step)
    requires SourceOk(c, w.session) && ReadsOn(w.session) && Enabled(c, w, st)
    ensures ReadsOn(Protocol.Apply(c, w, st).session)
  {
    var s, v := w.session, Protocol.Apply(c, w, st);
    match st {
      case Receive(e) => ReceiveConsumes(c, s.source, e);
      case Linger => DispatchConsumes(s.source);
      case Join(b, refused) => Source.ReapShape(s.source, b, refused);
      case _ =>
    }
  }

  lemma DispatchConsumes(s: Source.State)
    ensures forall r :: Consumed(Source.Dispatch(s), r) <==> Consumed(s, r)
  {
    forall r ensures Consumed(Source.Dispatch(s), r) <==> Consumed(s, r) {
      BatchesAppended(s.batches, s.pending, r);
    }
  }

  lemma ReceiveConsumes(c: Config, s: Source.State, e: Event)
    ensures forall r :: Consumed(Source.Receive(c.source, s, e), r) <==> Consumed(s, r) || r == e
  {
    var held := s.(pending := s.pending + [e]);
    DispatchConsumes(held);
    assert forall r :: Consumed(held, r) <==> Consumed(s, r) || r == e;
  }

  /** No needless replay: a lifetime consumes only records at or above the commit it resumed from. */
  lemma {:induction false} NothingReplayedBelow(c: Config, steps: seq<Step>, worlds: seq<World>, i: nat)
    requires Protocol.Validated(c) && Execution(c, steps, worlds) && i < |worlds|
    ensures ReadsOn(worlds[i].session)
  {
    if i == 0 {
    } else {
      NothingReplayedBelow(c, steps, worlds, i - 1);
      ExecutionInv(c, steps, worlds, i - 1);
      StepReadsOn(c, worlds[i - 1], steps[i - 1]);
    }
  }

  /** A stopped source leaves no fan-out running. */
  ghost predicate StopEndsTasks(s: Session) {
    s.stopped ==> forall b :: 0 <= b < |s.tasks| ==> !s.tasks[b].outcome.Running?
  }

  lemma StepEndsTasks(c: Config, w: World, st: Step)
    requires StopEndsTasks(w.session) && Enabled(c, w, st)
    ensures StopEndsTasks(Protocol.Apply(c, w, st).session)
  {
  }

  /** Stopping aborts: in a stopped lifetime every fan-out has ended, and nothing more is sent. */
  lemma {:induction false} StoppedMeansAborted(c: Config, steps: seq<Step>, worlds: seq<World>, i: nat)
    requires Execution(c, steps, worlds) && i < |worlds|
    ensures worlds[i].session.stopped ==>
      forall b :: 0 <= b < |worlds[i].session.tasks| ==> !worlds[i].session.tasks[b].outcome.Running?
  {
    if i == 0 {
    } else {
      StoppedMeansAborted(c, steps, worlds, i - 1);
      StepEndsTasks(c, worlds[i - 1], steps[i - 1]);
    }
  }

  /**
   * At-least-once across restarts: at every moment of every execution, each record of the log
   * below a requested commit offset of its partition has been in a batch of a successful
   * `write_batches` call of every sink.
   */
  lemma AtLeastOnce(c: Config, steps: seq<Step>, worlds: seq<World>, i: nat, x: Entry, r: Event, k: nat)
    requires Protocol.Validated(c) && Execution(c, steps, worlds) && i < |worlds|
    requires x in worlds[i].requested
    requires r in worlds[i].log && r.tp == x.tp && r.offset < x.offset
    requires k < |c.sinks|
    ensures k < |worlds[i].written|
    ensures exists n, batch :: 0 <= n < |worlds[i].written[k]| && batch in worlds[i].written[k][n] && r in batch
  {
    ExecutionInv(c, steps, worlds, i);
    var w := worlds[i];
    assert Honoured(w, x);
    assert WrittenEverywhere(w.written, r);
    assert Written(w.written[k], r);
    var batch :| r in batch && BatchWritten(w.written[k], batch);
    var n :| 0 <= n < |w.written[k]| && batch in w.written[k][n];
  }

  /**
   * Nothing is skipped, whatever was replayed or lost with earlier lifetimes. A record that has not
   * reached every sink lies at or above every requested commit of its partition, so any restart
   * will consume it again; and this lifetime has consumed it or still has it ahead.
   */
  lemma NothingSkipped(c: Config, steps: seq<Step>, worlds: seq<World>, i: nat, r: Event)
    requires Protocol.Validated(c) && Execution(c, steps, worlds) && i < |worlds|
    requires r in worlds[i].log
    ensures var w := worlds[i];
      WrittenEverywhere(w.written, r) ||
      ((forall x :: x in w.requested && x.tp == r.tp ==> x.offset <= r.offset) &&
       (Consumed(w.session.source, r) || At(w.session.position, r.tp) <= r.offset))
  {
    ExecutionInv(c, steps, worlds, i);
    var w := worlds[i];
    assert forall x :: x in w.requested ==> Honoured(w, x);
    if r.offset < At(w.session.resume, r.tp) {
      assert Honoured(w, Entry(r.tp, w.session.resume[r.tp]));
    }
  }

  /** Some branch of the batch was refused, or its fan-out has failed. */
  ghost predicate Rejected(s: Session, b: nat) {
    b < |s.tasks| &&
    (s.tasks[b].outcome.Failed? ||
     exists k :: 0 <= k < |s.tasks[b].fan.branches| && s.tasks[b].fan.branches[k] == Ack.Counted(false))
  }

  lemma RejectedUncommitted(c: Config, w: World, b: nat)
    requires Protocol.Inv(c, w) && Rejected(w.session, b)
    ensures |w.session.source.ledger.commits| <= b
    ensures b !in w.session.source.ledger.completed
  {
    assert TaskOk(|c.sinks|, w.session.tasks[b]);
  }

  /** `u` is a later form of `t`: verdicts already counted stay, and a failure stays. */
  ghost predicate Grows(t: Task, u: Task) {
    && |u.fan.branches| == |t.fan.branches|
    && (forall k :: 0 <= k < |t.fan.branches| && t.fan.branches[k].Counted? ==> u.fan.branches[k] == t.fan.branches[k])
    && (t.outcome.Failed? ==> u.outcome.Failed?)
  }

  lemma {:induction false} DropUnsentGrows(f: Ack.Fan, sent: set<nat>, n: nat)
    requires n <= |f.branches|
    ensures forall k :: 0 <= k < |f.branches| && f.branches[k].Counted? ==>
      DropUnsent(f, sent, n).branches[k] == f.branches[k]
  {
    if n == 0 {
    } else {
      DropUnsentGrows(f, sent, n - 1);
    }
  }

  lemma AbandonGrows(t: Task)
    ensures Grows(t, Abandon(t))
  {
    DropUnsentGrows(t.fan, t.sent, |t.fan.branches|);
  }

  lemma HaltGrows(s: Session, b: nat)
    requires b < |s.tasks|
    ensures Grows(s.tasks[b], Halt(s).tasks[b])
  {
    AbandonGrows(s.tasks[b]);
  }

  lemma JoinGrows(c: Config, w: World, a: nat, refused: set<nat>, b: nat)
    requires Enabled(c, w, Join(a, refused)) && b < |w.session.tasks|
    ensures b < |Protocol.Apply(c, w, Join(a, refused)).session.tasks|
    ensures Grows(w.session.tasks[b], Protocol.Apply(c, w, Join(a, refused)).session.tasks[b])
  {
    HaltGrows(w.session, b);
  }

  lemma StepGrows(c: Config, w: World, st: Step, b: nat)
    requires Enabled(c, w, st) && !st.Restart? && b < |w.session.tasks|
    ensures b < |Protocol.Apply(c, w, st).session.tasks|
    ensures Grows(w.session.tasks[b], Protocol.Apply(c, w, st).session.tasks[b])
  {
    match st {
      case SendFails(a, _) => AbandonGrows(w.session.tasks[a]);
      case Join(a, refused) => JoinGrows(c, w, a, refused, b);
      case JoinFailed(_) => HaltGrows(w.session, b);
      case Stop => HaltGrows(w.session, b);
      case _ =>
    }
  }

  lemma StepKeepsRejection(c: Config, w: World, st: Step, b: nat)
    requires Enabled(c, w, st) && !st.Restart? && Rejected(w.session, b)
    ensures Rejected(Protocol.Apply(c, w, st).session, b)
  {
    StepGrows(c, w, st, b);
    var t, u := w.session.tasks[b], Protocol.Apply(c, w, st).session.tasks[b];
    if !t.outcome.Failed? {
      var k :| 0 <= k < |t.fan.branches| && t.fan.branches[k] == Ack.Counted(false);
      assert u.fan.branches[k] == Ack.Counted(false);
    }
  }

  lemma RunKeepsRejection(c: Config, steps: seq<Step>, worlds: seq<World>, i: nat, b: nat)
    requires Execution(c, steps, worlds) && i < |steps| && !steps[i].Restart?
    requires Rejected(worlds[i].session, b)
    ensures Rejected(worlds[i + 1].session, b)
  {
    StepKeepsRejection(c, worlds[i], steps[i], b);
  }

  /** What every step of a stretch keeps holds to its end. */
  lemma {:induction false} Persists(holds: seq<bool>, i: nat, j: nat)
    requires i <= j < |holds| && holds[i]
    requires forall m :: i <= m < j && holds[m] ==> holds[m + 1]
    ensures holds[j]
    decreases j - i
  {
    if i < j {
      assert holds[i + 1];
      Persists(holds, i + 1, j);
    }
  }

  lemma RejectionPersists(
    c: Config, steps: seq<Step>, worlds: seq<World>, i: nat, j: nat, b: nat)
    requires Execution(c, steps, worlds) && i <= j < |worlds|
    requires Rejected(worlds[i].session, b)
    requires forall m :: i <= m < j ==> !steps[m].Restart?
    ensures Rejected(worlds[j].session, b)
  {
    ghost var holds := seq(|worlds|, m requires 0 <= m < |worlds| => Rejected(worlds[m].session, b));
    forall m | i <= m < j && holds[m] ensures holds[m + 1] {
      RunKeepsRejection(c, steps, worlds, m, b);
    }
    Persists(holds, i, j);
  }

  /**
   * A rejected batch blocks the rest: from the moment one of its branches is refused until the
   * process restarts, neither it nor any later batch is committed.
   */
  lemma RejectionBlocks(c: Config, steps: seq<Step>, worlds: seq<World>, i: nat, j: nat, b: nat)
    requires Protocol.Validated(c) && Execution(c, steps, worlds) && i <= j < |worlds|
    requires Rejected(worlds[i].session, b)
    requires forall m :: i <= m < j ==> !steps[m].Restart?
    ensures |worlds[j].session.source.ledger.commits| <= b
    ensures b !in worlds[j].session.source.ledger.completed
  {
    RejectionPersists(c, steps, worlds, i, j, b);
    ExecutionInv(c, steps, worlds, j);
    RejectedUncommitted(c, worlds[j], b);
  }

  /** Within a lifetime the committed offsets of every partition strictly increase. */
  lemma CommitsIncrease(
    c: Config, steps: seq<Step>, worlds: seq<World>, i: nat, m: nat, n: nat, x: Entry, y: Entry)
    requires Protocol.Validated(c) && Execution(c, steps, worlds) && i < |worlds|
    requires m < n < |worlds[i].session.source.ledger.commits|
    requires x in worlds[i].session.source.ledger.commits[m].offsets
    requires y in worlds[i].session.source.ledger.commits[n].offsets
    requires x.tp == y.tp
    ensures x.offset < y.offset
  {
    ExecutionInv(c, steps, worlds, i);
    var src := worlds[i].session.source;
    assert src.ledger.commits[m] == Source.CompletionOf(src.batches, m);
    assert src.ledger.commits[n] == Source.CompletionOf(src.batches, n);
    var p := HighestRecord(src.batches[m], x);
    var q := HighestRecord(src.batches[n], y);
    assert p.offset < q.offset;
  }

  lemma HighestRecord(batch: Batch, x: Entry) returns (m: Event)
    requires x in NextOffsets(batch)
    ensures m in batch && m.tp == x.tp && m.offset + 1 == x.offset
  {
    NextOffsetsDescribes(batch);
    var i :| 0 <= i < |NextOffsets(batch)| && NextOffsets(batch)[i] == x;
    assert IsHighest(batch, NextOffsets(batch)[i].tp, NextOffsets(batch)[i].offset);
    m :| m in batch && m.tp == x.tp && m.offset + 1 == x.offset;
  }
}
