/** Progress: the router never deadlocks, and without new input it comes to rest. */
module Quiescence {
  import Source = SourceLoop
  import Sink = SinkRuntime
  import Ack = Acknowledgement
  import opened Fabric
  import opened Protocol
  import opened Delivery

  /** Steps the router takes on its own, with no new input and no restart. */
  predicate Internal(st: Step) {
    !st.Append? && !st.Receive? && !st.Linger? && !st.Restart?
  }

  /** Internal steps that nobody outside decides on: no stop, no sink shutdown, no dropped queue. */
  predicate Working(st: Step) {
    Internal(st) && !st.Stop? && (st.SinkStep? ==> Sink.Own(st.step))
  }

  // ----- no deadlock

  lemma SinkCanStep(c: Config, w: World, k: nat) returns (st: Step)
    requires Protocol.Validated(c) && FabricOk(c, w) && k < |c.sinks|
    requires Sink.Held(w.session.sinks[k]) != multiset{}
    ensures Enabled(c, w, st) && Working(st)
  {
    assert SinkOk(c.sinks[k], w.session.source.batches, w.session.sinks[k], w.written[k]);
    var step := Sink.NeverStuck(c.sinks[k], w.session.sinks[k]);
    st := SinkStep(k, step);
  }

  lemma SendCanStep(c: Config, w: World, b: nat, k: nat) returns (st: Step)
    requires Protocol.Validated(c) && FabricOk(c, w) && k < |c.sinks| && CanSend(w.session, b, k)
    ensures Enabled(c, w, st) && Working(st)
  {
    var sink := w.session.sinks[k];
    if sink.phase.Closed? {
      st := SendFails(b, k);
    } else if |sink.queue| < c.sinks[k].capacity {
      st := Enqueue(b, k);
    } else {
      assert sink.queue[0] in multiset(sink.queue);
      assert sink.queue[0] in Sink.Held(sink);
      st := SinkCanStep(c, w, k);
    }
  }

  /** A fan-out that has not ended can send, be settled by a sink, or conclude. */
  lemma TaskCanStep(c: Config, w: World, b: nat) returns (st: Step)
    requires Protocol.Validated(c) && FabricOk(c, w)
    requires b < |w.session.tasks| && w.session.tasks[b].outcome.Running?
    ensures Enabled(c, w, st) && Working(st)
  {
    var t := w.session.tasks[b];
    assert TaskOk(|c.sinks|, t);
    if k :| 0 <= k < |c.sinks| && k !in t.sent {
      st := SendCanStep(c, w, b, k);
    } else if k :| 0 <= k < |c.sinks| && t.fan.branches[k].Open? {
      st := WaitingCanStep(c, w, b, k);
    } else {
      Ack.OutstandingZero(t.fan.branches);
      st := ConcludeTask(b);
    }
  }

  lemma WaitingCanStep(c: Config, w: World, b: nat, k: nat) returns (st: Step)
    requires Protocol.Validated(c) && FabricOk(c, w)
    requires b < |w.session.tasks| && k < |c.sinks| && Waiting(w.session.tasks[b], k)
    ensures Enabled(c, w, st) && Working(st)
  {
    var s := w.session;
    assert LocatedAt(s.source.batches, s.tasks[b], s.sinks[k], b, k);
    assert EnvelopeOf(s.source.batches, b) in Sink.Held(s.sinks[k]);
    st := SinkCanStep(c, w, k);
  }

  /**
   * No deadlock: whenever a running source has a batch in flight, the router can work on it. No
   * stop, shutdown, restart or new record is needed to move on.
   */
  lemma AlwaysProgress(c: Config, w: World) returns (st: Step)
    requires Protocol.Validated(c) && Protocol.Inv(c, w)
    requires !w.session.stopped && w.session.source.inFlight != {}
    ensures Enabled(c, w, st) && Working(st)
  {
    var s := w.session;
    var b :| b in s.source.inFlight;
    assert b < |s.source.batches|;
    if s.tasks[b].outcome.Delivered? {
      st := Join(b, {});
    } else if s.tasks[b].outcome.Failed? {
      st := JoinFailed(b);
    } else {
      st := TaskCanStep(c, w, b);
    }
  }

  // ----- bounded work in a sink

  function PhaseWork(p: Sink.Phase): nat {
    match p
    case Accepting => 4
    case Coalescing => 4
    case WaitingSlot => 3
    case Draining => 2
    case Closed => 1
  }

  function WriteWork(c: Sink.Config, w: Sink.Write): nat {
    1 + |Sink.Rest(w)|
    + if w.progress.Attempting? && w.progress.attempt <= c.maxAttempts
      then c.maxAttempts - w.progress.attempt + 2 else 0
  }

  function WritesWork(c: Sink.Config, ws: seq<Sink.Write>): nat {
    if ws == [] then 0 else WritesWork(c, ws[..|ws| - 1]) + WriteWork(c, ws[|ws| - 1])
  }

  lemma {:induction false} WritesWorkConcat(c: Sink.Config, a: seq<Sink.Write>, b: seq<Sink.Write>)
    ensures WritesWork(c, a + b) == WritesWork(c, a) + WritesWork(c, b)
  {
    if b == [] {
      assert a + b == a;
    } else {
      var front := b[..|b| - 1];
      assert (a + b)[..|a + b| - 1] == a + front;
      WritesWorkConcat(c, a, front);
    }
  }

  lemma WritesWorkUpdate(c: Sink.Config, ws: seq<Sink.Write>, i: nat, w: Sink.Write)
    requires i < |ws|
    ensures WritesWork(c, ws[i := w]) == WritesWork(c, ws) - WriteWork(c, ws[i]) + WriteWork(c, w)
    ensures WritesWork(c, ws[..i] + ws[i + 1..]) == WritesWork(c, ws) - WriteWork(c, ws[i])
  {
    var a, b := ws[..i], ws[i + 1..];
    assert ws == a + [ws[i]] + b && ws[i := w] == a + [w] + b;
    WritesWorkConcat(c, a + [ws[i]], b);
    WritesWorkConcat(c, a, [ws[i]]);
    WritesWorkConcat(c, a + [w], b);
    WritesWorkConcat(c, a, [w]);
    WritesWorkConcat(c, a, b);
    assert WritesWork(c, [w]) == WriteWork(c, w) && WritesWork(c, [ws[i]]) == WriteWork(c, ws[i]);
  }

  /** Work an envelope can still cause while it waits in the queue. */
  function QueuedWork(c: Sink.Config): nat { c.maxAttempts + 6 }

  /** The same once the loop has taken it into its group. */
  function GroupedWork(c: Sink.Config): nat { c.maxAttempts + 5 }

  function Times(n: nat, weight: nat): nat {
    if n == 0 then 0 else Times(n - 1, weight) + weight
  }

  function SinkWork(c: Sink.Config, s: Sink.State): nat {
    Times(|s.queue|, QueuedWork(c)) + Times(|s.group|, GroupedWork(c)) + WritesWork(c, s.writes) + PhaseWork(s.phase)
  }

  lemma OneLess(n: nat, weight: nat)
    ensures Times(n + 1, weight) == Times(n, weight) + weight
  {
  }

  lemma {:induction false} AtLeastCount(n: nat, weight: nat)
    requires n >= 1 && weight >= 1
    ensures Times(n, weight) >= weight + (n - 1)
  {
    if n == 1 {
      assert Times(0, weight) == 0;
    } else {
      AtLeastCount(n - 1, weight);
    }
  }

  lemma DispatchWork(c: Sink.Config, s: Sink.State)
    requires Sink.Validated(c) && Sink.Grouped(c, s) && Sink.Enabled(c, s, Sink.Dispatch)
    ensures SinkWork(c, Sink.Apply(c, s, Sink.Dispatch)) < SinkWork(c, s)
  {
    var w := Sink.Write(|s.dispatched|, s.group, 0, Sink.Attempting(1));
    WritesWorkConcat(c, s.writes, [w]);
    assert WritesWork(c, [w]) == WritesWork(c, []) + WriteWork(c, w);
    AtLeastCount(|s.group|, GroupedWork(c));
  }

  lemma DropWork(c: Sink.Config, s: Sink.State, st: Sink.Step)
    requires st == Sink.DropQueued || st == Sink.DropGrouped
    requires Sink.Enabled(c, s, st)
    ensures SinkWork(c, Sink.Apply(c, s, st)) < SinkWork(c, s)
  {
    if st == Sink.DropGrouped {
      OneLess(|s.group| - 1, GroupedWork(c));
    } else {
      OneLess(|s.queue| - 1, QueuedWork(c));
    }
  }

  lemma TakeWork(c: Sink.Config, s: Sink.State)
    requires Sink.Enabled(c, s, Sink.Receive)
    ensures SinkWork(c, Sink.Apply(c, s, Sink.Receive)) < SinkWork(c, s)
  {
    var t := Sink.Apply(c, s, Sink.Receive);
    assert |t.queue| == |s.queue| - 1 && |t.group| == |s.group| + 1;
    OneLess(|t.queue|, QueuedWork(c));
    OneLess(|s.group|, GroupedWork(c));
  }

  lemma LighterWrite(c: Sink.Config, s: Sink.State, i: nat, w: Sink.Write)
    requires i < |s.writes| && WriteWork(c, w) < WriteWork(c, s.writes[i])
    ensures SinkWork(c, s.(writes := s.writes[i := w])) < SinkWork(c, s)
  {
    WritesWorkUpdate(c, s.writes, i, w);
  }

  lemma ReapWork(c: Sink.Config, s: Sink.State, i: nat)
    requires Sink.Enabled(c, s, Sink.Reap(i))
    ensures SinkWork(c, Sink.Apply(c, s, Sink.Reap(i))) < SinkWork(c, s)
  {
    WritesWorkUpdate(c, s.writes, i, s.writes[i]);
  }

  lemma WriteStepWork(c: Sink.Config, s: Sink.State, st: Sink.Step)
    requires Sink.SoundWrites(c, s) && Sink.Enabled(c, s, st)
    requires st.AttemptOk? || st.AttemptFail? || st.Settle? || st.Abort?
    ensures SinkWork(c, Sink.Apply(c, s, st)) < SinkWork(c, s)
  {
    assert Sink.SoundWrite(c, s, s.writes[st.i]);
    var t := Sink.Apply(c, s, st);
    assert t.writes == s.writes[st.i := t.writes[st.i]];
    LighterWrite(c, s, st.i, t.writes[st.i]);
  }

  /** Every step a sink takes on its own uses up some of the work it has left. */
  lemma SinkWorkDecreases(c: Sink.Config, s: Sink.State, st: Sink.Step)
    requires Sink.Validated(c) && Sink.SoundWrites(c, s) && Sink.Grouped(c, s)
    requires Sink.Enabled(c, s, st) && !st.Arrive?
    ensures SinkWork(c, Sink.Apply(c, s, st)) < SinkWork(c, s)
  {
    match st {
      case Dispatch => DispatchWork(c, s);
      case Receive => TakeWork(c, s);
      case DropQueued => DropWork(c, s, st);
      case DropGrouped => DropWork(c, s, st);
      case AttemptOk(_, _, _) => WriteStepWork(c, s, st);
      case AttemptFail(_) => WriteStepWork(c, s, st);
      case Settle(_) => WriteStepWork(c, s, st);
      case Reap(i) => ReapWork(c, s, i);
      case Abort(_) => WriteStepWork(c, s, st);
      case _ =>
    }
  }

  lemma ArriveWork(c: Sink.Config, s: Sink.State, e: Sink.Envelope)
    requires Sink.Enabled(c, s, Sink.Arrive(e))
    ensures SinkWork(c, Sink.Apply(c, s, Sink.Arrive(e))) == SinkWork(c, s) + QueuedWork(c)
  {
    OneLess(|s.queue|, QueuedWork(c));
  }

  // ----- bounded work in the whole system

  function SinksWork(cs: seq<Sink.Config>, ss: seq<Sink.State>): nat
    requires |cs| == |ss|
  {
    if ss == [] then 0
    else SinksWork(cs[..|ss| - 1], ss[..|ss| - 1]) + SinkWork(cs[|ss| - 1], ss[|ss| - 1])
  }

  lemma {:induction false} SinksWorkUpdate(cs: seq<Sink.Config>, ss: seq<Sink.State>, k: nat, s: Sink.State)
    requires |cs| == |ss| && k < |ss|
    ensures SinksWork(cs, ss[k := s]) == SinksWork(cs, ss) - SinkWork(cs[k], ss[k]) + SinkWork(cs[k], s)
  {
    var n := |ss| - 1;
    if k < n {
      assert ss[k := s][..n] == ss[..n][k := s];
      SinksWorkUpdate(cs[..n], ss[..n], k, s);
    } else {
      assert ss[k := s][..n] == ss[..n];
    }
  }

  /** Work the envelopes not yet handed over can still cause. */
  function UnsentWork(cs: seq<Sink.Config>, sent: set<nat>): nat {
    if cs == [] then 0
    else UnsentWork(cs[..|cs| - 1], sent) + if |cs| - 1 in sent then 0 else QueuedWork(cs[|cs| - 1]) + 1
  }

  lemma {:induction false} UnsentWorkSend(cs: seq<Sink.Config>, sent: set<nat>, k: nat)
    requires k < |cs| && k !in sent
    ensures UnsentWork(cs, sent + {k}) == UnsentWork(cs, sent) - (QueuedWork(cs[k]) + 1)
  {
    var n := |cs| - 1;
    if k < n {
      UnsentWorkSend(cs[..n], sent, k);
    } else {
      UnsentWorkIgnores(cs[..n], sent, k);
    }
  }

  lemma {:induction false} UnsentWorkIgnores(cs: seq<Sink.Config>, sent: set<nat>, k: nat)
    requires |cs| <= k
    ensures UnsentWork(cs, sent + {k}) == UnsentWork(cs, sent)
  {
    if cs == [] {
    } else {
      UnsentWorkIgnores(cs[..|cs| - 1], sent, k);
    }
  }

  function TaskWork(cs: seq<Sink.Config>, t: Task): nat {
    if t.outcome.Running? then 1 + UnsentWork(cs, t.sent) else 0
  }

  function TasksWork(cs: seq<Sink.Config>, ts: seq<Task>): nat {
    if ts == [] then 0 else TasksWork(cs, ts[..|ts| - 1]) + TaskWork(cs, ts[|ts| - 1])
  }

  lemma {:induction false} TasksWorkUpdate(cs: seq<Sink.Config>, ts: seq<Task>, b: nat, t: Task)
    requires b < |ts|
    ensures TasksWork(cs, ts[b := t]) == TasksWork(cs, ts) - TaskWork(cs, ts[b]) + TaskWork(cs, t)
  {
    var n := |ts| - 1;
    if b < n {
      assert ts[b := t][..n] == ts[..n][b := t];
      TasksWorkUpdate(cs, ts[..n], b, t);
    } else {
      assert ts[b := t][..n] == ts[..n];
    }
  }

  lemma {:induction false} TasksWorkLess(cs: seq<Sink.Config>, ts: seq<Task>, us: seq<Task>)
    requires |ts| == |us| && forall b :: 0 <= b < |ts| ==> TaskWork(cs, us[b]) <= TaskWork(cs, ts[b])
    ensures TasksWork(cs, us) <= TasksWork(cs, ts)
  {
    if ts == [] {
    } else {
      TasksWorkLess(cs, ts[..|ts| - 1], us[..|us| - 1]);
    }
  }

  ghost function Work(c: Config, w: World): nat
    requires |w.session.sinks| == |c.sinks|
  {
    var s := w.session;
    SinksWork(c.sinks, s.sinks) + TasksWork(c.sinks, s.tasks) + if s.stopped then 0 else 1 + |s.source.inFlight|
  }

  lemma EnqueueWork(c: Config, w: World, b: nat, k: nat)
    requires Protocol.Validated(c) && Protocol.Inv(c, w) && Enabled(c, w, Enqueue(b, k))
    ensures Work(c, Protocol.Apply(c, w, Enqueue(b, k))) < Work(c, w)
  {
    var s := w.session;
    var e, t := EnvelopeOf(s.source.batches, b), s.tasks[b].(sent := s.tasks[b].sent + {k});
    ArriveWork(c.sinks[k], s.sinks[k], e);
    SinksWorkUpdate(c.sinks, s.sinks, k, Sink.Apply(c.sinks[k], s.sinks[k], Sink.Arrive(e)));
    UnsentWorkSend(c.sinks, s.tasks[b].sent, k);
    TasksWorkUpdate(c.sinks, s.tasks, b, t);
  }

  lemma SinkStepWork(c: Config, w: World, k: nat, st: Sink.Step)
    requires Protocol.Validated(c) && FabricOk(c, w) && Enabled(c, w, SinkStep(k, st))
    ensures Work(c, SinkMoves(c, w, k, st)) < Work(c, w)
  {
    var s := w.session;
    assert SinkOk(c.sinks[k], s.source.batches, s.sinks[k], w.written[k]);
    SinkWorkDecreases(c.sinks[k], s.sinks[k], st);
    SinksWorkUpdate(c.sinks, s.sinks, k, Sink.Apply(c.sinks[k], s.sinks[k], st));
    VerdictTasksWork(c, w, k, st);
  }

  lemma VerdictTasksWork(c: Config, w: World, k: nat, st: Sink.Step)
    requires Enabled(c, w, SinkStep(k, st))
    ensures TasksWork(c.sinks, SinkMoves(c, w, k, st).session.tasks) == TasksWork(c.sinks, w.session.tasks)
  {
    var s, v := w.session, SinkMoves(c, w, k, st);
    if v.session.tasks != s.tasks {
      var b := Sink.EffectOf(c.sinks[k], s.sinks[k], st).envelope.batch;
      TasksWorkUpdate(c.sinks, s.tasks, b, v.session.tasks[b]);
    }
  }

  lemma TaskStepWork(c: Config, w: World, b: nat, u: Task)
    requires |w.session.sinks| == |c.sinks| && b < |w.session.tasks|
    requires w.session.tasks[b].outcome.Running? && !u.outcome.Running?
    ensures Work(c, w.(session := w.session.(tasks := w.session.tasks[b := u]))) < Work(c, w)
  {
    TasksWorkUpdate(c.sinks, w.session.tasks, b, u);
  }

  lemma HaltWork(c: Config, w: World)
    requires |w.session.sinks| == |c.sinks| && !w.session.stopped
    ensures Work(c, w.(session := Halt(w.session))) < Work(c, w)
  {
    TasksWorkLess(c.sinks, w.session.tasks, Halt(w.session).tasks);
  }

  lemma JoinWork(c: Config, w: World, b: nat, refused: set<nat>)
    requires |w.session.sinks| == |c.sinks| && Enabled(c, w, Join(b, refused))
    ensures Work(c, Protocol.Apply(c, w, Join(b, refused))) < Work(c, w)
  {
    var s, r := w.session, Source.Reap(w.session.source, b, refused);
    assert |s.source.inFlight - {b}| == |s.source.inFlight| - 1;
    var v := w.(session := s.(source := r.state));
    if !r.ok {
      HaltWork(c, v);
    }
  }

  lemma SinksStay(c: Config, w: World, st: Step)
    requires |w.session.sinks| == |c.sinks| && Enabled(c, w, st) && Internal(st)
    ensures |Protocol.Apply(c, w, st).session.sinks| == |c.sinks|
  {
  }

  /** Every internal step of the system uses up some of the work that is left. */
  lemma WorkDecreases(c: Config, w: World, st: Step)
    requires Protocol.Validated(c) && Protocol.Inv(c, w) && Enabled(c, w, st) && Internal(st)
    ensures |Protocol.Apply(c, w, st).session.sinks| == |c.sinks|
    ensures Work(c, Protocol.Apply(c, w, st)) < Work(c, w)
  {
    SinksStay(c, w, st);
    match st {
      case Enqueue(b, k) => EnqueueWork(c, w, b, k);
      case SendFails(b, _) => TaskStepWork(c, w, b, Abandon(w.session.tasks[b]));
      case ConcludeTask(b) => TaskStepWork(c, w, b, Conclude(w.session.tasks[b]));
      case SinkStep(k, st) => SinkStepWork(c, w, k, st);
      case Join(b, refused) => JoinWork(c, w, b, refused);
      case JoinFailed(b) => HaltWork(c, w);
      case Stop => HaltWork(c, w);
    }
  }

  /**
   * Without new input the router comes to rest: a stretch of internal steps is never longer
   * than the work present at its start.
   */
  lemma InternalStretchIsBounded(c: Config, steps: seq<Step>, worlds: seq<World>, i: nat, j: nat)
    requires Protocol.Validated(c) && Execution(c, steps, worlds) && i <= j < |worlds|
    requires forall m :: i <= m < j ==> Internal(steps[m])
    ensures |worlds[i].session.sinks| == |worlds[j].session.sinks| == |c.sinks|
    ensures Work(c, worlds[j]) + (j - i) <= Work(c, worlds[i])
  {
    forall m | 0 <= m < |worlds| ensures |worlds[m].session.sinks| == |c.sinks| {
      SinksPresent(c, steps, worlds, m);
    }
    var works := seq(|worlds|, m requires 0 <= m < |worlds| => Work(c, worlds[m]));
    forall m | i <= m < j ensures works[m + 1] < works[m] {
      InternalStepWorks(c, steps, worlds, m);
    }
    DecreaseIsBounded(works, i, j);
  }

  lemma {:induction false} DecreaseIsBounded(works: seq<nat>, i: nat, j: nat)
    requires i <= j < |works| && forall m :: i <= m < j ==> works[m + 1] < works[m]
    ensures works[j] + (j - i) <= works[i]
    decreases j - i
  {
    if i < j {
      DecreaseIsBounded(works, i + 1, j);
      assert works[i + 1] < works[i];
    }
  }

  lemma SinksPresent(c: Config, steps: seq<Step>, worlds: seq<World>, i: nat)
    requires Protocol.Validated(c) && Execution(c, steps, worlds) && i < |worlds|
    ensures |worlds[i].session.sinks| == |c.sinks|
  {
    ExecutionInv(c, steps, worlds, i);
  }

  lemma InternalStepWorks(c: Config, steps: seq<Step>, worlds: seq<World>, i: nat)
    requires Protocol.Validated(c) && Execution(c, steps, worlds) && i < |steps| && Internal(steps[i])
    ensures |worlds[i].session.sinks| == |worlds[i + 1].session.sinks| == |c.sinks|
    ensures Work(c, worlds[i + 1]) < Work(c, worlds[i])
  {
    ExecutionInv(c, steps, worlds, i);
    WorkDecreases(c, worlds[i], steps[i]);
  }

  // ----- rest

  /** Nothing is left that the router could do on its own. */
  ghost predicate AtRest(c: Config, w: World) {
    forall st :: Working(st) ==> !Enabled(c, w, st)
  }

  /** A live sink waiting for its next envelope, with no write open. */
  predicate IsIdle(s: Sink.State) {
    s.phase.Accepting? && s.writes == []
  }

  /** At rest every sink holds nothing: it waits for envelopes with no write open, or it has returned. */
  lemma SinksAtRest(c: Config, w: World, k: nat)
    requires Protocol.Validated(c) && FabricOk(c, w) && AtRest(c, w) && k < |c.sinks|
    ensures var s := w.session.sinks[k];
      Sink.Held(s) == multiset{} && (s.phase.Closed? || IsIdle(s))
  {
    assert SinkOk(c.sinks[k], w.session.source.batches, w.session.sinks[k], w.written[k]);
    forall st | Sink.Own(st) ensures !Sink.Enabled(c.sinks[k], w.session.sinks[k], st) {
      assert !Enabled(c, w, SinkStep(k, st));
    }
    Sink.RestHoldsNothing(c.sinks[k], w.session.sinks[k]);
  }

  /** At rest every fan-out has returned its verdict. */
  lemma TasksAtRest(c: Config, w: World, b: nat)
    requires Protocol.Validated(c) && FabricOk(c, w) && AtRest(c, w) && b < |w.session.tasks|
    ensures !w.session.tasks[b].outcome.Running?
  {
    if w.session.tasks[b].outcome.Running? {
      var st := TaskCanStep(c, w, b);
    }
  }

  /** At rest the source has stopped, or has joined and committed every batch it dispatched. */
  lemma SourceAtRest(c: Config, w: World)
    requires Protocol.Validated(c) && Protocol.Inv(c, w) && AtRest(c, w)
    ensures w.session.stopped || w.session.source.inFlight == {}
    ensures !w.session.stopped ==> |w.session.source.ledger.commits| == |w.session.source.batches|
  {
    if !w.session.stopped {
      if w.session.source.inFlight != {} {
        var st := AlwaysProgress(c, w);
      }
      IdleMeansCommitted(c, w);
    }
  }

  /** What holds when the router has come to rest. */
  ghost predicate Rested(c: Config, w: World) {
    && |w.session.sinks| == |c.sinks|
    && (forall k :: 0 <= k < |c.sinks| ==> Sink.Held(w.session.sinks[k]) == multiset{})
    && (forall k :: 0 <= k < |c.sinks| ==>
          w.session.sinks[k].phase.Closed? || IsIdle(w.session.sinks[k]))
    && (forall b :: 0 <= b < |w.session.tasks| ==> !w.session.tasks[b].outcome.Running?)
    && (w.session.stopped ||
        (w.session.source.inFlight == {} && |w.session.source.ledger.commits| == |w.session.source.batches|))
  }

  lemma InvRested(c: Config, w: World)
    requires Protocol.Validated(c) && Protocol.Inv(c, w) && AtRest(c, w)
    ensures Rested(c, w)
  {
    SourceAtRest(c, w);
    forall k | 0 <= k < |c.sinks|
      ensures Sink.Held(w.session.sinks[k]) == multiset{}
      ensures w.session.sinks[k].phase.Closed? || IsIdle(w.session.sinks[k])
    {
      SinksAtRest(c, w, k);
    }
    forall b | 0 <= b < |w.session.tasks| ensures !w.session.tasks[b].outcome.Running? {
      TasksAtRest(c, w, b);
    }
  }

  /**
   * At rest, with the sinks alive and waiting: no sink holds an envelope, every fan-out has its
   * verdict, and each dispatched batch was joined and committed, unless the source has stopped.
   */
  lemma RestMeansReaped(c: Config, steps: seq<Step>, worlds: seq<World>, i: nat)
    requires Protocol.Validated(c) && Execution(c, steps, worlds) && i < |worlds|
    requires AtRest(c, worlds[i])
    ensures Rested(c, worlds[i])
  {
    ExecutionInv(c, steps, worlds, i);
    InvRested(c, worlds[i]);
  }

  /** `later` goes on from where `steps` ends, by working steps only. */
  ghost predicate WorksOn(steps: seq<Step>, later: seq<Step>) {
    steps <= later && forall m :: |steps| <= m < |later| ==> Working(later[m])
  }

  /**
   * The router always settles: from the end of any execution, working steps alone lead to rest,
   * and they are never more than the work that was left.
   */
  lemma {:induction false} SettlesDown(c: Config, steps: seq<Step>, worlds: seq<World>)
    returns (later: seq<Step>, after: seq<World>)
    requires Protocol.Validated(c) && Execution(c, steps, worlds)
    ensures Execution(c, later, after) && WorksOn(steps, later) && worlds <= after
    ensures |worlds[|steps|].session.sinks| == |c.sinks| && |later| - |steps| <= Work(c, worlds[|steps|])
    ensures AtRest(c, after[|later|]) && Rested(c, after[|later|])
    decreases EndWork(c, steps, worlds)
  {
    SinksPresent(c, steps, worlds, |steps|);
    var w := worlds[|steps|];
    if st :| Working(st) && Enabled(c, w, st) {
      var more, next := WorkingStep(c, steps, worlds, st);
      later, after := SettlesDown(c, more, next);
    } else {
      later, after := steps, worlds;
      RestMeansReaped(c, steps, worlds, |steps|);
    }
  }

  lemma WorkingStep(c: Config, steps: seq<Step>, worlds: seq<World>, st: Step)
    returns (more: seq<Step>, next: seq<World>)
    requires Protocol.Validated(c) && Execution(c, steps, worlds)
    requires Working(st) && Enabled(c, worlds[|steps|], st)
    ensures more == steps + [st] && worlds <= next && Execution(c, more, next)
    ensures EndWork(c, more, next) < EndWork(c, steps, worlds)
  {
    var v := Protocol.Apply(c, worlds[|steps|], st);
    more, next := steps + [st], worlds + [v];
    ExtendExecution(c, steps, worlds, st, v);
    InternalStepWorks(c, more, next, |steps|);
  }

  ghost function EndWork(c: Config, steps: seq<Step>, worlds: seq<World>): nat
    requires Protocol.Validated(c) && Execution(c, steps, worlds)
  {
    SinksPresent(c, steps, worlds, |steps|);
    Work(c, worlds[|steps|])
  }

  /**
   * And it settles whichever way it goes: a stretch of working steps that cannot be continued has
   * at most as many steps as there was work, and ends with every dispatched batch joined and
   * committed, or with the source stopped.
   */
  lemma MaximalStretchSettles(c: Config, steps: seq<Step>, worlds: seq<World>, i: nat, j: nat)
    requires Protocol.Validated(c) && Execution(c, steps, worlds) && i <= j < |worlds|
    requires (forall m :: i <= m < j ==> Working(steps[m])) && AtRest(c, worlds[j])
    ensures |worlds[i].session.sinks| == |c.sinks| && j - i <= Work(c, worlds[i])
    ensures Rested(c, worlds[j])
  {
    InternalStretchIsBounded(c, steps, worlds, i, j);
    RestMeansReaped(c, steps, worlds, j);
  }

  /** The session has consumed the log to its end and has nothing left to dispatch or to join. */
  ghost predicate CaughtUp(w: World) {
    && !w.session.stopped && w.session.source.inFlight == {} && w.session.source.pending == []
    && forall r :: r in w.log ==> r.offset < At(w.session.position, r.tp)
  }

  /** With nothing in flight, every batch dispatched in this lifetime was delivered and committed. */
  lemma IdleMeansCommitted(c: Config, w: World)
    requires SourceOk(c, w.session) && !w.session.stopped && w.session.source.inFlight == {}
    ensures |w.session.source.ledger.commits| == |w.session.source.batches|
    ensures forall b :: 0 <= b < |w.session.tasks| ==> w.session.tasks[b].outcome.Delivered?
  {
    var src := w.session.source;
    assert src.ledger.next == src.sequence by {
      var n := src.ledger.next;
      assert n < src.sequence ==> n in src.inFlight || n in src.ledger.completed;
    }
  }

  /**
   * Complete delivery: once a running source has caught up with the log, every record ever
   * appended has reached every sink and every batch of this lifetime is committed.
   */
  lemma CaughtUpMeansDelivered(c: Config, steps: seq<Step>, worlds: seq<World>, i: nat)
    requires Protocol.Validated(c) && Execution(c, steps, worlds) && i < |worlds|
    requires CaughtUp(worlds[i])
    ensures forall r :: r in worlds[i].log ==> WrittenEverywhere(worlds[i].written, r)
    ensures |worlds[i].session.source.ledger.commits| == |worlds[i].session.source.batches|
  {
    var w := worlds[i];
    ExecutionInv(c, steps, worlds, i);
    IdleMeansCommitted(c, w);
    forall r | r in w.log ensures WrittenEverywhere(w.written, r) {
      NothingSkipped(c, steps, worlds, i, r);
      if Consumed(w.session.source, r) {
        var b :| 0 <= b < |w.session.source.batches| && r in w.session.source.batches[b];
        PrefixWritten(c, w, b, r, r);
      }
    }
  }
}
