/**
 * The fan-out tasks and the sinks they feed: which envelope is where, and what a delivered
 * verdict is worth (src/topology.rs, src/sink/mod.rs).
 */
module Fabric {
  import opened Events
  import opened Sequences
  import Ack = Acknowledgement
  import Sink = SinkRuntime

  datatype Outcome = Running | Delivered | Failed

  /** One `Fanout::send`: `sent` holds the destinations whose queue took the envelope. */
  datatype Task = Task(fan: Ack.Fan, sent: set<nat>, outcome: Outcome)

  function NewTask(n: nat): Task {
    Task(Ack.Start(n), {}, Running)
  }

  /** `BranchAck::complete` run to its end; a branch that is already completed stays as it is. */
  function Complete(f: Ack.Fan, k: nat, ok: bool): Ack.Fan
    requires k < |f.branches|
  {
    if f.branches[k].Open? then Ack.Apply(Ack.Apply(f, Ack.Swap(k, ok)), Ack.Enter(k)) else f
  }

  /** Dropping a send future drops the envelopes it has not handed over yet. */
  function DropUnsent(f: Ack.Fan, sent: set<nat>, n: nat): (r: Ack.Fan)
    requires n <= |f.branches|
    ensures |r.branches| == |f.branches|
  {
    if n == 0 then f
    else
      var r := DropUnsent(f, sent, n - 1);
      if n - 1 in sent then r else Complete(r, n - 1, false)
  }

  function Abandon(t: Task): Task {
    t.(fan := DropUnsent(t.fan, t.sent, |t.fan.branches|), outcome := Failed)
  }

  function AbortTask(t: Task): Task {
    if t.outcome.Running? then Abandon(t) else t
  }

  /** `try_join_all` is through and the verdict has arrived. */
  predicate CanConclude(t: Task) {
    && t.outcome.Running?
    && (forall k :: 0 <= k < |t.fan.branches| ==> k in t.sent)
    && (t.fan.branches == [] || t.fan.shared.sent != [])
  }

  function Conclude(t: Task): Task
    requires CanConclude(t)
  {
    t.(outcome := if t.fan.branches == [] || t.fan.shared.sent[0] then Delivered else Failed)
  }

  function EnvelopeOf(batches: seq<Batch>, b: nat): Sink.Envelope
    requires b < |batches|
  {
    Sink.Envelope(b, |batches[b]|, BatchBytes(batches[b]))
  }

  /** Some successful `write_batches` call in the history carried the batch. */
  ghost predicate BatchWritten(calls: seq<seq<Batch>>, batch: Batch) {
    exists i :: 0 <= i < |calls| && batch in calls[i]
  }

  lemma BatchWrittenStays(calls: seq<seq<Batch>>, more: seq<seq<Batch>>, batch: Batch)
    requires calls <= more && BatchWritten(calls, batch)
    ensures BatchWritten(more, batch)
  {
    var i :| 0 <= i < |calls| && batch in calls[i];
    assert batch in more[i];
  }

  function BatchesOf(batches: seq<Batch>, group: seq<Sink.Envelope>): seq<Batch> {
    if group == [] then []
    else
      var e := group[|group| - 1];
      BatchesOf(batches, group[..|group| - 1]) + if e.batch < |batches| then [batches[e.batch]] else []
  }

  lemma {:induction false} BatchesOfMember(batches: seq<Batch>, group: seq<Sink.Envelope>, e: Sink.Envelope)
    requires e in group && e.batch < |batches|
    ensures batches[e.batch] in BatchesOf(batches, group)
  {
    if e != group[|group| - 1] {
      BatchesOfMember(batches, group[..|group| - 1], e);
    }
  }

  /** `call` hands over exactly the group's batches, in order, and the envelopes carry their sizes. */
  ghost predicate IsCall(batches: seq<Batch>, group: seq<Sink.Envelope>, call: seq<Batch>) {
    && |call| == |group|
    && forall j :: 0 <= j < |group| ==>
         && group[j].batch < |batches| && call[j] == batches[group[j].batch]
         && group[j].events == |call[j]| && group[j].bytes == BatchBytes(call[j])
  }

  lemma {:induction false} BatchesOfIs(batches: seq<Batch>, group: seq<Sink.Envelope>)
    requires forall e :: e in group ==> IsEnvelope(batches, e)
    ensures IsCall(batches, group, BatchesOf(batches, group))
  {
    if group == [] {
    } else {
      var front, last := group[..|group| - 1], group[|group| - 1];
      assert last in group && forall e :: e in front ==> e in group;
      BatchesOfIs(batches, front);
      IsCallPush(batches, front, BatchesOf(batches, front), last);
      assert front + [last] == group;
    }
  }

  lemma IsCallPush(batches: seq<Batch>, group: seq<Sink.Envelope>, call: seq<Batch>, e: Sink.Envelope)
    requires IsCall(batches, group, call) && IsEnvelope(batches, e)
    ensures IsCall(batches, group + [e], call + [batches[e.batch]])
  {
  }

  /** The sums the sink's limits look at are the events and bytes of the batches themselves. */
  lemma {:induction false} CallSizes(batches: seq<Batch>, group: seq<Sink.Envelope>, call: seq<Batch>)
    requires IsCall(batches, group, call)
    ensures Sink.EventCount(group) == |Flatten(call)| && Sink.ByteCount(group) == BatchBytes(Flatten(call))
  {
    if group == [] {
    } else {
      var n := |group| - 1;
      CallSizes(batches, group[..n], call[..n]);
      BatchBytesConcat(Flatten(call[..n]), call[n]);
    }
  }

  // ----- tasks

  ghost predicate Waiting(t: Task, k: nat) {
    k in t.sent && k < |t.fan.branches| && t.fan.branches[k].Open?
  }

  ghost predicate TaskOk(n: nat, t: Task) {
    && |t.fan.branches| == n
    && (n > 0 ==> Ack.Consistent(t.fan))
    && (forall k :: k in t.sent ==> k < n)
    && (forall k :: 0 <= k < n ==> !t.fan.branches[k].Claimed?)
    && (t.outcome.Running? ==> forall k :: 0 <= k < n && k !in t.sent ==> t.fan.branches[k].Open?)
    && (!t.outcome.Running? ==> forall k :: 0 <= k < n && k !in t.sent ==> !t.fan.branches[k].Open?)
    && (t.outcome.Delivered? ==> forall k :: 0 <= k < n ==> t.fan.branches[k] == Ack.Counted(true))
  }

  lemma NewTaskOk(n: nat)
    ensures TaskOk(n, NewTask(n))
  {
    if n > 0 {
      Ack.StartConsistent(n);
    }
  }

  lemma CompleteIs(f: Ack.Fan, k: nat, ok: bool)
    requires k < |f.branches| && f.branches[k].Open?
    ensures Complete(f, k, ok).branches == f.branches[k := Ack.Counted(ok)]
    ensures Ack.Consistent(f) ==> Ack.Consistent(Complete(f, k, ok))
  {
    var g := Ack.Apply(f, Ack.Swap(k, ok));
    if Ack.Consistent(f) {
      Ack.ApplyConsistent(f, Ack.Swap(k, ok));
      Ack.ApplyConsistent(g, Ack.Enter(k));
    }
  }

  lemma {:induction false} DropUnsentIs(f: Ack.Fan, sent: set<nat>, n: nat)
    requires n <= |f.branches| && Ack.Consistent(f)
    ensures Ack.Consistent(DropUnsent(f, sent, n))
    ensures Dropped(f.branches, DropUnsent(f, sent, n).branches, sent, n)
  {
    if n == 0 {
    } else {
      var mid := DropUnsent(f, sent, n - 1);
      DropUnsentIs(f, sent, n - 1);
      DropOne(mid, sent, n - 1);
      DroppedOne(f.branches, mid.branches, DropUnsent(f, sent, n).branches, sent, n - 1);
    }
  }

  /** The first `n` branches that were open and not handed over are refused, and no other changes. */
  ghost predicate Dropped(before: seq<Ack.Branch>, after: seq<Ack.Branch>, sent: set<nat>, n: nat) {
    |after| == |before| &&
    forall k :: 0 <= k < |before| ==>
      after[k] == if k < n && k !in sent && before[k].Open? then Ack.Counted(false) else before[k]
  }

  lemma DroppedOne(
    before: seq<Ack.Branch>, mid: seq<Ack.Branch>, after: seq<Ack.Branch>, sent: set<nat>, k: nat)
    requires Dropped(before, mid, sent, k) && k < |before|
    requires after == if k !in sent && mid[k].Open? then mid[k := Ack.Counted(false)] else mid
    ensures Dropped(before, after, sent, k + 1)
  {
  }

  lemma DropOne(f: Ack.Fan, sent: set<nat>, k: nat)
    requires k < |f.branches| && Ack.Consistent(f)
    ensures var r := if k in sent then f else Complete(f, k, false);
      && Ack.Consistent(r)
      && r.branches == if k !in sent && f.branches[k].Open? then f.branches[k := Ack.Counted(false)] else f.branches
  {
    if k !in sent && f.branches[k].Open? {
      CompleteIs(f, k, false);
    }
  }

  /** `u` waits for the same sinks as `t` and claims no delivery that `t` does not. */
  ghost predicate Weakens(t: Task, u: Task) {
    && |u.fan.branches| == |t.fan.branches|
    && (forall k :: Waiting(t, k) <==> Waiting(u, k))
    && (forall k :: 0 <= k < |t.fan.branches| && u.fan.branches[k] == Ack.Counted(true) ==>
          t.fan.branches[k] == Ack.Counted(true))
  }

  lemma AbandonOk(n: nat, t: Task)
    requires TaskOk(n, t) && t.outcome.Running?
    ensures TaskOk(n, Abandon(t)) && Weakens(t, Abandon(t))
  {
    if n > 0 {
      DropUnsentIs(t.fan, t.sent, n);
    }
  }

  /** A finished send succeeded if and only if every branch was counted as delivered. */
  lemma ConcludeOk(n: nat, t: Task)
    requires TaskOk(n, t) && CanConclude(t)
    ensures TaskOk(n, Conclude(t)) && Weakens(t, Conclude(t))
    ensures Conclude(t).outcome.Delivered? <==> forall k :: 0 <= k < n ==> t.fan.branches[k] == Ack.Counted(true)
  {
    if n > 0 {
      Ack.OutstandingZero(t.fan.branches);
      assert forall k :: 0 <= k < n ==> t.fan.branches[k].Counted?;
      if Ack.NoneRefused(t.fan.branches) {
        assert forall k :: 0 <= k < n ==> t.fan.branches[k].ok;
      }
    }
  }

  // ----- where each envelope is

  ghost predicate LocatedAt(batches: seq<Batch>, t: Task, s: Sink.State, b: nat, k: nat)
    requires b < |batches|
  {
    Sink.Held(s)[EnvelopeOf(batches, b)] == if Waiting(t, k) then 1 else 0
  }

  ghost predicate Located(batches: seq<Batch>, tasks: seq<Task>, sinks: seq<Sink.State>) {
    |tasks| == |batches| &&
    forall b, k :: 0 <= b < |tasks| && 0 <= k < |sinks| ==> LocatedAt(batches, tasks[b], sinks[k], b, k)
  }

  ghost predicate IsEnvelope(batches: seq<Batch>, e: Sink.Envelope) {
    e.batch < |batches| && e == EnvelopeOf(batches, e.batch)
  }

  ghost predicate Genuine(batches: seq<Batch>, s: Sink.State) {
    forall e :: e in Sink.Held(s) ==> IsEnvelope(batches, e)
  }

  ghost predicate SuccessOk(batches: seq<Batch>, s: Sink.State, calls: seq<seq<Batch>>) {
    forall e :: Sink.InSome(s.successes, e) ==> e.batch < |batches| && BatchWritten(calls, batches[e.batch])
  }

  ghost predicate SinkOk(c: Sink.Config, batches: seq<Batch>, s: Sink.State, calls: seq<seq<Batch>>) {
    Sink.Inv(c, s) && Genuine(batches, s) && SuccessOk(batches, s, calls)
  }

  ghost predicate CoveredAt(batches: seq<Batch>, t: Task, calls: seq<seq<Batch>>, b: nat, k: nat)
    requires b < |batches|
  {
    k < |t.fan.branches| && t.fan.branches[k] == Ack.Counted(true) ==> BatchWritten(calls, batches[b])
  }

  /** A branch counted as delivered stands for a successful write of its batch at its sink. */
  ghost predicate Covered(batches: seq<Batch>, tasks: seq<Task>, written: seq<seq<seq<Batch>>>) {
    |tasks| == |batches| &&
    forall b, k :: 0 <= b < |tasks| && 0 <= k < |written| ==> CoveredAt(batches, tasks[b], written[k], b, k)
  }

  ghost predicate Inv(
    configs: seq<Sink.Config>, batches: seq<Batch>, tasks: seq<Task>,
    sinks: seq<Sink.State>, written: seq<seq<seq<Batch>>>)
  {
    && |tasks| == |batches|
    && (forall b :: 0 <= b < |tasks| ==> TaskOk(|configs|, tasks[b]))
    && SinksOk(configs, batches, sinks, written)
    && Located(batches, tasks, sinks)
    && Covered(batches, tasks, written)
  }

  lemma FreshInv(configs: seq<Sink.Config>, written: seq<seq<seq<Batch>>>)
    requires |written| == |configs|
    ensures Inv(configs, [], [], seq(|configs|, _ => Sink.START), written)
  {
    var sinks := seq(|configs|, _ => Sink.START);
    forall k | 0 <= k < |sinks| ensures SinkOk(configs[k], [], sinks[k], written[k]) {
      Sink.StartInv(configs[k]);
    }
  }

  /** Dispatching one more batch disturbs nothing that is already on its way. */
  lemma DispatchInv(
    configs: seq<Sink.Config>, batches: seq<Batch>, tasks: seq<Task>,
    sinks: seq<Sink.State>, written: seq<seq<seq<Batch>>>, batch: Batch)
    requires Inv(configs, batches, tasks, sinks, written)
    ensures Inv(configs, batches + [batch], tasks + [NewTask(|configs|)], sinks, written)
  {
    NewTaskOk(|configs|);
    DispatchSinks(configs, batches, sinks, written, batch);
    forall k | 0 <= k < |sinks| ensures Genuine(batches, sinks[k]) {
      assert SinkOk(configs[k], batches, sinks[k], written[k]);
    }
    DispatchLocated(batches, tasks, sinks, batch, |configs|);
    DispatchCovered(batches, tasks, written, batch, |configs|);
  }

  lemma DispatchSinks(
    configs: seq<Sink.Config>, batches: seq<Batch>, sinks: seq<Sink.State>,
    written: seq<seq<seq<Batch>>>, batch: Batch)
    requires SinksOk(configs, batches, sinks, written)
    ensures SinksOk(configs, batches + [batch], sinks, written)
  {
    forall k | 0 <= k < |sinks| ensures SinkOk(configs[k], batches + [batch], sinks[k], written[k]) {
      DispatchSink(configs[k], batches, sinks[k], written[k], batch);
    }
  }

  lemma DispatchSink(c: Sink.Config, batches: seq<Batch>, s: Sink.State, calls: seq<seq<Batch>>, batch: Batch)
    requires SinkOk(c, batches, s, calls)
    ensures SinkOk(c, batches + [batch], s, calls)
  {
    assert forall e :: IsEnvelope(batches, e) ==> IsEnvelope(batches + [batch], e);
  }

  lemma DispatchLocated(batches: seq<Batch>, tasks: seq<Task>, sinks: seq<Sink.State>, batch: Batch, n: nat)
    requires Located(batches, tasks, sinks) && forall k :: 0 <= k < |sinks| ==> Genuine(batches, sinks[k])
    ensures Located(batches + [batch], tasks + [NewTask(n)], sinks)
  {
    var bs, ts := batches + [batch], tasks + [NewTask(n)];
    forall b, k | 0 <= b < |ts| && 0 <= k < |sinks| ensures LocatedAt(bs, ts[b], sinks[k], b, k) {
      if b < |tasks| {
        assert LocatedAt(batches, tasks[b], sinks[k], b, k);
      } else {
        assert EnvelopeOf(bs, b) in Sink.Held(sinks[k]) ==> IsEnvelope(batches, EnvelopeOf(bs, b));
      }
    }
  }

  lemma DispatchCovered(
    batches: seq<Batch>, tasks: seq<Task>, written: seq<seq<seq<Batch>>>, batch: Batch, n: nat)
    requires Covered(batches, tasks, written)
    ensures Covered(batches + [batch], tasks + [NewTask(n)], written)
  {
    var bs, ts := batches + [batch], tasks + [NewTask(n)];
    forall b, k | 0 <= b < |ts| && 0 <= k < |written| ensures CoveredAt(bs, ts[b], written[k], b, k) {
      if b < |tasks| {
        assert CoveredAt(batches, tasks[b], written[k], b, k);
      }
    }
  }

  /** Task outcomes may change as long as nobody waits less or claims more. */
  lemma WeakenInv(
    configs: seq<Sink.Config>, batches: seq<Batch>, tasks: seq<Task>, after: seq<Task>,
    sinks: seq<Sink.State>, written: seq<seq<seq<Batch>>>)
    requires Inv(configs, batches, tasks, sinks, written) && |after| == |tasks|
    requires forall b :: 0 <= b < |tasks| ==> TaskOk(|configs|, after[b]) && Weakens(tasks[b], after[b])
    ensures Inv(configs, batches, after, sinks, written)
  {
    forall b, k | 0 <= b < |after| && 0 <= k < |sinks|
      ensures LocatedAt(batches, after[b], sinks[k], b, k)
      ensures CoveredAt(batches, after[b], written[k], b, k)
    {
      assert LocatedAt(batches, tasks[b], sinks[k], b, k);
      assert CoveredAt(batches, tasks[b], written[k], b, k);
    }
  }

  lemma PointLocated(
    batches: seq<Batch>, tasks: seq<Task>, sinks: seq<Sink.State>, b: nat, k: nat, t: Task, s: Sink.State)
    requires Located(batches, tasks, sinks) && b < |tasks| && k < |sinks|
    requires forall j :: j != k ==> (Waiting(tasks[b], j) <==> Waiting(t, j))
    requires LocatedAt(batches, t, s, b, k)
    requires forall a :: 0 <= a < |batches| && a != b ==>
      Sink.Held(s)[EnvelopeOf(batches, a)] == Sink.Held(sinks[k])[EnvelopeOf(batches, a)]
    ensures Located(batches, tasks[b := t], sinks[k := s])
  {
    var ts, ss := tasks[b := t], sinks[k := s];
    forall a, j | 0 <= a < |ts| && 0 <= j < |ss| ensures LocatedAt(batches, ts[a], ss[j], a, j) {
      assert LocatedAt(batches, tasks[a], sinks[j], a, j);
    }
  }

  lemma PointCovered(
    batches: seq<Batch>, tasks: seq<Task>, written: seq<seq<seq<Batch>>>, b: nat, k: nat, t: Task)
    requires Covered(batches, tasks, written) && b < |tasks| && k < |written|
    requires forall j :: 0 <= j < |t.fan.branches| && j != k && t.fan.branches[j] == Ack.Counted(true) ==>
      j < |tasks[b].fan.branches| && tasks[b].fan.branches[j] == Ack.Counted(true)
    requires CoveredAt(batches, t, written[k], b, k)
    ensures Covered(batches, tasks[b := t], written)
  {
    var ts := tasks[b := t];
    forall a, j | 0 <= a < |ts| && 0 <= j < |written| ensures CoveredAt(batches, ts[a], written[j], a, j) {
      assert CoveredAt(batches, tasks[a], written[j], a, j);
    }
  }

  ghost predicate SinksOk(
    configs: seq<Sink.Config>, batches: seq<Batch>, sinks: seq<Sink.State>, written: seq<seq<seq<Batch>>>)
  {
    && |sinks| == |written| == |configs|
    && forall k :: 0 <= k < |sinks| ==> SinkOk(configs[k], batches, sinks[k], written[k])
  }

  lemma PointSinks(
    configs: seq<Sink.Config>, batches: seq<Batch>, sinks: seq<Sink.State>,
    written: seq<seq<seq<Batch>>>, k: nat, s: Sink.State)
    requires SinksOk(configs, batches, sinks, written) && k < |sinks|
    requires SinkOk(configs[k], batches, s, written[k])
    ensures SinksOk(configs, batches, sinks[k := s], written)
  {
  }

  /** The pieces of the invariant after one task and one sink have changed together. */
  lemma PointInv(
    configs: seq<Sink.Config>, batches: seq<Batch>, tasks: seq<Task>, sinks: seq<Sink.State>,
    written: seq<seq<seq<Batch>>>, b: nat, k: nat, t: Task, s: Sink.State)
    requires Inv(configs, batches, tasks, sinks, written) && b < |tasks| && k < |sinks|
    requires TaskOk(|configs|, t) && SinkOk(configs[k], batches, s, written[k])
    requires Located(batches, tasks[b := t], sinks[k := s])
    requires Covered(batches, tasks[b := t], written)
    ensures Inv(configs, batches, tasks[b := t], sinks[k := s], written)
  {
    PointSinks(configs, batches, sinks, written, k, s);
  }

  lemma EnqueueLocated(
    batches: seq<Batch>, tasks: seq<Task>, sinks: seq<Sink.State>, b: nat, k: nat, t: Task, s: Sink.State)
    requires Located(batches, tasks, sinks) && b < |tasks| && k < |sinks|
    requires k !in tasks[b].sent && t == tasks[b].(sent := tasks[b].sent + {k}) && Waiting(t, k)
    requires Sink.Held(s) == Sink.Held(sinks[k]) + multiset{EnvelopeOf(batches, b)}
    ensures Located(batches, tasks[b := t], sinks[k := s])
  {
    assert LocatedAt(batches, tasks[b], sinks[k], b, k);
    PointLocated(batches, tasks, sinks, b, k, t, s);
  }

  lemma VerdictLocated(
    batches: seq<Batch>, tasks: seq<Task>, sinks: seq<Sink.State>, b: nat, k: nat, t: Task, s: Sink.State)
    requires Located(batches, tasks, sinks) && b < |tasks| && k < |sinks|
    requires forall j :: j != k ==> (Waiting(tasks[b], j) <==> Waiting(t, j))
    requires !Waiting(t, k)
    requires EnvelopeOf(batches, b) in Sink.Held(sinks[k])
    requires Sink.Held(s) == Sink.Held(sinks[k]) - multiset{EnvelopeOf(batches, b)}
    ensures Located(batches, tasks[b := t], sinks[k := s])
  {
    assert LocatedAt(batches, tasks[b], sinks[k], b, k);
    PointLocated(batches, tasks, sinks, b, k, t, s);
  }

  lemma EnqueueSink(c: Sink.Config, batches: seq<Batch>, s: Sink.State, calls: seq<seq<Batch>>, b: nat)
    requires b < |batches| && SinkOk(c, batches, s, calls)
    requires Sink.Validated(c) && Sink.Enabled(c, s, Sink.Arrive(EnvelopeOf(batches, b)))
    ensures var e := EnvelopeOf(batches, b);
      var t := Sink.Apply(c, s, Sink.Arrive(e));
      SinkOk(c, batches, t, calls) && Sink.Held(t) == Sink.Held(s) + multiset{e}
  {
    var e := EnvelopeOf(batches, b);
    Sink.StepInv(c, s, Sink.Arrive(e));
    Sink.HeldAfterArrive(c, s, e);
    var t := Sink.Apply(c, s, Sink.Arrive(e));
    assert forall x :: x in Sink.Held(t) ==> x in Sink.Held(s) || x == e;
  }

  /** Handing an envelope to a sink's queue. */
  lemma EnqueueInv(
    configs: seq<Sink.Config>, batches: seq<Batch>, tasks: seq<Task>, sinks: seq<Sink.State>,
    written: seq<seq<seq<Batch>>>, b: nat, k: nat)
    requires Inv(configs, batches, tasks, sinks, written) && b < |tasks| && k < |sinks|
    requires tasks[b].outcome.Running? && k !in tasks[b].sent
    requires Sink.Validated(configs[k])
    requires Sink.Enabled(configs[k], sinks[k], Sink.Arrive(EnvelopeOf(batches, b)))
    ensures Inv(configs, batches,
      tasks[b := tasks[b].(sent := tasks[b].sent + {k})],
      sinks[k := Sink.Apply(configs[k], sinks[k], Sink.Arrive(EnvelopeOf(batches, b)))], written)
  {
    var t := tasks[b].(sent := tasks[b].sent + {k});
    var s := Sink.Apply(configs[k], sinks[k], Sink.Arrive(EnvelopeOf(batches, b)));
    assert TaskOk(|configs|, tasks[b]);
    assert CoveredAt(batches, tasks[b], written[k], b, k);
    EnqueueSink(configs[k], batches, sinks[k], written[k], b);
    EnqueueLocated(batches, tasks, sinks, b, k, t, s);
    PointCovered(batches, tasks, written, b, k, t);
    PointInv(configs, batches, tasks, sinks, written, b, k, t, s);
  }

  lemma VerdictTask(n: nat, t: Task, k: nat, ok: bool)
    requires TaskOk(n, t) && k < n && Waiting(t, k)
    ensures var u := t.(fan := Complete(t.fan, k, ok));
      && TaskOk(n, u)
      && u.fan.branches == t.fan.branches[k := Ack.Counted(ok)]
  {
    CompleteIs(t.fan, k, ok);
  }

  /** A delivered verdict is only ever given to an envelope of a written group. */
  lemma VerdictCovered(c: Sink.Config, batches: seq<Batch>, s: Sink.State, calls: seq<seq<Batch>>, st: Sink.Step)
    requires SinkOk(c, batches, s, calls) && Sink.Enabled(c, s, st)
    requires Sink.EffectOf(c, s, st).Verdict? && Sink.EffectOf(c, s, st).ok
    ensures var e := Sink.EffectOf(c, s, st).envelope;
      e.batch < |batches| && BatchWritten(calls, batches[e.batch])
  {
    var w := s.writes[st.i];
    assert Sink.SoundWrite(c, s, w);
    var n :| 0 <= n < |s.successes| && s.successes[n] == w.group;
    assert Sink.InSome(s.successes, w.group[w.settled]);
  }

  /** A verdict takes one genuine envelope out of the sink and changes nothing it has written. */
  lemma VerdictSink(c: Sink.Config, batches: seq<Batch>, s: Sink.State, calls: seq<seq<Batch>>, st: Sink.Step)
    requires SinkOk(c, batches, s, calls)
    requires Sink.Validated(c) && Sink.Enabled(c, s, st) && Sink.EffectOf(c, s, st).Verdict?
    ensures var e, t := Sink.EffectOf(c, s, st).envelope, Sink.Apply(c, s, st);
      && IsEnvelope(batches, e) && e in Sink.Held(s)
      && Sink.Held(t) == Sink.Held(s) - multiset{e}
      && SinkOk(c, batches, t, calls)
  {
    Sink.StepHeld(c, s, st);
    Sink.StepInv(c, s, st);
    var t := Sink.Apply(c, s, st);
    assert t.successes == s.successes;
    assert forall x :: x in Sink.Held(t) ==> x in Sink.Held(s);
  }

  /** The envelope leaves the sink, so its branch was waiting and now is not. */
  lemma SettleParts(
    n: nat, batches: seq<Batch>, tasks: seq<Task>, sinks: seq<Sink.State>,
    written: seq<seq<seq<Batch>>>, b: nat, k: nat, ok: bool, s: Sink.State)
    requires Located(batches, tasks, sinks) && Covered(batches, tasks, written)
    requires b < |tasks| && k < |sinks| && k < |written| && k < n && TaskOk(n, tasks[b])
    requires EnvelopeOf(batches, b) in Sink.Held(sinks[k])
    requires Sink.Held(s) == Sink.Held(sinks[k]) - multiset{EnvelopeOf(batches, b)}
    requires ok ==> BatchWritten(written[k], batches[b])
    ensures Waiting(tasks[b], k)
    ensures var t := tasks[b].(fan := Complete(tasks[b].fan, k, ok));
      TaskOk(n, t) && Located(batches, tasks[b := t], sinks[k := s]) && Covered(batches, tasks[b := t], written)
  {
    var t := tasks[b].(fan := Complete(tasks[b].fan, k, ok));
    assert LocatedAt(batches, tasks[b], sinks[k], b, k);
    VerdictTask(n, tasks[b], k, ok);
    VerdictLocated(batches, tasks, sinks, b, k, t, s);
    PointCovered(batches, tasks, written, b, k, t);
  }

  lemma SettleInv(
    configs: seq<Sink.Config>, batches: seq<Batch>, tasks: seq<Task>, sinks: seq<Sink.State>,
    written: seq<seq<seq<Batch>>>, b: nat, k: nat, ok: bool, s: Sink.State)
    requires Inv(configs, batches, tasks, sinks, written) && b < |tasks| && k < |sinks|
    requires SinkOk(configs[k], batches, s, written[k])
    requires EnvelopeOf(batches, b) in Sink.Held(sinks[k])
    requires Sink.Held(s) == Sink.Held(sinks[k]) - multiset{EnvelopeOf(batches, b)}
    requires ok ==> BatchWritten(written[k], batches[b])
    ensures k < |tasks[b].fan.branches| && Waiting(tasks[b], k)
    ensures Inv(configs, batches,
      tasks[b := tasks[b].(fan := Complete(tasks[b].fan, k, ok))], sinks[k := s], written)
  {
    var t := tasks[b].(fan := Complete(tasks[b].fan, k, ok));
    assert TaskOk(|configs|, tasks[b]);
    SettleParts(|configs|, batches, tasks, sinks, written, b, k, ok, s);
    PointInv(configs, batches, tasks, sinks, written, b, k, t, s);
  }

  /**
   * The sink gives one envelope its verdict and the envelope's task counts it. The branch was
   * still waiting, so no branch is ever counted twice.
   */
  lemma VerdictInv(
    configs: seq<Sink.Config>, batches: seq<Batch>, tasks: seq<Task>, sinks: seq<Sink.State>,
    written: seq<seq<seq<Batch>>>, k: nat, st: Sink.Step)
    requires Inv(configs, batches, tasks, sinks, written) && k < |sinks|
    requires Sink.Validated(configs[k]) && Sink.Enabled(configs[k], sinks[k], st)
    requires Sink.EffectOf(configs[k], sinks[k], st).Verdict?
    ensures var effect := Sink.EffectOf(configs[k], sinks[k], st);
      var b := effect.envelope.batch;
      && b < |tasks| && k < |tasks[b].fan.branches|
      && Waiting(tasks[b], k)
      && Inv(configs, batches,
           tasks[b := tasks[b].(fan := Complete(tasks[b].fan, k, effect.ok))],
           sinks[k := Sink.Apply(configs[k], sinks[k], st)], written)
  {
    var effect := Sink.EffectOf(configs[k], sinks[k], st);
    VerdictSink(configs[k], batches, sinks[k], written[k], st);
    if effect.ok {
      VerdictCovered(configs[k], batches, sinks[k], written[k], st);
    }
    SettleInv(configs, batches, tasks, sinks, written, effect.envelope.batch, k, effect.ok,
      Sink.Apply(configs[k], sinks[k], st));
  }

  lemma WrittenInv(
    configs: seq<Sink.Config>, batches: seq<Batch>, tasks: seq<Task>, sinks: seq<Sink.State>,
    written: seq<seq<seq<Batch>>>, k: nat, s: Sink.State, calls: seq<seq<Batch>>)
    requires Inv(configs, batches, tasks, sinks, written) && k < |sinks|
    requires written[k] <= calls && SinkOk(configs[k], batches, s, calls)
    requires Sink.Held(s) == Sink.Held(sinks[k])
    ensures Inv(configs, batches, tasks, sinks[k := s], written[k := calls])
  {
    var ss, ws := sinks[k := s], written[k := calls];
    forall a, j | 0 <= a < |tasks| && 0 <= j < |ss|
      ensures LocatedAt(batches, tasks[a], ss[j], a, j)
      ensures CoveredAt(batches, tasks[a], ws[j], a, j)
    {
      assert LocatedAt(batches, tasks[a], sinks[j], a, j);
      assert CoveredAt(batches, tasks[a], written[j], a, j);
      if BatchWritten(written[j], batches[a]) {
        BatchWrittenStays(written[j], ws[j], batches[a]);
      }
    }
  }

  /** The write histories after a sink step: a successful call is added to its sink's. */
  function WrittenAfter(batches: seq<Batch>, written: seq<seq<seq<Batch>>>, k: nat, effect: Sink.Effect)
    : seq<seq<seq<Batch>>>
  {
    if effect.Wrote? && k < |written| then written[k := written[k] + [BatchesOf(batches, effect.group)]] else written
  }

  /** The batches a sink hands to `write_batches`, and the history once the call succeeds. */
  function CallsAfter(
    c: Sink.Config, batches: seq<Batch>, s: Sink.State, st: Sink.Step, calls: seq<seq<Batch>>): seq<seq<Batch>>
    requires Sink.Enabled(c, s, st)
  {
    var effect := Sink.EffectOf(c, s, st);
    if effect.Wrote? then calls + [BatchesOf(batches, effect.group)] else calls
  }

  lemma OpenGroupGenuine(c: Sink.Config, batches: seq<Batch>, s: Sink.State, i: nat, e: Sink.Envelope)
    requires Sink.SoundWrites(c, s) && Genuine(batches, s)
    requires i < |s.writes| && s.writes[i].progress.Attempting? && e in s.writes[i].group
    ensures IsEnvelope(batches, e)
  {
    assert Sink.SoundWrite(c, s, s.writes[i]);
    Sink.UnsettledUpdate(s.writes, i, s.writes[i]);
    assert Sink.Rest(s.writes[i]) == s.writes[i].group;
    assert e in multiset(Sink.Rest(s.writes[i]));
    assert e in multiset(Sink.Unsettled(s.writes));
  }

  /** What an open write hands to `write_batches`. */
  lemma OpenGroupCall(c: Sink.Config, batches: seq<Batch>, s: Sink.State, i: nat)
    requires Sink.SoundWrites(c, s) && Genuine(batches, s)
    requires i < |s.writes| && s.writes[i].progress.Attempting?
    ensures IsCall(batches, s.writes[i].group, BatchesOf(batches, s.writes[i].group))
  {
    forall e | e in s.writes[i].group ensures IsEnvelope(batches, e) {
      OpenGroupGenuine(c, batches, s, i, e);
    }
    BatchesOfIs(batches, s.writes[i].group);
  }

  lemma SuccessAfter(c: Sink.Config, batches: seq<Batch>, s: Sink.State, st: Sink.Step, calls: seq<seq<Batch>>)
    requires Sink.SoundWrites(c, s) && Genuine(batches, s) && SuccessOk(batches, s, calls)
    requires Sink.Enabled(c, s, st)
    ensures SuccessOk(batches, Sink.Apply(c, s, st), CallsAfter(c, batches, s, st, calls))
  {
    var t, after := Sink.Apply(c, s, st), CallsAfter(c, batches, s, st, calls);
    forall e | Sink.InSome(t.successes, e) ensures e.batch < |batches| && BatchWritten(after, batches[e.batch]) {
      if Sink.InSome(s.successes, e) {
        BatchWrittenStays(calls, after, batches[e.batch]);
      } else {
        var n :| 0 <= n < |t.successes| && e in t.successes[n];
        OpenGroupGenuine(c, batches, s, st.i, e);
        BatchesOfMember(batches, s.writes[st.i].group, e);
        assert batches[e.batch] in after[|calls|];
      }
    }
  }

  /** Sink steps that settle nobody only extend the write history. */
  lemma QuietInv(
    configs: seq<Sink.Config>, batches: seq<Batch>, tasks: seq<Task>, sinks: seq<Sink.State>,
    written: seq<seq<seq<Batch>>>, k: nat, st: Sink.Step)
    requires Inv(configs, batches, tasks, sinks, written) && k < |sinks|
    requires Sink.Validated(configs[k]) && Sink.Enabled(configs[k], sinks[k], st)
    requires !Sink.EffectOf(configs[k], sinks[k], st).Verdict? && !st.Arrive?
    ensures Inv(configs, batches, tasks, sinks[k := Sink.Apply(configs[k], sinks[k], st)],
      WrittenAfter(batches, written, k, Sink.EffectOf(configs[k], sinks[k], st)))
  {
    var c, s := configs[k], sinks[k];
    var calls := CallsAfter(c, batches, s, st, written[k]);
    QuietSink(c, batches, s, st, written[k]);
    WrittenInv(configs, batches, tasks, sinks, written, k, Sink.Apply(c, s, st), calls);
    assert WrittenAfter(batches, written, k, Sink.EffectOf(c, s, st)) == written[k := calls];
  }

  lemma QuietSink(c: Sink.Config, batches: seq<Batch>, s: Sink.State, st: Sink.Step, calls: seq<seq<Batch>>)
    requires SinkOk(c, batches, s, calls) && Sink.Validated(c) && Sink.Enabled(c, s, st)
    requires !Sink.EffectOf(c, s, st).Verdict? && !st.Arrive?
    ensures SinkOk(c, batches, Sink.Apply(c, s, st), CallsAfter(c, batches, s, st, calls))
    ensures Sink.Held(Sink.Apply(c, s, st)) == Sink.Held(s)
  {
    Sink.StepHeld(c, s, st);
    Sink.StepInv(c, s, st);
    SuccessAfter(c, batches, s, st, calls);
  }

  /** The tasks after a sink step: a verdict is counted by the task of its envelope. */
  function TasksAfter(tasks: seq<Task>, k: nat, effect: Sink.Effect): seq<Task> {
    if effect.Verdict? && effect.envelope.batch < |tasks| && k < |tasks[effect.envelope.batch].fan.branches| then
      var b := effect.envelope.batch;
      tasks[b := tasks[b].(fan := Complete(tasks[b].fan, k, effect.ok))]
    else tasks
  }

  /** Every step a sink takes on its own keeps the invariant. */
  lemma SinkStepInv(
    configs: seq<Sink.Config>, batches: seq<Batch>, tasks: seq<Task>, sinks: seq<Sink.State>,
    written: seq<seq<seq<Batch>>>, k: nat, st: Sink.Step)
    requires Inv(configs, batches, tasks, sinks, written) && k < |sinks|
    requires Sink.Validated(configs[k]) && Sink.Enabled(configs[k], sinks[k], st) && !st.Arrive?
    ensures var effect := Sink.EffectOf(configs[k], sinks[k], st);
      Inv(configs, batches, TasksAfter(tasks, k, effect),
        sinks[k := Sink.Apply(configs[k], sinks[k], st)], WrittenAfter(batches, written, k, effect))
  {
    var effect := Sink.EffectOf(configs[k], sinks[k], st);
    if effect.Verdict? {
      VerdictInv(configs, batches, tasks, sinks, written, k, st);
    } else {
      QuietInv(configs, batches, tasks, sinks, written, k, st);
    }
  }

  /** A delivered batch has been written by every sink. */
  lemma DeliveredEverywhere(
    configs: seq<Sink.Config>, batches: seq<Batch>, tasks: seq<Task>, sinks: seq<Sink.State>,
    written: seq<seq<seq<Batch>>>, b: nat, k: nat)
    requires Inv(configs, batches, tasks, sinks, written)
    requires b < |tasks| && tasks[b].outcome.Delivered? && k < |configs|
    ensures BatchWritten(written[k], batches[b])
  {
    assert TaskOk(|configs|, tasks[b]);
    assert CoveredAt(batches, tasks[b], written[k], b, k);
  }
}
