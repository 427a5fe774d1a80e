/** The sink runtime: receive, coalesce, write with retries, acknowledge, drain (src/sink/mod.rs). */
module SinkRuntime {
  import opened Multisets
  import opened Sequences

  /** A queued batch, with the two sizes the coalescing loop adds up. */
  datatype Envelope = Envelope(batch: nat, events: nat, bytes: nat)

  datatype Config = Config(
    maxEvents: nat,
    maxBytes: nat,
    maxConcurrentWrites: nat,
    maxAttempts: nat,
    capacity: nat)

  /** What `Config::validate` and `runtime_settings` guarantee about a sink's limits. */
  predicate Validated(c: Config) {
    c.maxEvents > 0 && c.maxBytes > 0 && c.maxConcurrentWrites > 0 && c.maxAttempts > 0 && c.capacity > 0
  }

  /** Waiting for a first envelope, coalescing, waiting for a write slot, draining, returned. */
  datatype Phase = Accepting | Coalescing | WaitingSlot | Draining | Closed

  datatype Progress = Attempting(attempt: nat) | Settling(ok: bool)

  /** A spawned write of the group dispatched as number `index`; `settled` envelopes have their verdict. */
  datatype Write = Write(index: nat, group: seq<Envelope>, settled: nat, progress: Progress)

  datatype Counters = Counters(
    eventsOut: nat, eventsDropped: nat, batchesWritten: nat, writeErrors: nat, retries: nat)

  /**
   * The sink task and its spawned writes. The fields after `counters` are histories: envelopes
   * in arrival and receive order, groups in dispatch order, the dispatch number of every
   * `write_batches` call, groups written and groups given up, envelopes acknowledged and refused.
   */
  datatype State = State(
    queue: seq<Envelope>,
    group: seq<Envelope>,
    phase: Phase,
    writes: seq<Write>,
    counters: Counters,
    arrived: seq<Envelope>,
    received: seq<Envelope>,
    dispatched: seq<seq<Envelope>>,
    calls: seq<nat>,
    successes: seq<seq<Envelope>>,
    failures: seq<seq<Envelope>>,
    acked: seq<Envelope>,
    refused: seq<Envelope>)

  const START := State([], [], Accepting, [], Counters(0, 0, 0, 0, 0), [], [], [], [], [], [], [], [])

  function EventCount(g: seq<Envelope>): nat {
    if g == [] then 0 else EventCount(g[..|g| - 1]) + g[|g| - 1].events
  }

  function ByteCount(g: seq<Envelope>): nat {
    if g == [] then 0 else ByteCount(g[..|g| - 1]) + g[|g| - 1].bytes
  }

  lemma {:induction false} EventCountConcat(a: seq<Envelope>, b: seq<Envelope>)
    ensures EventCount(a + b) == EventCount(a) + EventCount(b)
  {
    if b == [] {
      assert a + b == a;
    } else {
      var front := b[..|b| - 1];
      assert (a + b)[..|a + b| - 1] == a + front;
      EventCountConcat(a, front);
    }
  }

  /** The guard of the coalescing loop. */
  predicate UnderLimits(c: Config, g: seq<Envelope>) {
    EventCount(g) < c.maxEvents && ByteCount(g) < c.maxBytes
  }

  datatype Step =
    | Arrive(envelope: Envelope)
    | Receive
    | CloseGroup
    | Dispatch
    | AttemptOk(i: nat, written: nat, dropped: nat)
    | AttemptFail(i: nat)
    | Settle(i: nat)
    | Reap(i: nat)
    | Shutdown
    | Disconnect
    | Finish
    | Abort(i: nat)
    | DropQueued
    | DropGrouped

  /** Steps of the sink task and its writes; nothing arrives, and nobody outside ends the task. */
  predicate Own(st: Step) {
    !st.Arrive? && !st.Shutdown? && !st.Disconnect?
  }

  predicate Finished(w: Write) {
    w.progress.Settling? && w.settled >= |w.group|
  }

  /** Where the loop joins finished writes: while waiting, coalescing, out of slots, or draining. */
  predicate Reaps(c: Config, s: State) {
    || s.phase.Accepting?
    || (s.phase.Coalescing? && UnderLimits(c, s.group))
    || (s.phase.WaitingSlot? && |s.writes| >= c.maxConcurrentWrites)
    || s.phase.Draining?
  }

  predicate Enabled(c: Config, s: State, st: Step) {
    match st
    case Arrive(_) => !s.phase.Closed? && |s.queue| < c.capacity
    case Receive =>
      s.queue != [] && (s.phase.Accepting? || (s.phase.Coalescing? && UnderLimits(c, s.group)))
    case CloseGroup => s.phase.Coalescing?
    case Dispatch => s.phase.WaitingSlot? && |s.writes| < c.maxConcurrentWrites
    case AttemptOk(i, written, dropped) =>
      i < |s.writes| && s.writes[i].progress.Attempting? && written + dropped == EventCount(s.writes[i].group)
    case AttemptFail(i) => i < |s.writes| && s.writes[i].progress.Attempting?
    case Settle(i) => i < |s.writes| && s.writes[i].progress.Settling? && s.writes[i].settled < |s.writes[i].group|
    case Reap(i) => i < |s.writes| && Finished(s.writes[i]) && Reaps(c, s)
    case Shutdown => s.phase.Accepting?
    case Disconnect => s.phase.Accepting? && s.queue == []
    case Finish => s.phase.Draining? && s.writes == []
    case Abort(i) => s.phase.Closed? && i < |s.writes| && s.writes[i].progress.Attempting?
    case DropQueued => s.phase.Closed? && s.queue != []
    case DropGrouped => s.phase.Closed? && s.group != []
  }

  function Succeed(s: State, i: nat, written: nat, dropped: nat): State
    requires i < |s.writes|
  {
    var w := s.writes[i];
    s.(writes := s.writes[i := w.(progress := Settling(true))],
       calls := s.calls + [w.index],
       successes := s.successes + [w.group],
       counters := s.counters.(eventsOut := s.counters.eventsOut + written,
                               eventsDropped := s.counters.eventsDropped + dropped,
                               batchesWritten := s.counters.batchesWritten + 1))
  }

  /** A failed attempt is retried until the limit; the last one gives the group up. */
  function Fail(c: Config, s: State, i: nat): State
    requires i < |s.writes| && s.writes[i].progress.Attempting?
  {
    var w := s.writes[i];
    var t := s.(calls := s.calls + [w.index]);
    if w.progress.attempt < c.maxAttempts then
      t.(writes := s.writes[i := w.(progress := Attempting(w.progress.attempt + 1))],
         counters := s.counters.(retries := s.counters.retries + 1))
    else
      t.(writes := s.writes[i := w.(progress := Settling(false))],
         failures := s.failures + [w.group],
         counters := s.counters.(writeErrors := s.counters.writeErrors + 1))
  }

  /** One envelope of a decided write gets its verdict. */
  function SettleOne(s: State, i: nat): State
    requires i < |s.writes| && s.writes[i].progress.Settling? && s.writes[i].settled < |s.writes[i].group|
  {
    var w := s.writes[i];
    var e := w.group[w.settled];
    var t := s.(writes := s.writes[i := w.(settled := w.settled + 1)]);
    if w.progress.ok then t.(acked := s.acked + [e]) else t.(refused := s.refused + [e])
  }

  function Apply(c: Config, s: State, st: Step): State
    requires Enabled(c, s, st)
  {
    match st
    case Arrive(e) => s.(queue := s.queue + [e], arrived := s.arrived + [e])
    case Receive =>
      s.(queue := s.queue[1..], received := s.received + [s.queue[0]],
         group := s.group + [s.queue[0]], phase := Coalescing)
    case CloseGroup => s.(phase := WaitingSlot)
    case Dispatch =>
      s.(writes := s.writes + [Write(|s.dispatched|, s.group, 0, Attempting(1))],
         dispatched := s.dispatched + [s.group], group := [], phase := Accepting)
    case AttemptOk(i, written, dropped) => Succeed(s, i, written, dropped)
    case AttemptFail(i) => Fail(c, s, i)
    case Settle(i) => SettleOne(s, i)
    case Reap(i) =>
      s.(writes := s.writes[..i] + s.writes[i + 1..],
         phase := if s.writes[i].progress.ok || s.phase.Draining? then s.phase else Closed)
    case Shutdown => s.(phase := Draining)
    case Disconnect => s.(phase := Draining)
    case Finish => s.(phase := Closed)
    case Abort(i) => s.(writes := s.writes[i := s.writes[i].(progress := Settling(false))])
    case DropQueued => s.(queue := s.queue[1..], refused := s.refused + [s.queue[0]])
    case DropGrouped => s.(group := s.group[1..], refused := s.refused + [s.group[0]])
  }

  /** What the rest of the system sees of a step: a verdict for one envelope, or a completed write. */
  datatype Effect = Quiet | Verdict(envelope: Envelope, ok: bool) | Wrote(group: seq<Envelope>)

  function EffectOf(c: Config, s: State, st: Step): Effect
    requires Enabled(c, s, st)
  {
    match st
    case AttemptOk(i, _, _) => Wrote(s.writes[i].group)
    case Settle(i) => Verdict(s.writes[i].group[s.writes[i].settled], s.writes[i].progress.ok)
    case DropQueued => Verdict(s.queue[0], false)
    case DropGrouped => Verdict(s.group[0], false)
    case _ => Quiet
  }

  // ----- envelopes still waiting for their verdict

  function Rest(w: Write): seq<Envelope> {
    if w.settled <= |w.group| then w.group[w.settled..] else []
  }

  function Rests(ws: seq<Write>): seq<seq<Envelope>> {
    seq(|ws|, i requires 0 <= i < |ws| => Rest(ws[i]))
  }

  function Unsettled(ws: seq<Write>): seq<Envelope> {
    Flatten(Rests(ws))
  }

  /** Every envelope the sink holds, wherever it is. */
  function Held(s: State): multiset<Envelope> {
    multiset(s.queue) + multiset(s.group) + multiset(Unsettled(s.writes))
  }

  lemma UnsettledConcat(a: seq<Write>, b: seq<Write>)
    ensures Unsettled(a + b) == Unsettled(a) + Unsettled(b)
  {
    assert Rests(a + b) == Rests(a) + Rests(b);
    FlattenConcat(Rests(a), Rests(b));
  }

  lemma UnsettledOne(w: Write)
    ensures Unsettled([w]) == Rest(w)
  {
    FlattenPush([], Rest(w));
    assert Rests([w]) == [] + [Rest(w)];
  }

  lemma UnsettledSplit(ws: seq<Write>, i: nat, w: Write)
    requires i < |ws|
    ensures multiset(Unsettled(ws[i := w])) ==
      multiset(Unsettled(ws[..i] + ws[i + 1..])) + multiset(Rest(w))
  {
    var a, b := ws[..i], ws[i + 1..];
    assert ws[i := w] == a + [w] + b;
    UnsettledConcat(a + [w], b);
    UnsettledConcat(a, [w]);
    UnsettledConcat(a, b);
    UnsettledOne(w);
  }

  /** Replacing one write exchanges its waiting envelopes for the new one's. */
  lemma UnsettledUpdate(ws: seq<Write>, i: nat, w: Write)
    requires i < |ws|
    ensures multiset(Unsettled(ws[i := w])) + multiset(Rest(ws[i])) == multiset(Unsettled(ws)) + multiset(Rest(w))
    ensures multiset(Unsettled(ws[..i] + ws[i + 1..])) + multiset(Rest(ws[i])) == multiset(Unsettled(ws))
  {
    UnsettledSplit(ws, i, w);
    UnsettledSplit(ws, i, ws[i]);
    assert ws[i := ws[i]] == ws;
  }

  /** Events promised by successful writes whose envelopes are not all acknowledged yet. */
  function Promised(ws: seq<Write>): nat {
    if ws == [] then 0
    else Promised(ws[..|ws| - 1]) + Promise(ws[|ws| - 1])
  }

  function Promise(w: Write): nat {
    if w.progress == Settling(true) then EventCount(Rest(w)) else 0
  }

  lemma {:induction false} PromisedConcat(a: seq<Write>, b: seq<Write>)
    ensures Promised(a + b) == Promised(a) + Promised(b)
  {
    if b == [] {
      assert a + b == a;
    } else {
      var front := b[..|b| - 1];
      assert (a + b)[..|a + b| - 1] == a + front;
      PromisedConcat(a, front);
    }
  }

  lemma PromisedUpdate(ws: seq<Write>, i: nat, w: Write)
    requires i < |ws|
    ensures Promised(ws[i := w]) == Promised(ws) - Promise(ws[i]) + Promise(w)
    ensures Promised(ws[..i] + ws[i + 1..]) == Promised(ws) - Promise(ws[i])
  {
    var a, b := ws[..i], ws[i + 1..];
    assert ws == a + [ws[i]] + b && ws[i := w] == a + [w] + b;
    PromisedConcat(a + [ws[i]], b);
    PromisedConcat(a, [ws[i]]);
    PromisedConcat(a + [w], b);
    PromisedConcat(a, [w]);
    PromisedConcat(a, b);
    assert Promised([w]) == Promise(w) && Promised([ws[i]]) == Promise(ws[i]);
  }

  // ----- invariants

  ghost predicate SoundWrite(c: Config, s: State, w: Write) {
    && w.settled <= |w.group|
    && w.index < |s.dispatched| && s.dispatched[w.index] == w.group
    && (w.progress.Attempting? ==> w.settled == 0 && 1 <= w.progress.attempt <= c.maxAttempts)
    && (w.progress == Settling(true) ==> w.group in s.successes)
  }

  ghost predicate SoundWrites(c: Config, s: State) {
    && |s.writes| <= c.maxConcurrentWrites
    && forall i :: 0 <= i < |s.writes| ==> SoundWrite(c, s, s.writes[i])
  }

  /** A group without its last envelope is under both limits. */
  ghost predicate Coalesced(c: Config, g: seq<Envelope>) {
    g != [] && UnderLimits(c, g[..|g| - 1])
  }

  /** Groups are consecutive segments of the receive order, and the receive order that of the queue. */
  ghost predicate Grouped(c: Config, s: State) {
    && (s.phase.Accepting? || s.phase.Draining? ==> s.group == [])
    && (s.phase.Coalescing? || s.phase.WaitingSlot? ==> Coalesced(c, s.group))
    && (forall n :: 0 <= n < |s.dispatched| ==> Coalesced(c, s.dispatched[n]))
    && Flatten(s.dispatched) <= s.received <= s.arrived
    && (!s.phase.Closed? ==> Flatten(s.dispatched) + s.group == s.received)
    && (!s.phase.Closed? ==> s.received + s.queue == s.arrived)
  }

  /** Nothing is lost and nothing is settled twice. */
  ghost predicate Conserved(s: State) {
    multiset(s.arrived) == Held(s) + multiset(s.acked) + multiset(s.refused)
  }

  ghost predicate InSome(groups: seq<seq<Envelope>>, e: Envelope) {
    exists n :: 0 <= n < |groups| && e in groups[n]
  }

  /** Acknowledged envelopes were in a written group, and the counters count what they say. */
  ghost predicate Truthful(s: State) {
    && (forall e :: e in s.acked ==> InSome(s.successes, e))
    && s.counters.eventsOut + s.counters.eventsDropped == EventCount(s.acked) + Promised(s.writes)
    && s.counters.batchesWritten == |s.successes|
    && s.counters.writeErrors == |s.failures|
    && s.counters.retries + |s.successes| + |s.failures| == |s.calls|
  }

  /** With one write slot the only open write is the latest group's, and calls never go back. */
  ghost predicate Sequential(c: Config, s: State) {
    c.maxConcurrentWrites == 1 ==>
      && (forall i :: 0 <= i < |s.writes| ==> s.writes[i].index == |s.dispatched| - 1)
      && (forall i :: 0 <= i < |s.calls| ==> s.calls[i] < |s.dispatched|)
      && (forall i, j :: 0 <= i < j < |s.calls| ==> s.calls[i] <= s.calls[j])
  }

  /** The write that gave group `g` up has not been joined yet. */
  ghost predicate Unjoined(ws: seq<Write>, g: seq<Envelope>) {
    exists i :: 0 <= i < |ws| && ws[i].group == g && ws[i].progress == Settling(false)
  }

  /** Joining a given-up write ends the loop, so a running loop has joined none. */
  ghost predicate Fatal(s: State) {
    !s.phase.Draining? && !s.phase.Closed? ==>
      forall n :: 0 <= n < |s.failures| ==> Unjoined(s.writes, s.failures[n])
  }

  ghost predicate Inv(c: Config, s: State) {
    SoundWrites(c, s) && Grouped(c, s) && Conserved(s) && Truthful(s) && Sequential(c, s) && Fatal(s)
  }

  lemma StartInv(c: Config)
    ensures Inv(c, START)
  {
  }

  lemma SoundWriteStays(c: Config, s: State, t: State, w: Write)
    requires SoundWrite(c, s, w) && s.dispatched <= t.dispatched && s.successes <= t.successes
    ensures SoundWrite(c, t, w)
  {
    if w.group in s.successes {
      var n :| 0 <= n < |s.successes| && s.successes[n] == w.group;
      assert t.successes[n] == w.group;
    }
  }

  lemma AttemptSoundWrite(c: Config, s: State, st: Step)
    requires Validated(c) && SoundWrites(c, s) && Enabled(c, s, st)
    requires st.AttemptOk? || st.AttemptFail? || st.Settle? || st.Abort?
    ensures SoundWrite(c, Apply(c, s, st), Apply(c, s, st).writes[st.i])
  {
    assert SoundWrite(c, s, s.writes[st.i]);
    var t := Apply(c, s, st);
    assert st.AttemptOk? ==> t.successes[|s.successes|] == s.writes[st.i].group;
  }

  lemma StepSoundWrites(c: Config, s: State, st: Step)
    requires Validated(c) && SoundWrites(c, s) && Enabled(c, s, st)
    ensures SoundWrites(c, Apply(c, s, st))
  {
    var t := Apply(c, s, st);
    var one := st.AttemptOk? || st.AttemptFail? || st.Settle? || st.Abort?;
    forall i | 0 <= i < |t.writes| ensures SoundWrite(c, t, t.writes[i]) {
      if one && i == st.i {
        AttemptSoundWrite(c, s, st);
      } else if st.Dispatch? && i == |s.writes| {
        assert t.dispatched[|s.dispatched|] == s.group;
      } else {
        var j := if st.Reap? && i >= st.i then i + 1 else i;
        assert t.writes[i] == s.writes[j];
        SoundWriteStays(c, s, t, s.writes[j]);
      }
    }
  }

  lemma ReceiveGrouped(c: Config, s: State)
    requires Validated(c) && Grouped(c, s) && Enabled(c, s, Receive)
    ensures Grouped(c, Apply(c, s, Receive))
  {
    var t := Apply(c, s, Receive);
    assert t.group[..|s.group|] == s.group;
    assert s.received + s.queue == t.received + t.queue;
    assert Flatten(t.dispatched) + t.group == t.received;
  }

  lemma DispatchGrouped(c: Config, s: State)
    requires Grouped(c, s) && Enabled(c, s, Dispatch)
    ensures Grouped(c, Apply(c, s, Dispatch))
  {
    FlattenPush(s.dispatched, s.group);
    var t := Apply(c, s, Dispatch);
    assert Flatten(t.dispatched) + t.group == t.received;
  }

  lemma StepGrouped(c: Config, s: State, st: Step)
    requires Validated(c) && Grouped(c, s) && Enabled(c, s, st)
    ensures Grouped(c, Apply(c, s, st))
  {
    match st {
      case Receive => ReceiveGrouped(c, s);
      case Dispatch => DispatchGrouped(c, s);
      case Arrive(e) => ArriveGrouped(c, s, e);
      case _ =>
    }
  }

  lemma ArriveGrouped(c: Config, s: State, e: Envelope)
    requires Grouped(c, s) && Enabled(c, s, Arrive(e))
    ensures Grouped(c, Apply(c, s, Arrive(e)))
  {
    Associative(s.received, s.queue, [e]);
  }

  /** Rewriting one open write: what it no longer waits for is what the sink no longer holds. */
  lemma HeldAfterUpdate(s: State, i: nat, w: Write, gone: multiset<Envelope>)
    requires i < |s.writes| && multiset(Rest(s.writes[i])) == multiset(Rest(w)) + gone
    ensures Held(s) == Held(s.(writes := s.writes[i := w])) + gone
  {
    UnsettledUpdate(s.writes, i, w);
    var ws := s.writes[i := w];
    Cancel(multiset(Unsettled(s.writes)), multiset(Unsettled(ws)),
           multiset(Rest(s.writes[i])), multiset(Rest(w)), gone);
    Associate(multiset(s.queue) + multiset(s.group), multiset(Unsettled(ws)), gone);
  }

  lemma HeldAfterReap(s: State, i: nat)
    requires i < |s.writes| && Rest(s.writes[i]) == []
    ensures Held(s.(writes := s.writes[..i] + s.writes[i + 1..])) == Held(s)
  {
    UnsettledUpdate(s.writes, i, s.writes[i]);
  }

  lemma HeldAfterReceive(c: Config, s: State)
    requires Enabled(c, s, Receive)
    ensures Held(Apply(c, s, Receive)) == Held(s)
  {
    var e := s.queue[0];
    assert s.queue == [e] + s.queue[1..];
    assert multiset(s.queue) + multiset(s.group) == multiset(s.queue[1..]) + multiset(s.group + [e]);
  }

  lemma HeldAfterDispatch(c: Config, s: State)
    requires Enabled(c, s, Dispatch)
    ensures Held(Apply(c, s, Dispatch)) == Held(s)
  {
    var w := Write(|s.dispatched|, s.group, 0, Attempting(1));
    UnsettledConcat(s.writes, [w]);
    UnsettledOne(w);
    MoveIntoThird(multiset(s.queue), multiset(s.group), multiset(Unsettled(s.writes)));
  }

  lemma HeldAfterDropQueued(c: Config, s: State)
    requires Enabled(c, s, DropQueued)
    ensures Held(s) == Held(Apply(c, s, DropQueued)) + multiset{s.queue[0]}
  {
    assert s.queue == s.queue[..1] + s.queue[1..];
    assert multiset(s.queue) == multiset(s.queue[1..]) + multiset{s.queue[0]};
    FirstToLast(multiset(s.queue[1..]), multiset{s.queue[0]}, multiset(s.group), multiset(Unsettled(s.writes)));
  }

  lemma HeldAfterDropGrouped(c: Config, s: State)
    requires Enabled(c, s, DropGrouped)
    ensures Held(s) == Held(Apply(c, s, DropGrouped)) + multiset{s.group[0]}
  {
    assert s.group == s.group[..1] + s.group[1..];
    assert multiset(s.group) == multiset(s.group[1..]) + multiset{s.group[0]};
    SecondToLast(multiset(s.queue), multiset(s.group[1..]), multiset{s.group[0]}, multiset(Unsettled(s.writes)));
  }

  lemma HeldAfterSettle(c: Config, s: State, i: nat)
    requires Enabled(c, s, Settle(i))
    ensures Held(s) == Held(Apply(c, s, Settle(i))) + multiset{EffectOf(c, s, Settle(i)).envelope}
  {
    var w := s.writes[i];
    var e, v := w.group[w.settled], w.(settled := w.settled + 1);
    assert Rest(w) == [e] + Rest(v);
    assert multiset([e] + Rest(v)) == multiset(Rest(v)) + multiset{e};
    HeldAfterUpdate(s, i, v, multiset{e});
    assert Held(Apply(c, s, Settle(i))) == Held(s.(writes := s.writes[i := v]));
  }

  lemma HeldAfterProgress(c: Config, s: State, st: Step)
    requires st.AttemptOk? || st.AttemptFail? || st.Abort?
    requires Enabled(c, s, st)
    ensures Held(Apply(c, s, st)) == Held(s)
  {
    var w := Apply(c, s, st).writes[st.i];
    assert Rest(w) == Rest(s.writes[st.i]);
    HeldAfterUpdate(s, st.i, w, multiset{});
    assert Apply(c, s, st).writes == s.writes[st.i := w];
  }

  lemma HeldAfterArrive(c: Config, s: State, e: Envelope)
    requires Enabled(c, s, Arrive(e))
    ensures Held(Apply(c, s, Arrive(e))) == Held(s) + multiset{e}
  {
    FirstToLast(multiset(s.queue), multiset{e}, multiset(s.group), multiset(Unsettled(s.writes)));
  }

  lemma QuietHeld(c: Config, s: State, st: Step)
    requires SoundWrites(c, s) && Enabled(c, s, st) && !EffectOf(c, s, st).Verdict? && !st.Arrive?
    ensures Held(Apply(c, s, st)) == Held(s)
  {
    match st {
      case Receive => HeldAfterReceive(c, s);
      case Dispatch => HeldAfterDispatch(c, s);
      case AttemptOk(i, _, _) => HeldAfterProgress(c, s, st);
      case AttemptFail(i) => HeldAfterProgress(c, s, st);
      case Abort(i) => HeldAfterProgress(c, s, st);
      case Reap(i) =>
        assert SoundWrite(c, s, s.writes[i]);
        HeldAfterReap(s, i);
      case _ =>
    }
  }

  lemma VerdictHeld(c: Config, s: State, st: Step)
    requires SoundWrites(c, s) && Enabled(c, s, st) && EffectOf(c, s, st).Verdict?
    ensures var e := EffectOf(c, s, st).envelope;
      e in Held(s) && Held(Apply(c, s, st)) == Held(s) - multiset{e}
  {
    match st {
      case Settle(i) => HeldAfterSettle(c, s, i);
      case DropQueued => HeldAfterDropQueued(c, s);
      case DropGrouped => HeldAfterDropGrouped(c, s);
    }
    TakeOut(Held(s), Held(Apply(c, s, st)), EffectOf(c, s, st).envelope);
  }

  /** A step gives a verdict to at most one envelope it held, and otherwise keeps what it holds. */
  lemma StepHeld(c: Config, s: State, st: Step)
    requires SoundWrites(c, s) && Enabled(c, s, st)
    ensures match EffectOf(c, s, st)
      case Verdict(e, _) => e in Held(s) && Held(Apply(c, s, st)) == Held(s) - multiset{e}
      case _ => Held(Apply(c, s, st)) == if st.Arrive? then Held(s) + multiset{st.envelope} else Held(s)
  {
    if EffectOf(c, s, st).Verdict? {
      VerdictHeld(c, s, st);
    } else if st.Arrive? {
      HeldAfterArrive(c, s, st.envelope);
    } else {
      QuietHeld(c, s, st);
    }
  }

  lemma StepHistory(c: Config, s: State, st: Step)
    requires Enabled(c, s, st)
    ensures var t := Apply(c, s, st);
      && t.arrived == (if st.Arrive? then s.arrived + [st.envelope] else s.arrived)
      && match EffectOf(c, s, st)
         case Verdict(e, true) => t.acked == s.acked + [e] && t.refused == s.refused
         case Verdict(e, false) => t.acked == s.acked && t.refused == s.refused + [e]
         case _ => t.acked == s.acked && t.refused == s.refused
  {
  }

  lemma StepConserved(c: Config, s: State, st: Step)
    requires SoundWrites(c, s) && Conserved(s) && Enabled(c, s, st)
    ensures Conserved(Apply(c, s, st))
  {
    StepHeld(c, s, st);
    StepHistory(c, s, st);
    ghost var effect, t := EffectOf(c, s, st), Apply(c, s, st);
    ConservedByVerdict(Held(s), Held(t), s, t, effect, st.Arrive?);
  }

  lemma ConservedByVerdict(
    held: multiset<Envelope>, after: multiset<Envelope>, s: State, t: State, effect: Effect, grew: bool)
    requires held == Held(s) && after == Held(t) && Conserved(s)
    requires if grew then |t.arrived| == |s.arrived| + 1 && t.arrived == s.arrived + [t.arrived[|s.arrived|]]
             else t.arrived == s.arrived
    requires match effect
      case Verdict(e, true) => t.acked == s.acked + [e] && t.refused == s.refused
      case Verdict(e, false) => t.acked == s.acked && t.refused == s.refused + [e]
      case _ => t.acked == s.acked && t.refused == s.refused
    requires match effect
      case Verdict(e, _) => !grew && e in held && after == held - multiset{e}
      case _ => after == if grew then held + multiset{t.arrived[|s.arrived|]} else held
    ensures Conserved(t)
  {
  }

  lemma DispatchPromised(s: State)
    ensures Promised(s.writes + [Write(|s.dispatched|, s.group, 0, Attempting(1))]) == Promised(s.writes)
  {
    var w := Write(|s.dispatched|, s.group, 0, Attempting(1));
    PromisedConcat(s.writes, [w]);
    assert Promised([w]) == Promised([]) + Promise(w);
  }

  lemma AttemptOkTruthful(c: Config, s: State, i: nat, written: nat, dropped: nat)
    requires SoundWrites(c, s) && Truthful(s) && Enabled(c, s, AttemptOk(i, written, dropped))
    ensures Truthful(Succeed(s, i, written, dropped))
  {
    var t := Succeed(s, i, written, dropped);
    PromisedUpdate(s.writes, i, t.writes[i]);
    assert SoundWrite(c, s, s.writes[i]);
    assert Rest(t.writes[i]) == s.writes[i].group;
    AckedStay(s, t);
  }

  lemma AttemptFailTruthful(c: Config, s: State, i: nat)
    requires Truthful(s) && Enabled(c, s, AttemptFail(i))
    ensures Truthful(Fail(c, s, i))
  {
    PromisedUpdate(s.writes, i, Fail(c, s, i).writes[i]);
  }

  lemma StepTruthful(c: Config, s: State, st: Step)
    requires SoundWrites(c, s) && Truthful(s) && Enabled(c, s, st)
    ensures Truthful(Apply(c, s, st))
  {
    match st {
      case Dispatch => DispatchPromised(s);
      case AttemptOk(i, written, dropped) => AttemptOkTruthful(c, s, i, written, dropped);
      case AttemptFail(i) => AttemptFailTruthful(c, s, i);
      case Abort(i) => PromisedUpdate(s.writes, i, Apply(c, s, st).writes[i]);
      case Settle(i) => SettleTruthful(c, s, i);
      case Reap(i) =>
        PromisedUpdate(s.writes, i, s.writes[i]);
        assert SoundWrite(c, s, s.writes[i]);
      case _ =>
    }
  }

  lemma AckedStay(s: State, t: State)
    requires Truthful(s) && t.acked == s.acked && s.successes <= t.successes
    ensures forall e :: e in t.acked ==> InSome(t.successes, e)
  {
    forall e | e in t.acked ensures InSome(t.successes, e) {
      assert InSome(s.successes, e);
      var n :| 0 <= n < |s.successes| && e in s.successes[n];
      assert e in t.successes[n];
    }
  }

  /** Acknowledging an envelope moves its events from promised to acknowledged. */
  lemma SettlePromised(c: Config, s: State, i: nat)
    requires Enabled(c, s, Settle(i))
    ensures var t := SettleOne(s, i);
      EventCount(t.acked) + Promised(t.writes) == EventCount(s.acked) + Promised(s.writes)
  {
    var w := s.writes[i];
    var e, v := w.group[w.settled], w.(settled := w.settled + 1);
    PromisedUpdate(s.writes, i, v);
    PromiseSettled(w);
    EventCountConcat(s.acked, [e]);
  }

  lemma PromiseSettled(w: Write)
    requires w.settled < |w.group|
    ensures var e := w.group[w.settled];
      Promise(w) == Promise(w.(settled := w.settled + 1)) + if w.progress == Settling(true) then EventCount([e]) else 0
  {
    var e, v := w.group[w.settled], w.(settled := w.settled + 1);
    assert Rest(w) == [e] + Rest(v);
    EventCountConcat([e], Rest(v));
  }

  lemma SettleTruthful(c: Config, s: State, i: nat)
    requires SoundWrites(c, s) && Truthful(s) && Enabled(c, s, Settle(i))
    ensures Truthful(Apply(c, s, Settle(i)))
  {
    var w, t := s.writes[i], Apply(c, s, Settle(i));
    SettlePromised(c, s, i);
    assert SoundWrite(c, s, w);
    if w.progress.ok {
      var n :| 0 <= n < |s.successes| && s.successes[n] == w.group;
      assert InSome(t.successes, w.group[w.settled]);
    }
  }

  lemma StepSequential(c: Config, s: State, st: Step)
    requires SoundWrites(c, s) && Sequential(c, s) && Enabled(c, s, st)
    ensures Sequential(c, Apply(c, s, st))
  {
    if st.AttemptOk? || st.AttemptFail? {
      assert SoundWrite(c, s, s.writes[st.i]);
    }
  }

  lemma UnjoinedAfter(c: Config, s: State, st: Step, g: seq<Envelope>)
    requires Enabled(c, s, st) && Unjoined(s.writes, g)
    requires !Apply(c, s, st).phase.Draining? && !Apply(c, s, st).phase.Closed?
    ensures Unjoined(Apply(c, s, st).writes, g)
  {
    var t := Apply(c, s, st);
    var i :| 0 <= i < |s.writes| && s.writes[i].group == g && s.writes[i].progress == Settling(false);
    var j := if st.Reap? && st.i < i then i - 1 else i;
    assert t.writes[j].group == g && t.writes[j].progress == Settling(false);
  }

  lemma StepFatal(c: Config, s: State, st: Step)
    requires Fatal(s) && Enabled(c, s, st)
    ensures Fatal(Apply(c, s, st))
  {
    var t := Apply(c, s, st);
    if !t.phase.Draining? && !t.phase.Closed? {
      forall n | 0 <= n < |t.failures| ensures Unjoined(t.writes, t.failures[n]) {
        if n < |s.failures| {
          UnjoinedAfter(c, s, st, s.failures[n]);
        } else {
          assert t.writes[st.i].group == t.failures[n];
        }
      }
    }
  }

  /** Every step of the sink runtime keeps the whole invariant. */
  lemma StepInv(c: Config, s: State, st: Step)
    requires Validated(c) && Inv(c, s) && Enabled(c, s, st)
    ensures Inv(c, Apply(c, s, st))
  {
    StepSoundWrites(c, s, st);
    StepGrouped(c, s, st);
    StepConserved(c, s, st);
    StepTruthful(c, s, st);
    StepSequential(c, s, st);
    StepFatal(c, s, st);
  }

  ghost predicate Runs(c: Config, steps: seq<Step>, states: seq<State>) {
    && |states| == |steps| + 1
    && states[0] == START
    && forall i :: 0 <= i < |steps| ==>
         Enabled(c, states[i], steps[i]) && states[i + 1] == Apply(c, states[i], steps[i])
  }

  lemma {:induction false} RunInv(c: Config, steps: seq<Step>, states: seq<State>)
    requires Validated(c) && Runs(c, steps, states)
    ensures Inv(c, states[|steps|])
  {
    if steps == [] {
    } else {
      var n := |steps| - 1;
      RunInv(c, steps[..n], states[..n + 1]);
      StepInv(c, states[n], steps[n]);
    }
  }

  /**
   * Exactly once, on every exit path: at any moment the envelopes that arrived are those held,
   * those acknowledged and those refused, each counted once, and only written ones are acknowledged.
   */
  lemma SettledExactlyOnce(c: Config, steps: seq<Step>, states: seq<State>)
    requires Validated(c) && Runs(c, steps, states)
    ensures var s := states[|steps|];
      && multiset(s.arrived) == Held(s) + multiset(s.acked) + multiset(s.refused)
      && (forall e :: e in s.acked ==> InSome(s.successes, e))
  {
    RunInv(c, steps, states);
  }

  /** Giving a group up is fatal: a sink still running its loop has never got past a failed write. */
  lemma GivingUpIsFatal(c: Config, steps: seq<Step>, states: seq<State>, n: nat)
    requires Validated(c) && Runs(c, steps, states) && n < |states[|steps|].failures|
    ensures var s := states[|steps|];
      s.phase.Draining? || s.phase.Closed? || Unjoined(s.writes, s.failures[n])
  {
    RunInv(c, steps, states);
  }

  /** Groups cover the receive order consecutively, stay within the limits, and share the slots. */
  lemma GroupsFollowTheQueue(c: Config, steps: seq<Step>, states: seq<State>)
    requires Validated(c) && Runs(c, steps, states)
    ensures var s := states[|steps|];
      && Flatten(s.dispatched) <= s.received <= s.arrived
      && (forall n :: 0 <= n < |s.dispatched| ==> s.dispatched[n] != [])
      && (forall n :: 0 <= n < |s.dispatched| ==> EventCount(s.dispatched[n][..|s.dispatched[n]| - 1]) < c.maxEvents)
      && (forall n :: 0 <= n < |s.dispatched| ==> ByteCount(s.dispatched[n][..|s.dispatched[n]| - 1]) < c.maxBytes)
      && |s.writes| <= c.maxConcurrentWrites
      && (c.maxConcurrentWrites == 1 ==> forall i, j :: 0 <= i < j < |s.calls| ==> s.calls[i] <= s.calls[j])
  {
    RunInv(c, steps, states);
  }

  /** Once no write is open, the counters add up to the events of the acknowledged envelopes. */
  lemma CountersConserved(c: Config, steps: seq<Step>, states: seq<State>)
    requires Validated(c) && Runs(c, steps, states) && states[|steps|].writes == []
    ensures var s := states[|steps|];
      && s.counters.eventsOut + s.counters.eventsDropped == EventCount(s.acked)
      && s.counters.batchesWritten == |s.successes|
      && s.counters.writeErrors == |s.failures|
      && s.counters.retries == |s.calls| - |s.successes| - |s.failures|
  {
    RunInv(c, steps, states);
  }

  // ----- where the loop is when it takes a step

  /**
   * The control flow of the loop: it takes an envelope while it has none or is under both limits,
   * gives a group a write only in a free slot, leaves its accept loop on a closed channel only when
   * nothing is queued, returns from draining only with every write joined, and joins writes only
   * while waiting, coalescing under the limits, out of slots, or draining.
   */
  lemma LoopIsWhere(c: Config, steps: seq<Step>, states: seq<State>, i: nat)
    requires Runs(c, steps, states) && i < |steps|
    ensures var s := states[i];
      && (steps[i].Receive? ==> s.phase.Accepting? || s.phase.Coalescing?)
      && (steps[i].Receive? && s.phase.Coalescing? ==>
            EventCount(s.group) < c.maxEvents && ByteCount(s.group) < c.maxBytes)
      && (steps[i].Dispatch? ==> |s.writes| < c.maxConcurrentWrites)
      && (steps[i].Disconnect? ==> s.phase.Accepting? && s.queue == [])
      && (steps[i].Finish? ==> s.phase.Draining? && s.writes == [])
      && (steps[i].Reap? ==> !s.phase.Closed?)
      && (steps[i].Reap? && s.phase.Coalescing? ==>
            EventCount(s.group) < c.maxEvents && ByteCount(s.group) < c.maxBytes)
      && (steps[i].Reap? && s.phase.WaitingSlot? ==> |s.writes| >= c.maxConcurrentWrites)
  {
  }

  lemma {:induction false} CountsGrow(q: seq<Envelope>, m: nat, n: nat)
    requires m <= n <= |q|
    ensures EventCount(q[..m]) <= EventCount(q[..n]) && ByteCount(q[..m]) <= ByteCount(q[..n])
  {
    if m == n {
    } else {
      CountsGrow(q, m, n - 1);
      assert q[..n][..n - 1] == q[..n - 1];
    }
  }

  /** The loop after receiving `n` envelopes in a row. */
  ghost predicate Collected(s: State, t: State, n: nat) {
    && n <= |s.queue| && t == s.(queue := s.queue[n..], group := s.queue[..n], received := s.received + s.queue[..n],
                                 phase := if n == 0 then s.phase else Coalescing)
  }

  lemma CollectOne(c: Config, s: State, t: State, n: nat)
    requires Collected(s, t, n) && n < |s.queue| && s.phase.Accepting?
    requires n > 0 ==> EventCount(s.queue[..n]) < c.maxEvents && ByteCount(s.queue[..n]) < c.maxBytes
    ensures Enabled(c, t, Receive) && Collected(s, Apply(c, t, Receive), n + 1)
  {
    assert s.queue[n..][0] == s.queue[n] && s.queue[n..][1..] == s.queue[n + 1..];
    assert s.queue[..n] + [s.queue[n]] == s.queue[..n + 1];
    Associative(s.received, s.queue[..n], [s.queue[n]]);
  }

  /**
   * Whatever `Coalesce` takes, the loop can take: any prefix of the queue that is under both limits
   * without its last envelope is collected by as many receive steps.
   */
  lemma {:induction false} CollectsPrefix(c: Config, s: State, n: nat) returns (states: seq<State>)
    requires s.phase.Accepting? && s.group == [] && n <= |s.queue|
    requires n > 0 ==> EventCount(s.queue[..n - 1]) < c.maxEvents && ByteCount(s.queue[..n - 1]) < c.maxBytes
    ensures |states| == n + 1 && states[0] == s
    ensures forall i :: 0 <= i < n ==> Enabled(c, states[i], Receive) && states[i + 1] == Apply(c, states[i], Receive)
    ensures states[n].group == s.queue[..n] && states[n].queue == s.queue[n..] && Collected(s, states[n], n)
  {
    if n == 0 {
      states := [s];
      assert s.received + s.queue[..0] == s.received;
    } else {
      if n > 1 {
        CountsGrow(s.queue, n - 2, n - 1);
      }
      var before := CollectsPrefix(c, s, n - 1);
      CollectOne(c, s, before[n - 1], n - 1);
      states := before + [Apply(c, before[n - 1], Receive)];
    }
  }

  // ----- what each counter counts

  /** The events reported as written, and as dropped, by the successful writes of a run. */
  function WrittenSum(steps: seq<Step>): nat {
    if steps == [] then 0
    else
      var last := steps[|steps| - 1];
      WrittenSum(steps[..|steps| - 1]) + if last.AttemptOk? then last.written else 0
  }

  function DroppedSum(steps: seq<Step>): nat {
    if steps == [] then 0
    else
      var last := steps[|steps| - 1];
      DroppedSum(steps[..|steps| - 1]) + if last.AttemptOk? then last.dropped else 0
  }

  function SuccessCount(steps: seq<Step>): nat {
    if steps == [] then 0
    else SuccessCount(steps[..|steps| - 1]) + if steps[|steps| - 1].AttemptOk? then 1 else 0
  }

  function FailureCount(steps: seq<Step>): nat {
    if steps == [] then 0
    else FailureCount(steps[..|steps| - 1]) + if steps[|steps| - 1].AttemptFail? then 1 else 0
  }

  /** What one step adds to the counters. */
  lemma StepCounters(c: Config, s: State, st: Step)
    requires Enabled(c, s, st)
    ensures var k, l := s.counters, Apply(c, s, st).counters;
      && l.eventsOut == k.eventsOut + (if st.AttemptOk? then st.written else 0)
      && l.eventsDropped == k.eventsDropped + (if st.AttemptOk? then st.dropped else 0)
      && l.batchesWritten == k.batchesWritten + (if st.AttemptOk? then 1 else 0)
      && l.retries + l.writeErrors == k.retries + k.writeErrors + (if st.AttemptFail? then 1 else 0)
  {
  }

  /** The counters are sums over the steps of the run, each over its own kind. */
  lemma {:induction false} CountersFollowSteps(c: Config, steps: seq<Step>, states: seq<State>)
    requires Runs(c, steps, states)
    ensures CountersAre(states[|steps|].counters, steps)
  {
    if steps == [] {
    } else {
      var n := |steps| - 1;
      CountersFollowSteps(c, steps[..n], states[..n + 1]);
      StepCounters(c, states[n], steps[n]);
      CountersPush(states[n].counters, states[n + 1].counters, steps);
    }
  }

  ghost predicate CountersAre(k: Counters, steps: seq<Step>) {
    && k.eventsOut == WrittenSum(steps) && k.eventsDropped == DroppedSum(steps)
    && k.batchesWritten == SuccessCount(steps) && k.retries + k.writeErrors == FailureCount(steps)
  }

  lemma CountersPush(k: Counters, l: Counters, steps: seq<Step>)
    requires steps != [] && CountersAre(k, steps[..|steps| - 1])
    requires var st := steps[|steps| - 1];
      && l.eventsOut == k.eventsOut + (if st.AttemptOk? then st.written else 0)
      && l.eventsDropped == k.eventsDropped + (if st.AttemptOk? then st.dropped else 0)
      && l.batchesWritten == k.batchesWritten + (if st.AttemptOk? then 1 else 0)
      && l.retries + l.writeErrors == k.retries + k.writeErrors + (if st.AttemptFail? then 1 else 0)
    ensures CountersAre(l, steps)
  {
  }

  // ----- attempts

  /** Open writes stand for different dispatched groups. */
  ghost predicate Numbered(ws: seq<Write>, dispatched: nat) {
    && (forall i :: 0 <= i < |ws| ==> ws[i].index < dispatched)
    && (forall i, j :: 0 <= i < j < |ws| ==> ws[i].index != ws[j].index)
  }

  /** A write's attempt number counts the calls made for its group, and no group has more than its share. */
  ghost predicate Called(max: nat, ws: seq<Write>, calls: multiset<nat>, dispatched: nat) {
    && (forall n :: n in calls ==> n < dispatched)
    && (forall n :: calls[n] <= max)
    && (forall i :: 0 <= i < |ws| && ws[i].progress.Attempting? ==>
          calls[ws[i].index] + 1 == ws[i].progress.attempt <= max)
  }

  ghost predicate Attempted(c: Config, s: State) {
    Numbered(s.writes, |s.dispatched|) && Called(c.maxAttempts, s.writes, multiset(s.calls), |s.dispatched|)
  }

  lemma CalledOnceMore(max: nat, ws: seq<Write>, i: nat, w: Write, calls: multiset<nat>, dispatched: nat)
    requires Numbered(ws, dispatched) && Called(max, ws, calls, dispatched)
    requires i < |ws| && ws[i].progress.Attempting? && w.index == ws[i].index
    requires w.progress.Attempting? ==> w.progress.attempt == ws[i].progress.attempt + 1 <= max
    ensures Numbered(ws[i := w], dispatched)
    ensures Called(max, ws[i := w], calls + multiset{w.index}, dispatched)
  {
  }

  lemma CalledLess(max: nat, ws: seq<Write>, i: nat, w: Write, calls: multiset<nat>, dispatched: nat)
    requires Numbered(ws, dispatched) && Called(max, ws, calls, dispatched)
    requires i < |ws| && w.index == ws[i].index && !w.progress.Attempting?
    ensures Numbered(ws[i := w], dispatched) && Called(max, ws[i := w], calls, dispatched)
    ensures Numbered(ws[..i] + ws[i + 1..], dispatched) && Called(max, ws[..i] + ws[i + 1..], calls, dispatched)
  {
  }

  lemma CalledNew(max: nat, ws: seq<Write>, w: Write, calls: multiset<nat>, dispatched: nat)
    requires max >= 1 && Numbered(ws, dispatched) && Called(max, ws, calls, dispatched)
    requires w.index == dispatched && w.progress == Attempting(1)
    ensures Numbered(ws + [w], dispatched + 1) && Called(max, ws + [w], calls, dispatched + 1)
  {
    assert dispatched !in calls;
  }

  lemma StepAttempted(c: Config, s: State, st: Step)
    requires Validated(c) && Attempted(c, s) && Enabled(c, s, st)
    ensures Attempted(c, Apply(c, s, st))
  {
    var t, calls, n := Apply(c, s, st), multiset(s.calls), |s.dispatched|;
    match st {
      case AttemptOk(i, _, _) => CalledOnceMore(c.maxAttempts, s.writes, i, t.writes[i], calls, n);
      case AttemptFail(i) => CalledOnceMore(c.maxAttempts, s.writes, i, t.writes[i], calls, n);
      case Settle(i) => CalledLess(c.maxAttempts, s.writes, i, t.writes[i], calls, n);
      case Abort(i) => CalledLess(c.maxAttempts, s.writes, i, t.writes[i], calls, n);
      case Reap(i) => CalledLess(c.maxAttempts, s.writes, i, s.writes[i], calls, n);
      case Dispatch => CalledNew(c.maxAttempts, s.writes, t.writes[|s.writes|], calls, n);
      case _ =>
    }
  }

  lemma {:induction false} RunAttempted(c: Config, steps: seq<Step>, states: seq<State>, i: nat)
    requires Validated(c) && Runs(c, steps, states) && i < |states|
    ensures Attempted(c, states[i])
  {
    if i == 0 {
    } else {
      RunAttempted(c, steps, states, i - 1);
      StepAttempted(c, states[i - 1], steps[i - 1]);
    }
  }

  /**
   * A group is given up exactly at its last attempt: a failed call is a retry as long as the group
   * has been called fewer than `max_attempts` times, and the write error comes with the last.
   */
  lemma GivesUpAtTheLimit(c: Config, steps: seq<Step>, states: seq<State>, i: nat)
    requires Validated(c) && Runs(c, steps, states) && i < |steps| && steps[i].AttemptFail?
    ensures steps[i].i < |states[i].writes|
    ensures var s, t, w := states[i], states[i + 1], states[i].writes[steps[i].i];
      && t.calls == s.calls + [w.index] && multiset(t.calls)[w.index] <= c.maxAttempts
      && if multiset(t.calls)[w.index] == c.maxAttempts
         then t.failures == s.failures + [w.group] && t.counters.writeErrors == s.counters.writeErrors + 1
         else t.failures == s.failures && t.counters.retries == s.counters.retries + 1
  {
    RunAttempted(c, steps, states, i);
    RunAttempted(c, steps, states, i + 1);
    var s, w := states[i], states[i].writes[steps[i].i];
    assert multiset(s.calls + [w.index])[w.index] == multiset(s.calls)[w.index] + 1;
  }

  /** The queue never holds more than the channel's capacity. */
  lemma {:induction false} QueueIsBounded(c: Config, steps: seq<Step>, states: seq<State>)
    requires Runs(c, steps, states)
    ensures |states[|steps|].queue| <= c.capacity
  {
    if steps == [] {
    } else {
      var n := |steps| - 1;
      QueueIsBounded(c, steps[..n], states[..n + 1]);
    }
  }

  // ----- draining

  /** As long as nothing is given up, no open write has failed, and a returned sink has none open. */
  ghost predicate Unfailed(s: State) {
    s.failures == [] ==>
      && (s.phase.Closed? ==> s.writes == [])
      && forall i :: 0 <= i < |s.writes| ==> s.writes[i].progress != Settling(false)
  }

  /** As long as nothing is given up, what was dispatched is acknowledged or still being written. */
  ghost predicate Drains(s: State) {
    s.failures == [] ==> multiset(Flatten(s.dispatched)) == multiset(s.acked) + multiset(Unsettled(s.writes))
  }

  lemma UnsettledProgress(ws: seq<Write>, i: nat, w: Write)
    requires i < |ws| && Rest(w) == Rest(ws[i])
    ensures multiset(Unsettled(ws[i := w])) == multiset(Unsettled(ws))
  {
    UnsettledUpdate(ws, i, w);
    CancelSame(multiset(Unsettled(ws[i := w])), multiset(Unsettled(ws)), multiset(Rest(w)));
  }

  lemma UnsettledReaped(ws: seq<Write>, i: nat)
    requires i < |ws| && Rest(ws[i]) == []
    ensures multiset(Unsettled(ws[..i] + ws[i + 1..])) == multiset(Unsettled(ws))
  {
    UnsettledUpdate(ws, i, ws[i]);
  }

  lemma UnsettledSettled(ws: seq<Write>, i: nat, v: Write)
    requires i < |ws| && ws[i].settled < |ws[i].group| && v == ws[i].(settled := ws[i].settled + 1)
    ensures multiset(Unsettled(ws)) == multiset(Unsettled(ws[i := v])) + multiset{ws[i].group[ws[i].settled]}
  {
    var e := ws[i].group[ws[i].settled];
    UnsettledUpdate(ws, i, v);
    assert Rest(ws[i]) == [e] + Rest(v);
    assert multiset([e] + Rest(v)) == multiset(Rest(v)) + multiset{e};
    CancelSame(multiset(Unsettled(ws)), multiset(Unsettled(ws[i := v])) + multiset{e}, multiset(Rest(v)));
  }

  lemma StepUnfailed(c: Config, s: State, st: Step)
    requires Unfailed(s) && Enabled(c, s, st)
    ensures Unfailed(Apply(c, s, st))
  {
  }

  lemma MoveOver(all: multiset<Envelope>, acked: seq<Envelope>, open: multiset<Envelope>,
    left: multiset<Envelope>, e: Envelope)
    requires all == multiset(acked) + open && open == left + multiset{e}
    ensures all == multiset(acked + [e]) + left
  {
  }

  lemma SettleDrains(c: Config, s: State, i: nat)
    requires Drains(s) && Unfailed(s) && Enabled(c, s, Settle(i)) && s.failures == []
    ensures Drains(Apply(c, s, Settle(i)))
  {
    var w := s.writes[i];
    SettledDrains(s, Apply(c, s, Settle(i)), i, w.(settled := w.settled + 1), w.group[w.settled]);
  }

  lemma SettledDrains(s: State, t: State, i: nat, v: Write, e: Envelope)
    requires Drains(s) && s.failures == [] && i < |s.writes| && s.writes[i].settled < |s.writes[i].group|
    requires v == s.writes[i].(settled := s.writes[i].settled + 1) && e == s.writes[i].group[s.writes[i].settled]
    requires t.writes == s.writes[i := v] && t.acked == s.acked + [e] && t.dispatched == s.dispatched
    ensures Drains(t)
  {
    UnsettledSettled(s.writes, i, v);
    MoveOver(multiset(Flatten(s.dispatched)), s.acked, multiset(Unsettled(s.writes)), multiset(Unsettled(t.writes)), e);
  }

  lemma DispatchDrains(c: Config, s: State)
    requires Drains(s) && Enabled(c, s, Dispatch) && s.failures == []
    ensures Drains(Apply(c, s, Dispatch))
  {
    var w := Write(|s.dispatched|, s.group, 0, Attempting(1));
    FlattenPush(s.dispatched, s.group);
    UnsettledPush(s.writes, w);
    Associate(multiset(s.acked), multiset(Unsettled(s.writes)), multiset(s.group));
  }

  lemma UnsettledPush(ws: seq<Write>, w: Write)
    requires w.settled == 0
    ensures Unsettled(ws + [w]) == Unsettled(ws) + w.group
  {
    UnsettledConcat(ws, [w]);
    UnsettledOne(w);
    assert Rest(w) == w.group;
  }

  lemma AttemptDrains(c: Config, s: State, st: Step)
    requires Drains(s) && Enabled(c, s, st) && (st.AttemptOk? || st.AttemptFail?) && s.failures == []
    ensures Drains(Apply(c, s, st))
  {
    var t := Apply(c, s, st);
    var w := s.writes[st.i].(progress := t.writes[st.i].progress);
    assert t.writes == s.writes[st.i := w];
    UnsettledProgress(s.writes, st.i, w);
  }

  lemma ReapDrains(c: Config, s: State, i: nat)
    requires Drains(s) && Enabled(c, s, Reap(i)) && s.failures == []
    ensures Drains(Apply(c, s, Reap(i)))
  {
    UnsettledReaped(s.writes, i);
  }

  lemma StepDrains(c: Config, s: State, st: Step)
    requires Drains(s) && Unfailed(s) && Enabled(c, s, st)
    ensures Drains(Apply(c, s, st))
  {
    if s.failures == [] {
      match st {
        case Dispatch => DispatchDrains(c, s);
        case Settle(i) => SettleDrains(c, s, i);
        case AttemptOk(_, _, _) => AttemptDrains(c, s, st);
        case AttemptFail(_) => AttemptDrains(c, s, st);
        case Reap(i) => ReapDrains(c, s, i);
        case _ =>
      }
    }
  }

  lemma {:induction false} RunDrains(c: Config, steps: seq<Step>, states: seq<State>)
    requires Runs(c, steps, states)
    ensures Drains(states[|steps|]) && Unfailed(states[|steps|])
  {
    if steps == [] {
    } else {
      var n := |steps| - 1;
      RunDrains(c, steps[..n], states[..n + 1]);
      StepDrains(c, states[n], steps[n]);
      StepUnfailed(c, states[n], steps[n]);
    }
  }

  /**
   * A shutdown drains: unless a group was given up, a sink that has returned has finished every
   * write it ever dispatched and acknowledged exactly the envelopes in them.
   */
  lemma ShutdownDrains(c: Config, steps: seq<Step>, states: seq<State>)
    requires Validated(c) && Runs(c, steps, states)
    requires states[|steps|].phase.Closed? && states[|steps|].failures == []
    ensures var s := states[|steps|];
      s.writes == [] && multiset(s.acked) == multiset(Flatten(s.dispatched))
  {
    RunDrains(c, steps, states);
  }

  lemma {:induction false} NothingUnsettled(ws: seq<Write>)
    requires forall i :: 0 <= i < |ws| ==> ws[i].settled >= |ws[i].group|
    ensures Unsettled(ws) == []
  {
    if ws == [] {
    } else {
      var front, last := ws[..|ws| - 1], ws[|ws| - 1];
      NothingUnsettled(front);
      UnsettledConcat(front, [last]);
      UnsettledOne(last);
      assert ws == front + [last];
    }
  }

  /** With every open write settled, the loop itself can move. */
  lemma LoopCanStep(c: Config, s: State) returns (st: Step)
    requires Validated(c) && Grouped(c, s) && s.queue + s.group != []
    requires forall i :: 0 <= i < |s.writes| ==> Finished(s.writes[i])
    ensures Enabled(c, s, st) && Own(st)
  {
    match s.phase {
      case Coalescing => st := CloseGroup;
      case Closed => st := if s.queue != [] then DropQueued else DropGrouped;
      case Draining => st := if s.writes != [] then Reap(0) else Finish;
      case WaitingSlot => st := if |s.writes| < c.maxConcurrentWrites then Dispatch else Reap(0);
      case Accepting => st := Receive;
    }
  }

  /** A sink that holds an envelope is never stuck, and needs neither input nor a shutdown to move. */
  lemma NeverStuck(c: Config, s: State) returns (st: Step)
    requires Validated(c) && SoundWrites(c, s) && Grouped(c, s)
    requires Held(s) != multiset{}
    ensures Enabled(c, s, st) && Own(st)
  {
    if i :| 0 <= i < |s.writes| && s.writes[i].progress.Attempting? {
      st := AttemptFail(i);
    } else if i :| 0 <= i < |s.writes| && s.writes[i].settled < |s.writes[i].group| {
      st := Settle(i);
    } else {
      NothingUnsettled(s.writes);
      assert s.queue + s.group != [];
      st := LoopCanStep(c, s);
    }
  }

  /** The sink has no step of its own left. */
  ghost predicate AtRest(c: Config, s: State) {
    forall st :: Own(st) ==> !Enabled(c, s, st)
  }

  /** A sink at rest holds no envelope: it waits for the next one with no write open, or it has returned. */
  lemma RestHoldsNothing(c: Config, s: State)
    requires Validated(c) && SoundWrites(c, s) && Grouped(c, s) && AtRest(c, s)
    ensures Held(s) == multiset{}
    ensures s.phase.Closed? || (s.phase.Accepting? && s.writes == [])
  {
    if Held(s) != multiset{} {
      var st := NeverStuck(c, s);
    }
    assert s.queue == [] && s.group == [] by {
      assert forall e :: e in s.queue ==> e in Held(s);
      assert forall e :: e in s.group ==> e in Held(s);
    }
    RestIsIdle(c, s);
  }

  lemma RestIsIdle(c: Config, s: State)
    requires Validated(c) && AtRest(c, s)
    ensures s.phase.Closed? || (s.phase.Accepting? && s.writes == [])
  {
    assert !Enabled(c, s, CloseGroup) && !Enabled(c, s, Dispatch) && !Enabled(c, s, Finish);
    if s.writes != [] {
      assert !Enabled(c, s, AttemptFail(0)) && !Enabled(c, s, Settle(0)) && !Enabled(c, s, Reap(0));
    }
  }

  /** Settled exactly once: a sink at rest has acknowledged or refused everything that ever arrived. */
  lemma RestSettlesAll(c: Config, steps: seq<Step>, states: seq<State>)
    requires Validated(c) && Runs(c, steps, states) && AtRest(c, states[|steps|])
    ensures var s := states[|steps|];
      multiset(s.arrived) == multiset(s.acked) + multiset(s.refused)
  {
    RunInv(c, steps, states);
    RestHoldsNothing(c, states[|steps|]);
  }

  /**
   * The coalescing loop: `arrivals` is what the queue yields before the linger deadline. It
   * takes a prefix, and stops early only because a limit was reached.
   */
  method Coalesce(c: Config, first: Envelope, arrivals: seq<Envelope>) returns (group: seq<Envelope>)
    requires Validated(c)
    ensures group != [] && group <= [first] + arrivals
    ensures EventCount(group[..|group| - 1]) < c.maxEvents && ByteCount(group[..|group| - 1]) < c.maxBytes
    ensures group != [first] + arrivals ==> EventCount(group) >= c.maxEvents || ByteCount(group) >= c.maxBytes
  {
    var eventCount, byteCount := first.events, first.bytes;
    group := [first];
    assert group[..0] == [];
    var taken := 0;
    while eventCount < c.maxEvents && byteCount < c.maxBytes && taken < |arrivals|
      invariant taken <= |arrivals| && group == [first] + arrivals[..taken]
      invariant eventCount == EventCount(group) && byteCount == ByteCount(group)
      invariant Coalesced(c, group)
    {
      ghost var before := group;
      group := group + [arrivals[taken]];
      assert group[..|group| - 1] == before;
      eventCount := eventCount + arrivals[taken].events;
      byteCount := byteCount + arrivals[taken].bytes;
      taken := taken + 1;
    }
    assert taken == |arrivals| ==> arrivals[..taken] == arrivals;
    assert group == ([first] + arrivals)[..taken + 1];
  }
}
