/** The Kafka source's loop: consume, dispatch, reap, commit (src/source/kafka.rs). */
module SourceLoop {
  import opened Wrappers
  import opened Sequences
  import opened Events
  import opened Offsets
  import opened Commit

  const USIZE_MAX: nat := 0xFFFF_FFFF_FFFF_FFFF

  function SaturatingAdd(a: nat, b: nat): nat {
    if a + b > USIZE_MAX then USIZE_MAX else a + b
  }

  function SaturatingSub(a: nat, b: nat): nat {
    if a < b then 0 else a - b
  }

  datatype Config = Config(batchSize: nat, maxInFlightBatches: nat, maxInFlightBytes: nat)

  /** What `Config::validate` demands of a source's limits. */
  predicate Validated(c: Config) {
    c.batchSize > 0 && c.maxInFlightBatches > 0 && c.maxInFlightBytes > 0
  }

  /**
   * The loop's variables. `batches` is the history of dispatched batches, indexed by their
   * sequence number; `saturated` says whether the byte counter ever hit its ceiling.
   */
  datatype State = State(
    pending: Batch,
    sequence: nat,
    batches: seq<Batch>,
    inFlight: set<nat>,
    inFlightBytes: nat,
    ledger: Ledger,
    saturated: bool)

  const START := State([], 0, [], {}, 0, EMPTY, false)

  predicate Admits(c: Config, s: State) {
    |s.inFlight| < c.maxInFlightBatches && s.inFlightBytes < c.maxInFlightBytes
  }

  predicate CanReceive(c: Config, s: State) {
    Admits(c, s) && |s.pending| < c.batchSize
  }

  predicate CanLinger(c: Config, s: State) {
    Admits(c, s) && s.pending != []
  }

  function Dispatch(s: State): State {
    var bytes := BatchBytes(s.pending);
    s.(pending := [],
       sequence := s.sequence + 1,
       batches := s.batches + [s.pending],
       inFlight := s.inFlight + {s.sequence},
       inFlightBytes := SaturatingAdd(s.inFlightBytes, bytes),
       saturated := s.saturated || s.inFlightBytes + bytes > USIZE_MAX)
  }

  function Receive(c: Config, s: State, e: Event): State {
    var t := s.(pending := s.pending + [e]);
    if |t.pending| >= c.batchSize then Dispatch(t) else t
  }

  /** What the spawned task reports once its fan-out succeeded. */
  function CompletionOf(batches: seq<Batch>, b: nat): Completion
    requires b < |batches|
  {
    Completion(b, NextOffsets(batches[b]), |batches[b]|, BatchBytes(batches[b]))
  }

  datatype Reaped = Reaped(state: State, ok: bool)

  /** Joins the successful task of batch `b` and commits what has become contiguous. */
  function Reap(s: State, b: nat, refused: set<nat>): Reaped
    requires b in s.inFlight && b < |s.batches|
  {
    var d := Accept(s.ledger, CompletionOf(s.batches, b), refused);
    Reaped(s.(inFlight := s.inFlight - {b},
              inFlightBytes := SaturatingSub(s.inFlightBytes, BatchBytes(s.batches[b])),
              ledger := d.ledger),
           d.ok)
  }

  /** The bytes of those batches whose sequence number is in `some`. */
  ghost function BytesOf(batches: seq<Batch>, some: set<nat>): nat {
    if batches == [] then 0
    else BytesOf(batches[..|batches| - 1], some)
         + if |batches| - 1 in some then BatchBytes(batches[|batches| - 1]) else 0
  }

  lemma {:induction false} BytesOfRemove(batches: seq<Batch>, some: set<nat>, b: nat)
    requires b in some && b < |batches|
    ensures BytesOf(batches, some) == BytesOf(batches, some - {b}) + BatchBytes(batches[b])
  {
    var n := |batches| - 1;
    if b < n {
      BytesOfRemove(batches[..n], some, b);
    } else {
      BytesOfIgnores(batches[..n], some, some - {b});
    }
  }

  lemma {:induction false} BytesOfIgnores(batches: seq<Batch>, some: set<nat>, other: set<nat>)
    requires forall i :: 0 <= i < |batches| ==> (i in some <==> i in other)
    ensures BytesOf(batches, some) == BytesOf(batches, other)
  {
    if batches == [] {
    } else {
      BytesOfIgnores(batches[..|batches| - 1], some, other);
    }
  }

  lemma BytesOfNone(batches: seq<Batch>)
    ensures BytesOf(batches, {}) == 0
  {
  }

  ghost function InFlightTotal(s: State): nat {
    BytesOf(s.batches, s.inFlight)
  }

  ghost function Consumed(s: State): seq<Event> {
    Flatten(s.batches) + s.pending
  }

  /** Everything at or above the commit point is either still in flight or acknowledged, never both. */
  ghost predicate Partitioned(s: State) {
    && s.sequence == |s.batches|
    && s.ledger.next <= s.sequence
    && s.inFlight !! s.ledger.completed.Keys
    && (forall b :: s.ledger.next <= b < s.sequence <==> b in s.inFlight || b in s.ledger.completed)
    && s.ledger.next !in s.ledger.completed
  }

  /** Completions and commits carry the offsets and sizes of the batches they stand for. */
  ghost predicate Faithful(s: State) {
    && s.sequence == |s.batches|
    && |s.ledger.commits| == s.ledger.next <= s.sequence
    && (forall b :: b in s.ledger.completed ==>
          b < s.sequence && s.ledger.completed[b] == CompletionOf(s.batches, b))
    && (forall b :: 0 <= b < s.ledger.next ==> s.ledger.commits[b] == CompletionOf(s.batches, b))
  }

  ghost predicate Sized(c: Config, s: State) {
    && |s.pending| < c.batchSize
    && (forall b :: 0 <= b < |s.batches| ==> 1 <= |s.batches[b]| <= c.batchSize)
  }

  /** The largest footprint of a batch dispatched or being assembled. */
  ghost function Largest(batches: seq<Batch>, pending: Batch): nat {
    if batches == [] then BatchBytes(pending)
    else
      var rest, last := Largest(batches[..|batches| - 1], pending), BatchBytes(batches[|batches| - 1]);
      if rest < last then last else rest
  }

  lemma {:induction false} LargestBounds(batches: seq<Batch>, pending: Batch)
    ensures BatchBytes(pending) <= Largest(batches, pending)
    ensures forall b :: 0 <= b < |batches| ==> BatchBytes(batches[b]) <= Largest(batches, pending)
  {
    if batches == [] {
    } else {
      LargestBounds(batches[..|batches| - 1], pending);
    }
  }

  /**
   * The byte counter: never above the true total, exact unless it saturated, and a batch is
   * only ever assembled while both windows are open.
   */
  ghost predicate Budgeted(c: Config, s: State) {
    && |s.inFlight| <= c.maxInFlightBatches
    && s.inFlightBytes <= InFlightTotal(s)
    && (!s.saturated ==> s.inFlightBytes == InFlightTotal(s))
    && (s.pending != [] ==> Admits(c, s))
    && (s.pending == [] ==> s.inFlightBytes < c.maxInFlightBytes + Largest(s.batches, s.pending))
  }

  ghost predicate Inv(c: Config, s: State) {
    Partitioned(s) && Faithful(s) && Sized(c, s) && Budgeted(c, s)
  }

  lemma StartInv(c: Config)
    requires Validated(c)
    ensures Inv(c, START)
  {
  }

  lemma DispatchShape(s: State)
    requires Partitioned(s) && Faithful(s)
    ensures Partitioned(Dispatch(s)) && Faithful(Dispatch(s))
    ensures Consumed(Dispatch(s)) == Consumed(s)
  {
    FlattenPush(s.batches, s.pending);
    var t := Dispatch(s);
    assert s.sequence !in s.inFlight;
    forall b | b in s.ledger.completed ensures t.ledger.completed[b] == CompletionOf(t.batches, b) {
      assert s.ledger.completed[b] == CompletionOf(s.batches, b);
    }
    forall b | 0 <= b < s.ledger.next ensures t.ledger.commits[b] == CompletionOf(t.batches, b) {
      assert s.ledger.commits[b] == CompletionOf(s.batches, b);
    }
  }

  lemma DispatchBudget(c: Config, s: State)
    requires Partitioned(s)
    requires Admits(c, s)
    requires s.inFlightBytes <= InFlightTotal(s)
    requires !s.saturated ==> s.inFlightBytes == InFlightTotal(s)
    ensures Budgeted(c, Dispatch(s))
  {
    var t := Dispatch(s);
    assert s.sequence !in s.inFlight;
    assert t.batches[..|t.batches| - 1] == s.batches;
    BytesOfIgnores(s.batches, s.inFlight, t.inFlight);
    LargestBounds(t.batches, t.pending);
    assert BatchBytes(t.batches[|s.batches|]) <= Largest(t.batches, t.pending);
  }

  /** Receiving one more event keeps every part of the invariant and loses no event. */
  lemma ReceiveInv(c: Config, s: State, e: Event)
    requires Validated(c) && Inv(c, s) && CanReceive(c, s)
    ensures Inv(c, Receive(c, s, e))
    ensures Consumed(Receive(c, s, e)) == Consumed(s) + [e]
  {
    var t := s.(pending := s.pending + [e]);
    assert Consumed(t) == Consumed(s) + [e];
    if |t.pending| >= c.batchSize {
      DispatchShape(t);
      DispatchBudget(c, t);
    }
  }

  /** The linger timer moves the pending events into a batch and nothing else. */
  lemma LingerInv(c: Config, s: State)
    requires Validated(c) && Inv(c, s) && CanLinger(c, s)
    ensures Inv(c, Dispatch(s))
    ensures Consumed(Dispatch(s)) == Consumed(s)
  {
    DispatchShape(s);
    DispatchBudget(c, s);
  }

  /** The completions the ledger accounts for are those of every batch that left the window. */
  ghost function Finished(s: State): map<nat, Completion>
    requires Faithful(s)
  {
    map b: nat | b < s.sequence && (b < s.ledger.next || b in s.ledger.completed)
      :: CompletionOf(s.batches, b)
  }

  lemma FinishedSettled(s: State)
    requires Partitioned(s) && Faithful(s)
    ensures Settled(s.ledger, Finished(s))
  {
  }

  /** Reaping drains the ledger with the batch's own completion added to the account. */
  lemma ReapAccounts(s: State, b: nat, refused: set<nat>)
    requires Partitioned(s) && Faithful(s) && b in s.inFlight
    ensures var all := Finished(s)[b := CompletionOf(s.batches, b)];
      var r := Reap(s, b, refused);
      && s.ledger.commits <= r.state.ledger.commits
      && |r.state.ledger.commits| == r.state.ledger.next
      && (forall i :: 0 <= i < r.state.ledger.next ==> i in all && r.state.ledger.commits[i] == all[i])
      && (forall i :: i in r.state.ledger.completed ==> i in all && r.state.ledger.completed[i] == all[i])
      && (r.ok ==> Settled(r.state.ledger, all))
  {
    FinishedSettled(s);
    var c := CompletionOf(s.batches, b);
    var l := s.ledger.(completed := s.ledger.completed[b := c]);
    DrainAccounts(l, Finished(s)[b := c], refused);
    DrainShrinks(l, refused);
  }

  lemma ReapShape(s: State, b: nat, refused: set<nat>)
    requires Partitioned(s) && Faithful(s) && b in s.inFlight
    ensures var r := Reap(s, b, refused);
      && Faithful(r.state)
      && (r.ok ==> Partitioned(r.state))
      && s.ledger.commits <= r.state.ledger.commits
      && (forall i :: s.ledger.next <= i < r.state.ledger.next ==> i == b || i in s.ledger.completed)
  {
    ReapAccounts(s, b, refused);
    var all, t := Finished(s)[b := CompletionOf(s.batches, b)], Reap(s, b, refused).state;
    assert forall i :: i in all ==> i < s.sequence && all[i] == CompletionOf(s.batches, i);
    assert t.ledger.next > 0 ==> t.ledger.next - 1 in all;
    forall i | s.ledger.next <= i < t.ledger.next ensures i == b || i in s.ledger.completed {
      assert t.ledger.commits[i] == all[i];
    }
  }

  lemma {:induction false} DrainShrinks(l: Ledger, refused: set<nat>)
    ensures forall i :: i in Drain(l, refused).ledger.completed ==>
      i in l.completed && Drain(l, refused).ledger.completed[i] == l.completed[i]
    decreases |l.completed|
  {
    if l.next in l.completed && l.next !in refused {
      var rest := l.completed - {l.next};
      assert rest.Keys == l.completed.Keys - {l.next};
      DrainShrinks(Ledger(rest, l.next + 1, l.commits + [l.completed[l.next]]), refused);
    }
  }

  /** Reaping frees exactly the batch's bytes; the subtraction truncates only after a saturation. */
  lemma ReapBudget(c: Config, s: State, b: nat, refused: set<nat>)
    requires Partitioned(s) && Budgeted(c, s) && b in s.inFlight
    ensures Budgeted(c, Reap(s, b, refused).state)
    ensures !s.saturated ==> s.inFlightBytes >= BatchBytes(s.batches[b])
  {
    BytesOfRemove(s.batches, s.inFlight, b);
    assert |s.inFlight - {b}| == |s.inFlight| - 1;
  }

  lemma ReapInv(c: Config, s: State, b: nat, refused: set<nat>)
    requires Inv(c, s) && b in s.inFlight && Reap(s, b, refused).ok
    ensures Inv(c, Reap(s, b, refused).state)
    ensures Consumed(Reap(s, b, refused).state) == Consumed(s)
  {
    ReapShape(s, b, refused);
    ReapBudget(c, s, b, refused);
  }

  /** The committed sums count exactly the events and bytes of the committed prefix of batches. */
  lemma CommittedSums(s: State)
    requires Faithful(s)
    ensures var prefix := Flatten(s.batches[..s.ledger.next]);
      EventSum(s.ledger.commits) == |prefix| && ByteSum(s.ledger.commits) == BatchBytes(prefix)
  {
    CommittedSumsTo(s, s.ledger.next);
    assert s.ledger.commits[..s.ledger.next] == s.ledger.commits;
  }

  lemma {:induction false} CommittedSumsTo(s: State, n: nat)
    requires Faithful(s) && n <= s.ledger.next
    ensures var prefix := Flatten(s.batches[..n]);
      EventSum(s.ledger.commits[..n]) == |prefix| && ByteSum(s.ledger.commits[..n]) == BatchBytes(prefix)
  {
    if n == 0 {
    } else {
      CommittedSumsTo(s, n - 1);
      assert s.ledger.commits[n - 1] == CompletionOf(s.batches, n - 1);
      CommittedOne(s.ledger.commits, s.batches, n - 1);
    }
  }

  lemma CommittedOne(cs: seq<Completion>, batches: seq<Batch>, n: nat)
    requires n < |cs| && n < |batches|
    requires cs[n].events == |batches[n]| && cs[n].bytes == BatchBytes(batches[n])
    requires EventSum(cs[..n]) == |Flatten(batches[..n])| && ByteSum(cs[..n]) == BatchBytes(Flatten(batches[..n]))
    ensures var prefix := Flatten(batches[..n + 1]);
      EventSum(cs[..n + 1]) == |prefix| && ByteSum(cs[..n + 1]) == BatchBytes(prefix)
  {
    assert cs[..n + 1] == cs[..n] + [cs[n]];
    assert batches[..n + 1] == batches[..n] + [batches[n]];
    SumsPush(cs[..n], cs[n]);
    FlattenPush(batches[..n], batches[n]);
    BatchBytesConcat(Flatten(batches[..n]), batches[n]);
  }

  /** One turn of the `select!` loop. */
  datatype Turn = Message(event: Event) | Timer | Joined(batch: nat, refused: set<nat>)

  predicate Enabled(c: Config, s: State, t: Turn) {
    match t
    case Message(_) => CanReceive(c, s)
    case Timer => CanLinger(c, s)
    case Joined(b, refused) => b in s.inFlight && b < |s.batches| && Reap(s, b, refused).ok
  }

  function Step(c: Config, s: State, t: Turn): State
    requires Enabled(c, s, t)
  {
    match t
    case Message(e) => Receive(c, s, e)
    case Timer => Dispatch(s)
    case Joined(b, refused) => Reap(s, b, refused).state
  }

  ghost predicate Runs(c: Config, turns: seq<Turn>, states: seq<State>) {
    && |states| == |turns| + 1
    && states[0] == START
    && forall i :: 0 <= i < |turns| ==>
         Enabled(c, states[i], turns[i]) && states[i + 1] == Step(c, states[i], turns[i])
  }

  function Messages(turns: seq<Turn>): seq<Event> {
    if turns == [] then []
    else
      var last := turns[|turns| - 1];
      Messages(turns[..|turns| - 1]) + if last.Message? then [last.event] else []
  }

  /**
   * Over every run of the loop: the bookkeeping invariant holds, and the messages consumed so
   * far are the concatenation of batches 0, 1, 2, ... followed by the pending events.
   */
  lemma {:induction false} RunInv(c: Config, turns: seq<Turn>, states: seq<State>)
    requires Validated(c) && Runs(c, turns, states)
    ensures Inv(c, states[|turns|])
    ensures Consumed(states[|turns|]) == Messages(turns)
  {
    if turns == [] {
      StartInv(c);
    } else {
      var n := |turns| - 1;
      RunInv(c, turns[..n], states[..n + 1]);
      match turns[n] {
        case Message(e) => ReceiveInv(c, states[n], e);
        case Timer => LingerInv(c, states[n]);
        case Joined(b, refused) => ReapInv(c, states[n], b, refused);
      }
    }
  }

  /**
   * What each turn does to the batches: a message completes a batch exactly when it is the
   * `batch_size`-th, the timer closes the pending batch, and a join touches neither.
   */
  lemma BatchesFillUp(c: Config, turns: seq<Turn>, states: seq<State>, i: nat)
    requires Validated(c) && Runs(c, turns, states) && i < |turns|
    ensures var s, t := states[i], states[i + 1];
      match turns[i]
      case Message(e) =>
        if |s.pending| + 1 == c.batchSize then t.batches == s.batches + [s.pending + [e]] && t.pending == []
        else t.batches == s.batches && t.pending == s.pending + [e]
      case Timer => t.batches == s.batches + [s.pending] && t.pending == [] && s.pending != []
      case Joined(_, _) => t.batches == s.batches && t.pending == s.pending
  {
    RunInv(c, turns[..i], states[..i + 1]);
  }

  /** The source never wedges: there is always a batch to reap or room to consume. */
  lemma NeverWedges(c: Config, turns: seq<Turn>, states: seq<State>)
    requires Validated(c) && Runs(c, turns, states)
    ensures var s := states[|turns|]; s.inFlight != {} || CanReceive(c, s)
  {
    RunInv(c, turns, states);
    BytesOfNone(states[|turns|].batches);
  }

  /**
   * The in-flight ceilings. The counter and the batch being assembled stay below the budget plus
   * one batch; so do the bytes actually held, as long as their total has always fitted the counter.
   */
  lemma InFlightCeilings(c: Config, turns: seq<Turn>, states: seq<State>)
    requires Validated(c) && Runs(c, turns, states)
    ensures var s := states[|turns|];
      && |s.inFlight| <= c.maxInFlightBatches
      && s.inFlightBytes + BatchBytes(s.pending) < c.maxInFlightBytes + Largest(s.batches, s.pending)
      && (AllFit(states) ==>
            InFlightTotal(s) + BatchBytes(s.pending) < c.maxInFlightBytes + Largest(s.batches, s.pending))
  {
    RunInv(c, turns, states);
    CounterExact(c, turns, states);
    LargestBounds(states[|turns|].batches, states[|turns|].pending);
  }

  // ----- when the byte counter is exact

  ghost predicate Exact(s: State) {
    s.inFlightBytes == InFlightTotal(s)
  }

  lemma DispatchTotal(s: State)
    requires s.sequence == |s.batches|
    ensures InFlightTotal(Dispatch(s)) == InFlightTotal(s) + BatchBytes(s.pending)
  {
    var t := Dispatch(s);
    assert t.batches[..|t.batches| - 1] == s.batches;
    BytesOfIgnores(s.batches, s.inFlight, t.inFlight);
  }

  /** From an exact counter, a dispatch keeps it exact if and only if the addition does not saturate. */
  lemma DispatchExact(s: State)
    requires s.sequence == |s.batches| && Exact(s)
    ensures Exact(Dispatch(s)) <==> s.inFlightBytes + BatchBytes(s.pending) <= USIZE_MAX
  {
    DispatchTotal(s);
  }

  ghost predicate Fits(s: State) {
    InFlightTotal(s) <= USIZE_MAX
  }

  /** One turn from an exact state: exact again if and only if the new total fits the counter. */
  lemma StepExact(c: Config, s: State, t: Turn)
    requires Validated(c) && Inv(c, s) && Enabled(c, s, t) && Exact(s) && Fits(s)
    ensures Exact(Step(c, s, t)) <==> Fits(Step(c, s, t))
    ensures Step(c, s, t).saturated <==> s.saturated || !Fits(Step(c, s, t))
  {
    match t {
      case Message(e) =>
        DispatchTotal(s.(pending := s.pending + [e]));
      case Timer => DispatchTotal(s);
      case Joined(b, refused) => BytesOfRemove(s.batches, s.inFlight, b);
    }
  }

  lemma StepsKeepSaturation(c: Config, s: State, t: Turn)
    requires Enabled(c, s, t) && s.inFlightBytes <= USIZE_MAX
    ensures Step(c, s, t).inFlightBytes <= USIZE_MAX
    ensures s.saturated ==> Step(c, s, t).saturated
  {
  }

  ghost predicate AllExact(states: seq<State>) {
    forall i :: 0 <= i < |states| ==> Exact(states[i])
  }

  ghost predicate AllFit(states: seq<State>) {
    forall i :: 0 <= i < |states| ==> Fits(states[i])
  }

  /**
   * The byte counter is the exact total all along a run if and only if that total always fits its
   * width, and if and only if no addition has saturated.
   */
  lemma {:induction false} CounterExact(c: Config, turns: seq<Turn>, states: seq<State>)
    requires Validated(c) && Runs(c, turns, states)
    ensures AllExact(states) <==> AllFit(states)
    ensures AllExact(states) <==> !states[|turns|].saturated
    ensures states[|turns|].inFlightBytes <= USIZE_MAX
  {
    if turns == [] {
      assert InFlightTotal(START) == 0;
    } else {
      var n := |turns| - 1;
      var front := states[..n + 1];
      CounterExact(c, turns[..n], front);
      RunInv(c, turns[..n], front);
      StepsKeepSaturation(c, states[n], turns[n]);
      AllOfFront(states);
      if AllExact(front) {
        assert Exact(front[n]) && Fits(front[n]);
        StepExact(c, states[n], turns[n]);
      }
    }
  }

  lemma AllOfFront(states: seq<State>)
    requires states != []
    ensures var n := |states| - 1;
      && (AllExact(states) <==> AllExact(states[..n]) && Exact(states[n]))
      && (AllFit(states) <==> AllFit(states[..n]) && Fits(states[n]))
  {
    var n := |states| - 1;
    assert states == states[..n] + [states[n]];
  }

  /** A condition on the settings and the batches alone: the budget plus one batch fits the counter. */
  lemma CounterExactWithinBudget(c: Config, turns: seq<Turn>, states: seq<State>)
    requires Validated(c) && Runs(c, turns, states)
    requires forall i :: 0 <= i < |states| ==>
      c.maxInFlightBytes + Largest(states[i].batches, states[i].pending) <= USIZE_MAX
    ensures AllExact(states)
  {
    NotSaturated(c, turns, states);
    CounterExact(c, turns, states);
  }

  lemma {:induction false} NotSaturated(c: Config, turns: seq<Turn>, states: seq<State>)
    requires Validated(c) && Runs(c, turns, states)
    requires forall i :: 0 <= i < |states| ==>
      c.maxInFlightBytes + Largest(states[i].batches, states[i].pending) <= USIZE_MAX
    ensures !states[|turns|].saturated
  {
    if turns == [] {
    } else {
      var n := |turns| - 1;
      NotSaturated(c, turns[..n], states[..n + 1]);
      LargestBounds(states[n + 1].batches, states[n + 1].pending);
      var s, t := states[n], states[n + 1];
      if |t.batches| > |s.batches| {
        assert BatchBytes(t.batches[|s.batches|]) <= Largest(t.batches, t.pending);
      }
    }
  }

  // ----- runs in which the counter saturates

  /** An event of the given footprint. */
  function EventOf(bytes: nat): Event
    requires bytes >= STRUCT_BYTES
  {
    Event(None, seq(bytes - STRUCT_BYTES, _ => 0), None, TopicPartition([], 0), 0)
  }

  lemma EventOfBytes(bytes: nat)
    requires bytes >= STRUCT_BYTES
    ensures BatchBytes([EventOf(bytes)]) == bytes
  {
    assert [EventOf(bytes)][..0] == [];
  }

  /** Batches of one event, three of them in flight, and the largest budget there is. */
  const TIGHT := Config(1, 3, USIZE_MAX)

  /** With batches of one event, receiving an event dispatches it. */
  lemma ReceiveOne(s: State, bytes: nat)
    requires s.pending == [] && s.sequence == |s.batches| && bytes >= STRUCT_BYTES
    ensures var t := Receive(TIGHT, s, EventOf(bytes));
      && t.pending == [] && t.sequence == s.sequence + 1
      && t.batches == s.batches + [[EventOf(bytes)]] && t.inFlight == s.inFlight + {s.sequence}
      && t.inFlightBytes == SaturatingAdd(s.inFlightBytes, bytes)
      && t.ledger == s.ledger
      && InFlightTotal(t) == InFlightTotal(s) + bytes
  {
    EventOfBytes(bytes);
    assert s.pending + [EventOf(bytes)] == [EventOf(bytes)];
    DispatchTotal(s.(pending := [EventOf(bytes)]));
  }

  /** Two batches in flight that together exceed the counter, under settings the validation accepts. */
  lemma CounterSaturates() returns (turns: seq<Turn>, states: seq<State>)
    ensures Validated(TIGHT) && Runs(TIGHT, turns, states)
    ensures |states| == 3 && states[2].inFlight == {0, 1} && states[2].pending == []
    ensures states[2].sequence == |states[2].batches| == 2 && states[2].batches[0] == [EventOf(USIZE_MAX - 1)]
    ensures Largest(states[2].batches, []) < USIZE_MAX
    ensures states[2].inFlightBytes == USIZE_MAX && InFlightTotal(states[2]) == 2 * USIZE_MAX - 2
  {
    var a, b := FillTwice();
    var e := EventOf(USIZE_MAX - 1);
    turns, states := [Message(e), Message(e)], [START, a, b];
  }

  lemma FillTwice() returns (a: State, b: State)
    ensures CanReceive(TIGHT, START) && a == Receive(TIGHT, START, EventOf(USIZE_MAX - 1))
    ensures CanReceive(TIGHT, a) && b == Receive(TIGHT, a, EventOf(USIZE_MAX - 1))
    ensures b.inFlight == {0, 1} && b.pending == []
    ensures b.sequence == |b.batches| == 2 && b.batches[0] == [EventOf(USIZE_MAX - 1)]
    ensures Largest(b.batches, []) < USIZE_MAX
    ensures b.inFlightBytes == USIZE_MAX && InFlightTotal(b) == 2 * USIZE_MAX - 2
  {
    a := Receive(TIGHT, START, EventOf(USIZE_MAX - 1));
    ReceiveOne(START, USIZE_MAX - 1);
    b := Receive(TIGHT, a, EventOf(USIZE_MAX - 1));
    ReceiveOne(a, USIZE_MAX - 1);
    EventOfBytes(USIZE_MAX - 1);
    LargestAtMost(b.batches, [], USIZE_MAX - 1);
  }

  lemma {:induction false} LargestAtMost(batches: seq<Batch>, pending: Batch, limit: nat)
    requires BatchBytes(pending) <= limit
    requires forall b :: 0 <= b < |batches| ==> BatchBytes(batches[b]) <= limit
    ensures Largest(batches, pending) <= limit
  {
    if batches == [] {
    } else {
      LargestAtMost(batches[..|batches| - 1], pending, limit);
    }
  }

  lemma {:induction false} DrainUnrefused(l: Ledger)
    ensures Drain(l, {}).ok
    decreases |l.completed|
  {
    if l.next in l.completed {
      var rest := l.completed - {l.next};
      assert rest.Keys == l.completed.Keys - {l.next};
      DrainUnrefused(Ledger(rest, l.next + 1, l.commits + [l.completed[l.next]]));
    }
  }

  /** Joining a batch takes its bytes off the total, and as much as is left off the counter. */
  lemma JoinOne(s: State, b: nat)
    requires b in s.inFlight && b < |s.batches|
    ensures var r := Reap(s, b, {});
      && r.ok && r.state.batches == s.batches && r.state.pending == s.pending && r.state.sequence == s.sequence
      && InFlightTotal(r.state) == InFlightTotal(s) - BatchBytes(s.batches[b])
  {
    DrainUnrefused(s.ledger.(completed := s.ledger.completed[b := CompletionOf(s.batches, b)]));
    BytesOfRemove(s.batches, s.inFlight, b);
  }

  /**
   * The documented ceiling fails once the counter has saturated: after one of two oversized batches
   * is joined, the counter no longer sees the other, and two more are let in beside it.
   */
  lemma CeilingOutgrown() returns (turns: seq<Turn>, states: seq<State>)
    ensures Validated(TIGHT) && Runs(TIGHT, turns, states)
    ensures var s := states[|turns|];
      InFlightTotal(s) >= TIGHT.maxInFlightBytes + Largest(s.batches, s.pending)
  {
    var first, before := CounterSaturates();
    var s3 := JoinFirst(before[2]);
    var s4, s5 := AdmitTwo(s3);
    turns, states := GoOn(TIGHT, first, before, Joined(0, {}), s3);
    turns, states := GoOn(TIGHT, turns, states, Message(EventOf(USIZE_MAX - 2)), s4);
    turns, states := GoOn(TIGHT, turns, states, Message(EventOf(USIZE_MAX - 1)), s5);
  }

  /** One more turn of a run. */
  lemma GoOn(c: Config, turns: seq<Turn>, states: seq<State>, t: Turn, next: State)
    returns (more: seq<Turn>, after: seq<State>)
    requires Runs(c, turns, states) && Enabled(c, states[|turns|], t) && next == Step(c, states[|turns|], t)
    ensures Runs(c, more, after) && |after| == |more| + 1 && after[|more|] == next
  {
    more, after := turns + [t], states + [next];
    forall i | 0 <= i < |more|
      ensures Enabled(c, after[i], more[i]) && after[i + 1] == Step(c, after[i], more[i])
    {
      if i < |turns| {
        assert after[i] == states[i] && after[i + 1] == states[i + 1];
      }
    }
  }

  lemma JoinFirst(s: State) returns (t: State)
    requires s.pending == [] && s.sequence == |s.batches| == 2 && s.inFlight == {0, 1}
    requires s.batches[0] == [EventOf(USIZE_MAX - 1)]
    requires s.inFlightBytes == USIZE_MAX && InFlightTotal(s) == 2 * USIZE_MAX - 2
    ensures Reap(s, 0, {}) == Reaped(t, true)
    ensures t.pending == [] && t.sequence == 2 && t.batches == s.batches && t.inFlight == {1}
    ensures t.inFlightBytes == 1 && InFlightTotal(t) == USIZE_MAX - 1
  {
    JoinOne(s, 0);
    EventOfBytes(USIZE_MAX - 1);
    t := Reap(s, 0, {}).state;
  }

  lemma AdmitTwo(s: State) returns (t: State, u: State)
    requires s.pending == [] && s.sequence == |s.batches| == 2 && s.inFlight == {1} && s.inFlightBytes == 1
    requires InFlightTotal(s) == USIZE_MAX - 1 && Largest(s.batches, []) < USIZE_MAX
    ensures CanReceive(TIGHT, s) && t == Receive(TIGHT, s, EventOf(USIZE_MAX - 2))
    ensures CanReceive(TIGHT, t) && u == Receive(TIGHT, t, EventOf(USIZE_MAX - 1))
    ensures InFlightTotal(u) >= TIGHT.maxInFlightBytes + Largest(u.batches, u.pending)
  {
    t := Receive(TIGHT, s, EventOf(USIZE_MAX - 2));
    ReceiveOne(s, USIZE_MAX - 2);
    assert t.inFlight == {1, 2};
    u := Receive(TIGHT, t, EventOf(USIZE_MAX - 1));
    ReceiveOne(t, USIZE_MAX - 1);
    EventOfBytes(USIZE_MAX - 1);
    EventOfBytes(USIZE_MAX - 2);
    LargestBounds(s.batches, []);
    LargestAtMost(u.batches, u.pending, USIZE_MAX - 1);
  }

  /** What the ceiling demands of the batch dispatched next from `s`. */
  ghost predicate CeilingAfter(c: Config, s: State, batch: Batch) {
    InFlightTotal(s) + BatchBytes(batch) < c.maxInFlightBytes + Largest(s.batches + [batch], [])
  }

  /**
   * Exactly when the ceiling is safe: whatever batch comes next stays below it if and only if the
   * bytes actually in flight are below the budget. The loop compares the counter instead, which is
   * the same thing while the counter is exact.
   */
  lemma CeilingExact(c: Config, s: State)
    ensures (forall batch: Batch :: CeilingAfter(c, s, batch)) <==> InFlightTotal(s) < c.maxInFlightBytes
  {
    forall batch: Batch ensures BatchBytes(batch) <= Largest(s.batches + [batch], []) {
      LargestBounds(s.batches + [batch], []);
      assert (s.batches + [batch])[|s.batches|] == batch;
    }
    if InFlightTotal(s) >= c.maxInFlightBytes {
      var bytes := STRUCT_BYTES + Largest(s.batches, []);
      var batch := [EventOf(bytes)];
      EventOfBytes(bytes);
      assert (s.batches + [batch])[..|s.batches|] == s.batches;
      assert !CeilingAfter(c, s, batch);
    }
  }

  /** The running source, whose loop arms are its methods. */
  class KafkaSource {
    const config: Config
    var pending: Batch
    var sequence: nat
    var inFlight: set<nat>
    var inFlightBytes: nat
    var processed: nat
    const committer: Committer
    ghost var batches: seq<Batch>
    ghost var saturated: bool

    constructor (config: Config)
      requires Validated(config)
      ensures this.config == config && fresh(committer)
      ensures View() == START && Valid()
    {
      this.config := config;
      pending, sequence, inFlight, inFlightBytes, processed := [], 0, {}, 0, 0;
      batches, saturated := [], false;
      committer := new Committer();
      new;
      StartInv(config);
    }

    ghost function View(): State
      reads this, committer
    {
      State(pending, sequence, batches, inFlight, inFlightBytes, committer.View(), saturated)
    }

    /** The loop invariant, and `processed` counting exactly the events committed so far. */
    ghost predicate Valid()
      reads this, committer
    {
      Validated(config) && Inv(config, View()) && processed == EventSum(committer.commits)
    }

    /** `dispatch!`: the pending events become the next batch. */
    method DispatchPending() returns (completion: Completion)
      modifies this
      ensures View() == Dispatch(old(View()))
      ensures processed == old(processed)
      ensures old(sequence == |batches|) ==> completion == CompletionOf(batches, old(sequence))
    {
      var events := pending;
      pending := [];
      var offsets := OffsetsFor(events);
      var bytes := BatchBytes(events);
      saturated := saturated || inFlightBytes + bytes > USIZE_MAX;
      inFlightBytes := SaturatingAdd(inFlightBytes, bytes);
      completion := Completion(sequence, offsets, |events|, bytes);
      inFlight := inFlight + {sequence};
      sequence := sequence + 1;
      batches := batches + [events];
    }

    method OnMessage(e: Event)
      requires Valid() && CanReceive(config, View())
      modifies this
      ensures Valid() && View() == Receive(config, old(View()), e)
      ensures Consumed(View()) == old(Consumed(View())) + [e]
    {
      ghost var before := View();
      ReceiveInv(config, before, e);
      pending := pending + [e];
      if |pending| >= config.batchSize {
        var _ := DispatchPending();
      }
      assert View() == Receive(config, before, e);
    }

    method OnTimer()
      requires Valid() && CanLinger(config, View())
      modifies this
      ensures Valid() && View() == Dispatch(old(View()))
    {
      LingerInv(config, View());
      var _ := DispatchPending();
    }

    /** A fan-out task delivered `completion`; an error means a commit was refused and the source stops. */
    method OnJoined(completion: Completion, refused: set<nat>) returns (ok: bool)
      requires Valid() && completion.sequence in inFlight
      requires completion == CompletionOf(batches, completion.sequence)
      modifies this, committer
      ensures Reaped(View(), ok) == Reap(old(View()), completion.sequence, refused)
      ensures ok ==> Valid() && processed == |Flatten(batches[..committer.next])|
    {
      ghost var before := View();
      ReapShape(before, completion.sequence, refused);
      inFlight := inFlight - {completion.sequence};
      inFlightBytes := SaturatingSub(inFlightBytes, completion.bytes);
      var r := committer.CommitContiguous(completion, refused);
      ok := r.Ok?;
      if r.Ok? {
        ReapInv(config, before, completion.sequence, refused);
        processed := processed + r.value.0;
        CommittedSums(View());
      }
    }
  }
}
