/**
 * Lock-free delivery tracking of one Kafka sink write, over every interleaving of the delivery
 * callbacks with the enqueuing thread (src/sink/kafka.rs).
 *
 * What is assumed of librdkafka: exactly one delivery report per record it accepted.
 */
module Tracker {
  import opened Wrappers

  /** The shared cells. `notify` says whether the one-shot sender is still there; `signals` counts sends. */
  datatype Cells<E> = Cells(remaining: int, failed: bool, error: Option<E>, notify: bool, signals: nat)

  function NewCells<E>(records: nat): Cells<E> {
    Cells(records, false, None, true, 0)
  }

  /** Where a `settle` call stands between its shared-memory actions. */
  datatype Pc = Entering | Storing | Subtracting | Waking | Done

  datatype Settler<E> = Settler(count: nat, error: Option<E>, pc: Pc)

  /** One atomic action of a settle call: swap the flag, store the error, subtract, wake the writer. */
  function Move<E>(c: Cells<E>, s: Settler<E>): (Cells<E>, Settler<E>) {
    match s.pc
    case Entering =>
      if s.count == 0 then (c, s.(pc := Done))
      else if s.error.None? then (c, s.(pc := Subtracting))
      else (c.(failed := true), s.(pc := if c.failed then Subtracting else Storing))
    case Storing => (c.(error := s.error), s.(pc := Subtracting))
    case Subtracting =>
      (c.(remaining := c.remaining - s.count), s.(pc := if c.remaining == s.count then Waking else Done))
    case Waking =>
      (if c.notify then c.(notify := false, signals := c.signals + 1) else c, s.(pc := Done))
    case Done => (c, s)
  }

  datatype Failure<E> = Enqueue | Delivery(error: E)

  /** The writing task: enqueuing, inside its own settle call, awaiting the signal, or returned. */
  datatype Writer<E> = Enqueuing | Abandoning(own: nat) | Awaiting | Returned(result: Result<nat, Failure<E>>)

  /**
   * One `write_batches` call for `total` records. `settlers` are the settle calls made so far,
   * `winner` the one whose flag swap came first.
   */
  datatype State<E> = State(
    total: nat,
    enqueued: nat,
    abandoned: bool,
    reported: nat,
    cells: Cells<E>,
    settlers: seq<Settler<E>>,
    winner: Option<nat>,
    writer: Writer<E>)

  function Start<E>(total: nat): State<E> {
    State(total, 0, false, 0, NewCells(total), [], None, Enqueuing)
  }

  datatype Step<E> =
    | EnqueueOk
    | EnqueueFails
    | EnqueuedAll
    | Report(error: Option<E>)
    | Settle(i: nat)
    | OwnSettleReturns
    | Return

  predicate Enabled<E(==)>(s: State<E>, st: Step<E>) {
    match st
    case EnqueueOk => s.writer.Enqueuing? && s.enqueued < s.total
    case EnqueueFails => s.writer.Enqueuing? && s.enqueued < s.total
    case EnqueuedAll => s.writer.Enqueuing? && s.enqueued == s.total
    case Report(_) => s.reported < s.enqueued
    case Settle(i) => i < |s.settlers| && !s.settlers[i].pc.Done?
    case OwnSettleReturns =>
      s.writer.Abandoning? && s.writer.own < |s.settlers| && s.settlers[s.writer.own].pc.Done?
    case Return => s.writer.Awaiting? && s.cells.signals > 0
  }

  /** `take_error` decides the result unless enqueuing had failed already. */
  function Verdict<E>(s: State<E>): Result<nat, Failure<E>> {
    if s.abandoned then Err(Enqueue)
    else if s.cells.error.Some? then Err(Delivery(s.cells.error.value))
    else Ok(s.total)
  }

  function Apply<E(==)>(s: State<E>, st: Step<E>): State<E>
    requires Enabled(s, st)
  {
    match st
    case EnqueueOk => s.(enqueued := s.enqueued + 1)
    case EnqueueFails =>
      s.(abandoned := true, writer := Abandoning(|s.settlers|),
         settlers := s.settlers + [Settler(s.total - s.enqueued, None, Entering)])
    case EnqueuedAll => s.(writer := Awaiting)
    case Report(error) =>
      s.(reported := s.reported + 1, settlers := s.settlers + [Settler(1, error, Entering)])
    case Settle(i) =>
      var (cells, settler) := Move(s.cells, s.settlers[i]);
      s.(cells := cells, settlers := s.settlers[i := settler],
         winner := if settler.pc.Storing? then Some(i) else s.winner)
    case OwnSettleReturns => s.(writer := Awaiting)
    case Return =>
      s.(writer := Returned(Verdict(s)),
         cells := if s.abandoned then s.cells else s.cells.(error := None))
  }

  // ----- counting

  predicate BeforeSubtract(pc: Pc) {
    pc.Entering? || pc.Storing? || pc.Subtracting?
  }

  function Total<E>(ss: seq<Settler<E>>): nat {
    if ss == [] then 0 else Total(ss[..|ss| - 1]) + ss[|ss| - 1].count
  }

  function Owed<E>(s: Settler<E>): nat {
    if BeforeSubtract(s.pc) then s.count else 0
  }

  function Outstanding<E>(ss: seq<Settler<E>>): nat {
    if ss == [] then 0 else Outstanding(ss[..|ss| - 1]) + Owed(ss[|ss| - 1])
  }

  lemma CountsPush<E>(ss: seq<Settler<E>>, s: Settler<E>)
    ensures Total(ss + [s]) == Total(ss) + s.count
    ensures Outstanding(ss + [s]) == Outstanding(ss) + Owed(s)
  {
    assert (ss + [s])[..|ss|] == ss;
  }

  lemma {:induction false} CountsUpdate<E>(ss: seq<Settler<E>>, i: nat, s: Settler<E>)
    requires i < |ss|
    ensures Total(ss[i := s]) == Total(ss) - ss[i].count + s.count
    ensures Outstanding(ss[i := s]) == Outstanding(ss) - Owed(ss[i]) + Owed(s)
  {
    var n := |ss| - 1;
    if i < n {
      assert ss[i := s][..n] == ss[..n][i := s];
      CountsUpdate(ss[..n], i, s);
    } else {
      assert ss[i := s][..n] == ss[..n];
    }
  }

  lemma {:induction false} OwedIsOutstanding<E>(ss: seq<Settler<E>>, i: nat)
    requires i < |ss|
    ensures Owed(ss[i]) <= Outstanding(ss) <= Total(ss)
  {
    var n := |ss| - 1;
    if n > 0 {
      OwedIsOutstanding(ss[..n], if i < n then i else 0);
    }
  }

  lemma {:induction false} NothingOutstanding<E>(ss: seq<Settler<E>>)
    requires forall i :: 0 <= i < |ss| ==> ss[i].pc.Done?
    ensures Outstanding(ss) == 0
  {
    if ss == [] {
    } else {
      NothingOutstanding(ss[..|ss| - 1]);
    }
  }

  // ----- the invariant

  /** Every record is accounted for by a settle call, an awaited report, or the enqueuing loop. */
  ghost predicate Counted<E(!new)>(s: State<E>) {
    && s.reported <= s.enqueued <= s.total
    && (s.abandoned ==> s.enqueued < s.total && !s.writer.Enqueuing?)
    && (!s.abandoned && !s.writer.Enqueuing? ==> s.enqueued == s.total)
    && (s.writer.Abandoning? ==> s.writer.own < |s.settlers|)
    && (forall i :: 0 <= i < |s.settlers| ==> s.settlers[i].count > 0)
    && Total(s.settlers) == s.reported + (if s.abandoned then s.total - s.enqueued else 0)
    && s.cells.remaining == s.total - Total(s.settlers) + Outstanding(s.settlers)
  }

  ghost predicate PastStore<E(!new)>(s: State<E>, i: nat) {
    i < |s.settlers| && !s.settlers[i].pc.Entering? && !s.settlers[i].pc.Storing?
  }

  /** The flag is up once some erring settle swapped it, and the error slot belongs to the first of them. */
  ghost predicate Recorded<E(!new)>(s: State<E>) {
    && s.cells.failed == s.winner.Some?
    && (s.winner.Some? ==>
          s.winner.value < |s.settlers| && s.settlers[s.winner.value].error.Some?
          && !s.settlers[s.winner.value].pc.Entering?)
    && (forall i :: 0 <= i < |s.settlers| && s.settlers[i].error.Some? && !s.settlers[i].pc.Entering? ==>
          s.winner.Some?)
    && (forall i :: 0 <= i < |s.settlers| && s.settlers[i].pc.Storing? ==> s.winner == Some(i))
    && (!s.writer.Returned? ==>
          s.cells.error ==
            if s.winner.Some? && PastStore(s, s.winner.value) then s.settlers[s.winner.value].error else None)
  }

  /** The subtraction that reaches zero, and only it, wakes the writer, once. */
  ghost predicate Signalled<E(!new)>(s: State<E>) {
    && s.cells.notify == (s.cells.signals == 0) && s.cells.signals <= 1
    && (s.cells.signals == 1 ==> s.cells.remaining == 0)
    && (forall i :: 0 <= i < |s.settlers| && s.settlers[i].pc.Waking? ==>
          s.cells.remaining == 0 && s.cells.signals == 0)
    && (forall i, j :: 0 <= i < j < |s.settlers| ==> !(s.settlers[i].pc.Waking? && s.settlers[j].pc.Waking?))
    && (s.cells.remaining == 0 && s.cells.signals == 0 ==>
          exists i :: 0 <= i < |s.settlers| && s.settlers[i].pc.Waking?)
  }

  ghost predicate Reported<E(!new)>(s: State<E>) {
    s.writer.Returned? ==>
      && s.cells.signals == 1
      && (!s.abandoned ==> s.cells.error.None?)
      && s.writer.result ==
           if s.abandoned then Err(Enqueue)
           else if s.winner.Some? && s.winner.value < |s.settlers| && s.settlers[s.winner.value].error.Some?
           then Err(Delivery(s.settlers[s.winner.value].error.value))
           else Ok(s.total)
  }

  ghost predicate Inv<E(!new)>(s: State<E>) {
    Counted(s) && Recorded(s) && Signalled(s) && Reported(s)
  }

  /** Once the count is zero every settle call has stored its error and subtracted. */
  lemma ZeroMeansSettled<E(!new)>(s: State<E>)
    requires Counted(s) && s.cells.remaining == 0
    ensures forall i :: 0 <= i < |s.settlers| ==> !BeforeSubtract(s.settlers[i].pc)
    ensures s.reported == s.enqueued && (s.abandoned || s.enqueued == s.total)
  {
    forall i | 0 <= i < |s.settlers| ensures !BeforeSubtract(s.settlers[i].pc) {
      OwedIsOutstanding(s.settlers, i);
    }
  }

  lemma StartInv<E(!new)>(total: nat)
    requires total > 0
    ensures Inv(Start<E>(total))
  {
  }

  lemma SettleCounted<E(!new)>(s: State<E>, i: nat)
    requires Counted(s) && Enabled(s, Settle(i))
    ensures Counted(Apply(s, Settle(i)))
  {
    var (cells, settler) := Move(s.cells, s.settlers[i]);
    CountsUpdate(s.settlers, i, settler);
    MoveCounts(s.cells, s.settlers[i]);
  }

  /** An action of a settle call subtracts from the shared count exactly what the call stops owing. */
  lemma MoveCounts<E(!new)>(c: Cells<E>, s: Settler<E>)
    requires s.count > 0
    ensures var (cells, settler) := Move(c, s);
      settler.count == s.count && cells.remaining == c.remaining - Owed(s) + Owed(settler)
  {
  }

  lemma StepCounted<E(!new)>(s: State<E>, st: Step<E>)
    requires Counted(s) && Enabled(s, st)
    ensures Counted(Apply(s, st))
  {
    match st {
      case EnqueueFails => CountsPush(s.settlers, Settler(s.total - s.enqueued, None, Entering));
      case Report(error) => CountsPush(s.settlers, Settler(1, error, Entering));
      case Settle(i) => SettleCounted(s, i);
      case _ =>
    }
  }

  lemma StepRecorded<E(!new)>(s: State<E>, st: Step<E>)
    requires Counted(s) && Recorded(s) && Enabled(s, st)
    ensures Recorded(Apply(s, st))
  {
    var t := Apply(s, st);
    if st.Settle? {
      assert forall j :: 0 <= j < |s.settlers| && j != st.i ==> t.settlers[j] == s.settlers[j];
    }
  }

  lemma SettleSignalled<E(!new)>(s: State<E>, i: nat)
    requires Counted(s) && Signalled(s) && Enabled(s, Settle(i))
    ensures Signalled(Apply(s, Settle(i)))
  {
    var t := Apply(s, Settle(i));
    assert forall j :: 0 <= j < |s.settlers| && j != i ==> t.settlers[j] == s.settlers[j];
    if s.settlers[i].pc.Subtracting? {
      OwedIsOutstanding(s.settlers, i);
      if t.settlers[i].pc.Waking? {
        assert t.cells.remaining == 0;
      }
    } else if s.settlers[i].pc.Waking? {
      assert t.cells.signals == 1;
    } else if s.cells.remaining == 0 && s.cells.signals == 0 {
      var j :| 0 <= j < |s.settlers| && s.settlers[j].pc.Waking?;
      assert t.settlers[j].pc.Waking?;
    }
  }

  lemma StepSignalled<E(!new)>(s: State<E>, st: Step<E>)
    requires Counted(s) && Signalled(s) && Enabled(s, st)
    ensures Signalled(Apply(s, st))
  {
    if st.Settle? {
      SettleSignalled(s, st.i);
    } else if s.cells.remaining == 0 && s.cells.signals == 0 {
      var j :| 0 <= j < |s.settlers| && s.settlers[j].pc.Waking?;
      assert Apply(s, st).settlers[j].pc.Waking?;
    }
  }

  lemma StepReported<E(!new)>(s: State<E>, st: Step<E>)
    requires Inv(s) && Enabled(s, st)
    ensures Reported(Apply(s, st))
  {
    if s.cells.signals == 1 {
      ZeroMeansSettled(s);
    }
  }

  lemma StepInv<E(!new)>(s: State<E>, st: Step<E>)
    requires Inv(s) && Enabled(s, st)
    ensures Inv(Apply(s, st))
  {
    StepCounted(s, st);
    StepRecorded(s, st);
    StepSignalled(s, st);
    StepReported(s, st);
  }

  ghost predicate Runs<E(!new)>(total: nat, steps: seq<Step<E>>, states: seq<State<E>>) {
    && |states| == |steps| + 1
    && states[0] == Start<E>(total)
    && forall i :: 0 <= i < |steps| ==> Enabled(states[i], steps[i]) && states[i + 1] == Apply(states[i], steps[i])
  }

  lemma {:induction false} RunInv<E(!new)>(total: nat, steps: seq<Step<E>>, states: seq<State<E>>)
    requires total > 0 && Runs(total, steps, states)
    ensures Inv(states[|steps|])
    ensures states[|steps|].total == total
  {
    if steps == [] {
      StartInv<E>(total);
    } else {
      var n := |steps| - 1;
      RunInv(total, steps[..n], states[..n + 1]);
      StepInv(states[n], steps[n]);
    }
  }

  // ----- what the settle calls carry

  /** Some delivery report of the run carried this error. */
  ghost predicate WasReported<E(!new)>(steps: seq<Step<E>>, x: E) {
    exists n :: 0 <= n < |steps| && steps[n] == Report(Some(x))
  }

  ghost predicate IsCarried<E(!new)>(ss: seq<Settler<E>>, x: E) {
    exists i :: 0 <= i < |ss| && ss[i].error == Some(x)
  }

  lemma StepCarries<E(!new)>(s: State<E>, st: Step<E>, x: E)
    requires Enabled(s, st)
    ensures IsCarried(Apply(s, st).settlers, x) <==> IsCarried(s.settlers, x) || st == Report(Some(x))
  {
    var ss, after := s.settlers, Apply(s, st).settlers;
    assert |ss| <= |after|;
    assert forall i :: 0 <= i < |ss| ==> after[i].error == ss[i].error;
    if st == Report(Some(x)) {
      assert after[|ss|].error == Some(x);
    }
    if IsCarried(ss, x) {
      var i :| 0 <= i < |ss| && ss[i].error == Some(x);
      assert after[i].error == Some(x);
    }
  }

  lemma ReportedPush<E(!new)>(front: seq<Step<E>>, st: Step<E>, x: E)
    ensures WasReported(front + [st], x) <==> WasReported(front, x) || st == Report(Some(x))
  {
    var steps := front + [st];
    if WasReported(front, x) {
      var n :| 0 <= n < |front| && front[n] == Report(Some(x));
      assert steps[n] == Report(Some(x));
    }
    if st == Report(Some(x)) {
      assert steps[|front|] == Report(Some(x));
    }
  }

  /** The settle calls carry exactly the errors that were reported. */
  lemma {:induction false} CarriedIsReported<E(!new)>(total: nat, steps: seq<Step<E>>, states: seq<State<E>>, x: E)
    requires Runs(total, steps, states)
    ensures IsCarried(states[|steps|].settlers, x) <==> WasReported(steps, x)
  {
    if steps == [] {
    } else {
      var n := |steps| - 1;
      CarriedIsReported(total, steps[..n], states[..n + 1], x);
      StepCarries(states[n], steps[n], x);
      ReportedPush(steps[..n], steps[n], x);
      assert steps[..n] + [steps[n]] == steps;
    }
  }

  /** How many records the producer took. */
  function Taken<E>(steps: seq<Step<E>>): nat {
    if steps == [] then 0
    else Taken(steps[..|steps| - 1]) + if steps[|steps| - 1].EnqueueOk? then 1 else 0
  }

  lemma {:induction false} TakenIsEnqueued<E(!new)>(total: nat, steps: seq<Step<E>>, states: seq<State<E>>)
    requires Runs(total, steps, states)
    ensures states[|steps|].enqueued == Taken(steps)
  {
    if steps == [] {
    } else {
      var n := |steps| - 1;
      TakenIsEnqueued(total, steps[..n], states[..n + 1]);
    }
  }

  /**
   * No delivery error is lost, under any interleaving: the write returns Ok exactly when the producer
   * took every record and no report carried an error, fails as an enqueue exactly when a record was
   * not taken, and otherwise returns an error that was reported, the one whose flag swap came first.
   * The counter never goes negative and the signal fires at most once.
   */
  lemma NoErrorIsLost<E(!new)>(total: nat, steps: seq<Step<E>>, states: seq<State<E>>)
    requires total > 0 && Runs(total, steps, states)
    ensures var s := states[|steps|];
      && 0 <= s.cells.remaining <= total && s.cells.signals <= 1
      && (s.writer.Returned? ==>
            && s.reported == s.enqueued == Taken(steps)
            && (s.writer.result.Ok? <==> Taken(steps) == total && forall x :: !WasReported(steps, x))
            && (s.writer.result.Ok? ==> s.writer.result.value == total)
            && (s.writer.result == Err(Enqueue) <==> Taken(steps) < total)
            && (s.writer.result != Err(Enqueue) ==> s.cells.error.None?)
            && (s.writer.result.Err? && s.writer.result.error.Delivery? ==>
                  && WasReported(steps, s.writer.result.error.error)
                  && s.winner.Some? && s.winner.value < |s.settlers|
                  && s.settlers[s.winner.value].error == Some(s.writer.result.error.error)))
  {
    RunInv(total, steps, states);
    TakenIsEnqueued(total, steps, states);
    var s := states[|steps|];
    if s.settlers != [] {
      OwedIsOutstanding(s.settlers, 0);
    }
    forall x ensures IsCarried(s.settlers, x) <==> WasReported(steps, x) {
      CarriedIsReported(total, steps, states, x);
    }
    if s.writer.Returned? {
      ReturnedVerdict(s);
    }
  }

  lemma ReturnedVerdict<E(!new)>(s: State<E>)
    requires Inv(s) && s.writer.Returned?
    ensures s.reported == s.enqueued
    ensures s.writer.result.Ok? <==> s.enqueued == s.total && forall x :: !IsCarried(s.settlers, x)
    ensures s.writer.result.Ok? ==> s.writer.result.value == s.total
    ensures s.writer.result == Err(Enqueue) <==> s.enqueued < s.total
    ensures s.writer.result.Err? && s.writer.result.error.Delivery? ==>
      && IsCarried(s.settlers, s.writer.result.error.error)
      && s.winner.Some? && s.winner.value < |s.settlers|
      && s.settlers[s.winner.value].error == Some(s.writer.result.error.error)
  {
    ZeroMeansSettled(s);
    assert forall i :: 0 <= i < |s.settlers| ==> !s.settlers[i].pc.Entering?;
    forall i | 0 <= i < |s.settlers| && s.settlers[i].error.Some?
      ensures IsCarried(s.settlers, s.settlers[i].error.value)
    {
    }
  }

  /** At the signal the error slot is filled if and only if some report carried an error. */
  lemma ErrorVisibleAtSignal<E(!new)>(total: nat, steps: seq<Step<E>>, states: seq<State<E>>)
    requires total > 0 && Runs(total, steps, states)
    requires states[|steps|].cells.signals == 1 && !states[|steps|].writer.Returned?
    ensures var s := states[|steps|];
      && (s.cells.error.Some? <==> exists i :: 0 <= i < |s.settlers| && s.settlers[i].error.Some?)
      && (s.cells.error.Some? <==> exists x :: WasReported(steps, x))
  {
    RunInv(total, steps, states);
    var s := states[|steps|];
    ZeroMeansSettled(s);
    forall x ensures IsCarried(s.settlers, x) <==> WasReported(steps, x) {
      CarriedIsReported(total, steps, states, x);
    }
    forall i | 0 <= i < |s.settlers| && s.settlers[i].error.Some?
      ensures IsCarried(s.settlers, s.settlers[i].error.value)
    {
    }
    assert forall i :: 0 <= i < |s.settlers| ==> !s.settlers[i].pc.Entering? && !s.settlers[i].pc.Storing?;
  }

  /** The write never waits forever: once all reports are in and settled, the signal has fired. */
  lemma WriterIsWoken<E(!new)>(total: nat, steps: seq<Step<E>>, states: seq<State<E>>)
    requires total > 0 && Runs(total, steps, states)
    requires var s := states[|steps|];
      && s.writer.Awaiting? && s.reported == s.enqueued
      && forall i :: 0 <= i < |s.settlers| ==> s.settlers[i].pc.Done?
    ensures Enabled(states[|steps|], Return)
  {
    RunInv(total, steps, states);
    NothingOutstanding(states[|steps|].settlers);
  }

  // ----- every write returns

  function PcWork(pc: Pc): nat {
    match pc
    case Entering => 4
    case Storing => 3
    case Subtracting => 2
    case Waking => 1
    case Done => 0
  }

  function SettlersWork<E>(ss: seq<Settler<E>>): nat {
    if ss == [] then 0 else SettlersWork(ss[..|ss| - 1]) + PcWork(ss[|ss| - 1].pc)
  }

  lemma SettlersWorkPush<E>(ss: seq<Settler<E>>, s: Settler<E>)
    ensures SettlersWork(ss + [s]) == SettlersWork(ss) + PcWork(s.pc)
  {
    assert (ss + [s])[..|ss|] == ss;
  }

  lemma {:induction false} SettlersWorkUpdate<E>(ss: seq<Settler<E>>, i: nat, s: Settler<E>)
    requires i < |ss|
    ensures SettlersWork(ss[i := s]) == SettlersWork(ss) - PcWork(ss[i].pc) + PcWork(s.pc)
  {
    var n := |ss| - 1;
    if i == n {
      assert ss[i := s][..n] == ss[..n];
    } else {
      assert ss[i := s][..n] == ss[..n][i := s];
      SettlersWorkUpdate(ss[..n], i, s);
    }
  }

  function WriterWork<E>(w: Writer<E>): nat {
    match w
    case Enqueuing => 7
    case Abandoning(_) => 2
    case Awaiting => 1
    case Returned(_) => 0
  }

  /** Records to enqueue, reports to come, actions left in open settle calls, and the writer's own way. */
  function Work<E>(s: State<E>): int {
    6 * s.total - 5 * s.reported - s.enqueued + SettlersWork(s.settlers) + WriterWork(s.writer)
  }

  lemma StepWorks<E(!new)>(s: State<E>, st: Step<E>)
    requires Enabled(s, st)
    ensures Work(Apply(s, st)) < Work(s)
  {
    match st {
      case EnqueueFails => SettlersWorkPush(s.settlers, Settler(s.total - s.enqueued, None, Entering));
      case Report(error) => SettlersWorkPush(s.settlers, Settler(1, error, Entering));
      case Settle(i) => SettleWorks(s, i);
      case _ =>
    }
  }

  lemma SettleWorks<E(!new)>(s: State<E>, i: nat)
    requires Enabled(s, Settle(i))
    ensures Work(Apply(s, Settle(i))) < Work(s)
  {
    var settler := Move(s.cells, s.settlers[i]).1;
    SettlersWorkUpdate(s.settlers, i, settler);
    assert PcWork(settler.pc) < PcWork(s.settlers[i].pc);
  }

  /** No run of a write of `total` records has more than 6 * total + 7 actions. */
  lemma {:induction false} RunIsBounded<E(!new)>(total: nat, steps: seq<Step<E>>, states: seq<State<E>>)
    requires total > 0 && Runs(total, steps, states)
    ensures |steps| + Work(states[|steps|]) <= 6 * total + 7
    ensures Work(states[|steps|]) >= 0
  {
    RunInv(total, steps, states);
    if steps == [] {
    } else {
      var n := |steps| - 1;
      RunIsBounded(total, steps[..n], states[..n + 1]);
      StepWorks(states[n], steps[n]);
    }
  }

  /** The writer, a settle call or an awaited report can always move until the write has returned. */
  lemma WriteCanStep<E(!new)>(s: State<E>) returns (st: Step<E>)
    requires Inv(s) && !s.writer.Returned?
    ensures Enabled(s, st)
  {
    if i :| 0 <= i < |s.settlers| && !s.settlers[i].pc.Done? {
      st := Settle(i);
    } else if s.writer.Enqueuing? {
      st := if s.enqueued < s.total then EnqueueOk else EnqueuedAll;
    } else if s.writer.Abandoning? {
      st := OwnSettleReturns;
    } else if s.reported < s.enqueued {
      st := Report(None);
    } else {
      NothingOutstanding(s.settlers);
      st := Return;
    }
  }

  /**
   * Every write returns: whatever the interleaving, a run that cannot go on is no longer than the
   * bound and ends with the write returned and every report in.
   */
  lemma EveryWriteReturns<E(!new)>(total: nat, steps: seq<Step<E>>, states: seq<State<E>>)
    requires total > 0 && Runs(total, steps, states)
    requires forall st :: !Enabled(states[|steps|], st)
    ensures |steps| <= 6 * total + 7
    ensures var s := states[|steps|];
      s.writer.Returned? && s.reported == s.enqueued
  {
    RunIsBounded(total, steps, states);
    RunInv(total, steps, states);
    var s := states[|steps|];
    if !s.writer.Returned? {
      var st := WriteCanStep(s);
    }
    assert !Enabled(s, Report(None));
  }

  // ----- one settle call on its own

  /** The at most four actions of a settle call with nobody in between. */
  function SettleAlone<E>(cells: Cells<E>, settler: Settler<E>): Cells<E> {
    var (c1, s1) := Move(cells, settler);
    var (c2, s2) := Move(c1, s1);
    var (c3, s3) := Move(c2, s2);
    Move(c3, s3).0
  }

  class BatchTracker<E> {
    var remaining: int
    var failed: bool
    var error: Option<E>
    var notify: bool
    ghost var signals: nat

    constructor (records: nat)
      ensures View() == NewCells(records)
    {
      remaining, failed, error, notify, signals := records, false, None, true, 0;
    }

    ghost function View(): Cells<E>
      reads this
    {
      Cells(remaining, failed, error, notify, signals)
    }

    /** Settles `count` records, recording the first error seen. */
    method Settle(count: nat, error: Option<E>)
      modifies this
      ensures View() == SettleAlone(old(View()), Settler(count, error, Entering))
    {
      if count == 0 {
        return;
      }
      if error.Some? {
        var before := failed;
        failed := true;
        if !before {
          this.error := error;
        }
      }
      var previous := remaining;
      remaining := remaining - count;
      if previous == count && notify {
        notify := false;
        signals := signals + 1;
      }
    }

    method TakeError() returns (e: Option<E>)
      modifies this
      ensures e == old(error) && View() == old(View()).(error := None)
    {
      e := error;
      error := None;
    }
  }
}
