/** The row-building loop of the ClickHouse JSON sink (src/sink/clickhouse/mod.rs). */
module JsonRows {
  import opened Events
  import opened JsonRow
  import opened Wrappers

  /** The first row refused: why, and at which offset. */
  datatype Refusal = Refusal(why: Rejection, offset: int)

  datatype Outcome = Outcome(written: nat, dropped: nat, first: Option<Refusal>)

  predicate Accepted(e: Event) { ObjectBody(e.payload).Ok? }

  function RowFor(e: Event, m: MetadataColumns, lossy: seq<Byte> -> Text): seq<Byte> {
    if Accepted(e) then RowBytes(FieldsOf(e, m, lossy), ObjectBody(e.payload).value) else []
  }

  /** The rows of the accepted events, one after the other. */
  function Rows(events: seq<Event>, m: MetadataColumns, lossy: seq<Byte> -> Text): seq<Byte> {
    if events == [] then []
    else Rows(events[..|events| - 1], m, lossy) + RowFor(events[|events| - 1], m, lossy)
  }

  /** How an event fared: written, or refused for a reason; and its offset. */
  datatype Verdict = Verdict(refusal: Option<Rejection>, offset: int)

  function VerdictOf(e: Event): Verdict {
    match ObjectBody(e.payload)
    case Ok(_) => Verdict(None, e.offset)
    case Err(why) => Verdict(Some(why), e.offset)
  }

  function Verdicts(events: seq<Event>): seq<Verdict> {
    if events == [] then [] else Verdicts(events[..|events| - 1]) + [VerdictOf(events[|events| - 1])]
  }

  function CountWritten(vs: seq<Verdict>): nat {
    if vs == [] then 0
    else CountWritten(vs[..|vs| - 1]) + if vs[|vs| - 1].refusal.None? then 1 else 0
  }

  /** The refusal at the first event that is refused. */
  ghost predicate IsFirstRefusal(vs: seq<Verdict>, first: Option<Refusal>) {
    match first
    case None => forall i :: 0 <= i < |vs| ==> vs[i].refusal.None?
    case Some(r) =>
      exists i :: 0 <= i < |vs| && vs[i] == Verdict(Some(r.why), r.offset)
        && forall j :: 0 <= j < i ==> vs[j].refusal.None?
  }

  /** Counts one more event, remembering only the first refusal. */
  function Count(o: Outcome, v: Verdict): Outcome {
    if v.refusal.None? then o.(written := o.written + 1)
    else if o.first.Some? then o.(dropped := o.dropped + 1)
    else o.(dropped := o.dropped + 1, first := Some(Refusal(v.refusal.value, v.offset)))
  }

  function Tally(vs: seq<Verdict>): Outcome {
    if vs == [] then Outcome(0, 0, None) else Count(Tally(vs[..|vs| - 1]), vs[|vs| - 1])
  }

  /** One more verdict: what was the first refusal still is, or this one becomes it. */
  lemma FirstRefusalPush(front: seq<Verdict>, o: Outcome, v: Verdict)
    requires IsFirstRefusal(front, o.first)
    ensures IsFirstRefusal(front + [v], Count(o, v).first)
  {
    var vs := front + [v];
    if o.first.Some? {
      var r := o.first.value;
      var i :| 0 <= i < |front| && front[i] == Verdict(Some(r.why), r.offset)
        && forall j :: 0 <= j < i ==> front[j].refusal.None?;
      assert vs[i] == front[i];
    } else if v.refusal.Some? {
      assert vs[|front|] == Verdict(Some(v.refusal.value), v.offset);
    }
  }

  /** Every event is either written or dropped, and the refusal kept is the first one. */
  lemma {:induction false} TallyIs(vs: seq<Verdict>)
    ensures Tally(vs).written == CountWritten(vs) && Tally(vs).written + Tally(vs).dropped == |vs|
    ensures IsFirstRefusal(vs, Tally(vs).first)
  {
    if vs == [] {
    } else {
      var front, v := vs[..|vs| - 1], vs[|vs| - 1];
      TallyIs(front);
      FirstRefusalPush(front, Tally(front), v);
      assert front + [v] == vs;
    }
  }

  /** The indices of the events whose payload has the shape of an object. */
  ghost function AcceptedAt(events: seq<Event>): set<nat> {
    set i: nat | i < |events| && ObjectBody(events[i].payload).Ok?
  }

  /** The first refused event, why it was refused and at which offset; none if all are accepted. */
  ghost predicate FirstRefused(events: seq<Event>, first: Option<Refusal>) {
    match first
    case None => forall i :: 0 <= i < |events| ==> ObjectBody(events[i].payload).Ok?
    case Some(r) =>
      exists i :: 0 <= i < |events| && ObjectBody(events[i].payload) == Err(r.why) && events[i].offset == r.offset
        && forall j :: 0 <= j < i ==> ObjectBody(events[j].payload).Ok?
  }

  ghost function WrittenAt(vs: seq<Verdict>): set<nat> {
    set i: nat | i < |vs| && vs[i].refusal.None?
  }

  lemma {:induction false} CountIsIndices(vs: seq<Verdict>)
    ensures CountWritten(vs) == |WrittenAt(vs)|
  {
    if vs == [] {
      assert WrittenAt(vs) == {};
    } else {
      var n := |vs| - 1;
      CountIsIndices(vs[..n]);
      if vs[n].refusal.None? {
        assert WrittenAt(vs) == WrittenAt(vs[..n]) + {n};
      } else {
        assert WrittenAt(vs) == WrittenAt(vs[..n]);
      }
    }
  }

  lemma VerdictMeaning(e: Event)
    ensures VerdictOf(e).refusal.None? <==> ObjectBody(e.payload).Ok?
  {
  }

  /** The verdicts count exactly the accepted events. */
  lemma VerdictsCount(events: seq<Event>)
    ensures CountWritten(Verdicts(events)) == |AcceptedAt(events)|
  {
    var vs := Verdicts(events);
    VerdictsLength(events);
    CountIsIndices(vs);
    forall i | 0 <= i < |events| ensures vs[i].refusal.None? <==> ObjectBody(events[i].payload).Ok? {
      VerdictsAt(events, i);
      VerdictMeaning(events[i]);
    }
    assert WrittenAt(vs) == AcceptedAt(events);
  }

  lemma {:induction false} VerdictsAt(events: seq<Event>, i: nat)
    requires i < |events|
    ensures |Verdicts(events)| == |events| && Verdicts(events)[i] == VerdictOf(events[i])
  {
    var n := |events| - 1;
    VerdictsLength(events[..n]);
    if i == n {
    } else {
      VerdictsAt(events[..n], i);
    }
  }

  /** The first refusal among the verdicts is that of the first refused event. */
  lemma RefusalIsFirst(events: seq<Event>, first: Option<Refusal>)
    requires IsFirstRefusal(Verdicts(events), first)
    ensures FirstRefused(events, first)
  {
    var vs := Verdicts(events);
    VerdictsLength(events);
    forall i | 0 <= i < |events| ensures vs[i] == VerdictOf(events[i]) {
      VerdictsAt(events, i);
    }
    if first.Some? {
      var r := first.value;
      var i :| 0 <= i < |vs| && vs[i] == Verdict(Some(r.why), r.offset)
        && forall j :: 0 <= j < i ==> vs[j].refusal.None?;
      assert VerdictOf(events[i]) == vs[i];
      assert forall j :: 0 <= j < i ==> vs[j] == VerdictOf(events[j]);
    }
  }

  method AppendRow(buffer: RowBuffer, e: Event, m: MetadataColumns, lossy: seq<Byte> -> Text)
    returns (v: Verdict)
    modifies buffer
    ensures buffer.bytes == old(buffer.bytes) + RowFor(e, m, lossy)
    ensures v == VerdictOf(e)
  {
    var r := buffer.WriteRow(e, m, lossy);
    v := Verdict(if r.Ok? then None else Some(r.error), e.offset);
  }

  lemma PrefixStep(events: seq<Event>, i: nat, m: MetadataColumns, lossy: seq<Byte> -> Text)
    requires i < |events|
    ensures Rows(events[..i + 1], m, lossy) == Rows(events[..i], m, lossy) + RowFor(events[i], m, lossy)
    ensures Verdicts(events[..i + 1]) == Verdicts(events[..i]) + [VerdictOf(events[i])]
  {
    assert events[..i + 1][..i] == events[..i];
  }

  lemma TallyPush(vs: seq<Verdict>, v: Verdict)
    ensures Tally(vs + [v]) == Count(Tally(vs), v)
  {
    assert (vs + [v])[..|vs|] == vs;
  }

  lemma {:induction false} VerdictsLength(events: seq<Event>)
    ensures |Verdicts(events)| == |events|
  {
    if events == [] {
    } else {
      VerdictsLength(events[..|events| - 1]);
    }
  }

  /**
   * Builds the buffer for a write. Every event is either written or dropped, the buffer holds
   * the accepted rows in order, and the first refusal is remembered.
   */
  method BuildRows(events: seq<Event>, m: MetadataColumns, lossy: seq<Byte> -> Text)
    returns (bytes: seq<Byte>, outcome: Outcome)
    ensures bytes == Rows(events, m, lossy)
    ensures outcome.written == |set i: nat | i < |events| && ObjectBody(events[i].payload).Ok?|
    ensures outcome.written + outcome.dropped == |events|
    ensures FirstRefused(events, outcome.first)
  {
    var buffer := new RowBuffer();
    outcome := Outcome(0, 0, None);
    for i := 0 to |events|
      invariant buffer.bytes == Rows(events[..i], m, lossy)
      invariant outcome == Tally(Verdicts(events[..i]))
    {
      PrefixStep(events, i, m, lossy);
      var v := AppendRow(buffer, events[i], m, lossy);
      TallyPush(Verdicts(events[..i]), v);
      outcome := Count(outcome, v);
    }
    assert events[..|events|] == events;
    VerdictsLength(events);
    TallyIs(Verdicts(events));
    VerdictsCount(events);
    RefusalIsFirst(events, outcome.first);
    bytes := buffer.bytes;
  }
}
