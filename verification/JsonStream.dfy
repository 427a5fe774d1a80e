/**
 * What the whole buffer of rows means to a reader of `JSONEachRow`: a stream of objects, one
 * after the other (src/sink/clickhouse/mod.rs).
 */
module JsonStream {
  import opened Events
  import opened Json
  import opened JsonRow
  import opened JsonRows
  import opened JsonMeaning
  import opened Sequences
  import opened Wrappers

  // ----- reading a stream

  /** A stream of objects, as `JSONEachRow` reads it. */
  function ReadRows(ts: seq<Token>): Option<seq<seq<Member>>>
    decreases |ts|
  {
    if ts == [] then Some([])
    else if !ts[0].LBrace? then None
    else
      var r := ReadObject(ts[1..]);
      if r.Stuck? then None
      else
        var more := ReadRows(r.rest);
        if more.None? then None else Some([r.value] + more.value)
  }

  function ParseRows(s: seq<Byte>): Option<seq<seq<Member>>> {
    var ts := Lex(s);
    if ts.None? then None else ReadRows(ts.value)
  }

  /** What is read does not depend on tokens further on. */
  lemma {:induction false} ReadValueAppend(ts: seq<Token>, more: seq<Token>)
    requires ReadValue(ts).Got?
    ensures ReadValue(ts + more) == Got(ReadValue(ts).value, ReadValue(ts).rest + more)
    decreases |ts|, 0
  {
    assert (ts + more)[0] == ts[0] && (ts + more)[1..] == ts[1..] + more;
    if ts[0].LBrace? {
      ReadObjectAppend(ts[1..], more);
    } else if ts[0].LBracket? {
      ReadArrayAppend(ts[1..], more);
    }
  }

  lemma {:induction false} ReadObjectAppend(ts: seq<Token>, more: seq<Token>)
    requires ReadObject(ts).Got?
    ensures ReadObject(ts + more) == Got(ReadObject(ts).value, ReadObject(ts).rest + more)
    decreases |ts|, 2
  {
    assert (ts + more)[0] == ts[0] && (ts + more)[1..] == ts[1..] + more;
    if !ts[0].RBrace? {
      ReadMembersAppend(ts, more);
    }
  }

  lemma {:induction false} ReadMembersAppend(ts: seq<Token>, more: seq<Token>)
    requires ReadMembers(ts).Got?
    ensures ReadMembers(ts + more) == Got(ReadMembers(ts).value, ReadMembers(ts).rest + more)
    decreases |ts|, 1
  {
    var v := ReadValue(ts[2..]);
    assert (ts + more)[0] == ts[0] && (ts + more)[1] == ts[1] && (ts + more)[2..] == ts[2..] + more;
    ReadValueAppend(ts[2..], more);
    assert (v.rest + more)[0] == v.rest[0] && (v.rest + more)[1..] == v.rest[1..] + more;
    if v.rest[0].Comma? {
      ReadMembersAppend(v.rest[1..], more);
    }
  }

  lemma {:induction false} ReadArrayAppend(ts: seq<Token>, more: seq<Token>)
    requires ReadArray(ts).Got?
    ensures ReadArray(ts + more) == Got(ReadArray(ts).value, ReadArray(ts).rest + more)
    decreases |ts|, 2
  {
    assert (ts + more)[0] == ts[0] && (ts + more)[1..] == ts[1..] + more;
    if !ts[0].RBracket? {
      ReadItemsAppend(ts, more);
    }
  }

  lemma {:induction false} ReadItemsAppend(ts: seq<Token>, more: seq<Token>)
    requires ReadItems(ts).Got?
    ensures ReadItems(ts + more) == Got(ReadItems(ts).value, ReadItems(ts).rest + more)
    decreases |ts|, 1
  {
    var v := ReadValue(ts);
    ReadValueAppend(ts, more);
    assert (v.rest + more)[0] == v.rest[0] && (v.rest + more)[1..] == v.rest[1..] + more;
    if v.rest[0].Comma? {
      ReadItemsAppend(v.rest[1..], more);
    }
  }

  // ----- a value never continues across a closing and an opening brace

  /** Where one row may end and the next begin. */
  ghost predicate Seam(ts: seq<Token>, us: seq<Token>) {
    ts != [] && ts[|ts| - 1].RBrace? && us != [] && us[0].LBrace?
  }

  lemma {:induction false} ReadValueCut(ts: seq<Token>, us: seq<Token>)
    requires Seam(ts, us) && ReadValue(ts + us).Got?
    ensures ReadValue(ts).Got?
    decreases |ts|, 0
  {
    assert (ts + us)[0] == ts[0] && (ts + us)[1..] == ts[1..] + us;
    if ts[0].LBrace? {
      ReadObjectCut(ts[1..], us);
    } else if ts[0].LBracket? {
      ReadArrayCut(ts[1..], us);
    }
  }

  lemma {:induction false} ReadObjectCut(ts: seq<Token>, us: seq<Token>)
    requires Seam(ts, us) && ReadObject(ts + us).Got?
    ensures ReadObject(ts).Got?
    decreases |ts|, 2
  {
    assert (ts + us)[0] == ts[0];
    if !ts[0].RBrace? {
      ReadMembersCut(ts, us);
    }
  }

  lemma {:induction false} ReadMembersCut(ts: seq<Token>, us: seq<Token>)
    requires Seam(ts, us) && ReadMembers(ts + us).Got?
    ensures ReadMembers(ts).Got?
    decreases |ts|, 1
  {
    assert (ts + us)[0] == ts[0] && (|ts| > 1 ==> (ts + us)[1] == ts[1]);
    assert |ts| > 2;
    assert (ts + us)[2..] == ts[2..] + us;
    ReadValueCut(ts[2..], us);
    var v := AfterValue(ts[2..], us);
    if v[0].Comma? {
      ReadMembersCut(v[1..], us);
    }
  }

  lemma {:induction false} ReadArrayCut(ts: seq<Token>, us: seq<Token>)
    requires Seam(ts, us) && ReadArray(ts + us).Got?
    ensures ReadArray(ts).Got?
    decreases |ts|, 2
  {
    assert (ts + us)[0] == ts[0];
    if !ts[0].RBracket? {
      ReadItemsCut(ts, us);
    }
  }

  lemma {:induction false} ReadItemsCut(ts: seq<Token>, us: seq<Token>)
    requires Seam(ts, us) && ReadItems(ts + us).Got?
    ensures ReadItems(ts).Got?
    decreases |ts|, 1
  {
    ReadValueCut(ts, us);
    var v := AfterValue(ts, us);
    if v[0].Comma? {
      ReadItemsCut(v[1..], us);
    }
  }

  /** After a value that may not end at the seam, the tokens up to the seam go on. */
  lemma AfterValue(ts: seq<Token>, us: seq<Token>) returns (rest: seq<Token>)
    requires Seam(ts, us) && ReadValue(ts).Got? && ReadValue(ts + us).Got?
    requires ReadValue(ts + us).rest != [] && !ReadValue(ts + us).rest[0].LBrace?
    ensures rest == ReadValue(ts).rest && Seam(rest, us) && |rest| < |ts|
    ensures ReadValue(ts + us).rest[0] == rest[0] && ReadValue(ts + us).rest[1..] == rest[1..] + us
    ensures !rest[0].RBrace? ==> Seam(rest[1..], us)
  {
    rest := ReadValue(ts).rest;
    ReadValueAppend(ts, us);
    ReadValueSuffix(ts);
    assert rest != [] by {
      assert rest == [] ==> rest + us == us;
    }
    assert rest[|rest| - 1] == ts[|ts| - 1];
    assert (rest + us)[1..] == rest[1..] + us;
  }

  // ----- rows are independent of each other

  /** One stream after another, if both can be read. */
  function Concat(a: Option<seq<seq<Member>>>, b: Option<seq<seq<Member>>>): Option<seq<seq<Member>>> {
    if a.None? || b.None? then None else Some(a.value + b.value)
  }

  lemma {:induction false} ReadRowsConcat(ts: seq<Token>, us: seq<Token>)
    requires us != [] && us[0].LBrace? && (ts != [] ==> ts[|ts| - 1].RBrace?)
    ensures ReadRows(ts + us) == Concat(ReadRows(ts), ReadRows(us))
    decreases |ts|
  {
    if ts == [] {
      assert ts + us == us;
      assert ReadRows(us).Some? ==> [] + ReadRows(us).value == ReadRows(us).value;
    } else if ts[0].LBrace? {
      assert (ts + us)[0] == ts[0] && (ts + us)[1..] == ts[1..] + us;
      if ReadObject(ts[1..] + us).Got? {
        ReadObjectCut(ts[1..], us);
      }
      if ReadObject(ts[1..]).Got? {
        var r := ReadObject(ts[1..]);
        ReadObjectAppend(ts[1..], us);
        ReadObjectSuffix(ts[1..]);
        ReadRowsConcat(r.rest, us);
        PrependConcat(r.value, ReadRows(r.rest), ReadRows(us));
      }
    }
  }

  lemma PrependConcat(row: seq<Member>, a: Option<seq<seq<Member>>>, b: Option<seq<seq<Member>>>)
    ensures a.Some? && b.Some? ==> [row] + (a.value + b.value) == [row] + a.value + b.value
  {
  }

  ghost predicate EndsRow(buffer: seq<Byte>) {
    buffer != [] ==> |buffer| >= 2 && buffer[|buffer| - 2] == RBRACE && buffer[|buffer| - 1] == NEWLINE
  }

  lemma LexRowEnd(body: seq<Byte>)
    ensures Lex(body + [RBRACE]) == Both(Lex(body), Some([RBrace]))
  {
    LexClosed(body, [RBRACE]);
  }

  /** Appending a row appends what it reads as, whether or not the parts can be read. */
  lemma ParseRowsConcat(buffer: seq<Byte>, row: seq<Byte>)
    requires EndsRow(buffer) && (row != [] ==> row[0] == LBRACE)
    ensures ParseRows(buffer + row) == Concat(ParseRows(buffer), ParseRows(row))
  {
    if buffer == [] {
      assert buffer + row == row;
      assert ParseRows(row).Some? ==> [] + ParseRows(row).value == ParseRows(row).value;
    } else if row == [] {
      assert buffer + row == buffer;
      assert ParseRows(buffer).Some? ==> ParseRows(buffer).value + [] == ParseRows(buffer).value;
    } else {
      var body := buffer[..|buffer| - 2];
      assert buffer == body + [RBRACE] + [NEWLINE];
      LexSeam(body, row);
      if Lex(buffer).Some? && Lex(row).Some? {
        ReadRowsConcat(Lex(buffer).value, Lex(row).value);
      }
    }
  }

  lemma LexSeam(body: seq<Byte>, row: seq<Byte>)
    requires row != [] && row[0] == LBRACE
    ensures var buffer := body + [RBRACE] + [NEWLINE];
      && Lex(buffer + row) == Both(Lex(buffer), Lex(row))
      && (Lex(buffer).Some? ==> Lex(buffer).value != [] && Lex(buffer).value[|Lex(buffer).value| - 1].RBrace?)
      && (Lex(row).Some? ==> Lex(row).value != [] && Lex(row).value[0].LBrace?)
  {
    var line := body + [RBRACE];
    LexRowEnd(body);
    LexLine(line, row);
    LexLineEnd(line);
    LexRowStart(row);
    Associative(line, [NEWLINE], row);
  }

  lemma LexLineEnd(line: seq<Byte>)
    ensures Lex(line + [NEWLINE]) == Lex(line)
  {
    LexLine(line, []);
    assert [NEWLINE] + [] == [NEWLINE];
    assert Lex(line).Some? ==> Lex(line).value + [] == Lex(line).value;
  }

  lemma LexRowStart(row: seq<Byte>)
    requires row != [] && row[0] == LBRACE
    ensures Lex(row).Some? ==> Lex(row).value != [] && Lex(row).value[0].LBrace?
  {
    LexPunctuation(LBRACE, row[1..]);
    assert row == [LBRACE] + row[1..];
  }

  lemma RowBytesShape(fs: seq<Field>, body: seq<Byte>)
    ensures RowBytes(fs, body)[0] == LBRACE && EndsRow(RowBytes(fs, body))
  {
  }

  lemma RowForShape(e: Event, m: MetadataColumns, lossy: seq<Byte> -> Text)
    ensures RowFor(e, m, lossy) != [] ==> RowFor(e, m, lossy)[0] == LBRACE
    ensures EndsRow(RowFor(e, m, lossy))
  {
    if Accepted(e) {
      RowBytesShape(FieldsOf(e, m, lossy), ObjectBody(e.payload).value);
    }
  }

  lemma EndsRowConcat(buffer: seq<Byte>, row: seq<Byte>)
    requires EndsRow(buffer) && EndsRow(row)
    ensures EndsRow(buffer + row)
  {
  }

  lemma {:induction false} RowsShape(events: seq<Event>, m: MetadataColumns, lossy: seq<Byte> -> Text)
    ensures EndsRow(Rows(events, m, lossy))
  {
    if events == [] {
    } else {
      var front, e := events[..|events| - 1], events[|events| - 1];
      RowsShape(front, m, lossy);
      RowForShape(e, m, lossy);
      EndsRowConcat(Rows(front, m, lossy), RowFor(e, m, lossy));
    }
  }

  /** What each event's row reads as by itself, one after the other. */
  function Streams(events: seq<Event>, m: MetadataColumns, lossy: seq<Byte> -> Text): Option<seq<seq<Member>>> {
    if events == [] then Some([])
    else Concat(Streams(events[..|events| - 1], m, lossy), ParseRows(RowFor(events[|events| - 1], m, lossy)))
  }

  /**
   * No row runs into the next, whatever the payloads hold: the buffer reads as what its rows read
   * as one by one, and cannot be read exactly when one of them cannot.
   */
  lemma {:induction false} RowsAreIndependent(events: seq<Event>, m: MetadataColumns, lossy: seq<Byte> -> Text)
    ensures ParseRows(Rows(events, m, lossy)) == Streams(events, m, lossy)
  {
    if events == [] {
    } else {
      var front, e := events[..|events| - 1], events[|events| - 1];
      RowsAreIndependent(front, m, lossy);
      RowsShape(front, m, lossy);
      RowForShape(e, m, lossy);
      ParseRowsConcat(Rows(front, m, lossy), RowFor(e, m, lossy));
    }
  }

  // ----- when the buffer is one object per accepted event

  /** The members of the row of an accepted event whose braced body is an object. */
  function ObjectFor(e: Event, m: MetadataColumns, lossy: seq<Byte> -> Text): Option<seq<Member>> {
    if !Accepted(e) then None
    else Spliced(FieldsOf(e, m, lossy), ParseObject(Braced(ObjectBody(e.payload).value)))
  }

  /** The objects the accepted events stand for, in order. */
  function Objects(events: seq<Event>, m: MetadataColumns, lossy: seq<Byte> -> Text): seq<seq<Member>> {
    if events == [] then []
    else
      var last := ObjectFor(events[|events| - 1], m, lossy);
      Objects(events[..|events| - 1], m, lossy) + if last.None? then [] else [last.value]
  }

  /** If the event looks like an object it is one, once its margins are trimmed. */
  ghost predicate IsValid(e: Event) {
    Accepted(e) ==> ParseObject(Braced(ObjectBody(e.payload).value)).Some?
  }

  ghost predicate AllValid(events: seq<Event>) {
    forall i :: 0 <= i < |events| ==> IsValid(events[i])
  }

  lemma RowForMeaning(e: Event, m: MetadataColumns, lossy: seq<Byte> -> Text)
    requires Accepted(e)
    ensures ParseObject(RowFor(e, m, lossy)) == ObjectFor(e, m, lossy)
  {
    PayloadMeaning(e.payload);
    RowMeaning(FieldsOf(e, m, lossy), ObjectBody(e.payload).value);
  }

  /**
   * For every event whose payload is a JSON object and every choice of columns, the event is
   * written, as an object whose members are the chosen metadata and then the payload's own.
   */
  lemma EventRowMeaning(e: Event, m: MetadataColumns, lossy: seq<Byte> -> Text)
    requires ParseObject(e.payload).Some?
    ensures Accepted(e)
    ensures ParseObject(RowFor(e, m, lossy)) ==
      Some(MembersOf(FieldsOf(e, m, lossy)) + ParseObject(e.payload).value)
    ensures var row := ParseObject(RowFor(e, m, lossy));
      && row.Some? && |row.value| == Columns(m) + |ParseObject(e.payload).value|
      && Shows(row.value[..Columns(m)], e, m, lossy)
      && row.value[Columns(m)..] == ParseObject(e.payload).value
  {
    var fs := FieldsOf(e, m, lossy);
    SplicePreservesMeaning(e.payload, fs);
    FieldsAreListed(e, m, lossy);
    ListsShow(fs, e, m, lossy);
    SplitsAt(MembersOf(fs), ParseObject(e.payload).value);
  }

  lemma SplitsAt(a: seq<Member>, b: seq<Member>)
    ensures (a + b)[..|a|] == a && (a + b)[|a|..] == b
  {
  }

  /** A stream of one object is that object; anything else that can be read is longer. */
  lemma ReadRowsOne(ts: seq<Token>)
    requires ts != []
    ensures ReadText(ts).Some? ==> ReadRows(ts) == Some([ReadText(ts).value])
    ensures ReadText(ts).None? && ReadRows(ts).Some? ==> |ReadRows(ts).value| >= 2
  {
    assert ReadRows([]) == Some([]);
    if ReadText(ts).Some? {
      assert [ReadText(ts).value] + [] == [ReadText(ts).value];
    }
  }

  lemma RowStream(e: Event, m: MetadataColumns, lossy: seq<Byte> -> Text)
    requires Accepted(e)
    ensures ObjectFor(e, m, lossy).Some? ==> ParseRows(RowFor(e, m, lossy)) == Some([ObjectFor(e, m, lossy).value])
    ensures ObjectFor(e, m, lossy).None? && ParseRows(RowFor(e, m, lossy)).Some? ==>
      |ParseRows(RowFor(e, m, lossy)).value| >= 2
  {
    RowForMeaning(e, m, lossy);
    RowForShape(e, m, lossy);
    var row := RowFor(e, m, lossy);
    if Lex(row).Some? {
      LexRowStart(row);
      ReadRowsOne(Lex(row).value);
    }
  }

  lemma {:induction false} StreamsCount(events: seq<Event>, m: MetadataColumns, lossy: seq<Byte> -> Text)
    ensures AllValid(events) ==> Streams(events, m, lossy) == Some(Objects(events, m, lossy))
    ensures !AllValid(events) && Streams(events, m, lossy).Some? ==>
      |Streams(events, m, lossy).value| > |Objects(events, m, lossy)|
  {
    if events == [] {
    } else {
      var front, e := events[..|events| - 1], events[|events| - 1];
      StreamsCount(front, m, lossy);
      AllValidFront(events);
      if Accepted(e) {
        RowStream(e, m, lossy);
      }
    }
  }

  lemma AllValidFront(events: seq<Event>)
    requires events != []
    ensures AllValid(events) <==> (AllValid(events[..|events| - 1]) && IsValid(events[|events| - 1]))
  {
    AllHoldFront(events, e => IsValid(e));
  }

  lemma AllHoldFront<T>(xs: seq<T>, p: T -> bool)
    requires xs != []
    ensures AllHold(xs, p) <==> (AllHold(xs[..|xs| - 1], p) && p(xs[|xs| - 1]))
  {
    var front := xs[..|xs| - 1];
    if AllHold(front, p) {
      forall i | 0 <= i < |front| ensures p(xs[i]) {
        assert p(front[i]);
      }
    }
  }

  ghost predicate AllHold<T>(xs: seq<T>, p: T -> bool) {
    forall i :: 0 <= i < |xs| ==> p(xs[i])
  }

  /**
   * The whole buffer is a stream of exactly one object per accepted event, in order, each with its
   * metadata in front, if and only if every payload that passes the check at its two ends is an
   * object once its margins are trimmed.
   */
  lemma BufferMeaning(events: seq<Event>, m: MetadataColumns, lossy: seq<Byte> -> Text)
    ensures ParseRows(Rows(events, m, lossy)) == Some(Objects(events, m, lossy)) <==> AllValid(events)
  {
    RowsAreIndependent(events, m, lossy);
    StreamsCount(events, m, lossy);
  }

  /** Two objects in one payload pass the check: one event is counted, and two rows are read. */
  lemma TwoObjectsInOneRow()
    ensures var payload: seq<Byte> := [LBRACE, RBRACE, LBRACE, RBRACE];
      && ObjectBody(payload) == Ok([RBRACE, LBRACE])
      && ParseObject(payload).None?
      && ParseRows(RowBytes([], [RBRACE, LBRACE])) == Some([[], []])
  {
    var payload: seq<Byte> := [LBRACE, RBRACE, LBRACE, RBRACE];
    var body: seq<Byte> := [RBRACE, LBRACE];
    assert payload == Braced(body);
    BracedBody(body);
    LexBraces();
    LexBraced(body);
    LexRow([], body);
    var ts := [LBrace, RBrace, LBrace, RBrace];
    assert [LBrace] + Lex(body).value + [RBrace] == ts;
    assert RowTokens([], Lex(body).value) == ts;
    EmptyObjects(ts);
  }

  lemma LexBraces()
    ensures Lex([RBRACE, LBRACE]) == Some([RBrace, LBrace])
  {
    LexPunctuation(LBRACE, []);
    LexPunctuation(RBRACE, [LBRACE]);
    assert [LBRACE] + [] == [LBRACE] && [RBRACE] + [LBRACE] == [RBRACE, LBRACE];
    assert [LBrace] + [] == [LBrace] && [RBrace] + [LBrace] == [RBrace, LBrace];
  }

  lemma EmptyObjects(ts: seq<Token>)
    requires ts == [LBrace, RBrace, LBrace, RBrace]
    ensures ReadText(ts).None? && ReadRows(ts) == Some([[], []])
  {
    assert ts[1..][1..] == [LBrace, RBrace];
    assert [LBrace, RBrace][1..] == [RBrace] && [RBrace][1..] == [];
    ReadRowsOne([LBrace, RBrace]);
    var none: seq<Member> := [];
    assert [none] + [none] == [none, none];
  }
}
