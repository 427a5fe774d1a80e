/** Building one `JSONEachRow` line by splicing metadata into the payload's bytes (src/sink/clickhouse/json.rs). */
module JsonRow {
  import opened Events
  import opened Json
  import opened Sequences
  import Utf8
  import opened Wrappers

  // ----- escaping

  function HexDigit(n: nat): Byte
    requires n < 16
  {
    if n < 10 then 0x30 + n else 0x57 + n
  }

  /** What `write_json_string` emits for one character. */
  function EscapeChar(c: Scalar): (bytes: seq<Byte>)
    ensures bytes != []
  {
    if c == 0x22 then [BACKSLASH, QUOTE]
    else if c == 0x5C then [BACKSLASH, BACKSLASH]
    else if c == 0x0A then [BACKSLASH, 0x6E]
    else if c == 0x0D then [BACKSLASH, 0x72]
    else if c == 0x09 then [BACKSLASH, 0x74]
    else if c < 0x20 then [BACKSLASH, 0x75, 0x30, 0x30, HexDigit(c / 16), HexDigit(c % 16)]
    else Utf8.Encode(c)
  }

  function Escaped(text: Text): seq<Byte> {
    if text == [] then [] else Escaped(text[..|text| - 1]) + EscapeChar(text[|text| - 1])
  }

  function Quoted(text: Text): seq<Byte> {
    [QUOTE] + (Escaped(text) + [QUOTE])
  }

  lemma EscapeCharReads(c: Scalar)
    ensures EscapeChar(c)[0] != QUOTE
    ensures Unit(EscapeChar(c), 0) == At(c, |EscapeChar(c)|)
  {
    Utf8.DecodeEncode(c);
    if c >= 0x80 {
      Utf8.EncodeHigh(c);
    }
  }

  /**
   * The form of each escape: two bytes for the quotation mark, the backslash, line feed, carriage
   * return and tab; `\u` and four lower-case digits for other controls; and UTF-8 for the rest.
   */
  lemma EscapeForm(c: Scalar)
    ensures c == 0x22 || c == 0x5C || c == 0x0A || c == 0x0D || c == 0x09 ==>
      |EscapeChar(c)| == 2 && EscapeChar(c)[0] == BACKSLASH
    ensures c < 0x20 && c != 0x0A && c != 0x0D && c != 0x09 ==>
      && |EscapeChar(c)| == 6 && EscapeChar(c)[..2] == [BACKSLASH, 0x75]
      && forall i :: 2 <= i < 6 ==> IsDigit(EscapeChar(c)[i]) || 0x61 <= EscapeChar(c)[i] <= 0x66
    ensures c >= 0x20 && c != 0x22 && c != 0x5C ==> EscapeChar(c) == Utf8.Encode(c)
  {
  }

  lemma EscapeCharPrintable(c: Scalar)
    ensures forall i :: 0 <= i < |EscapeChar(c)| ==> EscapeChar(c)[i] >= 0x20
  {
    if c >= 0x80 {
      Utf8.EncodeHigh(c);
    }
  }

  lemma {:induction false} EscapedFront(text: Text)
    requires text != []
    ensures Escaped(text) == EscapeChar(text[0]) + Escaped(text[1..])
  {
    if |text| > 1 {
      var front := text[..|text| - 1];
      EscapedFront(front);
      assert text[1..][..|text| - 2] == front[1..];
    } else {
      assert text[..0] == [] && text[1..] == [];
    }
  }

  /** A character in front of an open string that reads back. */
  lemma CharInFront(c: seq<Byte>, u: int, rest: seq<Byte>, text: seq<int>)
    requires c != [] && c[0] != QUOTE && Unit(c, 0) == At(u, |c|)
    requires Chars(rest, 0) == At(text, |rest|)
    ensures Chars(c + rest, 0) == At([u] + text, |c| + |rest|)
  {
    UnitInFront(c, u, rest);
    CharsBehind(c, rest, text);
    CharsStep(c + rest, 0, u, |c|, text, |c| + |rest|);
  }

  lemma UnitInFront(c: seq<Byte>, u: int, rest: seq<Byte>)
    requires c != [] && Unit(c, 0) == At(u, |c|)
    ensures Unit(c + rest, 0) == At(u, |c|)
  {
    UnitLocal(c, 0, c + rest, 0);
  }

  lemma CharsBehind(c: seq<Byte>, rest: seq<Byte>, text: seq<int>)
    requires Chars(rest, 0) == At(text, |rest|)
    ensures Chars(c + rest, |c|) == At(text, |c| + |rest|)
  {
    CharsLocal(rest, 0, c + rest, |c|);
  }

  lemma {:induction false} EscapedReads(text: Text)
    ensures Chars(Escaped(text) + [QUOTE], 0) == At(text, |Escaped(text)| + 1)
  {
    if text == [] {
      assert Escaped(text) + [QUOTE] == [QUOTE];
    } else {
      var c, rest := EscapeChar(text[0]), Escaped(text[1..]) + [QUOTE];
      EscapedFront(text);
      Associative(c, Escaped(text[1..]), [QUOTE]);
      EscapeCharReads(text[0]);
      EscapedReads(text[1..]);
      CharInFront(c, text[0], rest, text[1..]);
      assert [text[0]] + text[1..] == text;
    }
  }

  /**
   * Escaping is invertible and self-delimiting: wherever the quoted text stands, a reader gets
   * back exactly the text and continues exactly after it.
   */
  lemma EscapingRoundTrip(text: Text, after: seq<Byte>)
    ensures Token1(Quoted(text) + after) == At(Scalar(Str(text)), |Quoted(text)|)
    ensures (Quoted(text) + after)[|Quoted(text)|..] == after
  {
    EscapedReads(text);
    QuotedReads(Escaped(text) + [QUOTE], text, after);
  }

  lemma QuotedReads(inner: seq<Byte>, text: seq<int>, after: seq<Byte>)
    requires Chars(inner, 0) == At(text, |inner|)
    ensures Token1([QUOTE] + inner + after) == At(Scalar(Str(text)), 1 + |inner|)
  {
    var s := [QUOTE] + inner + after;
    assert Chars(s, 1) == At(text, 1 + |inner|) by {
      AgreeQuoted(inner, after, s);
      CharsAfterQuote(inner, text, s);
    }
    StringToken(s, text, 1 + |inner|);
  }

  lemma AgreeQuoted(inner: seq<Byte>, after: seq<Byte>, s: seq<Byte>)
    requires s == [QUOTE] + inner + after
    ensures s[0] == QUOTE && Agree(inner, 0, |inner|, s, 1)
  {
  }

  lemma CharsAfterQuote(inner: seq<Byte>, text: seq<int>, s: seq<Byte>)
    requires Chars(inner, 0) == At(text, |inner|) && Agree(inner, 0, |inner|, s, 1)
    ensures Chars(s, 1) == At(text, 1 + |inner|)
  {
    CharsLocal(inner, 0, s, 1);
  }

  /** The emitted text holds no raw control character, so it adds no line break. */
  lemma {:induction false} QuotedPrintable(text: Text)
    ensures forall i :: 0 <= i < |Quoted(text)| ==> Quoted(text)[i] >= 0x20
  {
    if text == [] {
    } else {
      QuotedPrintable(text[..|text| - 1]);
      EscapeCharPrintable(text[|text| - 1]);
      var front := Escaped(text[..|text| - 1]);
      assert Quoted(text[..|text| - 1]) == [QUOTE] + front + [QUOTE];
      assert Quoted(text) == [QUOTE] + (front + EscapeChar(text[|text| - 1])) + [QUOTE];
      forall i | 0 <= i < |Quoted(text)| ensures Quoted(text)[i] >= 0x20 {
        if 0 < i <= |front| {
          assert Quoted(text)[i] == Quoted(text[..|text| - 1])[i];
        }
      }
    }
  }

  // ----- decimal integers

  function Decimal(n: nat): (t: seq<Byte>)
    ensures t != []
  {
    if n < 10 then [0x30 + n] else Decimal(n / 10) + [0x30 + n % 10]
  }

  function Itoa(v: int): seq<Byte> {
    if v < 0 then [0x2D] + Decimal(-v) else Decimal(v)
  }

  function ReadDecimal(t: seq<Byte>): int {
    if t == [] then 0 else ReadDecimal(t[..|t| - 1]) * 10 + (t[|t| - 1] as int - 0x30)
  }

  function ReadInteger(t: seq<Byte>): int {
    if t != [] && t[0] == 0x2D then -ReadDecimal(t[1..]) else ReadDecimal(t)
  }

  lemma {:induction false} DecimalIs(n: nat)
    ensures forall i :: 0 <= i < |Decimal(n)| ==> IsDigit(Decimal(n)[i])
    ensures Decimal(n)[0] == 0x30 ==> n == 0
    ensures n == 0 ==> |Decimal(n)| == 1
    ensures ReadDecimal(Decimal(n)) == n
  {
    if n < 10 {
      assert Decimal(n)[..0] == [];
    } else {
      DecimalIs(n / 10);
      assert Decimal(n)[..|Decimal(n)| - 1] == Decimal(n / 10);
    }
  }

  lemma {:induction false} AllDigits(t: seq<Byte>)
    requires forall i :: 0 <= i < |t| ==> IsDigit(t[i])
    ensures Digits(t) == |t|
  {
    if t == [] {
    } else {
      AllDigits(t[1..]);
    }
  }

  /** Every integer prints as a JSON number that reads back as the same integer. */
  lemma ItoaRoundTrip(v: int)
    ensures Matches(Itoa(v), Signed) && ReadInteger(Itoa(v)) == v && (Itoa(v)[0] == 0x2D <==> v < 0)
    ensures forall i :: 0 <= i < |Itoa(v)| ==> IsNumberByte(Itoa(v)[i])
  {
    var n: nat := if v < 0 then -v else v;
    var t := Decimal(n);
    DecimalIs(n);
    AllDigits(t);
    assert t[|t|..] == [];
    assert IsDigit(t[0]);
    assert Matches([], Fraction) && Matches(t, Unsigned);
    if v < 0 {
      assert Itoa(v)[1..] == t;
    }
  }

  // ----- metadata fields

  datatype FieldValue = TextValue(text: Text) | IntegerValue(number: int)

  datatype Field = Field(name: Text, value: FieldValue)

  function FieldValueBytes(v: FieldValue): seq<Byte> {
    match v
    case TextValue(text) => Quoted(text)
    case IntegerValue(n) => Itoa(n)
  }

  function FieldBytes(f: Field): seq<Byte> {
    Quoted(f.name) + [COLON] + FieldValueBytes(f.value)
  }

  /** The member a reader is meant to see. */
  function ValueOf(v: FieldValue): Value {
    match v
    case TextValue(text) => Str(text)
    case IntegerValue(n) => Number(Itoa(n))
  }

  function MembersOf(fs: seq<Field>): (ms: seq<Member>)
    ensures |ms| == |fs|
  {
    if fs == [] then [] else [Member(fs[0].name, ValueOf(fs[0].value))] + MembersOf(fs[1..])
  }

  lemma FieldPrintable(f: Field)
    ensures forall i :: 0 <= i < |FieldBytes(f)| ==> FieldBytes(f)[i] >= 0x20
  {
    QuotedPrintable(f.name);
    match f.value {
      case TextValue(text) => QuotedPrintable(text);
      case IntegerValue(n) => ItoaRoundTrip(n);
    }
  }

  // ----- trimming and the payload's body

  /** The index of the first byte that is not ASCII whitespace, or the length. */
  function Start(s: seq<Byte>): (i: nat)
    ensures i <= |s|
    ensures forall x :: 0 <= x < i ==> IsBlank(s[x])
    ensures i < |s| ==> !IsBlank(s[i])
  {
    if s != [] && IsBlank(s[0]) then 1 + Start(s[1..]) else 0
  }

  /** The index after the last byte that is not ASCII whitespace, or zero. */
  function End(s: seq<Byte>): (j: nat)
    ensures j <= |s|
    ensures forall x :: j <= x < |s| ==> IsBlank(s[x])
    ensures j > 0 ==> !IsBlank(s[j - 1])
  {
    if s != [] && IsBlank(s[|s| - 1]) then End(s[..|s| - 1]) else |s|
  }

  lemma StartBeforeEnd(s: seq<Byte>)
    ensures Start(s) < |s| <==> End(s) > 0
    ensures Start(s) < |s| ==> Start(s) < End(s)
  {
    if Start(s) < |s| {
      assert !IsBlank(s[Start(s)]);
    }
    if End(s) > 0 {
      assert !IsBlank(s[End(s) - 1]);
    }
  }

  function TrimAscii(s: seq<Byte>): seq<Byte> {
    StartBeforeEnd(s);
    if Start(s) == |s| then [] else s[Start(s)..End(s)]
  }

  datatype Rejection = EmptyPayload | NotAnObject

  /** The payload's body: everything between the outer braces, trimmed. */
  function ObjectBody(payload: seq<Byte>): Result<seq<Byte>, Rejection> {
    var trimmed := TrimAscii(payload);
    if trimmed == [] then Err(EmptyPayload)
    else if trimmed[0] == LBRACE && trimmed[|trimmed| - 1] == RBRACE then
      Ok(TrimAscii(trimmed[1..|trimmed| - 1]))
    else Err(NotAnObject)
  }

  /** Neither end of the body is blank. */
  predicate IsTrimmed(body: seq<Byte>) {
    body != [] ==> !IsBlank(body[0]) && !IsBlank(body[|body| - 1])
  }

  lemma TrimAsciiTrims(s: seq<Byte>)
    ensures IsTrimmed(TrimAscii(s))
  {
    StartBeforeEnd(s);
  }

  /** The body as an object of its own. */
  function Braced(body: seq<Byte>): seq<Byte> {
    [LBRACE] + body + [RBRACE]
  }

  // ----- the row

  function Joined(fs: seq<Field>): seq<Byte> {
    if fs == [] then []
    else
      var front := fs[..|fs| - 1];
      Joined(front) + (if front == [] then [] else [COMMA]) + FieldBytes(fs[|fs| - 1])
  }

  function RowBytes(fs: seq<Field>, body: seq<Byte>): seq<Byte> {
    [LBRACE] + Joined(fs)
    + (if body == [] then [] else (if fs == [] then [] else [COMMA]) + body)
    + [RBRACE, NEWLINE]
  }

  datatype MetadataColumns = MetadataColumns(
    topic: Option<Text>, partition: Option<Text>, offset: Option<Text>, timestamp: Option<Text>, key: Option<Text>)

  predicate IsEmpty(m: MetadataColumns) {
    m.topic.None? && m.partition.None? && m.offset.None? && m.timestamp.None? && m.key.None?
  }

  function OneField(name: Option<Text>, value: FieldValue): seq<Field> {
    if name.None? then [] else [Field(name.value, value)]
  }

  /**
   * The configured metadata in its fixed order. `lossy` is `String::from_utf8_lossy`; a missing
   * timestamp counts as zero and a missing key as empty.
   */
  function FieldsOf(e: Event, m: MetadataColumns, lossy: seq<Byte> -> Text): seq<Field> {
    OneField(m.topic, TextValue(e.tp.topic))
    + OneField(m.partition, IntegerValue(e.tp.partition))
    + OneField(m.offset, IntegerValue(e.offset))
    + OneField(m.timestamp, IntegerValue(if e.timestampMs.Some? then e.timestampMs.value else 0))
    + OneField(m.key, TextValue(lossy(if e.key.Some? then e.key.value else [])))
  }

  /** One more character of a string that is still open. */
  function One(name: Option<Text>): nat { if name.Some? then 1 else 0 }

  /** How many columns are configured. */
  function Columns(m: MetadataColumns): nat {
    One(m.topic) + One(m.partition) + One(m.offset) + One(m.timestamp) + One(m.key)
  }

  /**
   * One field per configured column, in the order topic, partition, offset, timestamp, key, each with
   * its configured name and the event's own value; a missing timestamp is zero, a missing key empty.
   */
  ghost predicate Lists(fs: seq<Field>, e: Event, m: MetadataColumns, lossy: seq<Byte> -> Text) {
    var partition := One(m.topic);
    var offset := partition + One(m.partition);
    var timestamp := offset + One(m.offset);
    var key := timestamp + One(m.timestamp);
    var time := match e.timestampMs case Some(t) => t case None => 0;
    var text := lossy(match e.key case Some(k) => k case None => []);
    && |fs| == Columns(m)
    && (m.topic.Some? ==> fs[0] == Field(m.topic.value, TextValue(e.tp.topic)))
    && (m.partition.Some? ==> fs[partition] == Field(m.partition.value, IntegerValue(e.tp.partition)))
    && (m.offset.Some? ==> fs[offset] == Field(m.offset.value, IntegerValue(e.offset)))
    && (m.timestamp.Some? ==> fs[timestamp] == Field(m.timestamp.value, IntegerValue(time)))
    && (m.key.Some? ==> fs[key] == Field(m.key.value, TextValue(text)))
  }

  lemma FieldsAreListed(e: Event, m: MetadataColumns, lossy: seq<Byte> -> Text)
    ensures Lists(FieldsOf(e, m, lossy), e, m, lossy)
  {
  }

  lemma EscapedPush(text: Text, i: nat, out: seq<Byte>)
    requires i < |text| && out == [QUOTE] + Escaped(text[..i])
    ensures out + EscapeChar(text[i]) == [QUOTE] + Escaped(text[..i + 1])
  {
    assert text[..i + 1][..i] == text[..i];
    assert out + EscapeChar(text[i]) == [QUOTE] + (Escaped(text[..i]) + EscapeChar(text[i]));
  }

  lemma JoinedPush(start: seq<Byte>, fs: seq<Field>, f: Field)
    ensures start + Joined(fs + [f]) ==
      start + Joined(fs) + (if fs == [] then [] else [COMMA]) + FieldBytes(f)
  {
    assert (fs + [f])[..|fs|] == fs;
    var sep: seq<Byte> := if fs == [] then [] else [COMMA];
    Associative(start, Joined(fs) + sep, FieldBytes(f));
    Associative(start, Joined(fs), sep);
  }

  /** The output buffer rows are appended to. */
  class RowBuffer {
    var bytes: seq<Byte>

    constructor ()
      ensures bytes == []
    {
      bytes := [];
    }

    method Extend(more: seq<Byte>)
      modifies this
      ensures bytes == old(bytes) + more
    {
      bytes := bytes + more;
    }

    method WriteJsonString(text: Text)
      modifies this
      ensures bytes == old(bytes) + Quoted(text)
    {
      var out := [QUOTE];
      for i := 0 to |text|
        invariant bytes == old(bytes)
        invariant out == [QUOTE] + Escaped(text[..i])
      {
        EscapedPush(text, i, out);
        out := out + EscapeChar(text[i]);
      }
      assert text[..|text|] == text;
      Extend(out + [QUOTE]);
    }

    method WriteField(f: Field)
      modifies this
      ensures bytes == old(bytes) + FieldBytes(f)
    {
      WriteJsonString(f.name);
      Extend([COLON]);
      match f.value {
        case TextValue(text) => WriteJsonString(text);
        case IntegerValue(n) => Extend(Itoa(n));
      }
    }

    /** The comma in front of everything but a row's first part. */
    method Separate(first: bool)
      modifies this
      ensures bytes == old(bytes) + if first then [] else [COMMA]
    {
      if !first {
        Extend([COMMA]);
      } else {
        assert bytes + [] == bytes;
      }
    }

    /** Writes a configured field, separated from what this row already holds. */
    method WriteOptional(
      name: Option<Text>, value: FieldValue, first: bool, ghost start: seq<Byte>, ghost fs: seq<Field>)
      returns (stillFirst: bool)
      requires bytes == start + Joined(fs) && first == (fs == [])
      modifies this
      ensures bytes == start + Joined(fs + OneField(name, value))
      ensures stillFirst == (fs + OneField(name, value) == [])
    {
      if name.None? {
        assert fs + OneField(name, value) == fs;
        return first;
      }
      Separate(first);
      WriteField(Field(name.value, value));
      JoinedPush(start, fs, Field(name.value, value));
      stillFirst := false;
    }

    /** The metadata fields in their fixed order. */
    method WriteMetadata(e: Event, m: MetadataColumns, lossy: seq<Byte> -> Text) returns (first: bool)
      modifies this
      ensures bytes == old(bytes) + Joined(FieldsOf(e, m, lossy))
      ensures first == (FieldsOf(e, m, lossy) == []) && Lists(FieldsOf(e, m, lossy), e, m, lossy)
    {
      ghost var start := bytes;
      ghost var f1 := OneField(m.topic, TextValue(e.tp.topic));
      first := WriteOptional(m.topic, TextValue(e.tp.topic), true, start, []);
      assert [] + f1 == f1;
      first := WriteOptional(m.partition, IntegerValue(e.tp.partition), first, start, f1);
      ghost var f2 := f1 + OneField(m.partition, IntegerValue(e.tp.partition));
      first := WriteOptional(m.offset, IntegerValue(e.offset), first, start, f2);
      ghost var f3 := f2 + OneField(m.offset, IntegerValue(e.offset));
      var timestamp := if e.timestampMs.Some? then e.timestampMs.value else 0;
      first := WriteOptional(m.timestamp, IntegerValue(timestamp), first, start, f3);
      ghost var f4 := f3 + OneField(m.timestamp, IntegerValue(timestamp));
      var key := if e.key.Some? then e.key.value else [];
      first := WriteOptional(m.key, TextValue(lossy(key)), first, start, f4);
      FieldsAreListed(e, m, lossy);
    }

    /** Appends one row for the event, or leaves the buffer alone and says why not. */
    method WriteRow(e: Event, m: MetadataColumns, lossy: seq<Byte> -> Text) returns (r: Result<(), Rejection>)
      modifies this
      ensures r == match ObjectBody(e.payload) case Ok(_) => Ok(()) case Err(why) => Err(why)
      ensures bytes == old(bytes) +
        if r.Ok? then RowBytes(FieldsOf(e, m, lossy), ObjectBody(e.payload).value) else []
      ensures Lists(FieldsOf(e, m, lossy), e, m, lossy)
    {
      FieldsAreListed(e, m, lossy);
      var body := ObjectBody(e.payload);
      if body.Err? {
        return Err(body.error);
      }
      if IsEmpty(m) {
        Extend([LBRACE]);
        Extend(body.value);
        Extend([RBRACE, NEWLINE]);
        RowAssembles(old(bytes), [], body.value);
        NothingToJoin(old(bytes), body.value);
        return Ok(());
      }
      Extend([LBRACE]);
      var first := WriteMetadata(e, m, lossy);
      if body.value != [] {
        Separate(first);
        Extend(body.value);
      }
      Extend([RBRACE, NEWLINE]);
      RowAssembles(old(bytes), FieldsOf(e, m, lossy), body.value);
      r := Ok(());
    }
  }

  lemma NothingToJoin(a: seq<Byte>, body: seq<Byte>)
    ensures a + [LBRACE] + Joined([]) == a + [LBRACE]
    ensures a + [LBRACE] + Joined([]) + [] == a + [LBRACE]
    ensures a + [LBRACE] + [] == a + [LBRACE]
  {
  }

  /** The order in which `WriteRow` appends the parts. */
  lemma RowAssembles(a: seq<Byte>, fs: seq<Field>, body: seq<Byte>)
    ensures a + RowBytes(fs, body) ==
      if body == [] then a + [LBRACE] + Joined(fs) + [RBRACE, NEWLINE]
      else a + [LBRACE] + Joined(fs) + (if fs == [] then [] else [COMMA]) + body + [RBRACE, NEWLINE]
  {
    var sep: seq<Byte> := if fs == [] then [] else [COMMA];
    Regroup(a, [LBRACE], Joined(fs), sep, body, [RBRACE, NEWLINE]);
    Regroup(a, [LBRACE], Joined(fs), [], [], [RBRACE, NEWLINE]);
  }

  lemma Regroup(a: seq<Byte>, b: seq<Byte>, c: seq<Byte>, d: seq<Byte>, e: seq<Byte>, f: seq<Byte>)
    ensures a + (b + c + (d + e) + f) == a + b + c + d + e + f
    ensures d == [] && e == [] ==> a + (b + c + [] + f) == a + b + c + f
  {
  }
}
