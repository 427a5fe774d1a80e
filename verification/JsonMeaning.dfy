/** What a spliced row means to a JSON reader, compared with what its payload meant. */
module JsonMeaning {
  import opened Events
  import opened Json
  import opened JsonRow
  import opened Sequences
  import opened Wrappers

  // ----- the tokens of the metadata

  function FieldTokens(f: Field): seq<Token> {
    [Scalar(Str(f.name)), Colon, Scalar(ValueOf(f.value))]
  }

  function JoinedTokens(fs: seq<Field>): seq<Token> {
    if fs == [] then []
    else FieldTokens(fs[0]) + (if |fs| == 1 then [] else [Comma] + JoinedTokens(fs[1..]))
  }

  lemma {:induction false} JoinedTokensPush(fs: seq<Field>, f: Field)
    ensures JoinedTokens(fs + [f]) == JoinedTokens(fs) + (if fs == [] then [] else [Comma]) + FieldTokens(f)
  {
    if fs == [] {
    } else {
      JoinedTokensPush(fs[1..], f);
      assert (fs + [f])[1..] == fs[1..] + [f];
      if |fs| == 1 {
        assert fs[1..] == [];
      }
    }
  }

  lemma LexQuoted(text: Text)
    ensures Lex(Quoted(text)) == Some([Scalar(Str(text))])
  {
    EscapingRoundTrip(text, []);
    assert Quoted(text) + [] == Quoted(text);
    LexWhole(Quoted(text), Scalar(Str(text)));
  }

  lemma LexNumber(t: seq<Byte>)
    requires t != [] && Matches(t, Signed) && forall i :: 0 <= i < |t| ==> IsNumberByte(t[i])
    ensures Lex(t) == Some([Scalar(Number(t))])
  {
    NumberWhole(t);
    LexWhole(t, Scalar(Number(t)));
  }

  lemma LexItoa(v: int)
    ensures Lex(Itoa(v)) == Some([Scalar(Number(Itoa(v)))])
  {
    ItoaRoundTrip(v);
    LexNumber(Itoa(v));
  }

  lemma LexFieldValue(v: FieldValue)
    ensures Lex(FieldValueBytes(v)) == Some([Scalar(ValueOf(v))])
  {
    match v {
      case TextValue(text) => LexQuoted(text);
      case IntegerValue(n) => LexItoa(n);
    }
  }

  lemma LexField(f: Field)
    ensures Lex(FieldBytes(f)) == Some(FieldTokens(f))
  {
    var name, value := Quoted(f.name), FieldValueBytes(f.value);
    LexQuoted(f.name);
    LexFieldValue(f.value);
    LexPair(name, Scalar(Str(f.name)), value, Scalar(ValueOf(f.value)));
  }

  lemma LexPair(name: seq<Byte>, n: Token, value: seq<Byte>, v: Token)
    requires Lex(name) == Some([n]) && Lex(value) == Some([v])
    ensures Lex(name + [COLON] + value) == Some([n, Colon, v])
  {
    LexPunctuation(COLON, value);
    LexConcat(name, [COLON] + value);
    Associative(name, [COLON], value);
    assert [n] + ([Colon] + [v]) == [n, Colon, v];
  }

  /** One more part behind a comma, or the first part. */
  lemma LexJoin(joined: seq<Byte>, ts: seq<Token>, more: bool, part: seq<Byte>, us: seq<Token>)
    requires Lex(joined) == Some(ts) && Lex(part) == Some(us) && (!more ==> joined == [] && ts == [])
    ensures Lex(joined + (if more then [COMMA] else []) + part) == Some(ts + (if more then [Comma] else []) + us)
  {
    if more {
      LexPunctuation(COMMA, part);
      LexConcat(joined, [COMMA] + part);
      Associative(joined, [COMMA], part);
      Associative(ts, [Comma], us);
    } else {
      assert joined + [] + part == part;
      assert ts + [] + us == us;
    }
  }

  lemma {:induction false} LexJoined(fs: seq<Field>)
    ensures Lex(Joined(fs)) == Some(JoinedTokens(fs))
  {
    if fs == [] {
    } else {
      var front, last := fs[..|fs| - 1], fs[|fs| - 1];
      LexJoined(front);
      LexField(last);
      LexJoin(Joined(front), JoinedTokens(front), front != [], FieldBytes(last), FieldTokens(last));
      JoinedTokensLast(fs);
    }
  }

  lemma JoinedTokensLast(fs: seq<Field>)
    requires fs != []
    ensures var front := fs[..|fs| - 1];
      JoinedTokens(fs) == JoinedTokens(front) + (if front != [] then [Comma] else []) + FieldTokens(fs[|fs| - 1])
  {
    JoinedTokensPush(fs[..|fs| - 1], fs[|fs| - 1]);
    assert fs[..|fs| - 1] + [fs[|fs| - 1]] == fs;
  }

  // ----- the tokens of a row

  lemma LexEnd(end: seq<Byte>)
    requires end == [RBRACE] || end == [RBRACE, NEWLINE]
    ensures Lex(end) == Some([RBrace])
  {
    LexPunctuation(RBRACE, end[1..]);
    assert end == [RBRACE] + end[1..];
    assert Lex(end[1..]) == Some([]) by {
      LexBlanks(end[1..]);
    }
    assert [RBrace] + [] == [RBrace];
  }

  lemma LexClosed(body: seq<Byte>, end: seq<Byte>)
    requires end == [RBRACE] || end == [RBRACE, NEWLINE]
    ensures Lex(body + end) == if Lex(body).None? then None else Some(Lex(body).value + [RBrace])
  {
    LexBeforeClosing(body, end);
    LexEnd(end);
  }

  lemma LexBraced(body: seq<Byte>)
    ensures Lex(Braced(body)) ==
      if Lex(body).None? then None else Some([LBrace] + Lex(body).value + [RBrace])
  {
    LexClosed(body, [RBRACE]);
    LexPunctuation(LBRACE, body + [RBRACE]);
    assert Braced(body) == [LBRACE] + (body + [RBRACE]);
    if Lex(body).Some? {
      assert [LBrace] + (Lex(body).value + [RBrace]) == [LBrace] + Lex(body).value + [RBrace];
    }
  }

  function RowTokens(fs: seq<Field>, ts: seq<Token>): seq<Token> {
    [LBrace] + (JoinedTokens(fs) + ((if ts == [] || fs == [] then [] else [Comma]) + (ts + [RBrace])))
  }

  lemma LexSeparated(sep: bool, body: seq<Byte>)
    ensures Lex((if sep then [COMMA] else []) + (body + [RBRACE, NEWLINE])) ==
      if Lex(body).None? then None
      else Some((if sep then [Comma] else []) + (Lex(body).value + [RBrace]))
  {
    var rest := body + [RBRACE, NEWLINE];
    LexClosed(body, [RBRACE, NEWLINE]);
    if sep {
      LexPunctuation(COMMA, rest);
    } else {
      assert [] + rest == rest;
      if Lex(body).Some? {
        assert [] + (Lex(body).value + [RBrace]) == Lex(body).value + [RBrace];
      }
    }
  }

  lemma LexAfterJoined(fs: seq<Field>, rest: seq<Byte>)
    requires fs != [] ==> Delimited(rest, 0)
    ensures Lex([LBRACE] + (Joined(fs) + rest)) == Append([LBrace], Append(JoinedTokens(fs), Lex(rest)))
  {
    LexPunctuation(LBRACE, Joined(fs) + rest);
    LexJoined(fs);
    if fs == [] {
      assert Joined(fs) + rest == rest;
      assert Lex(rest).Some? ==> JoinedTokens(fs) + Lex(rest).value == Lex(rest).value;
    } else {
      LexConcat(Joined(fs), rest);
    }
  }

  /** A trimmed body has no tokens only if it is empty. */
  lemma LexTrimmed(body: seq<Byte>)
    requires IsTrimmed(body) && Lex(body).Some?
    ensures Lex(body).value == [] <==> body == []
  {
  }

  lemma LexRow(fs: seq<Field>, body: seq<Byte>)
    requires IsTrimmed(body)
    ensures Lex(RowBytes(fs, body)) == if Lex(body).None? then None else Some(RowTokens(fs, Lex(body).value))
  {
    var sep := body != [] && fs != [];
    var rest := (if sep then [COMMA] else []) + (body + [RBRACE, NEWLINE]);
    RowRegroups(fs, body, rest);
    LexSeparated(sep, body);
    assert fs != [] ==> Delimited(rest, 0) by {
      if fs != [] {
        assert rest[0] == if sep then COMMA else RBRACE;
      }
    }
    LexAfterJoined(fs, rest);
    if Lex(body).Some? {
      LexTrimmed(body);
    }
  }

  lemma RowRegroups(fs: seq<Field>, body: seq<Byte>, rest: seq<Byte>)
    requires rest == (if body != [] && fs != [] then [COMMA] else []) + (body + [RBRACE, NEWLINE])
    ensures RowBytes(fs, body) == [LBRACE] + (Joined(fs) + rest)
  {
    var sep: seq<Byte> := if body != [] && fs != [] then [COMMA] else [];
    assert sep + (body + [RBRACE, NEWLINE]) == sep + body + [RBRACE, NEWLINE];
    assert body == [] ==> sep + body == [];
  }

  // ----- reading the metadata back

  lemma {:induction false} ReadMetadata(fs: seq<Field>, more: seq<Token>)
    requires fs != []
    ensures ReadMembers(JoinedTokens(fs) + ([RBrace] + more)) == Got(MembersOf(fs), more)
    ensures ReadMembers(JoinedTokens(fs) + ([Comma] + more)) == Prepend(MembersOf(fs), ReadMembers(more))
  {
    if |fs| == 1 {
      assert MembersOf(fs[1..]) == [] && JoinedTokens(fs) == FieldTokens(fs[0]);
      assert MembersOf(fs) == [Member(fs[0].name, ValueOf(fs[0].value))];
      ReadOne(fs[0], RBrace, more);
      ReadOne(fs[0], Comma, more);
    } else {
      ReadMetadata(fs[1..], more);
      ReadFirst(fs, RBrace, more);
      ReadFirst(fs, Comma, more);
      PrependPrepend(MembersOf(fs)[..1], MembersOf(fs[1..]), ReadMembers(more));
    }
  }

  /** Further members in front of what is read next. */
  function Prepend(ms: seq<Member>, r: Read<seq<Member>>): Read<seq<Member>> {
    if r.Stuck? then Stuck else Got(ms + r.value, r.rest)
  }

  lemma PrependPrepend(a: seq<Member>, b: seq<Member>, r: Read<seq<Member>>)
    ensures Prepend(a, Prepend(b, r)) == Prepend(a + b, r)
  {
    if r.Got? {
      assert a + (b + r.value) == a + b + r.value;
    }
  }

  lemma ReadFirst(fs: seq<Field>, t: Token, more: seq<Token>)
    requires |fs| >= 2 && (t.RBrace? || t.Comma?)
    ensures ReadMembers(JoinedTokens(fs) + ([t] + more)) ==
      Prepend(MembersOf(fs)[..1], ReadMembers(JoinedTokens(fs[1..]) + ([t] + more)))
  {
    var later, end := JoinedTokens(fs[1..]), [t] + more;
    ReadOne(fs[0], Comma, later + end);
    Associative(FieldTokens(fs[0]), [Comma] + later, end);
    Associative([Comma], later, end);
    assert MembersOf(fs)[..1] == [Member(fs[0].name, ValueOf(fs[0].value))];
  }

  lemma ReadOne(f: Field, t: Token, more: seq<Token>)
    requires t.RBrace? || t.Comma?
    ensures var m := Member(f.name, ValueOf(f.value));
      ReadMembers(FieldTokens(f) + ([t] + more)) ==
        if t.RBrace? then Got([m], more) else Prepend([m], ReadMembers(more))
  {
    var ts := FieldTokens(f) + ([t] + more);
    assert ts[0] == Scalar(Str(f.name)) && ts[1] == Colon;
    assert ts[2..] == [Scalar(ValueOf(f.value))] + ([t] + more);
    assert ts[2..][1..] == [t] + more;
    assert ReadValue(ts[2..]) == Got(ValueOf(f.value), [t] + more);
    assert ([t] + more)[1..] == more;
  }

  lemma {:induction false} MembersOfAt(fs: seq<Field>, i: nat)
    requires i < |fs|
    ensures MembersOf(fs)[i] == Member(fs[i].name, ValueOf(fs[i].value))
  {
    if i == 0 {
    } else {
      MembersOfAt(fs[1..], i - 1);
    }
  }

  /** The member has the name and is the number. */
  ghost predicate IsNumber(x: Member, name: Text, v: int) {
    x.name == name && x.value.Number? && ReadInteger(x.value.lexeme) == v
  }

  /** The members a reader sees: those of the configured columns, in order, with the event's own values. */
  ghost predicate Shows(ms: seq<Member>, e: Event, m: MetadataColumns, lossy: seq<Byte> -> Text) {
    var partition := One(m.topic);
    var offset := partition + One(m.partition);
    var timestamp := offset + One(m.offset);
    var key := timestamp + One(m.timestamp);
    var time := match e.timestampMs case Some(t) => t case None => 0;
    var text := lossy(match e.key case Some(k) => k case None => []);
    && |ms| == Columns(m)
    && (m.topic.Some? ==> ms[0] == Member(m.topic.value, Str(e.tp.topic)))
    && (m.partition.Some? ==> IsNumber(ms[partition], m.partition.value, e.tp.partition))
    && (m.offset.Some? ==> IsNumber(ms[offset], m.offset.value, e.offset))
    && (m.timestamp.Some? ==> IsNumber(ms[timestamp], m.timestamp.value, time))
    && (m.key.Some? ==> ms[key] == Member(m.key.value, Str(text)))
  }

  lemma ListsShow(fs: seq<Field>, e: Event, m: MetadataColumns, lossy: seq<Byte> -> Text)
    requires Lists(fs, e, m, lossy)
    ensures Shows(MembersOf(fs), e, m, lossy)
  {
    forall i | 0 <= i < |fs| ensures MembersOf(fs)[i] == Member(fs[i].name, ValueOf(fs[i].value)) {
      MembersOfAt(fs, i);
    }
    forall v: int ensures ReadInteger(Itoa(v)) == v {
      ItoaRoundTrip(v);
    }
  }

  /** The members a spliced row should have, given those of the payload's own object. */
  function Spliced(fs: seq<Field>, payload: Option<seq<Member>>): Option<seq<Member>> {
    if payload.None? then None else Some(MembersOf(fs) + payload.value)
  }

  lemma ReadRow(fs: seq<Field>, ts: seq<Token>)
    ensures ReadText(RowTokens(fs, ts)) == Spliced(fs, ReadText([LBrace] + ts + [RBrace]))
  {
    var inner, row := ts + [RBrace], RowTokens(fs, ts);
    assert [LBrace] + ts + [RBrace] == [LBrace] + inner;
    assert ([LBrace] + inner)[1..] == inner;
    if fs == [] {
      assert row[1..] == inner;
      assert ReadText([LBrace] + inner).Some? ==>
        MembersOf([]) + ReadText([LBrace] + inner).value == ReadText([LBrace] + inner).value;
    } else if ts == [] {
      assert row[1..] == JoinedTokens(fs) + ([RBrace] + []);
      ReadMetadata(fs, []);
      assert inner[1..] == [];
      assert MembersOf(fs) + [] == MembersOf(fs);
    } else {
      assert row[1..] == JoinedTokens(fs) + ([Comma] + inner);
      ReadMetadata(fs, inner);
      assert inner[0] == ts[0];
    }
  }

  /**
   * For every set of metadata fields and every body: the row is a valid object exactly when the
   * braced body is one, and then its members are the metadata in order followed by the body's own.
   */
  lemma RowMeaning(fs: seq<Field>, body: seq<Byte>)
    requires IsTrimmed(body)
    ensures ParseObject(RowBytes(fs, body)) == Spliced(fs, ParseObject(Braced(body)))
  {
    LexRow(fs, body);
    LexBraced(body);
    if Lex(body).Some? {
      ReadRow(fs, Lex(body).value);
    }
  }

  // ----- from the payload to its body

  /** What trimming removes around `s`. */
  ghost predicate CleanEnds(s: seq<Byte>) {
    && (forall x :: 0 <= x < Start(s) ==> IsWs(s[x]))
    && (forall x :: End(s) <= x < |s| ==> IsWs(s[x]))
  }

  /** Nothing but JSON whitespace was trimmed, outside or inside the braces: no form feed. */
  ghost predicate CleanMargins(payload: seq<Byte>) {
    var trimmed := TrimAscii(payload);
    CleanEnds(payload) && (|trimmed| >= 2 ==> CleanEnds(trimmed[1..|trimmed| - 1]))
  }

  lemma LexBlanks(y: seq<Byte>)
    requires forall i :: 0 <= i < |y| ==> IsBlank(y[i])
    ensures Lex(y) == if forall i :: 0 <= i < |y| ==> IsWs(y[i]) then Some([]) else None
  {
    LexBlank(y, []);
    assert y + [] == y;
  }

  lemma LexMargins(l: seq<Byte>, t: seq<Byte>, r: seq<Byte>, y: seq<Byte>)
    requires IsClosing(y)
    requires (forall i :: 0 <= i < |l| ==> IsBlank(l[i])) && (forall i :: 0 <= i < |r| ==> IsBlank(r[i]))
    ensures Lex(l + (t + (r + y))) ==
      if (forall i :: 0 <= i < |l| ==> IsWs(l[i])) && (forall i :: 0 <= i < |r| ==> IsWs(r[i]))
      then Lex(t + y) else None
  {
    LexBlank(l, t + (r + y));
    LexBeforeClosing(t, r + y);
    LexBeforeClosing(t, y);
    LexBlank(r, y);
  }

  lemma LexTrimBlank(s: seq<Byte>, y: seq<Byte>)
    requires Start(s) == |s|
    ensures Lex(s + y) == if CleanEnds(s) then Lex(TrimAscii(s) + y) else None
  {
    LexBlank(s, y);
    assert TrimAscii(s) + y == y;
  }

  /** Trimming changes no token, unless it removes something that is no whitespace to JSON. */
  lemma LexTrim(s: seq<Byte>, y: seq<Byte>)
    requires IsClosing(y)
    ensures Lex(s + y) == if CleanEnds(s) then Lex(TrimAscii(s) + y) else None
  {
    StartBeforeEnd(s);
    if Start(s) == |s| {
      LexTrimBlank(s, y);
    } else {
      var l, t, r := s[..Start(s)], TrimAscii(s), s[End(s)..];
      BlanksAreClean(s, l, r);
      LexMargins(l, t, r, y);
      ThreeParts(s, Start(s), End(s), y);
    }
  }

  lemma ThreeParts(s: seq<Byte>, i: nat, j: nat, y: seq<Byte>)
    requires i <= j <= |s|
    ensures s + y == s[..i] + (s[i..j] + (s[j..] + y))
  {
  }

  lemma BlanksAreClean(s: seq<Byte>, l: seq<Byte>, r: seq<Byte>)
    requires l == s[..Start(s)] && r == s[End(s)..]
    ensures forall i :: 0 <= i < |l| ==> IsBlank(l[i])
    ensures forall i :: 0 <= i < |r| ==> IsBlank(r[i])
    ensures CleanEnds(s) <==> (forall i :: 0 <= i < |l| ==> IsWs(l[i])) && (forall i :: 0 <= i < |r| ==> IsWs(r[i]))
  {
    assert forall i :: 0 <= i < |l| ==> l[i] == s[i];
    assert forall i :: 0 <= i < |r| ==> r[i] == s[End(s) + i];
    assert forall x :: End(s) <= x < |s| ==> s[x] == r[x - End(s)];
  }

  /**
   * Exactly when the payload and its braced body mean the same: always, except that a form feed
   * in the trimmed margins makes the payload invalid JSON while the body may still be valid.
   */
  lemma PayloadMeaning(payload: seq<Byte>)
    requires ObjectBody(payload).Ok?
    ensures IsTrimmed(ObjectBody(payload).value)
    ensures ParseObject(payload) ==
      if CleanMargins(payload) then ParseObject(Braced(ObjectBody(payload).value)) else None
  {
    var trimmed := TrimAscii(payload);
    TrimAsciiTrims(trimmed[1..|trimmed| - 1]);
    LexPayload(payload);
  }

  lemma LexPayload(payload: seq<Byte>)
    requires ObjectBody(payload).Ok?
    ensures Lex(payload) == if CleanMargins(payload) then Lex(Braced(ObjectBody(payload).value)) else None
  {
    var trimmed := TrimAscii(payload);
    var inner := trimmed[1..|trimmed| - 1];
    LexOuter(payload);
    BracesAround(trimmed);
    LexInner(inner);
  }

  lemma LexOuter(payload: seq<Byte>)
    ensures Lex(payload) == if CleanEnds(payload) then Lex(TrimAscii(payload)) else None
  {
    LexTrim(payload, []);
    assert payload + [] == payload && TrimAscii(payload) + [] == TrimAscii(payload);
  }

  lemma BracesAround(s: seq<Byte>)
    requires |s| >= 2 && s[0] == LBRACE && s[|s| - 1] == RBRACE
    ensures s == Braced(s[1..|s| - 1])
  {
  }

  lemma LexInner(inner: seq<Byte>)
    ensures Lex(Braced(inner)) == if CleanEnds(inner) then Lex(Braced(TrimAscii(inner))) else None
  {
    var body := TrimAscii(inner);
    LexTrim(inner, [RBRACE]);
    LexPunctuation(LBRACE, inner + [RBRACE]);
    LexPunctuation(LBRACE, body + [RBRACE]);
    assert Braced(inner) == [LBRACE] + (inner + [RBRACE]);
    assert Braced(body) == [LBRACE] + (body + [RBRACE]);
  }

  // ----- every valid object is accepted

  lemma Token1First(s: seq<Byte>)
    requires s != [] && Token1(s).At?
    ensures Token1(s).value.LBrace? ==> s[0] == LBRACE
    ensures Token1(s).value.RBrace? ==> s[0] == RBRACE && Token1(s).next == 1
  {
  }

  lemma {:induction false} LexLast(s: seq<Byte>)
    requires s != [] && !IsBlank(s[|s| - 1]) && Lex(s).Some?
    ensures Lex(s).value != []
    ensures Lex(s).value[|Lex(s).value| - 1].RBrace? ==> s[|s| - 1] == RBRACE
    decreases |s|
  {
    if IsWs(s[0]) {
      LexLast(s[1..]);
    } else {
      var n := Token1(s).next;
      Token1First(s);
      if n < |s| {
        LexLast(s[n..]);
      }
    }
  }

  /** Whatever is read as an object ends with its closing brace. */
  lemma {:induction false} MembersEnd(ts: seq<Token>)
    requires ReadMembers(ts).Got? && ReadMembers(ts).rest == []
    ensures ts[|ts| - 1].RBrace?
    decreases |ts|
  {
    var v := ReadValue(ts[2..]);
    ReadValueSuffix(ts[2..]);
    if v.rest[0].RBrace? {
      assert |v.rest| == 1;
    } else {
      MembersEnd(v.rest[1..]);
    }
    assert ts[2..][|ts[2..]| - 1] == v.rest[|v.rest| - 1];
  }

  ghost predicate IsSuffix(rest: seq<Token>, ts: seq<Token>) {
    |rest| <= |ts| && ts[|ts| - |rest|..] == rest
  }

  lemma SuffixTrans(a: seq<Token>, b: seq<Token>, c: seq<Token>)
    requires IsSuffix(a, b) && IsSuffix(b, c)
    ensures IsSuffix(a, c)
  {
    assert c[|c| - |a|..] == c[|c| - |b|..][|b| - |a|..];
  }

  lemma {:induction false} ReadValueSuffix(ts: seq<Token>)
    requires ReadValue(ts).Got?
    ensures IsSuffix(ReadValue(ts).rest, ts)
    decreases |ts|, 0
  {
    assert IsSuffix(ts[1..], ts);
    if ts[0].LBrace? {
      ReadObjectSuffix(ts[1..]);
      SuffixTrans(ReadObject(ts[1..]).rest, ts[1..], ts);
    } else if ts[0].LBracket? {
      ReadArraySuffix(ts[1..]);
      SuffixTrans(ReadArray(ts[1..]).rest, ts[1..], ts);
    }
  }

  lemma {:induction false} ReadObjectSuffix(ts: seq<Token>)
    requires ReadObject(ts).Got?
    ensures IsSuffix(ReadObject(ts).rest, ts)
    decreases |ts|, 2
  {
    if !ts[0].RBrace? {
      ReadMembersSuffix(ts);
    }
  }

  lemma {:induction false} ReadArraySuffix(ts: seq<Token>)
    requires ReadArray(ts).Got?
    ensures IsSuffix(ReadArray(ts).rest, ts)
    decreases |ts|, 2
  {
    if !ts[0].RBracket? {
      ReadItemsSuffix(ts);
    }
  }

  lemma {:induction false} ReadMembersSuffix(ts: seq<Token>)
    requires ReadMembers(ts).Got?
    ensures IsSuffix(ReadMembers(ts).rest, ts)
    decreases |ts|, 1
  {
    var v := ReadValue(ts[2..]);
    ReadValueSuffix(ts[2..]);
    SuffixTrans(v.rest, ts[2..], ts);
    SuffixTrans(v.rest[1..], v.rest, ts);
    if v.rest[0].Comma? {
      ReadMembersSuffix(v.rest[1..]);
      SuffixTrans(ReadMembers(ts).rest, v.rest[1..], ts);
    }
  }

  lemma {:induction false} ReadItemsSuffix(ts: seq<Token>)
    requires ReadItems(ts).Got?
    ensures IsSuffix(ReadItems(ts).rest, ts)
    decreases |ts|, 1
  {
    var v := ReadValue(ts);
    ReadValueSuffix(ts);
    SuffixTrans(v.rest[1..], v.rest, ts);
    if v.rest[0].Comma? {
      ReadItemsSuffix(v.rest[1..]);
      SuffixTrans(ReadItems(ts).rest, v.rest[1..], ts);
    }
  }

  /** The cheap check at both ends never turns a valid object away. */
  lemma ValidIsAccepted(payload: seq<Byte>)
    requires ParseObject(payload).Some?
    ensures ObjectBody(payload).Ok?
  {
    var trimmed := TrimAscii(payload);
    TrimAsciiTrims(payload);
    LexTrim(payload, []);
    assert payload + [] == payload && trimmed + [] == trimmed;
    var ts := Lex(trimmed).value;
    assert trimmed != [];
    Token1First(trimmed);
    LexLast(trimmed);
    if ts[1] != RBrace {
      MembersEnd(ts[1..]);
    }
    assert ts[1..][|ts| - 2] == ts[|ts| - 1];
  }

  /**
   * Splicing preserves meaning: for every payload that is a JSON object and every choice of
   * metadata fields, the row is accepted and is an object whose members are the metadata in
   * order followed by the payload's own members.
   */
  lemma SplicePreservesMeaning(payload: seq<Byte>, fs: seq<Field>)
    requires ParseObject(payload).Some?
    ensures ObjectBody(payload).Ok?
    ensures ParseObject(RowBytes(fs, ObjectBody(payload).value)) == Some(MembersOf(fs) + ParseObject(payload).value)
  {
    ValidIsAccepted(payload);
    PayloadMeaning(payload);
    RowMeaning(fs, ObjectBody(payload).value);
  }

  /**
   * The other way round fails: a payload with a form feed inside its braces is no JSON, yet its
   * row is. A row is valid exactly when the braced body is; `PayloadMeaning` says when that and
   * the payload's own validity differ.
   */
  lemma FormFeedIsRepaired()
    ensures var payload: seq<Byte> := [LBRACE, 0x0C, RBRACE];
      && ParseObject(payload).None?
      && ObjectBody(payload) == Ok([])
      && ParseObject(RowBytes([], [])) == Some([])
  {
    var payload: seq<Byte> := [LBRACE, 0x0C, RBRACE];
    assert payload == [LBRACE] + ([0x0C] + [RBRACE]);
    LexPunctuation(LBRACE, [0x0C] + [RBRACE]);
    FormFeedIsNoToken([0x0C] + [RBRACE]);
    FormFeedBody(payload);
    RowMeaning([], []);
    EmptyObject();
    assert MembersOf([]) + [] == [];
  }

  lemma FormFeedBody(payload: seq<Byte>)
    requires payload == [LBRACE, 0x0C, RBRACE]
    ensures ObjectBody(payload) == Ok([])
  {
    TrimKeeps(payload);
    assert payload[1..2] == [0x0C];
    assert Start([0x0C]) == 1;
  }

  lemma EmptyObject()
    ensures ParseObject(Braced([])) == Some([])
  {
    LexBraced([]);
    assert [LBrace] + [] + [RBrace] == [LBrace, RBrace];
    assert [LBrace, RBrace][1..] == [RBrace] && [RBrace][1..] == [];
  }

  // ----- which payloads are accepted, and with what body

  /** What Rust's `is_ascii_whitespace` accepts. */
  predicate IsAsciiWhitespace(b: Byte) { b == 0x20 || b == 0x09 || b == 0x0A || b == 0x0C || b == 0x0D }

  ghost predicate AllBlank(s: seq<Byte>) {
    forall i :: 0 <= i < |s| ==> IsAsciiWhitespace(s[i])
  }

  /** The payload is the body in braces, with nothing but ASCII whitespace around and inside them. */
  ghost predicate Frames(payload: seq<Byte>, l: seq<Byte>, a: seq<Byte>, body: seq<Byte>, b: seq<Byte>, r: seq<Byte>) {
    && AllBlank(l) && AllBlank(a) && AllBlank(b) && AllBlank(r)
    && payload == l + ([LBRACE] + (a + body + b) + [RBRACE]) + r
    && (body != [] ==> !IsAsciiWhitespace(body[0]) && !IsAsciiWhitespace(body[|body| - 1]))
  }

  /** What stands between the blanks is what trimming leaves. */
  lemma TrimBetween(l: seq<Byte>, x: seq<Byte>, r: seq<Byte>)
    requires AllBlank(l) && AllBlank(r) && IsTrimmed(x)
    ensures TrimAscii(l + x + r) == x
  {
    var s := l + x + r;
    StartBeforeEnd(s);
    if x == [] {
      assert forall i :: 0 <= i < |s| ==> IsBlank(s[i]);
    } else {
      assert s[|l|] == x[0] && s[|l| + |x| - 1] == x[|x| - 1];
      assert Start(s) == |l| && End(s) == |l| + |x|;
      assert s[|l|..|l| + |x|] == x;
    }
  }

  lemma TrimSplits(s: seq<Byte>) returns (l: seq<Byte>, r: seq<Byte>)
    ensures AllBlank(l) && AllBlank(r) && s == l + TrimAscii(s) + r
  {
    StartBeforeEnd(s);
    if Start(s) == |s| {
      l, r := s, [];
      assert s + [] + [] == s;
    } else {
      l, r := s[..Start(s)], s[End(s)..];
      CutTwice(s, Start(s), End(s));
    }
  }

  lemma CutTwice(s: seq<Byte>, i: nat, j: nat)
    requires i <= j <= |s|
    ensures s == s[..i] + s[i..j] + s[j..]
  {
  }

  /** A framed body is accepted, and exactly it is found. */
  lemma FramedIsFound(payload: seq<Byte>, l: seq<Byte>, a: seq<Byte>, body: seq<Byte>, b: seq<Byte>, r: seq<Byte>)
    requires Frames(payload, l, a, body, b, r)
    ensures ObjectBody(payload) == Ok(body)
  {
    var inner := a + body + b;
    TrimBetween(l, [LBRACE] + inner + [RBRACE], r);
    TrimBetween(a, body, b);
    var trimmed := [LBRACE] + inner + [RBRACE];
    assert trimmed[1..|trimmed| - 1] == inner;
  }

  /** Whatever is accepted is framed. */
  lemma FoundIsFramed(payload: seq<Byte>)
    requires ObjectBody(payload).Ok?
    ensures exists l, a, b, r :: Frames(payload, l, a, ObjectBody(payload).value, b, r)
  {
    var trimmed := TrimAscii(payload);
    var l, r := TrimSplits(payload);
    TrimmedIsFramed(payload, l, trimmed, r, ObjectBody(payload).value);
  }

  lemma TrimmedIsFramed(payload: seq<Byte>, l: seq<Byte>, x: seq<Byte>, r: seq<Byte>, body: seq<Byte>)
    requires AllBlank(l) && AllBlank(r) && payload == l + x + r
    requires |x| >= 2 && x[0] == LBRACE && x[|x| - 1] == RBRACE && body == TrimAscii(x[1..|x| - 1])
    ensures exists l, a, b, r :: Frames(payload, l, a, body, b, r)
  {
    var inner := x[1..|x| - 1];
    var a, b := TrimSplits(inner);
    TrimAsciiTrims(inner);
    BracesAround(x);
    assert Frames(payload, l, a, body, b, r);
  }

  /**
   * Every payload falls into one of three cases: blank and refused as empty, in braces and accepted
   * with the body between them, or refused as no object.
   */
  lemma ObjectBodyCases(payload: seq<Byte>)
    ensures ObjectBody(payload) == Err(EmptyPayload) <==> AllBlank(payload)
    ensures ObjectBody(payload).Ok? <==> exists l, a, body, b, r :: Frames(payload, l, a, body, b, r)
    ensures forall l, a, body, b, r :: Frames(payload, l, a, body, b, r) ==> ObjectBody(payload) == Ok(body)
    ensures ObjectBody(payload) == Err(NotAnObject) <==>
      !AllBlank(payload) && !exists l, a, body, b, r :: Frames(payload, l, a, body, b, r)
  {
    forall l, a, body, b, r | Frames(payload, l, a, body, b, r) ensures ObjectBody(payload) == Ok(body) {
      FramedIsFound(payload, l, a, body, b, r);
    }
    if ObjectBody(payload).Ok? {
      FoundIsFramed(payload);
    }
    BlankIsEmpty(payload);
  }

  lemma BlankIsEmpty(payload: seq<Byte>)
    ensures TrimAscii(payload) == [] <==> AllBlank(payload)
  {
    StartBeforeEnd(payload);
  }

  // ----- one row, one line

  function Newlines(s: seq<Byte>): nat { multiset(s)[NEWLINE] }

  lemma NoNewline(s: seq<Byte>)
    requires forall i :: 0 <= i < |s| ==> s[i] >= 0x20
    ensures Newlines(s) == 0
  {
    assert NEWLINE !in s;
  }

  lemma {:induction false} JoinedPrintable(fs: seq<Field>)
    ensures forall i :: 0 <= i < |Joined(fs)| ==> Joined(fs)[i] >= 0x20
  {
    if fs == [] {
    } else {
      JoinedPrintable(fs[..|fs| - 1]);
      FieldPrintable(fs[|fs| - 1]);
    }
  }

  /**
   * The metadata adds no line break: a row has one more newline than its body. So a row is a
   * single line if and only if the body holds no raw newline.
   */
  lemma RowNewlines(fs: seq<Field>, body: seq<Byte>)
    ensures Newlines(RowBytes(fs, body)) == 1 + Newlines(body)
  {
    JoinedPrintable(fs);
    NoNewline(Joined(fs));
    NoNewline([LBRACE]);
    NoNewline([COMMA]);
    assert Newlines([RBRACE, NEWLINE]) == 1;
  }

  lemma BracedBody(body: seq<Byte>)
    requires body != [] && IsTrimmed(body)
    ensures ObjectBody(Braced(body)) == Ok(body)
  {
    TrimKeeps(Braced(body));
    TrimKeeps(body);
    assert Braced(body)[1..|Braced(body)| - 1] == body;
  }

  lemma TrimKeeps(s: seq<Byte>)
    requires s != [] && IsTrimmed(s)
    ensures TrimAscii(s) == s
  {
    assert s[0..|s|] == s;
  }

  /** The doc comment's "one line" fails for a payload with a line break between two tokens. */
  lemma TwoLineRow()
    ensures var payload: seq<Byte> := [LBRACE, QUOTE, QUOTE, COLON, NEWLINE, 0x30, RBRACE];
      && ObjectBody(payload).Ok?
      && Newlines(RowBytes([], ObjectBody(payload).value)) == 2
  {
    var payload: seq<Byte> := [LBRACE, QUOTE, QUOTE, COLON, NEWLINE, 0x30, RBRACE];
    var body: seq<Byte> := [QUOTE, QUOTE, COLON, NEWLINE, 0x30];
    assert payload == Braced(body);
    BracedBody(body);
    RowNewlines([], body);
    assert Newlines(body) == 1;
  }
}
