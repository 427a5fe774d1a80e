/**
 * JSON texts as RFC 8259 defines them: bytes are cut into tokens (sections 2, 3, 6 and 7), and
 * tokens are read as values, objects and arrays (sections 3, 4 and 5). This is the reader's
 * side: it says what an emitted row means.
 */
module Json {
  import opened Events
  import Utf8
  import opened Wrappers

  /**
   * A JSON value. Text is a sequence of code points; an escaped surrogate stays a unit of its
   * own. A number keeps its lexeme.
   */
  datatype Value =
    | Null
    | Bool(b: bool)
    | Number(lexeme: seq<Byte>)
    | Str(text: seq<int>)
    | Array(items: seq<Value>)
    | Object(members: seq<Member>)

  datatype Member = Member(name: seq<int>, value: Value)

  /** A structural character, or a string, number, true, false or null. */
  datatype Token = LBrace | RBrace | LBracket | RBracket | Comma | Colon | Scalar(value: Value)

  /** Something read from bytes, and the index after it. */
  datatype Parsed<+T> = Fail | At(value: T, next: nat)

  const QUOTE: Byte := 0x22
  const BACKSLASH: Byte := 0x5C
  const COMMA: Byte := 0x2C
  const COLON: Byte := 0x3A
  const LBRACE: Byte := 0x7B
  const RBRACE: Byte := 0x7D
  const LBRACKET: Byte := 0x5B
  const RBRACKET: Byte := 0x5D
  const NEWLINE: Byte := 0x0A

  /** Section 2: space, tab, line feed and carriage return. */
  predicate IsWs(b: Byte) { b == 0x20 || b == 0x09 || b == 0x0A || b == 0x0D }

  /** ASCII whitespace: the same with the form feed, which JSON does not allow between tokens. */
  predicate IsBlank(b: Byte) { IsWs(b) || b == 0x0C }

  // ----- section 7: strings

  predicate IsHex(b: Byte) { 0x30 <= b <= 0x39 || 0x41 <= b <= 0x46 || 0x61 <= b <= 0x66 }

  function HexValue(b: Byte): int
    requires IsHex(b)
  {
    if b <= 0x39 then b as int - 0x30 else if b <= 0x46 then b as int - 0x37 else b as int - 0x57
  }

  function SimpleEscape(b: Byte): Option<int> {
    if b == QUOTE || b == BACKSLASH || b == 0x2F then Some(b as int)
    else if b == 0x62 then Some(0x08)
    else if b == 0x66 then Some(0x0C)
    else if b == 0x6E then Some(0x0A)
    else if b == 0x72 then Some(0x0D)
    else if b == 0x74 then Some(0x09)
    else None
  }

  /** One character of a string: an escape, or an unescaped character in UTF-8. */
  function Unit(s: seq<Byte>, i: nat): (r: Parsed<int>)
    requires i < |s|
    ensures r.At? ==> i < r.next <= |s|
  {
    if s[i] == BACKSLASH then
      if i + 1 >= |s| then Fail
      else if s[i + 1] == 0x75 then
        if i + 6 <= |s| && IsHex(s[i + 2]) && IsHex(s[i + 3]) && IsHex(s[i + 4]) && IsHex(s[i + 5]) then
          At(HexValue(s[i + 2]) * 4096 + HexValue(s[i + 3]) * 256 + HexValue(s[i + 4]) * 16 + HexValue(s[i + 5]), i + 6)
        else Fail
      else if SimpleEscape(s[i + 1]).Some? then At(SimpleEscape(s[i + 1]).value, i + 2)
      else Fail
    else if s[i] < 0x20 then Fail
    else
      match Utf8.DecodeAt(s, i)
      case Some(d) => At(d.scalar as int, d.next)
      case None => Fail
  }

  /** The characters up to and including the closing quotation mark. */
  function Chars(s: seq<Byte>, i: nat): (r: Parsed<seq<int>>)
    requires i <= |s|
    ensures r.At? ==> i < r.next <= |s| && s[r.next - 1] == QUOTE
    decreases |s| - i
  {
    if i == |s| then Fail
    else if s[i] == QUOTE then At([], i + 1)
    else
      var u := Unit(s, i);
      if u.Fail? then Fail
      else
        var rest := Chars(s, u.next);
        if rest.Fail? then Fail else At([u.value] + rest.value, rest.next)
  }

  // ----- section 6: numbers

  predicate IsDigit(b: Byte) { 0x30 <= b <= 0x39 }

  /** The bytes a number can consist of: digits, signs, the point and the exponent mark. */
  predicate IsNumberByte(b: Byte) {
    IsDigit(b) || b == 0x2B || b == 0x2D || b == 0x2E || b == 0x45 || b == 0x65
  }

  function NumberEnd(s: seq<Byte>, i: nat): (j: nat)
    requires i <= |s|
    ensures i <= j <= |s|
    ensures i < j ==> IsNumberByte(s[j - 1])
    decreases |s| - i
  {
    if i < |s| && IsNumberByte(s[i]) then NumberEnd(s, i + 1) else i
  }

  lemma {:induction false} NumberEndIs(s: seq<Byte>, i: nat)
    requires i <= |s|
    ensures forall x :: i <= x < NumberEnd(s, i) ==> IsNumberByte(s[x])
    ensures NumberEnd(s, i) < |s| ==> !IsNumberByte(s[NumberEnd(s, i)])
    decreases |s| - i
  {
    if i < |s| && IsNumberByte(s[i]) {
      NumberEndIs(s, i + 1);
    }
  }

  lemma {:induction false} NumberEndStops(s: seq<Byte>, i: nat, j: nat)
    requires i <= j <= |s| && (forall x :: i <= x < j ==> IsNumberByte(s[x])) && (j < |s| ==> !IsNumberByte(s[j]))
    ensures NumberEnd(s, i) == j
    decreases j - i
  {
    if i < j {
      NumberEndStops(s, i + 1, j);
    }
  }

  /** How many digits `t` starts with. */
  function Digits(t: seq<Byte>): (n: nat)
    ensures n <= |t|
  {
    if t != [] && IsDigit(t[0]) then 1 + Digits(t[1..]) else 0
  }

  /** The rules a number is made of, each the tail of the one before. */
  datatype Rule = Signed | Unsigned | Fraction | Exponent

  function Rank(r: Rule): nat {
    match r case Signed => 3 case Unsigned => 2 case Fraction => 1 case Exponent => 0
  }

  /** `number = [ minus ] int [ frac ] [ exp ]`, with no leading zeros. */
  predicate Matches(t: seq<Byte>, rule: Rule)
    decreases Rank(rule)
  {
    match rule
    case Signed => Matches(if t != [] && t[0] == 0x2D then t[1..] else t, Unsigned)
    case Unsigned =>
      Digits(t) > 0 && (t[0] == 0x30 ==> Digits(t) == 1) && Matches(t[Digits(t)..], Fraction)
    case Fraction =>
      if t != [] && t[0] == 0x2E then Digits(t[1..]) > 0 && Matches(t[1 + Digits(t[1..])..], Exponent)
      else Matches(t, Exponent)
    case Exponent =>
      t == [] ||
      ((t[0] == 0x45 || t[0] == 0x65) &&
       var d := if |t| > 1 && (t[1] == 0x2B || t[1] == 0x2D) then t[2..] else t[1..];
       d != [] && Digits(d) == |d|)
  }

  // ----- tokens

  const TRUE: seq<Byte> := [0x74, 0x72, 0x75, 0x65]
  const FALSE: seq<Byte> := [0x66, 0x61, 0x6C, 0x73, 0x65]
  const NULL: seq<Byte> := [0x6E, 0x75, 0x6C, 0x6C]

  predicate Starts(s: seq<Byte>, word: seq<Byte>) {
    |word| <= |s| && s[..|word|] == word
  }

  function Punctuation(b: Byte): Option<Token> {
    if b == LBRACE then Some(LBrace)
    else if b == RBRACE then Some(RBrace)
    else if b == LBRACKET then Some(LBracket)
    else if b == RBRACKET then Some(RBracket)
    else if b == COMMA then Some(Comma)
    else if b == COLON then Some(Colon)
    else None
  }

  function NumberToken(s: seq<Byte>): (r: Parsed<Token>)
    ensures r.At? ==> 0 < r.next <= |s|
  {
    var j := NumberEnd(s, 0);
    if 0 < j && Matches(s[..j], Signed) then At(Scalar(Number(s[..j])), j) else Fail
  }

  /** One of the three words, by its first byte. */
  function WordToken(s: seq<Byte>): (r: Parsed<Token>)
    requires s != []
    ensures r.At? ==> 0 < r.next <= |s|
  {
    if Starts(s, TRUE) then At(Scalar(Bool(true)), 4)
    else if Starts(s, FALSE) then At(Scalar(Bool(false)), 5)
    else if Starts(s, NULL) then At(Scalar(Null), 4)
    else Fail
  }

  predicate IsWordStart(b: Byte) { b == TRUE[0] || b == FALSE[0] || b == NULL[0] }

  /** The token at the front of a text that does not start with whitespace, and its length. */
  function Token1(s: seq<Byte>): (r: Parsed<Token>)
    requires s != []
    ensures r.At? ==> 0 < r.next <= |s|
  {
    if Punctuation(s[0]).Some? then At(Punctuation(s[0]).value, 1)
    else if s[0] == QUOTE then
      var r := Chars(s, 1);
      if r.Fail? then Fail else At(Scalar(Str(r.value)), r.next)
    else if IsWordStart(s[0]) then WordToken(s)
    else NumberToken(s)
  }

  /** The six structural characters of section 2 and the whitespace beside them, by their code points. */
  lemma StructuralBytes()
    ensures Token1([0x7B]) == At(LBrace, 1) && Token1([0x7D]) == At(RBrace, 1)
    ensures Token1([0x5B]) == At(LBracket, 1) && Token1([0x5D]) == At(RBracket, 1)
    ensures Token1([0x3A]) == At(Colon, 1) && Token1([0x2C]) == At(Comma, 1)
    ensures Lex([0x20]) == Lex([0x09]) == Lex([0x0A]) == Lex([0x0D]) == Some([])
  {
    assert [0x20][1..] == [] && [0x09][1..] == [] && [0x0A][1..] == [] && [0x0D][1..] == [];
  }

  /** The escapes of section 7, by their code points: a backslash and one letter, between quotation marks. */
  lemma EscapeTable()
    ensures ReadsAs(0x22, 0x22) && ReadsAs(0x5C, 0x5C) && ReadsAs(0x2F, 0x2F) && ReadsAs(0x62, 0x08)
    ensures ReadsAs(0x66, 0x0C) && ReadsAs(0x6E, 0x0A) && ReadsAs(0x72, 0x0D) && ReadsAs(0x74, 0x09)
  {
    ShortEscape(0x22);
    ShortEscape(0x5C);
    ShortEscape(0x2F);
    ShortEscape(0x62);
    ShortEscape(0x66);
    ShortEscape(0x6E);
    ShortEscape(0x72);
    ShortEscape(0x74);
  }

  /** The string of a backslash and `letter` is the one character `c`. */
  ghost predicate ReadsAs(letter: Byte, c: int) {
    Token1([0x22, 0x5C, letter, 0x22]) == At(Scalar(Str([c])), 4)
  }

  lemma ShortEscape(letter: Byte)
    ensures SimpleEscape(letter).Some? ==> ReadsAs(letter, SimpleEscape(letter).value)
  {
    if SimpleEscape(letter).Some? {
      var s: seq<Byte> := [0x22, 0x5C, letter, 0x22];
      var c := SimpleEscape(letter).value;
      assert Unit(s, 1) == At(c, 3);
      assert Chars(s, 3) == At([], 4);
      CharsStep(s, 1, c, 3, [], 4);
      assert [c] + [] == [c];
    }
  }

  lemma StringToken(s: seq<Byte>, text: seq<int>, n: nat)
    requires s != [] && s[0] == QUOTE && Chars(s, 1) == At(text, n)
    ensures Token1(s) == At(Scalar(Str(text)), n)
  {
  }

  /** All tokens of a text, or nothing if some part of it is no token. */
  function Lex(s: seq<Byte>): Option<seq<Token>>
    decreases |s|
  {
    if s == [] then Some([])
    else if IsWs(s[0]) then Lex(s[1..])
    else
      var t := Token1(s);
      if t.Fail? then None
      else
        var rest := Lex(s[t.next..]);
        if rest.None? then None else Some([t.value] + rest.value)
  }

  lemma NumberWhole(t: seq<Byte>)
    requires t != [] && Matches(t, Signed) && forall i :: 0 <= i < |t| ==> IsNumberByte(t[i])
    ensures !IsWs(t[0]) && Token1(t) == At(Scalar(Number(t)), |t|)
  {
    WholeNumberToken(t);
    StartsNumber(t);
  }

  lemma StartsNumber(t: seq<Byte>)
    requires t != [] && IsNumberByte(t[0])
    ensures !IsWs(t[0]) && Token1(t) == NumberToken(t)
  {
    var b := t[0];
    assert Punctuation(b).None? && b != QUOTE && !IsWordStart(b);
  }

  lemma WholeNumberToken(t: seq<Byte>)
    requires t != [] && Matches(t, Signed) && forall i :: 0 <= i < |t| ==> IsNumberByte(t[i])
    ensures NumberToken(t) == At(Scalar(Number(t)), |t|)
  {
    NumberEndStops(t, 0, |t|);
    assert t[..|t|] == t;
  }

  // ----- what a token is depends only on its own bytes

  /** `t` holds the bytes `s[i..j]`, shifted by `d`. */
  ghost predicate Agree(s: seq<Byte>, i: nat, j: nat, t: seq<Byte>, d: int)
    requires i <= j <= |s|
  {
    0 <= i + d && j + d <= |t| && forall x :: i <= x < j ==> t[x + d] == s[x]
  }

  lemma UnitLocal(s: seq<Byte>, i: nat, t: seq<Byte>, d: int)
    requires i < |s| && Unit(s, i).At? && Agree(s, i, Unit(s, i).next, t, d)
    ensures Unit(t, i + d) == At(Unit(s, i).value, Unit(s, i).next + d)
  {
    assert t[i + d] == s[i];
    if s[i] == BACKSLASH {
      assert t[i + 1 + d] == s[i + 1];
      if s[i + 1] == 0x75 {
        assert t[i + 2 + d] == s[i + 2] && t[i + 3 + d] == s[i + 3];
        assert t[i + 4 + d] == s[i + 4] && t[i + 5 + d] == s[i + 5];
      }
    } else {
      Utf8.DecodeLocal(s, i, t, d);
    }
  }

  lemma {:induction false} CharsLocal(s: seq<Byte>, i: nat, t: seq<Byte>, d: int)
    requires i <= |s| && Chars(s, i).At? && Agree(s, i, Chars(s, i).next, t, d)
    ensures Chars(t, i + d) == At(Chars(s, i).value, Chars(s, i).next + d)
    decreases |s| - i
  {
    AgreeAt(s, i, Chars(s, i).next, t, d);
    if s[i] == QUOTE {
    } else {
      var u, rest := Unit(s, i), Chars(s, Unit(s, i).next);
      AgreeSplit(s, i, u.next, rest.next, t, d);
      UnitLocal(s, i, t, d);
      CharsLocal(s, u.next, t, d);
      CharsStep(t, i + d, u.value, u.next + d, rest.value, rest.next + d);
    }
  }

  lemma AgreeAt(s: seq<Byte>, i: nat, j: nat, t: seq<Byte>, d: int)
    requires i < j <= |s| && Agree(s, i, j, t, d)
    ensures 0 <= i + d < |t| && t[i + d] == s[i]
  {
  }

  lemma AgreeSplit(s: seq<Byte>, i: nat, m: nat, j: nat, t: seq<Byte>, d: int)
    requires i <= m <= j <= |s| && Agree(s, i, j, t, d)
    ensures Agree(s, i, m, t, d) && Agree(s, m, j, t, d)
  {
  }

  /** One character and the characters after it. */
  lemma CharsStep(s: seq<Byte>, i: nat, u: int, next: nat, text: seq<int>, end: nat)
    requires i < |s| && s[i] != QUOTE && Unit(s, i) == At(u, next)
    requires next <= |s| && Chars(s, next) == At(text, end)
    ensures Chars(s, i) == At([u] + text, end)
  {
  }

  /** No number continues at `j`. */
  predicate Delimited(t: seq<Byte>, j: nat) {
    j >= |t| || !IsNumberByte(t[j])
  }

  lemma NumberTokenLocal(s: seq<Byte>, t: seq<Byte>)
    requires NumberToken(s).At? && NumberToken(s).next <= |t|
    requires t[..NumberToken(s).next] == s[..NumberToken(s).next] && Delimited(t, NumberToken(s).next)
    ensures NumberToken(t) == NumberToken(s)
  {
    var j := NumberEnd(s, 0);
    NumberEndIs(s, 0);
    forall x | 0 <= x < j ensures IsNumberByte(t[x]) {
      assert t[..j][x] == s[..j][x];
    }
    NumberEndStops(t, 0, j);
  }

  /** A token is recognised from its bytes alone, provided a number is not continued. */
  lemma Token1Local(s: seq<Byte>, t: seq<Byte>)
    requires s != [] && t != [] && Token1(s).At? && Token1(s).next <= |t|
    requires t[..Token1(s).next] == s[..Token1(s).next] && Delimited(t, Token1(s).next)
    ensures Token1(t) == Token1(s)
  {
    var n := Token1(s).next;
    assert forall x :: 0 <= x < n ==> t[..n][x] == s[..n][x];
    assert t[0] == s[0];
    if Punctuation(s[0]).None? {
      if s[0] == QUOTE {
        CharsLocal(s, 1, t, 0);
      } else if IsWordStart(s[0]) {
        WordTokenLocal(s, t);
      } else {
        NumberTokenLocal(s, t);
      }
    }
  }

  lemma WordTokenLocal(s: seq<Byte>, t: seq<Byte>)
    requires s != [] && t != [] && WordToken(s).At? && WordToken(s).next <= |t|
    requires t[..WordToken(s).next] == s[..WordToken(s).next]
    ensures WordToken(t) == WordToken(s)
  {
    assert t[..1] == t[..WordToken(s).next][..1] == s[..WordToken(s).next][..1] == s[..1];
    forall w | (w == TRUE || w == FALSE || w == NULL) && Starts(t, w) ensures t[0] == w[0] {
      assert t[..|w|][0] == w[0];
    }
    forall w | (w == TRUE || w == FALSE || w == NULL) && Starts(s, w) ensures s[0] == w[0] {
      assert s[..|w|][0] == w[0];
    }
  }

  /** A token's last byte: never blank, and a closing brace only as a token of its own. */
  lemma Token1End(s: seq<Byte>)
    requires s != [] && Token1(s).At?
    ensures !IsBlank(s[Token1(s).next - 1])
    ensures s[Token1(s).next - 1] == RBRACE ==> Token1(s).next == 1
  {
    if Punctuation(s[0]).None? && s[0] != QUOTE {
      if IsWordStart(s[0]) {
        if Starts(s, TRUE) { assert s[..4][3] == s[3]; }
        else if Starts(s, FALSE) { assert s[..5][4] == s[4]; }
        else { assert s[..4][3] == s[3]; }
      } else {
        NumberEndIs(s, 0);
      }
    }
  }

  // ----- tokens of a concatenation

  function Append(front: seq<Token>, rest: Option<seq<Token>>): Option<seq<Token>> {
    if rest.None? then None else Some(front + rest.value)
  }

  lemma AppendAppend(a: seq<Token>, b: seq<Token>, rest: Option<seq<Token>>)
    ensures Append(a, Append(b, rest)) == Append(a + b, rest)
  {
    if rest.Some? {
      assert a + (b + rest.value) == a + b + rest.value;
    }
  }

  /** A text that lexes by itself keeps its tokens in front of anything that does not continue a number. */
  lemma {:induction false} LexConcat(a: seq<Byte>, b: seq<Byte>)
    requires Lex(a).Some? && Delimited(b, 0)
    ensures Lex(a + b) == Append(Lex(a).value, Lex(b))
    decreases |a|
  {
    if a == [] {
      assert a + b == b;
      assert Lex(b).Some? ==> [] + Lex(b).value == Lex(b).value;
    } else if IsWs(a[0]) {
      assert (a + b)[1..] == a[1..] + b;
      LexConcat(a[1..], b);
    } else {
      var n := Token1(a).next;
      Token1Concat(a, b);
      assert (a + b)[n..] == a[n..] + b;
      LexConcat(a[n..], b);
      AppendAppend([Token1(a).value], Lex(a[n..]).value, Lex(b));
    }
  }

  lemma Token1Concat(a: seq<Byte>, b: seq<Byte>)
    requires a != [] && Token1(a).At? && Delimited(b, 0)
    ensures Token1(a + b) == Token1(a)
  {
    var n := Token1(a).next;
    assert (a + b)[..n] == a[..n];
    Token1Delimits(a);
    if NumberStart(a) {
      assert n < |a| ==> (a + b)[n] == a[n];
      Token1Local(a, a + b);
    } else {
      Token1Fixed(a, a + b);
    }
  }

  /** The text starts with a number rather than another token. */
  predicate NumberStart(s: seq<Byte>)
    requires s != []
  {
    Punctuation(s[0]).None? && s[0] != QUOTE && !IsWordStart(s[0])
  }

  lemma Token1Delimits(s: seq<Byte>)
    requires s != [] && Token1(s).At?
    ensures NumberStart(s) ==> Delimited(s, Token1(s).next)
  {
    NumberEndIs(s, 0);
  }

  lemma Token1Fixed(s: seq<Byte>, t: seq<Byte>)
    requires s != [] && t != [] && Token1(s).At? && !NumberStart(s) && Token1(s).next <= |t|
    requires t[..Token1(s).next] == s[..Token1(s).next]
    ensures Token1(t) == Token1(s)
  {
    var n := Token1(s).next;
    assert forall x :: 0 <= x < n ==> t[..n][x] == s[..n][x];
    assert t[0] == s[0];
    if Punctuation(s[0]).None? {
      if s[0] == QUOTE {
        CharsLocal(s, 1, t, 0);
      } else {
        WordTokenLocal(s, t);
      }
    }
  }

  /** Bytes that can only follow a token: blanks and closing braces. */
  predicate IsClosing(y: seq<Byte>) {
    forall i :: 0 <= i < |y| ==> IsBlank(y[i]) || y[i] == RBRACE
  }

  /** No token reaches from `a` into closing bytes, so both parts lex on their own or not at all. */
  lemma {:induction false} LexBeforeClosing(a: seq<Byte>, y: seq<Byte>)
    requires IsClosing(y)
    ensures Lex(a + y) == if Lex(a).None? then None else Append(Lex(a).value, Lex(y))
    decreases |a|
  {
    if Lex(a).Some? {
      LexConcat(a, y);
    } else if IsWs(a[0]) {
      assert (a + y)[1..] == a[1..] + y;
      LexBeforeClosing(a[1..], y);
    } else if Token1(a + y).At? {
      var n := Token1(a + y).next;
      TokenEndsBefore(a, y);
      assert (a + y)[n..] == a[n..] + y;
      LexBeforeClosing(a[n..], y);
    }
  }

  lemma TokenEndsBefore(a: seq<Byte>, y: seq<Byte>)
    requires a != [] && IsClosing(y) && Token1(a + y).At?
    ensures Token1(a + y).next <= |a| && Token1(a) == Token1(a + y)
  {
    Token1End(a + y);
    TokenWithin(a, y);
  }

  /** A token that ends within `a` is a token of `a`. */
  lemma TokenWithin(a: seq<Byte>, y: seq<Byte>)
    requires a != [] && Token1(a + y).At? && Token1(a + y).next <= |a|
    ensures Token1(a) == Token1(a + y)
  {
    var s := a + y;
    var n := Token1(s).next;
    assert a[..n] == s[..n];
    Token1Delimits(s);
    if NumberStart(s) {
      assert Delimited(a, n) by {
        if n < |a| {
          assert a[n] == s[n];
        }
      }
      Token1Local(s, a);
    } else {
      Token1Fixed(s, a);
    }
  }

  lemma UnitPrintable(s: seq<Byte>, i: nat)
    requires i < |s| && Unit(s, i).At?
    ensures forall x :: i <= x < Unit(s, i).next ==> s[x] >= 0x20
  {
  }

  lemma {:induction false} CharsPrintable(s: seq<Byte>, i: nat)
    requires i <= |s| && Chars(s, i).At?
    ensures forall x :: i <= x < Chars(s, i).next ==> s[x] >= 0x20
    decreases |s| - i
  {
    if s[i] != QUOTE {
      UnitPrintable(s, i);
      CharsPrintable(s, Unit(s, i).next);
    }
  }

  /** No token contains a raw control character. */
  lemma Token1Printable(s: seq<Byte>)
    requires s != [] && Token1(s).At?
    ensures forall x :: 0 <= x < Token1(s).next ==> s[x] >= 0x20
  {
    if Punctuation(s[0]).None? {
      if s[0] == QUOTE {
        CharsPrintable(s, 1);
      } else if IsWordStart(s[0]) {
        WordPrintable(s);
      } else {
        NumberEndIs(s, 0);
      }
    }
  }

  lemma WordPrintable(s: seq<Byte>)
    requires s != [] && WordToken(s).At?
    ensures forall x :: 0 <= x < WordToken(s).next ==> s[x] >= 0x20
  {
    var n := WordToken(s).next;
    assert forall x :: 0 <= x < n ==> s[x] == s[..n][x];
  }

  /** Tokens in front of tokens, if both parts have them. */
  function Both(front: Option<seq<Token>>, rest: Option<seq<Token>>): Option<seq<Token>> {
    if front.None? then None else Append(front.value, rest)
  }

  /** A line break separates tokens whatever stands before and after it, even an open string. */
  lemma {:induction false} LexLine(a: seq<Byte>, b: seq<Byte>)
    ensures Lex(a + ([NEWLINE] + b)) == Both(Lex(a), Lex(b))
    decreases |a|
  {
    var y := [NEWLINE] + b;
    if Lex(a).Some? {
      LexConcat(a, y);
      assert y[1..] == b;
    } else if IsWs(a[0]) {
      assert (a + y)[1..] == a[1..] + y;
      LexLine(a[1..], b);
    } else if Token1(a + y).At? {
      var n := Token1(a + y).next;
      assert n <= |a| by {
        Token1Printable(a + y);
        assert (a + y)[|a|] == NEWLINE;
      }
      TokenWithin(a, y);
      assert (a + y)[n..] == a[n..] + y;
      LexLine(a[n..], b);
    }
  }

  lemma {:induction false} LexBlank(l: seq<Byte>, rest: seq<Byte>)
    requires forall i :: 0 <= i < |l| ==> IsBlank(l[i])
    ensures Lex(l + rest) == if forall i :: 0 <= i < |l| ==> IsWs(l[i]) then Lex(rest) else None
    decreases |l|
  {
    if l == [] {
      assert l + rest == rest;
    } else if IsWs(l[0]) {
      assert (l + rest)[1..] == l[1..] + rest;
      LexBlank(l[1..], rest);
      if forall i :: 0 <= i < |l[1..]| ==> IsWs(l[1..][i]) {
        assert forall i :: 0 < i < |l| ==> l[i] == l[1..][i - 1];
      }
    } else {
      assert (l + rest)[0] == 0x0C;
      FormFeedIsNoToken(l + rest);
    }
  }

  lemma FormFeedIsNoToken(s: seq<Byte>)
    requires s != [] && s[0] == 0x0C
    ensures Token1(s).Fail?
  {
    NumberEndStops(s, 0, 0);
  }

  lemma LexPunctuation(b: Byte, rest: seq<Byte>)
    requires Punctuation(b).Some?
    ensures Lex([b] + rest) == Append([Punctuation(b).value], Lex(rest))
  {
    var s := [b] + rest;
    assert s[0] == b && s[1..] == rest;
    assert Token1(s) == At(Punctuation(b).value, 1);
  }

  lemma LexStep(s: seq<Byte>, t: Token, n: nat)
    requires s != [] && !IsWs(s[0]) && Token1(s) == At(t, n)
    ensures Lex(s) == Append([t], Lex(s[n..]))
  {
  }

  /** A text that is one token. */
  lemma LexWhole(s: seq<Byte>, t: Token)
    requires s != [] && !IsWs(s[0]) && Token1(s) == At(t, |s|)
    ensures Lex(s) == Some([t])
  {
    LexStep(s, t, |s|);
    AppendNothing(t, s[|s|..]);
  }

  lemma AppendNothing(t: Token, none: seq<Byte>)
    requires none == []
    ensures Append([t], Lex(none)) == Some([t])
  {
    assert [t] + [] == [t];
  }

  // ----- values, objects and arrays

  /** Something read from tokens, and the tokens after it. */
  datatype Read<+T> = Stuck | Got(value: T, rest: seq<Token>)

  function ReadValue(ts: seq<Token>): (r: Read<Value>)
    ensures r.Got? ==> |r.rest| < |ts|
    decreases |ts|, 0
  {
    if ts == [] then Stuck
    else
      match ts[0]
      case Scalar(v) => Got(v, ts[1..])
      case LBrace =>
        var r := ReadObject(ts[1..]);
        if r.Stuck? then Stuck else Got(Object(r.value), r.rest)
      case LBracket =>
        var r := ReadArray(ts[1..]);
        if r.Stuck? then Stuck else Got(Array(r.value), r.rest)
      case _ => Stuck
  }

  /** The inside of an object, after its opening brace. */
  function ReadObject(ts: seq<Token>): (r: Read<seq<Member>>)
    ensures r.Got? ==> |r.rest| < |ts|
    decreases |ts|, 2
  {
    if ts != [] && ts[0].RBrace? then Got([], ts[1..]) else ReadMembers(ts)
  }

  /** One or more members separated by commas, up to and including the closing brace. */
  function ReadMembers(ts: seq<Token>): (r: Read<seq<Member>>)
    ensures r.Got? ==> |r.rest| < |ts|
    decreases |ts|, 1
  {
    if |ts| < 2 || !ts[0].Scalar? || !ts[0].value.Str? || !ts[1].Colon? then Stuck
    else
      var v := ReadValue(ts[2..]);
      if v.Stuck? || v.rest == [] then Stuck
      else
        var m := Member(ts[0].value.text, v.value);
        if v.rest[0].RBrace? then Got([m], v.rest[1..])
        else if !v.rest[0].Comma? then Stuck
        else
          var more := ReadMembers(v.rest[1..]);
          if more.Stuck? then Stuck else Got([m] + more.value, more.rest)
  }

  function ReadArray(ts: seq<Token>): (r: Read<seq<Value>>)
    ensures r.Got? ==> |r.rest| < |ts|
    decreases |ts|, 2
  {
    if ts != [] && ts[0].RBracket? then Got([], ts[1..]) else ReadItems(ts)
  }

  function ReadItems(ts: seq<Token>): (r: Read<seq<Value>>)
    ensures r.Got? ==> |r.rest| < |ts|
    decreases |ts|, 1
  {
    var v := ReadValue(ts);
    if v.Stuck? || v.rest == [] then Stuck
    else if v.rest[0].RBracket? then Got([v.value], v.rest[1..])
    else if !v.rest[0].Comma? then Stuck
    else
      var more := ReadItems(v.rest[1..]);
      if more.Stuck? then Stuck else Got([v.value] + more.value, more.rest)
  }

  /** The members of a token sequence that is exactly one object. */
  function ReadText(ts: seq<Token>): Option<seq<Member>> {
    if ts == [] || !ts[0].LBrace? then None
    else
      var r := ReadObject(ts[1..]);
      if r.Got? && r.rest == [] then Some(r.value) else None
  }

  /** The members of a text that is one JSON object, with whitespace around it allowed. */
  function ParseObject(s: seq<Byte>): Option<seq<Member>> {
    var ts := Lex(s);
    if ts.None? then None else ReadText(ts.value)
  }
}
