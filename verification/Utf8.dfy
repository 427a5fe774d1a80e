/** UTF-8 as section 3 of RFC 3629 defines it: what `char::encode_utf8` writes and a reader accepts. */
module Utf8 {
  import opened Wrappers
  import opened Events

  function Encode(c: Scalar): (bytes: seq<Byte>)
    ensures 1 <= |bytes| <= 4
  {
    if c < 0x80 then [c]
    else if c < 0x800 then [0xC0 + c / 64, 0x80 + c % 64]
    else if c < 0x1_0000 then [0xE0 + c / 4096, 0x80 + c / 64 % 64, 0x80 + c % 64]
    else [0xF0 + c / 262144, 0x80 + c / 4096 % 64, 0x80 + c / 64 % 64, 0x80 + c % 64]
  }

  predicate IsTail(b: Byte) { 0x80 <= b < 0xC0 }

  /** The bits a byte contributes above its marker. */
  function Bits(b: Byte, marker: int): int { (b as int) - marker }

  /** A decoded scalar and the index after it. */
  datatype Decoded = Decoded(scalar: Scalar, next: nat)

  /** Decodes one character at `i`; overlong forms, surrogates and stray bytes are refused. */
  function DecodeAt(s: seq<Byte>, i: nat): (r: Option<Decoded>)
    requires i < |s|
    ensures r.Some? ==> i < r.value.next <= |s|
  {
    var b := s[i];
    if b < 0x80 then Some(Decoded(b, i + 1))
    else if 0xC2 <= b < 0xE0 && i + 1 < |s| && IsTail(s[i + 1]) then
      Some(Decoded(Bits(b, 0xC0) * 64 + Bits(s[i + 1], 0x80), i + 2))
    else if 0xE0 <= b < 0xF0 && i + 2 < |s| && IsTail(s[i + 1]) && IsTail(s[i + 2]) then
      var c := Bits(b, 0xE0) * 4096 + Bits(s[i + 1], 0x80) * 64 + Bits(s[i + 2], 0x80);
      if c < 0x800 || 0xD800 <= c < 0xE000 then None else Some(Decoded(c, i + 3))
    else if 0xF0 <= b < 0xF5 && i + 3 < |s| && IsTail(s[i + 1]) && IsTail(s[i + 2]) && IsTail(s[i + 3]) then
      var c := Bits(b, 0xF0) * 262144 + Bits(s[i + 1], 0x80) * 4096 + Bits(s[i + 2], 0x80) * 64 + Bits(s[i + 3], 0x80);
      if c < 0x1_0000 || c >= 0x11_0000 then None else Some(Decoded(c, i + 4))
    else None
  }

  /** Decoding undoes encoding for every scalar value. */
  lemma DecodeEncode(c: Scalar)
    ensures DecodeAt(Encode(c), 0) == Some(Decoded(c, |Encode(c)|))
  {
    assert c == c / 64 * 64 + c % 64;
    assert c / 64 == c / 4096 * 64 + c / 64 % 64;
    assert c / 4096 == c / 262144 * 64 + c / 4096 % 64;
  }

  /** The characters of the first and third examples in section 7 of RFC 3629, and one of four bytes. */
  lemma Examples()
    ensures Encode(0x41) == [0x41] && Encode(0x391) == [0xCE, 0x91] && Encode(0x2262) == [0xE2, 0x89, 0xA2]
    ensures Encode(0x65E5) == [0xE6, 0x97, 0xA5] && Encode(0x2_33B4) == [0xF0, 0xA3, 0x8E, 0xB4]
  {
  }

  /** An encoded character above the ASCII range holds no ASCII byte. */
  lemma EncodeHigh(c: Scalar)
    requires c >= 0x80
    ensures forall i :: 0 <= i < |Encode(c)| ==> Encode(c)[i] >= 0x80
  {
  }

  /** What is decoded at a place depends only on the bytes it consumes. */
  lemma DecodeLocal(s: seq<Byte>, i: nat, t: seq<Byte>, d: int)
    requires i < |s| && DecodeAt(s, i).Some?
    requires 0 <= i + d && DecodeAt(s, i).value.next + d <= |t|
    requires forall x :: i <= x < DecodeAt(s, i).value.next ==> t[x + d] == s[x]
    ensures DecodeAt(t, i + d) == Some(Decoded(DecodeAt(s, i).value.scalar, DecodeAt(s, i).value.next + d))
  {
    var n := DecodeAt(s, i).value.next;
    assert t[i + d] == s[i];
    assert i + 1 < n ==> t[i + 1 + d] == s[i + 1];
    assert i + 2 < n ==> t[i + 2 + d] == s[i + 2];
    assert i + 3 < n ==> t[i + 3 + d] == s[i + 3];
  }
}
