/**
 * Byte offsets into UTF-8 text: Rust's `str::is_char_boundary`, the
 * validation of a signed wire offset into an optional cursor, and a
 * reference definition of "start of a character" in terms of the UTF-8
 * encoding of a sequence of Unicode scalar values.
 */
module Utf8 {
  import opened Base

  /** A byte of the form 0b10xx_xxxx, which never starts a character. */
  predicate IsContinuation(b: byte) {
    0x80 <= b <= 0xBF
  }

  /**
   * `str::is_char_boundary`: offset 0 and the length are boundaries, an offset
   * past the end is not, and any other offset is one unless the byte there is
   * a continuation byte.
   */
  predicate IsCharBoundary(s: seq<byte>, index: nat): (b: bool)
    ensures b ==> index <= |s|
    ensures index == 0 || index == |s| ==> b
    ensures 0 < index < |s| ==> (b <==> !IsContinuation(s[index]))
  {
    if index == 0 then true
    else if index < |s| then !IsContinuation(s[index])
    else index == |s|
  }

  /**
   * `usize::try_from(offset).ok().and_then(|idx| text.is_char_boundary(idx).then_some(idx))`:
   * a negative offset, or one that is not a character boundary of `text`,
   * becomes "no cursor" rather than an error.
   */
  function CursorFromOffset(text: seq<byte>, offset: int32): (r: Option<nat>)
    ensures r.Some? <==> 0 <= offset && IsCharBoundary(text, offset as int)
    ensures r.Some? ==> r.value == offset as int && r.value <= |text|
  {
    if offset < 0 then None
    else if IsCharBoundary(text, offset as int) then Some(offset as int)
    else None
  }

  /** A Unicode scalar value: a Rust `char`. */
  type CodePoint = c: int | 0 <= c < 0x11_0000 && !(0xD800 <= c < 0xE000)

  /** The UTF-8 encoding of one scalar value (RFC 3629, section 3). */
  function EncodeChar(c: CodePoint): (bs: seq<byte>)
    ensures 1 <= |bs| <= 4
    ensures !IsContinuation(bs[0])
    ensures forall i :: 1 <= i < |bs| ==> IsContinuation(bs[i])
  {
    if c < 0x80 then
      [c as byte]
    else if c < 0x800 then
      [(0xC0 + c / 0x40) as byte, (0x80 + c % 0x40) as byte]
    else if c < 0x1_0000 then
      [(0xE0 + c / 0x1000) as byte, (0x80 + (c / 0x40) % 0x40) as byte, (0x80 + c % 0x40) as byte]
    else
      [(0xF0 + c / 0x4_0000) as byte, (0x80 + (c / 0x1000) % 0x40) as byte,
       (0x80 + (c / 0x40) % 0x40) as byte, (0x80 + c % 0x40) as byte]
  }

  /** The UTF-8 bytes of a string given as its characters. */
  function Encode(cs: seq<CodePoint>): (bytes: seq<byte>) {
    if cs == [] then [] else EncodeChar(cs[0]) + Encode(cs[1..])
  }

  /** Byte offset `i` is where a character of `cs` starts, or the end of the text. */
  predicate IsCharStart(cs: seq<CodePoint>, i: nat) {
    if i == 0 then true
    else if cs == [] then false
    else |EncodeChar(cs[0])| <= i && IsCharStart(cs[1..], i - |EncodeChar(cs[0])|)
  }

  lemma LeadByte(cs: seq<CodePoint>)
    requires cs != []
    ensures |Encode(cs)| > 0 && !IsContinuation(Encode(cs)[0])
  {
  }

  /**
   * On well-formed UTF-8, `is_char_boundary` holds exactly at the offsets
   * where a character starts and at the end of the text.
   */
  lemma {:induction false} BoundaryIsCharStart(cs: seq<CodePoint>, i: nat)
    ensures IsCharBoundary(Encode(cs), i) <==> IsCharStart(cs, i)
  {
    if i == 0 || cs == [] {
    } else {
      var head, rest := EncodeChar(cs[0]), Encode(cs[1..]);
      assert Encode(cs) == head + rest;
      if i < |head| {
        assert Encode(cs)[i] == head[i];
      } else if i == |head| {
        if rest != [] {
          LeadByte(cs[1..]);
          assert Encode(cs)[i] == rest[0];
        }
      } else {
        BoundaryIsCharStart(cs[1..], i - |head|);
        if i < |Encode(cs)| {
          assert Encode(cs)[i] == rest[i - |head|];
        }
      }
    }
  }

  /**
   * A preedit cursor offset into well-formed text is kept exactly when it is
   * non-negative and lands on the start of a character or the end.
   */
  lemma CursorOnCharStart(cs: seq<CodePoint>, offset: int32)
    ensures CursorFromOffset(Encode(cs), offset).Some? <==> 0 <= offset && IsCharStart(cs, offset as int)
  {
    if 0 <= offset {
      BoundaryIsCharStart(cs, offset as int);
    }
  }
}
