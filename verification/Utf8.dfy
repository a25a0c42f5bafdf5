/** The \u escapes of JSON strings: UTF-16 code units to UTF-8 (Lua/lua_cjson.c:742-878). Masks
    and shifts of the source act on disjoint bit fields and are written as arithmetic. */
module Utf8 {
  import opened Options
  import opened StrBuf

  /** A text is followed by its terminating NUL. */
  function At(s: seq<Byte>, i: nat): Byte {
    if i < |s| then s[i] else 0
  }

  const BACKSLASH: Byte := 0x5C
  const LETTER_U: Byte := 0x75

  /** `hex |= 0x20`. */
  function ForceLower(b: Byte): Byte {
    if b / 0x20 % 2 == 0 then b + 0x20 else b
  }

  function HexDigit(hex: Byte): int {
    if 0x30 <= hex <= 0x39 then hex - 0x30
    else
      var low := ForceLower(hex);
      if 0x61 <= low <= 0x66 then 10 + low - 0x61 else -1
  }

  /** decode_hex4: -1 at the first character that is not a hex digit. */
  function Hex4(s: seq<Byte>, at: nat): (r: int)
    ensures -1 <= r < 0x10000
  {
    var a, b, c, d := HexDigit(At(s, at)), HexDigit(At(s, at + 1)), HexDigit(At(s, at + 2)), HexDigit(At(s, at + 3));
    if a < 0 || b < 0 || c < 0 || d < 0 then -1 else a * 0x1000 + b * 0x100 + c * 0x10 + d
  }

  /** codepoint_to_utf8. */
  function ToUtf8(cp: nat): seq<Byte>
    requires cp < 0x110000
  {
    if cp <= 0x7F then [cp]
    else if cp <= 0x7FF then [0xC0 + cp / 0x40, 0x80 + cp % 0x40]
    else if cp <= 0xFFFF then [0xE0 + cp / 0x1000, 0x80 + cp / 0x40 % 0x40, 0x80 + cp % 0x40]
    else [0xF0 + cp / 0x40000, 0x80 + cp / 0x1000 % 0x40, 0x80 + cp / 0x40 % 0x40, 0x80 + cp % 0x40]
  }

  /** json_append_unicode_escape at a backslash and a u: the code point and the length of the escape. */
  function Escape(s: seq<Byte>): (r: Option<(nat, nat)>)
    ensures r.Some? ==> r.value.0 < 0x110000
  {
    var unit := Hex4(s, 2);
    if unit < 0 then None
    else if unit / 0x800 == 0xD800 / 0x800 then
      if unit / 0x400 % 2 == 1 then None
      else if At(s, 6) != BACKSLASH || At(s, 7) != LETTER_U then None
      else
        var low := Hex4(s, 8);
        if low < 0 || low / 0x400 != 0xDC00 / 0x400 then None
        else Some((unit % 0x400 * 0x400 + low % 0x400 + 0x10000, 12))
    else Some((unit, 6))
  }

  // ----- section 3 of RFC 3629 and section 2 of RFC 2781 ---------------------

  /** A Unicode scalar value. */
  predicate Scalar(cp: int) {
    0 <= cp < 0xD800 || 0xE000 <= cp < 0x110000
  }

  predicate Tail(b: Byte) {
    0x80 <= b <= 0xBF
  }

  /** The syntax of section 4 of RFC 3629: no overlong form and no surrogate. */
  predicate WellFormed(u: seq<Byte>) {
    if |u| == 1 then u[0] <= 0x7F
    else if |u| == 2 then 0xC2 <= u[0] <= 0xDF && Tail(u[1])
    else if |u| == 3 then
      && Tail(u[1]) && Tail(u[2])
      && (|| (u[0] == 0xE0 && 0xA0 <= u[1])
          || 0xE1 <= u[0] <= 0xEC
          || (u[0] == 0xED && u[1] <= 0x9F)
          || 0xEE <= u[0] <= 0xEF)
    else
      && |u| == 4 && Tail(u[1]) && Tail(u[2]) && Tail(u[3])
      && (|| (u[0] == 0xF0 && 0x90 <= u[1])
          || 0xF1 <= u[0] <= 0xF3
          || (u[0] == 0xF4 && u[1] <= 0x8F))
  }

  /** The number whose bits the bytes hold. */
  function CodePoint(u: seq<Byte>): int
    requires WellFormed(u)
  {
    if |u| == 1 then u[0]
    else if |u| == 2 then Low(u[0], 0xC0) * 0x40 + Low(u[1], 0x80)
    else if |u| == 3 then Low(u[0], 0xE0) * 0x1000 + Low(u[1], 0x80) * 0x40 + Low(u[2], 0x80)
    else Low(u[0], 0xF0) * 0x40000 + Low(u[1], 0x80) * 0x1000 + Low(u[2], 0x80) * 0x40 + Low(u[3], 0x80)
  }

  function Low(b: Byte, mark: int): int {
    b as int - mark
  }

  /** What is written for a scalar value is well-formed and reads back as that value. */
  lemma EncodeIsWellFormed(cp: nat)
    requires Scalar(cp)
    ensures WellFormed(ToUtf8(cp)) && CodePoint(ToUtf8(cp)) == cp
  {
    if cp > 0x7FF {
      Digits(cp);
      if cp > 0xFFFF { Digits(cp / 0x40); }
    }
  }

  lemma Digits(cp: nat)
    ensures cp / 0x40 == cp / 0x1000 * 0x40 + cp / 0x40 % 0x40 && cp / 0x40 / 0x40 == cp / 0x1000
    ensures cp / 0x40 / 0x1000 == cp / 0x40000
  {
  }

  /** It is the only well-formed form of that value. */
  lemma EncodingIsUnique(u: seq<Byte>)
    requires WellFormed(u)
    ensures Scalar(CodePoint(u)) && ToUtf8(CodePoint(u)) == u
  {
    if |u| == 4 {
      FourUnique(u);
    } else if |u| == 3 {
      ThreeBytes(u[0] - 0xE0, u[1] - 0x80, u[2] - 0x80);
    }
  }

  lemma FourUnique(u: seq<Byte>)
    requires WellFormed(u) && |u| == 4
    ensures Scalar(CodePoint(u)) && ToUtf8(CodePoint(u)) == u
  {
    var a, b, c, d := Low(u[0], 0xF0), Low(u[1], 0x80), Low(u[2], 0x80), Low(u[3], 0x80);
    FourBytes(a, b, c, d);
    var cp := a * 0x40000 + b * 0x1000 + c * 0x40 + d;
    assert Scalar(cp) && cp > 0xFFFF;
    var e := ToUtf8(cp);
    assert e[0] == u[0] && e[1] == u[1] && e[2] == u[2] && e[3] == u[3];
  }

  lemma ThreeBytes(a: int, b: int, c: int)
    requires a >= 0 && 0 <= b < 0x40 && 0 <= c < 0x40
    ensures var cp := a * 0x1000 + b * 0x40 + c; cp / 0x1000 == a && cp / 0x40 % 0x40 == b && cp % 0x40 == c
  {
    var cp := a * 0x1000 + b * 0x40 + c;
    assert cp / 0x40 == a * 0x40 + b;
  }

  lemma FourBytes(a: int, b: int, c: int, d: int)
    requires a >= 0 && 0 <= b < 0x40 && 0 <= c < 0x40 && 0 <= d < 0x40
    ensures var cp := a * 0x40000 + b * 0x1000 + c * 0x40 + d;
      cp / 0x40000 == a && cp / 0x1000 % 0x40 == b && cp / 0x40 % 0x40 == c && cp % 0x40 == d
  {
    var cp := a * 0x40000 + b * 0x1000 + c * 0x40 + d;
    ThreeBytes(a * 0x40 + b, c, d);
    assert cp / 0x1000 == a * 0x40 + b;
  }

  // ----- UTF-16 -------------------------------------------------------------

  predicate HighSurrogate(unit: int) {
    0xD800 <= unit < 0xDC00
  }

  predicate LowSurrogate(unit: int) {
    0xDC00 <= unit < 0xE000
  }

  /** An escape is accepted exactly when it is one UTF-16 code unit outside the surrogates or a
      high surrogate with the escape of a low one behind it: a lone surrogate never is. */
  lemma EscapeAccepts(s: seq<Byte>)
    ensures Escape(s).Some? <==>
      var unit := Hex4(s, 2);
      && unit >= 0 && !LowSurrogate(unit)
      && (HighSurrogate(unit) ==> At(s, 6) == BACKSLASH && At(s, 7) == LETTER_U && LowSurrogate(Hex4(s, 8)))
  {
    hide Hex4, At;
  }

  /** An accepted escape gives a scalar value, and its UTF-8 form is no longer than the escape:
      at most half of it. */
  lemma EscapeIsScalar(s: seq<Byte>)
    requires Escape(s).Some?
    ensures var (cp, n) := Escape(s).value; Scalar(cp) && (n == 6 || n == 12) && 1 <= |ToUtf8(cp)| && 2 * |ToUtf8(cp)| <= n
    ensures Escape(s).value.1 <= |s|
  {
    hide Hex4;
    HexInside(s, 2);
    HexInside(s, 8);
  }

  /** Four hex digits do not reach behind the text. */
  lemma HexInside(s: seq<Byte>, at: nat)
    ensures Hex4(s, at) >= 0 ==> at + 4 <= |s|
  {
    assert HexDigit(0) == -1;
    if Hex4(s, at) >= 0 {
      assert HexDigit(At(s, at)) >= 0 && HexDigit(At(s, at + 1)) >= 0 && HexDigit(At(s, at + 2)) >= 0 && HexDigit(At(s, at + 3)) >= 0;
    }
  }

  function HexChar(d: nat): Byte
    requires d < 16
  {
    if d < 10 then 0x30 + d else 0x61 + d - 10
  }

  /** A backslash, a u and four hex digits. */
  function EscapeText(unit: nat): (s: seq<Byte>)
    requires unit < 0x10000
    ensures |s| == 6
  {
    [BACKSLASH, LETTER_U, HexChar(unit / 0x1000), HexChar(unit / 0x100 % 16), HexChar(unit / 0x10 % 16), HexChar(unit % 16)]
  }

  /** Section 2.1 of RFC 2781. */
  function Utf16(cp: nat): (units: seq<nat>)
    requires Scalar(cp)
    ensures 1 <= |units| <= 2 && forall i :: 0 <= i < |units| ==> units[i] < 0x10000
  {
    if cp < 0x10000 then [cp] else [0xD800 + (cp - 0x10000) / 0x400, 0xDC00 + (cp - 0x10000) % 0x400]
  }

  function EscapesOf(cp: nat): seq<Byte>
    requires Scalar(cp)
  {
    if |Utf16(cp)| == 1 then EscapeText(Utf16(cp)[0]) else EscapeText(Utf16(cp)[0]) + EscapeText(Utf16(cp)[1])
  }

  lemma HexCharReads(d: nat)
    requires d < 16
    ensures HexDigit(HexChar(d)) == d
  {
  }

  lemma HexDigits(unit: nat)
    ensures unit == unit / 0x1000 * 0x1000 + unit / 0x100 % 16 * 0x100 + unit / 0x10 % 16 * 0x10 + unit % 16
  {
    assert unit / 0x100 == unit / 0x1000 * 16 + unit / 0x100 % 16;
    assert unit / 0x10 == unit / 0x100 * 16 + unit / 0x10 % 16;
  }

  lemma EscapeTextReads(s: seq<Byte>, at: nat, unit: nat)
    requires unit < 0x10000 && at + 6 <= |s| && s[at..at + 6] == EscapeText(unit)
    ensures Hex4(s, at + 2) == unit && At(s, at) == BACKSLASH && At(s, at + 1) == LETTER_U
  {
    var a, b, c, d := unit / 0x1000, unit / 0x100 % 16, unit / 0x10 % 16, unit % 16;
    HexDigits(unit);
    var t := s[at..at + 6];
    assert t[0] == s[at] && t[1] == s[at + 1] && t[2] == s[at + 2] && t[3] == s[at + 3] && t[4] == s[at + 4] && t[5] == s[at + 5];
    HexCharReads(a);
    HexCharReads(b);
    HexCharReads(c);
    HexCharReads(d);
    hide HexDigit, HexChar;
  }

  /** The escapes of a scalar value's UTF-16 form are read as that value, whatever follows. */
  lemma EscapesAreRead(cp: nat, rest: seq<Byte>)
    requires Scalar(cp)
    ensures Escape(EscapesOf(cp) + rest) == Some((cp, |EscapesOf(cp)|))
  {
    hide Hex4, EscapeText;
    var s := EscapesOf(cp) + rest;
    var units := Utf16(cp);
    assert s[0..6] == EscapeText(units[0]);
    EscapeTextReads(s, 0, units[0]);
    if |units| == 2 {
      assert s[6..12] == EscapeText(units[1]);
      EscapeTextReads(s, 6, units[1]);
    }
  }
}
