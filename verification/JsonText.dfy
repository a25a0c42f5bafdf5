/** JSON texts as bytes: what a text of tokens is, in literals and without the tokenizer, and that the
    tokenizer reads exactly these texts (Lua/lua_cjson.c:148-185, 396-441, 488-704, 755-878, 888-1089). */
module JsonText {
  import opened Options
  import opened StrBuf
  import opened Utf8
  import opened JsonLexer
  import opened JsonGrammar
  import opened JsonEncode

  /** Section 2 of RFC 8259. */
  predicate IsWhite(b: Byte) {
    b == 0x20 || b == 0x09 || b == 0x0A || b == 0x0D
  }

  predicate White(s: seq<Byte>) {
    forall i :: 0 <= i < |s| ==> IsWhite(s[i])
  }

  // ----- strings ------------------------------------------------------------

  /** A hexadecimal digit, upper or lower case. */
  function HexValue(b: Byte): int {
    if 0x30 <= b <= 0x39 then b as int - 0x30
    else if 0x41 <= b <= 0x46 then b as int - 0x41 + 10
    else if 0x61 <= b <= 0x66 then b as int - 0x61 + 10
    else -1
  }

  /** The four hexadecimal digits from `i` on, or -1. */
  function Unit(x: seq<Byte>, i: nat): int {
    if i + 4 > |x| || HexValue(x[i]) < 0 || HexValue(x[i + 1]) < 0 || HexValue(x[i + 2]) < 0 || HexValue(x[i + 3]) < 0 then -1
    else 0x1000 * HexValue(x[i]) + 0x100 * HexValue(x[i + 1]) + 0x10 * HexValue(x[i + 2]) + HexValue(x[i + 3])
  }

  /** `x` begins with the escape of one UTF-16 code unit, or of a surrogate pair, for the code point `cp`. */
  predicate UnicodeFront(x: seq<Byte>, n: nat, cp: int) {
    && n <= |x| && (n == 6 || n == 12) && x[0] == 0x5C && x[1] == 0x75
    && (n == 6 ==> cp == Unit(x, 2) && (0 <= cp < 0xD800 || 0xE000 <= cp))
    && (n == 12 ==>
          x[6] == 0x5C && x[7] == 0x75 && 0xD800 <= Unit(x, 2) < 0xDC00 && 0xDC00 <= Unit(x, 8) < 0xE000
          && cp == 0x1_0000 + (Unit(x, 2) - 0xD800) * 0x400 + (Unit(x, 8) - 0xDC00))
  }

  /** The escapes of two characters. */
  function PairValue(b: Byte): Option<Byte> {
    if b == 0x22 || b == 0x5C || b == 0x2F then Some(b)
    else if b == 0x62 then Some(0x08)
    else if b == 0x66 then Some(0x0C)
    else if b == 0x6E then Some(0x0A)
    else if b == 0x72 then Some(0x0D)
    else if b == 0x74 then Some(0x09)
    else None
  }

  /** `x` begins with a \u escape of `n` characters for the UTF-8 bytes `u`. */
  ghost predicate UnicodeAt(x: seq<Byte>, n: nat, u: seq<Byte>) {
    WellFormed(u) && UnicodeFront(x, n, CodePoint(u))
  }

  /** `x` begins with `n` bytes that are one character of a string: one byte that stands for itself, a
      backslash and a letter, or a \u escape. */
  ghost predicate CharAt(x: seq<Byte>, n: nat, u: seq<Byte>) {
    || (n == 1 <= |x| && x[0] != 0x22 && x[0] != 0x5C && x[0] != 0 && u == [x[0]])
    || (n == 2 <= |x| && x[0] == 0x5C && PairValue(x[1]).Some? && u == [PairValue(x[1]).value])
    || UnicodeAt(x, n, u)
  }

  /** The text `x` between the quotes stands for the bytes `v`. */
  ghost predicate CharsText(x: seq<Byte>, v: seq<Byte>)
    decreases |x|
  {
    if x == [] then v == []
    else exists n: nat, m: nat :: 0 < n <= |x| && m <= |v| && CharAt(x, n, v[..m]) && CharsText(x[n..], v[m..])
  }

  lemma HexIs(b: Byte)
    ensures HexDigit(b) == HexValue(b) && HexValue(0) == -1
  {
  }

  /** decode_hex4 reads the four digits. */
  lemma HexUnit(s: seq<Byte>, i: nat)
    ensures Hex4(s, i) == Unit(s, i)
  {
    HexIs(At(s, i));
    HexIs(At(s, i + 1));
    HexIs(At(s, i + 2));
    HexIs(At(s, i + 3));
    hide HexDigit;
  }

  /** json_append_unicode_escape accepts these escapes and no others. */
  lemma EscapeIs(s: seq<Byte>, cp: nat, n: nat)
    requires |s| >= 2 && s[0] == 0x5C && s[1] == 0x75
    ensures Escape(s) == Some((cp, n)) <==> UnicodeFront(s, n, cp)
  {
    HexUnit(s, 2);
    HexUnit(s, 8);
    hide Hex4;
    UnitFits(s, 2);
    UnitFits(s, 8);
    Surrogates(Unit(s, 2));
    Surrogates(Unit(s, 8));
    hide Unit;
  }

  lemma UnitFits(x: seq<Byte>, i: nat)
    ensures Unit(x, i) < 0x1_0000 && (Unit(x, i) >= 0 ==> i + 4 <= |x|)
  {
  }

  lemma Surrogates(u: int)
    requires -1 <= u < 0x1_0000
    ensures u >= 0 ==> (u / 0x800 == 0xD800 / 0x800 <==> 0xD800 <= u < 0xE000) && (u / 0x400 == 0xDC00 / 0x400 <==> 0xDC00 <= u < 0xE000)
    ensures 0xD800 <= u < 0xE000 ==> (u / 0x400 % 2 == 1 <==> u >= 0xDC00)
    ensures 0xD800 <= u < 0xDC00 ==> u % 0x400 == u - 0xD800
    ensures 0xDC00 <= u < 0xE000 ==> u % 0x400 == u - 0xDC00
  {
  }

  lemma PairIs(b: Byte)
    ensures PairValue(b) == if Unescape(b) != 0 && Unescape(b) != LETTER_U then Some(Unescape(b)) else None
    ensures Unescape(b) == LETTER_U <==> b == 0x75
  {
  }

  lemma FrontOfMore(x: seq<Byte>, k: seq<Byte>, n: nat, cp: int)
    requires UnicodeFront(x, n, cp)
    ensures UnicodeFront(x + k, n, cp)
  {
    UnitOfMore(x, k, 2);
    if n == 12 { UnitOfMore(x, k, 8); }
    hide Unit;
  }

  lemma UnitOfMore(x: seq<Byte>, k: seq<Byte>, i: nat)
    requires i + 4 <= |x|
    ensures Unit(x + k, i) == Unit(x, i)
  {
  }

  lemma FrontOfLess(s: seq<Byte>, n: nat, m: nat, cp: int)
    requires UnicodeFront(s, n, cp) && n <= m <= |s|
    ensures UnicodeFront(s[..m], n, cp)
  {
    assert s[..m] + s[m..] == s;
    UnitOfMore(s[..m], s[m..], 2);
    if n == 12 { UnitOfMore(s[..m], s[m..], 8); }
    hide Unit;
  }

  /** One escape at the front of a string body. */
  lemma EscapeRead(x: seq<Byte>, n: nat, u: seq<Byte>, k: seq<Byte>)
    requires UnicodeAt(x, n, u)
    ensures Unquote(x + k) == Prepend(u, n, Unquote((x + k)[n..]))
  {
    var s, cp := x + k, CodePoint(u);
    EncodingIsUnique(u);
    FrontOfMore(x, k, n, cp);
    EscapeIs(s, cp, n);
    PairIs(0x75);
    hide Escape, ToUtf8, Unescape, WellFormed, CodePoint, UnicodeFront;
    assert At(s, 0) == 0x5C && At(s, 1) == 0x75 by { FrontStarts(x, n, cp); }
  }

  lemma FrontStarts(x: seq<Byte>, n: nat, cp: int)
    requires UnicodeFront(x, n, cp)
    ensures |x| >= n >= 6 && x[0] == 0x5C && x[1] == 0x75
  {
  }

  lemma QuoteEnds(k: seq<Byte>)
    ensures Unquote([0x22] + k) == Some(([], 1))
  {
  }

  lemma PairRead(x: seq<Byte>, k: seq<Byte>)
    requires |x| >= 2 && x[0] == 0x5C && PairValue(x[1]).Some?
    ensures Unquote(x + k) == Prepend([PairValue(x[1]).value], 2, Unquote(x[2..] + k))
  {
    PairIs(x[1]);
    hide PairValue, Unquote, Unescape;
    assert x + k == [0x5C, x[1]] + (x[2..] + k);
    OnePairEscape(x[1], x[2..] + k);
  }

  lemma PlainRead(x: seq<Byte>, k: seq<Byte>)
    requires |x| >= 1 && x[0] != 0x22 && x[0] != 0x5C && x[0] != 0
    ensures Unquote(x + k) == Prepend([x[0]], 1, Unquote(x[1..] + k))
  {
    hide Unquote;
    assert x + k == [x[0]] + (x[1..] + k);
    OnePlain(x[0], x[1..] + k);
  }

  /** One character at the front of a string body. */
  lemma CharRead(x: seq<Byte>, n: nat, u: seq<Byte>, k: seq<Byte>)
    requires CharAt(x, n, u) && n <= |x|
    ensures Unquote(x + k) == Prepend(u, n, Unquote(x[n..] + k))
  {
    hide UnicodeAt, PairValue, Unquote, Prepend;
    if UnicodeAt(x, n, u) {
      EscapeRead(x, n, u, k);
      assert (x + k)[n..] == x[n..] + k;
    } else if n == 2 {
      PairRead(x, k);
    } else {
      PlainRead(x, k);
    }
  }

  /** A text of characters is read as the bytes that it stands for. */
  lemma {:induction false} CharsAreRead(x: seq<Byte>, v: seq<Byte>, k: seq<Byte>)
    requires CharsText(x, v)
    ensures Unquote(x + ([0x22] + k)) == Some((v, |x| + 1))
    decreases |x|
  {
    hide CharAt, Unquote;
    if x == [] {
      assert x + ([0x22] + k) == [0x22] + k;
      QuoteEnds(k);
    } else {
      var n: nat, m: nat :| 0 < n <= |x| && m <= |v| && CharAt(x, n, v[..m]) && CharsText(x[n..], v[m..]);
      CharsAreRead(x[n..], v[m..], k);
      CharRead(x, n, v[..m], [0x22] + k);
      assert v[..m] + v[m..] == v;
    }
  }

  /** The cases of the string loop. */
  lemma UnquoteCases(s: seq<Byte>)
    requires Unquote(s).Some?
    ensures s != [] && s[0] != 0
    ensures s[0] == 0x22 ==> Unquote(s) == Some(([], 1))
    ensures s[0] == 0x5C && Unescape(At(s, 1)) == LETTER_U ==>
      Escape(s).Some? && var (cp, n) := Escape(s).value; 6 <= n <= |s| && Scalar(cp) && Unquote(s) == Prepend(ToUtf8(cp), n, Unquote(s[n..]))
    ensures s[0] == 0x5C && Unescape(At(s, 1)) != LETTER_U ==>
      |s| >= 2 && Unescape(s[1]) != 0 && Unquote(s) == Prepend([Unescape(s[1])], 2, Unquote(s[2..]))
    ensures s[0] != 0x22 && s[0] != 0x5C ==> Unquote(s) == Prepend([s[0]], 1, Unquote(s[1..]))
  {
    if s != [] && s[0] == 0x5C && Unescape(At(s, 1)) == LETTER_U { EscapeIsScalar(s); }
    hide Escape, ToUtf8;
  }

  lemma FirstCharRead(s: seq<Byte>) returns (n: nat, u: seq<Byte>)
    requires Unquote(s).Some? && s[0] != 0x22
    ensures 0 < n <= |s| && CharAt(s, n, u) && Unquote(s) == Prepend(u, n, Unquote(s[n..]))
  {
    UnquoteCases(s);
    hide Unquote, UnicodeFront;
    if s[0] == 0x5C {
      PairIs(At(s, 1));
      if Unescape(At(s, 1)) == LETTER_U {
        hide Unescape, PairValue;
        n, u := Escape(s).value.1, ToUtf8(Escape(s).value.0);
        EscapeIs(s, Escape(s).value.0, n);
        hide Escape, ToUtf8;
        IsUnicodeAt(s, n, Escape(s).value.0);
        hide UnicodeAt;
      } else {
        hide PairValue, Unescape, UnicodeAt;
        n, u := 2, [Unescape(s[1])];
      }
    } else {
      n, u := 1, [s[0]];
    }
  }

  lemma IsUnicodeAt(x: seq<Byte>, n: nat, cp: nat)
    requires Scalar(cp) && UnicodeFront(x, n, cp)
    ensures UnicodeAt(x, n, ToUtf8(cp))
  {
    EncodeIsWellFormed(cp);
    hide WellFormed, CodePoint, UnicodeFront, ToUtf8;
  }

  /** A character does not depend on what stands behind it. */
  lemma CharOfLess(s: seq<Byte>, n: nat, j: nat, u: seq<Byte>)
    requires CharAt(s, n, u) && n <= j <= |s|
    ensures CharAt(s[..j], n, u)
  {
    if UnicodeAt(s, n, u) {
      FrontOfLess(s, n, j, CodePoint(u));
      hide WellFormed, CodePoint, UnicodeFront;
    }
  }

  lemma CharsOfMore(x: seq<Byte>, n: nat, u: seq<Byte>, v: seq<Byte>)
    requires 0 < n <= |x| && CharAt(x, n, u) && CharsText(x[n..], v)
    ensures CharsText(x, u + v)
  {
    hide CharAt;
    assert (u + v)[..|u|] == u && (u + v)[|u|..] == v;
  }

  /** `s` begins with the text of a string, up to its closing quote. */
  ghost predicate IsStringText(s: seq<Byte>, v: seq<Byte>, n: nat) {
    1 <= n <= |s| && s[n - 1] == 0x22 && CharsText(s[..n - 1], v)
  }

  lemma StringOfMore(s: seq<Byte>, n: nat, u: seq<Byte>, v: seq<Byte>, m: nat)
    requires 0 < n <= |s| && CharAt(s, n, u) && IsStringText(s[n..], v, m)
    ensures IsStringText(s, u + v, n + m)
  {
    hide CharAt, CharsText;
    var j := n + m - 1;
    assert s[..j][n..] == s[n..][..m - 1];
    CharOfLess(s, n, j, u);
    CharsOfMore(s[..j], n, u, v);
  }

  /** What is read as a string is such a text. */
  lemma {:induction false} ReadIsChars(s: seq<Byte>)
    requires Unquote(s).Some?
    ensures IsStringText(s, Unquote(s).value.0, Unquote(s).value.1)
    decreases |s|
  {
    UnquoteCases(s);
    if s[0] != 0x22 {
      var n, u := FirstCharRead(s);
      ReadIsChars(s[n..]);
      hide CharAt, Unquote, IsStringText;
      StringOfMore(s, n, u, Unquote(s[n..]).value.0, Unquote(s[n..]).value.1);
    }
  }

  // ----- tokens -------------------------------------------------------------

  /** `b` is the lower-case letter `l` or its upper case. */
  predicate Letter(b: Byte, l: Byte) {
    b == l || b as int == l as int - 0x20
  }

  /** What strtod takes and strict JSON does not: a plus sign, a hexadecimal number, a zero in front of
      another digit, and the words inf and nan in either case. */
  predicate Odd(s: seq<Byte>) {
    var p := if s != [] && s[0] == 0x2D then s[1..] else s;
    || (s != [] && s[0] == 0x2B)
    || (|p| >= 2 && p[0] == 0x30 && (p[1] == 0x78 || p[1] == 0x58 || 0x30 <= p[1] <= 0x39))
    || (|p| >= 3 && Letter(p[0], 0x69) && Letter(p[1], 0x6E) && Letter(p[2], 0x66))
    || (|p| >= 3 && Letter(p[0], 0x6E) && Letter(p[1], 0x61) && Letter(p[2], 0x6E))
  }

  predicate StartsLikeNumber(s: seq<Byte>) {
    s != [] && (s[0] == 0x2D || 0x30 <= s[0] <= 0x39)
  }

  /** The bytes `text`, with `rest` behind them, are the token: punctuation, words and strings in literal
      bytes, and a number as far as the number library reads. */
  ghost predicate Spelled<N>(c: Codec<N>, lax: bool, tok: Token<N>, text: seq<Byte>, rest: seq<Byte>) {
    match tok
    case ObjBegin => text == [0x7B]
    case ObjEnd => text == [0x7D]
    case ArrBegin => text == [0x5B]
    case ArrEnd => text == [0x5D]
    case Colon => text == [0x3A]
    case Comma => text == [0x2C]
    case Null => text == [0x6E, 0x75, 0x6C, 0x6C]
    case Bool(b) => text == if b then [0x74, 0x72, 0x75, 0x65] else [0x66, 0x61, 0x6C, 0x73, 0x65]
    case Str(v) => |text| >= 2 && text[0] == 0x22 && text[|text| - 1] == 0x22 && CharsText(text[1..|text| - 1], v)
    case Num(x) =>
      && text != [] && c.scan(text + rest) == Some((x, |text|))
      && if StartsLikeNumber(text) then lax || !Odd(text + rest) else lax && Odd(text + rest)
    case End => false
    case Error => false
  }

  /** The text `s` is these tokens, with any runs of white space before, between and behind them. */
  ghost predicate Reading<N>(c: Codec<N>, lax: bool, toks: List<Token<N>>, s: seq<Byte>)
    decreases toks
  {
    match toks
    case Nil => false
    case Cons(tok, more) =>
      if tok == End then more == Nil && White(s)
      else exists i: nat, j: nat ::
        i < j <= |s| && White(s[..i]) && Spelled(c, lax, tok, s[i..j], s[j..]) && Reading(c, lax, more, s[j..])
  }

  lemma OddIs(s: seq<Byte>)
    ensures IsInvalidNumber(s) <==> Odd(s)
  {
    var p := if s != [] && s[0] == 0x2D then s[1..] else s;
    assert At(s, 0) != 0x2D ==> p == s;
    LettersAre(p);
    hide StartsWithLetters;
  }

  lemma LettersAre(p: seq<Byte>)
    ensures StartsWithLetters(p, INF_TEXT) <==> |p| >= 3 && Letter(p[0], 0x69) && Letter(p[1], 0x6E) && Letter(p[2], 0x66)
    ensures StartsWithLetters(p, NAN_TEXT) <==> |p| >= 3 && Letter(p[0], 0x6E) && Letter(p[1], 0x61) && Letter(p[2], 0x6E)
  {
    assert |INF_TEXT| == 3 && INF_TEXT[0] == 0x69 && INF_TEXT[1] == 0x6E && INF_TEXT[2] == 0x66;
    assert |NAN_TEXT| == 3 && NAN_TEXT[0] == 0x6E && NAN_TEXT[1] == 0x61 && NAN_TEXT[2] == 0x6E;
  }

  lemma StringSpelled<N>(text: seq<Byte>, rest: seq<Byte>, v: seq<Byte>)
    requires |text| >= 2 && text[0] == 0x22 && text[|text| - 1] == 0x22 && CharsText(text[1..|text| - 1], v)
    ensures StringToken<N>(text + rest) == (Str(v), |text|)
  {
    hide CharsText, Unquote;
    var x := text[1..|text| - 1];
    CharsAreRead(x, v, rest);
    assert (text + rest)[1..] == x + ([0x22] + rest);
  }

  lemma StringIsSpelled<N>(s: seq<Byte>)
    requires |s| > 0 && s[0] == 0x22 && StringToken<N>(s).0 != Error
    ensures var (tok, n) := StringToken<N>(s);
      tok.Str? && 2 <= n <= |s| && s[n - 1] == 0x22 && CharsText(s[1..n - 1], tok.s)
  {
    hide CharsText, Unquote;
    ReadIsChars(s[1..]);
    var (v, n) := Unquote(s[1..]).value;
    assert s[1..][..n - 1] == s[1..n];
  }

  /** The words of JSON are no odd numbers. */
  lemma WordsAreNotOdd(s: seq<Byte>)
    requires StartsWith(s, TRUE_TEXT) || StartsWith(s, FALSE_TEXT) || StartsWith(s, NULL_TEXT)
    ensures !Odd(s)
  {
    WordBytes(s);
    hide StartsWith;
  }

  lemma WordBytes(s: seq<Byte>)
    ensures StartsWith(s, TRUE_TEXT) <==> |s| >= 4 && s[..4] == [0x74, 0x72, 0x75, 0x65]
    ensures StartsWith(s, FALSE_TEXT) <==> |s| >= 5 && s[..5] == [0x66, 0x61, 0x6C, 0x73, 0x65]
    ensures StartsWith(s, NULL_TEXT) <==> |s| >= 4 && s[..4] == [0x6E, 0x75, 0x6C, 0x6C]
    ensures |s| >= 4 && s[..4] == [0x74, 0x72, 0x75, 0x65] ==> s[0] == 0x74
    ensures |s| >= 5 && s[..5] == [0x66, 0x61, 0x6C, 0x73, 0x65] ==> s[0] == 0x66
    ensures |s| >= 4 && s[..4] == [0x6E, 0x75, 0x6C, 0x6C] ==> s[0] == 0x6E && s[1] == 0x75
  {
  }

  lemma WordIsRead<N>(c: Codec<N>, lax: bool, tok: Token<N>, text: seq<Byte>, rest: seq<Byte>)
    requires (tok.Null? || tok.Bool?) && Spelled(c, lax, tok, text, rest)
    ensures TokenAt(c, lax, text + rest) == (tok, |text|)
  {
    var s := text + rest;
    WordBytes(s);
    assert s[..|text|] == text && s[0] == text[0];
    hide StartsWith, NumberToken, IsInvalidNumber, StringToken;
  }

  lemma NumberIsRead<N>(c: Codec<N>, lax: bool, tok: Token<N>, text: seq<Byte>, rest: seq<Byte>)
    requires tok.Num? && Spelled(c, lax, tok, text, rest)
    ensures TokenAt(c, lax, text + rest) == (tok, |text|)
  {
    var s := text + rest;
    OddIs(s);
    assert s[0] == text[0];
    OddStarts(s);
    if StartsWith(s, TRUE_TEXT) || StartsWith(s, FALSE_TEXT) || StartsWith(s, NULL_TEXT) { WordsAreNotOdd(s); WordBytes(s); }
    hide StartsWith, IsInvalidNumber, StringToken, Odd;
  }

  lemma OddStarts(s: seq<Byte>)
    ensures Odd(s) ==> s[0] == 0x2B || s[0] == 0x2D || s[0] == 0x30 || s[0] == 0x69 || s[0] == 0x49 || s[0] == 0x6E || s[0] == 0x4E
  {
  }

  predicate IsMark<N>(tok: Token<N>) {
    tok == ObjBegin || tok == ObjEnd || tok == ArrBegin || tok == ArrEnd || tok == Colon || tok == Comma
  }

  lemma MarkIsRead<N>(c: Codec<N>, lax: bool, tok: Token<N>, text: seq<Byte>, rest: seq<Byte>)
    requires IsMark(tok) && Spelled(c, lax, tok, text, rest)
    ensures TokenAt(c, lax, text + rest) == (tok, |text|)
  {
    FirstOfText(text, rest);
    hide StringToken, NumberToken, WordToken, IsInvalidNumber, CharsText, Odd, At;
    MarksAre<N>();
    hide SingleToken;
  }

  lemma MarksAre<N>()
    ensures SingleToken<N>(0x7B) == Some(ObjBegin) && SingleToken<N>(0x7D) == Some(ObjEnd)
    ensures SingleToken<N>(0x5B) == Some(ArrBegin) && SingleToken<N>(0x5D) == Some(ArrEnd)
    ensures SingleToken<N>(0x3A) == Some(Colon) && SingleToken<N>(0x2C) == Some(Comma)
  {
  }

  lemma FirstOfText(text: seq<Byte>, rest: seq<Byte>)
    ensures text != [] ==> At(text + rest, 0) == text[0]
  {
  }

  lemma StringIsRead<N>(c: Codec<N>, lax: bool, tok: Token<N>, text: seq<Byte>, rest: seq<Byte>)
    requires tok.Str? && Spelled(c, lax, tok, text, rest)
    ensures TokenAt(c, lax, text + rest) == (tok, |text|)
  {
    StringSpelled<N>(text, rest, tok.s);
    FirstOfText(text, rest);
    hide StringToken, NumberToken, WordToken, IsInvalidNumber, CharsText, Odd, At;
  }

  lemma SpelledStarts<N>(c: Codec<N>, lax: bool, tok: Token<N>, text: seq<Byte>, rest: seq<Byte>)
    requires Spelled(c, lax, tok, text, rest)
    ensures text != [] && !IsSpace(text[0]) && tok != End && tok != Error
  {
    hide CharsText;
    if tok.Num? && !StartsLikeNumber(text) {
      OddStarts(text + rest);
    }
    hide Odd;
  }

  /** What is spelled as a token is read as that token, and as no more. */
  lemma SpelledIsRead<N>(c: Codec<N>, lax: bool, tok: Token<N>, text: seq<Byte>, rest: seq<Byte>)
    requires Spelled(c, lax, tok, text, rest)
    ensures TokenAt(c, lax, text + rest) == (tok, |text|)
  {
    SpelledStarts(c, lax, tok, text, rest);
    hide TokenAt, Spelled;
    if IsMark(tok) {
      MarkIsRead(c, lax, tok, text, rest);
    } else if tok.Str? {
      StringIsRead(c, lax, tok, text, rest);
    } else if tok.Num? {
      NumberIsRead(c, lax, tok, text, rest);
    } else {
      WordIsRead(c, lax, tok, text, rest);
    }
  }

  /** What is read as a token is spelled so. */
  lemma ReadIsSpelled<N>(c: Codec<N>, lax: bool, s: seq<Byte>)
    requires TokenAt(c, lax, s).0 != Error && TokenAt(c, lax, s).0 != End
    ensures var (tok, n) := TokenAt(c, lax, s); 0 < n <= |s| && Spelled(c, lax, tok, s[..n], s[n..])
  {
    var (tok, n) := TokenAt(c, lax, s);
    assert s[..n] + s[n..] == s;
    if s[0] == 0x22 {
      StringIsSpelled<N>(s);
      assert s[..n][1..n - 1] == s[1..n - 1];
      hide StringToken, CharsText;
    } else if StartsLikeNumber(s) {
      OddIs(s);
      hide IsInvalidNumber, Odd;
    } else {
      OddIs(s);
      WordBytes(s);
      hide StartsWith, IsInvalidNumber, Odd, StringToken;
    }
  }

  // ----- whole texts --------------------------------------------------------

  lemma SpacesAre(s: seq<Byte>, i: nat)
    requires i <= |s| && White(s[..i]) && (i < |s| ==> !IsSpace(s[i]))
    ensures Spaces(s) == i
  {
    assert forall j :: 0 <= j < i ==> IsSpace(s[j]) by {
      forall j | 0 <= j < i ensures IsSpace(s[j]) { assert s[..i][j] == s[j]; }
    }
  }

  lemma SpacesAreWhite(s: seq<Byte>)
    ensures White(s[..Spaces(s)])
  {
  }

  lemma SpelledIsNext<N>(c: Codec<N>, lax: bool, tok: Token<N>, s: seq<Byte>, i: nat, j: nat)
    requires i < j <= |s| && White(s[..i]) && Spelled(c, lax, tok, s[i..j], s[j..])
    ensures NextToken(c, lax, s) == (tok, j) && tok != End && tok != Error
  {
    hide Spelled, TokenAt, White, IsSpace;
    SpelledIsRead(c, lax, tok, s[i..j], s[j..]);
    SpelledStarts(c, lax, tok, s[i..j], s[j..]);
    assert s[i..j][0] == s[i];
    SpacesAre(s, i);
    Rejoined(s, i, j);
  }

  lemma Rejoined(s: seq<Byte>, i: nat, j: nat)
    requires i <= j <= |s|
    ensures s[i..j] + s[j..] == s[i..] && s[i..][..j - i] == s[i..j] && s[i..][j - i..] == s[j..]
  {
  }

  lemma WhiteIsEnd<N>(c: Codec<N>, lax: bool, s: seq<Byte>)
    requires White(s)
    ensures NextToken(c, lax, s) == (Token<N>.End, |s|)
  {
    hide TokenAt, White;
    assert s[..|s|] == s;
    SpacesAre(s, |s|);
    EndIsRead(c, lax);
  }

  /** What is a reading of the text is what the tokenizer finds. */
  lemma {:induction false} ReadingIsLexed<N>(c: Codec<N>, lax: bool, toks: List<Token<N>>, s: seq<Byte>)
    requires Reading(c, lax, toks, s)
    ensures Lex(c, lax, s) == toks
    decreases toks
  {
    hide Spelled, NextToken, White;
    if toks.head == End {
      WhiteIsEnd(c, lax, s);
    } else {
      var tok, more := toks.head, toks.tail;
      var i: nat, j: nat :|
        i < j <= |s| && White(s[..i]) && Spelled(c, lax, tok, s[i..j], s[j..]) && Reading(c, lax, more, s[j..]);
      SpelledIsNext(c, lax, tok, s, i, j);
      ReadingIsLexed(c, lax, more, s[j..]);
    }
  }

  lemma EndIsRead<N>(c: Codec<N>, lax: bool)
    ensures TokenAt(c, lax, []) == (Token<N>.End, 0)
  {
    hide WordToken, StringToken, NumberToken;
  }

  predicate HasError<N>(toks: List<Token<N>>) {
    toks.Cons? && (toks.head == Error || HasError(toks.tail))
  }

  lemma ReadingOfMore<N>(c: Codec<N>, lax: bool, tok: Token<N>, more: List<Token<N>>, s: seq<Byte>, i: nat, j: nat)
    requires tok != End && i < j <= |s| && White(s[..i]) && Spelled(c, lax, tok, s[i..j], s[j..])
    requires Reading(c, lax, more, s[j..])
    ensures Reading(c, lax, Cons(tok, more), s)
  {
    hide White, Spelled;
  }

  lemma NextIsSpelled<N>(c: Codec<N>, lax: bool, s: seq<Byte>) returns (i: nat)
    requires 0 !in s && NextToken(c, lax, s).0 != Error
    ensures var (tok, j) := NextToken(c, lax, s);
      if tok == End then White(s) else i < j <= |s| && White(s[..i]) && Spelled(c, lax, tok, s[i..j], s[j..])
  {
    hide Spelled, TokenAt, White, Spaces;
    i := Spaces(s);
    SpacesAreWhite(s);
    if NextToken(c, lax, s).0 == End {
      NulIsEnd(c, lax, s[i..]);
      assert s[..i] == s;
    } else {
      ReadIsSpelled(c, lax, s[i..]);
      Rejoined(s, i, NextToken(c, lax, s).1);
    }
  }

  /** The tokens that the tokenizer finds are a reading of the text, unless it throws. */
  lemma {:induction false} LexedIsReading<N>(c: Codec<N>, lax: bool, s: seq<Byte>)
    requires 0 !in s && !HasError(Lex(c, lax, s))
    ensures Reading(c, lax, Lex(c, lax, s), s)
    decreases |s|
  {
    hide Spelled, NextToken, White;
    var (tok, j) := NextToken(c, lax, s);
    var i := NextIsSpelled(c, lax, s);
    if tok != End {
      LexedIsReading(c, lax, s[j..]);
      ReadingOfMore(c, lax, tok, Lex(c, lax, s[j..]), s, i, j);
    }
  }

  lemma NulIsEnd<N>(c: Codec<N>, lax: bool, s: seq<Byte>)
    requires TokenAt(c, lax, s).0 == End && 0 !in s
    ensures s == []
  {
    hide IsInvalidNumber, Unquote, StartsWith;
  }

  lemma {:induction false} YieldHasNoError<N>(t: Tree<N>, k: List<Token<N>>)
    requires IsTree(t)
    ensures HasError(Yield(t, k)) == HasError(k)
    decreases t
  {
    match t
    case Leaf(_, _) =>
    case Arr(items) => ItemsHaveNoError(items, Cons(ArrEnd, k));
    case Obj(members) => MembersHaveNoError(members, Cons(ObjEnd, k));
  }

  lemma {:induction false} ItemsHaveNoError<N>(items: Items<N>, k: List<Token<N>>)
    requires AreItems(items)
    ensures HasError(YieldItems(items, k)) == HasError(k)
    decreases items
  {
    if items.Item? {
      YieldHasNoError(items.head, if items.tail.NoItem? then k else Cons(Comma, YieldItems(items.tail, k)));
      ItemsHaveNoError(items.tail, k);
    }
  }

  lemma {:induction false} MembersHaveNoError<N>(members: Members<N>, k: List<Token<N>>)
    requires AreMembers(members)
    ensures HasError(YieldMembers(members, k)) == HasError(k)
    decreases members
  {
    if members.Member? {
      YieldHasNoError(members.value, if members.tail.NoMember? then k else Cons(Comma, YieldMembers(members.tail, k)));
      MembersHaveNoError(members.tail, k);
    }
  }

  /** The text is the tree, with any runs of spaces, tabs, line feeds and carriage returns before, between
      and behind its tokens. */
  ghost predicate TreeText<N>(c: Codec<N>, lax: bool, t: Tree<N>, s: seq<Byte>) {
    IsTree(t) && Reading(c, lax, Yield(t, Cons(End, Nil)), s)
  }

  /** The tokens of a text are those of a tree exactly when the text is that tree. */
  lemma TextOfTree<N>(c: Codec<N>, lax: bool, t: Tree<N>, s: seq<Byte>)
    requires IsTree(t) && 0 !in s
    ensures Lex(c, lax, s) == Yield(t, Cons(End, Nil)) <==> TreeText(c, lax, t, s)
  {
    hide Lex, Yield, Reading, IsTree;
    YieldHasNoError(t, Cons(End, Nil));
    if Lex(c, lax, s) == Yield(t, Cons(End, Nil)) {
      LexedIsReading(c, lax, s);
    } else if TreeText(c, lax, t, s) {
      ReadingIsLexed(c, lax, Yield(t, Cons(End, Nil)), s);
    }
  }

  /** json_decode gives `v` exactly when neither of the first two bytes is 0 and the bytes before the first
      NUL are the text of a tree within the depth limit whose value is `v`. */
  lemma DecodesText<N(!new)>(c: Codec<N>, lax: bool, max: nat, s: seq<Byte>, v: Value<N>)
    ensures Decode(c, lax, max, s) == Some(v) <==>
      !(|s| >= 2 && (s[0] == 0 || s[1] == 0)) && exists t :: TreeText(c, lax, t, CString(s)) && Height(t) <= max && ValueOf(c, t) == v
  {
    hide Lex, CString, Yield, ValueOf, Height, Reading, Decode, IsTree;
    DecodeAcceptsGrammar(c, lax, max, s, v);
    if Decode(c, lax, max, s) == Some(v) {
      var t :| IsTextOf(c, lax, s, t) && Height(t) <= max && ValueOf(c, t) == v;
      TextOfTree(c, lax, t, CString(s));
    }
    forall t | TreeText(c, lax, t, CString(s)) && Height(t) <= max && ValueOf(c, t) == v
      ensures IsTextOf(c, lax, s, t)
    {
      TextOfTree(c, lax, t, CString(s));
    }
  }

  /** Any other control byte in front of a token is an error, behind white space too. */
  lemma ControlByteIsRefused<N>(c: Codec<N>, lax: bool, max: nat, w: seq<Byte>, b: Byte, k: seq<Byte>)
    requires White(w) && 0 < b < 0x20 && b != 0x09 && b != 0x0A && b != 0x0D
    ensures NextToken(c, lax, w + [b] + k) == (Token<N>.Error, |w|)
    ensures Lex(c, lax, w + [b] + k) == Cons(Error, Nil)
    ensures Decode(c, lax, max, w + [b] + k) == None
  {
    ControlByteIsError(c, lax, w, b, k);
    hide Lex, ParseValue, NextToken;
    if !LooksLikeUtf16(w + [b] + k) {
      var k' :| CString(w + [b] + k) == w + [b] + k' by { CutBehind(w + [b], k); }
      ControlByteIsError(c, lax, w, b, k');
      ErrorIsNoValue(c, max);
    }
  }

  lemma ErrorIsNoValue<N>(c: Codec<N>, max: nat)
    ensures DecodeTokens(c, Cons(Token<N>.Error, Nil), max) == None
  {
  }

  lemma ControlByteIsError<N>(c: Codec<N>, lax: bool, w: seq<Byte>, b: Byte, k: seq<Byte>)
    requires White(w) && 0 < b < 0x20 && b != 0x09 && b != 0x0A && b != 0x0D
    ensures NextToken(c, lax, w + [b] + k) == (Token<N>.Error, |w|)
    ensures Lex(c, lax, w + [b] + k) == Cons(Error, Nil)
  {
    var s := w + [b] + k;
    assert s[..|w|] == w && s[|w|] == b && s[|w|..][0] == b;
    SpacesAre(s, |w|);
    hide IsInvalidNumber, Unquote, StartsWith, White;
  }

  lemma {:induction false} CutBehind(x: seq<Byte>, k: seq<Byte>)
    requires 0 !in x
    ensures CString(x + k) == x + CString(k)
    decreases |x|
  {
    if x == [] {
      assert x + k == k;
    } else {
      assert (x + k)[1..] == x[1..] + k;
      CutBehind(x[1..], k);
    }
  }

  // ----- what is written ----------------------------------------------------

  /** The digit of a number from 0 to 15 in lower case. */
  function HexLetter(d: int): int {
    if d < 10 then 0x30 + d else 0x57 + d
  }

  /** What each byte becomes in a string: \b, \t, \n, \f, \r, six characters for the other control bytes and
      for DEL, a backslash in front of quote, slash and backslash, and every other byte unchanged. */
  lemma EscapesAre(b: Byte)
    ensures b == 0x08 ==> EscapeOf(b) == [0x5C, 0x62]
    ensures b == 0x09 ==> EscapeOf(b) == [0x5C, 0x74]
    ensures b == 0x0A ==> EscapeOf(b) == [0x5C, 0x6E]
    ensures b == 0x0C ==> EscapeOf(b) == [0x5C, 0x66]
    ensures b == 0x0D ==> EscapeOf(b) == [0x5C, 0x72]
    ensures (b < 0x08 || b == 0x0B || 0x0E <= b < 0x20 || b == 0x7F) ==>
      |EscapeOf(b)| == 6 && EscapeOf(b)[..4] == [0x5C, 0x75, 0x30, 0x30]
      && EscapeOf(b)[4] as int == HexLetter(b as int / 16) && EscapeOf(b)[5] as int == HexLetter(b as int % 16)
    ensures (b == 0x22 || b == 0x2F || b == 0x5C) ==> EscapeOf(b) == [0x5C, b]
    ensures (b >= 0x20 && b != 0x22 && b != 0x2F && b != 0x5C && b != 0x7F) ==> EscapeOf(b) == [b]
  {
    if b < 0x20 || b == 0x7F { HexOfControl(b); }
  }

  lemma HexOfControl(b: Byte)
    requires b < 0x80
    ensures EscapeText(b) == [0x5C, 0x75, 0x30, 0x30, HexChar(b as int / 16), HexChar(b as int % 16)]
  {
  }

  /** The parts with a comma between each two. */
  function Listed(parts: seq<seq<Byte>>): seq<Byte> {
    if parts == [] then [] else if |parts| == 1 then parts[0] else parts[0] + [0x2C] + Listed(parts[1..])
  }

  function ElementTexts<N>(items: Items<N>): seq<seq<Byte>> {
    match items
    case NoItem => []
    case Item(head, tail) => [Text(head)] + ElementTexts(tail)
  }

  function MemberTexts<N>(members: Members<N>): seq<seq<Byte>> {
    match members
    case NoMember => []
    case Member(_, keyText, value, tail) => [keyText + [0x3A] + Text(value)] + MemberTexts(tail)
  }

  /** An array is written as its elements, with brackets around them, a comma between each two and nothing else. */
  lemma {:induction false} ArrayIsListed<N>(items: Items<N>)
    ensures ItemsText(items) == Listed(ElementTexts(items))
    ensures Text(Arr(items)) == [0x5B] + Listed(ElementTexts(items)) + [0x5D]
    decreases items
  {
    if items.Item? {
      ArrayIsListed(items.tail);
      assert ElementTexts(items)[1..] == ElementTexts(items.tail);
      hide Text;
    }
  }

  /** An object is written as its members, with braces around them; a member is a key, a colon and a value. */
  lemma {:induction false} ObjectIsListed<N>(members: Members<N>)
    ensures MembersText(members) == Listed(MemberTexts(members))
    ensures Text(Obj(members)) == [0x7B] + Listed(MemberTexts(members)) + [0x7D]
    decreases members
  {
    if members.Member? {
      ObjectIsListed(members.tail);
      assert MemberTexts(members)[1..] == MemberTexts(members.tail);
    }
  }

  /** The texts of leaves and keys. */
  lemma LeavesAreWritten<N>(c: Codec<N>, cfg: Config, n: Node<N>, depth: nat)
    ensures n.StrNode? ==> TreeOf(c, cfg, n, depth) == Ok(Leaf(Str(n.s), [0x22] + Escaped(n.s) + [0x22]))
    ensures n.BoolNode? ==>
      TreeOf(c, cfg, n, depth) == Ok(Leaf(Bool(n.b), if n.b then [0x74, 0x72, 0x75, 0x65] else [0x66, 0x61, 0x6C, 0x73, 0x65]))
    ensures n.NullNode? ==> TreeOf(c, cfg, n, depth) == Ok(Leaf(Null, [0x6E, 0x75, 0x6C, 0x6C]))
    ensures forall k: NodeKey<N>, key: seq<Byte> ::
      KeyText(k, key) == [0x22] + (if k.NumKey? then key else Escaped(key)) + [0x22]
  {
  }

  // ----- arrays, objects and failures ---------------------------------------

  /** The largest index among the keys of a table; 0 for an empty table. */
  ghost predicate IsLargest<N>(c: Codec<N>, entries: seq<Entry<N>>, m: nat) {
    && (forall j :: 0 <= j < |entries| && entries[j].key.NumKey? ==> c.index(entries[j].key.k) <= m)
    && (if entries == [] then m == 0 else exists j :: 0 <= j < |entries| && entries[j].key.NumKey? && c.index(entries[j].key.k) == m)
  }

  /** A table is an object when some key is no integer from 1 on. Otherwise it is an array up to its largest key,
      unless that is above the safe length and above the ratio times the number of entries: then it is an object
      or an error. */
  lemma LengthIs<N>(c: Codec<N>, cfg: Config, entries: seq<Entry<N>>, m: nat)
    ensures (exists j :: 0 <= j < |entries| && !(entries[j].key.NumKey? && c.index(entries[j].key.k) > 0)) ==>
      ArrayLength(c, cfg, entries) == Ok(None)
    ensures (forall j :: 0 <= j < |entries| ==> entries[j].key.NumKey? && c.index(entries[j].key.k) > 0) && IsLargest(c, entries, m) ==>
      ArrayLength(c, cfg, entries) ==
        if cfg.sparseRatio > 0 && m > cfg.sparseSafe && m > cfg.sparseRatio * |entries|
        then (if cfg.sparseConvert then Ok(None) else Err(ExcessivelySparse)) else Ok(Some(m))
  {
    if exists j :: 0 <= j < |entries| && !(entries[j].key.NumKey? && c.index(entries[j].key.k) > 0) {
      var j :| 0 <= j < |entries| && !(entries[j].key.NumKey? && c.index(entries[j].key.k) > 0);
      assert IndexOf(c, entries[j].key) == 0;
    } else if IsLargest(c, entries, m) {
      LargestIs(c, entries, m);
      hide MaxIndex;
    }
  }

  lemma LargestIs<N>(c: Codec<N>, entries: seq<Entry<N>>, m: nat)
    requires forall j :: 0 <= j < |entries| ==> entries[j].key.NumKey?
    requires IsLargest(c, entries, m)
    ensures MaxIndex(c, entries) == m
  {
    var x := MaxIndex(c, entries);
    forall j | 0 <= j < |entries| ensures IndexOf(c, entries[j].key) <= x && IndexOf(c, entries[j].key) <= m {}
    hide MaxIndex;
  }

  /** What cannot be written, and an empty table, which is an object. */
  lemma FailuresAre<N>(c: Codec<N>, cfg: Config, n: Node<N>, depth: nat)
    ensures n.Unsupported? ==> TreeOf(c, cfg, n, depth) == Err(BadType)
    ensures n.NumNode? && !c.finite(n.x) ==> TreeOf(c, cfg, n, depth) == Err(BadNumber)
    ensures n.TableNode? && depth >= cfg.maxDepth ==> TreeOf(c, cfg, n, depth) == Err(ExcessiveNesting)
    ensures n.TableNode? && n.entries == [] && depth < cfg.maxDepth ==> TreeOf(c, cfg, n, depth) == Ok(Obj(NoMember))
    ensures Text(Tree<N>.Obj(NoMember)) == [0x7B, 0x7D]
    ensures n.TableNode? && depth < cfg.maxDepth && ArrayLength(c, cfg, n.entries) == Ok(None) && n.entries != [] ==>
      (n.entries[0].key.OtherKey? ==> TreeOf(c, cfg, n, depth) == Err(BadKey))
      && (n.entries[0].key.NumKey? && !c.finite(n.entries[0].key.k) ==> TreeOf(c, cfg, n, depth) == Err(BadNumber))
    ensures n.TableNode? && depth < cfg.maxDepth && ArrayLength(c, cfg, n.entries).Err? ==> TreeOf(c, cfg, n, depth) == Err(ExcessivelySparse)
  {
    if n.TableNode? && n.entries == [] {
      assert AllIndices(c, n.entries) && MaxIndex(c, n.entries) == 0 && !TooSparse(cfg, 0, 0);
    }
  }
}
