/** The text of JSON strings and literals, and the tokenizer that reads it
    (Lua/lua_cjson.c:148-185, 375-430, 458-482, 888-1089). */
module JsonLexer {
  import opened Options
  import opened StrBuf
  import opened Utf8

  const QUOTE: Byte := 0x22
  const SLASH: Byte := 0x2F
  const COLON: Byte := 0x3A
  const COMMA: Byte := 0x2C
  const OBJ_BEGIN: Byte := 0x7B
  const OBJ_END: Byte := 0x7D
  const ARR_BEGIN: Byte := 0x5B
  const ARR_END: Byte := 0x5D
  const TRUE_TEXT: seq<Byte> := [0x74, 0x72, 0x75, 0x65]
  const FALSE_TEXT: seq<Byte> := [0x66, 0x61, 0x6C, 0x73, 0x65]
  const NULL_TEXT: seq<Byte> := [0x6E, 0x75, 0x6C, 0x6C]
  const INF_TEXT: seq<Byte> := [0x69, 0x6E, 0x66]
  const NAN_TEXT: seq<Byte> := [0x6E, 0x61, 0x6E]

  // ----- numbers ------------------------------------------------------------

  /** The number library: snprintf and strtod, and the table keys that are array indices.
      `index` is 0 for a number that is not an integer above 0. */
  datatype Codec<!N> = Codec(
    format: N -> seq<Byte>, scan: seq<Byte> -> Option<(N, nat)>, finite: N -> bool, index: N -> nat, ofIndex: nat -> N)

  predicate IsDigit(b: Byte) {
    0x30 <= b <= 0x39
  }

  /** What may follow a number that the encoder wrote. */
  predicate Delimits(rest: seq<Byte>) {
    rest == [] || rest[0] == COMMA || rest[0] == OBJ_END || rest[0] == ARR_END
  }

  /** A character of number text: -, +, ., a digit or a letter. */
  predicate NumberChar(b: Byte) {
    b == 0x2B || b == 0x2D || b == 0x2E || IsDigit(b) || 0x41 <= b <= 0x5A || 0x61 <= b <= 0x7A
  }

  /** The value that the text of `x` is read back as. */
  ghost function Reread<N>(c: Codec<N>, x: N): N {
    match c.scan(c.format(x))
    case Some((y, n)) => y
    case None => x
  }

  /** The shape of number text: what is printed for a finite number starts with a digit or a
      minus sign, is a single strict JSON number, fits 31 characters, and is read up to its end. */
  ghost predicate TextOf<N>(c: Codec<N>, x: N) {
    var text := c.format(x);
    && 0 < |text| < 32
    && (text[0] == 0x2D || IsDigit(text[0]))
    && (forall i :: 0 <= i < |text| ==> NumberChar(text[i]))
    && (forall rest :: Delimits(rest) ==> !IsInvalidNumber(text + rest) && c.scan(text + rest) == Some((Reread(c, x), |text|)))
  }

  ghost predicate GoodCodec<N(!new)>(c: Codec<N>) {
    && (forall x: N :: c.finite(x) ==> TextOf(c, x))
    && (forall i: nat :: i >= 1 ==> c.index(c.ofIndex(i)) == i)
    && (forall x: N :: c.index(x) >= 1 ==> c.ofIndex(c.index(x)) == x)
  }

  // ----- strings ------------------------------------------------------------

  /** char2escape: the two-character escapes and \u00XX for the other control characters. */
  function EscapeOf(b: Byte): (e: seq<Byte>)
    ensures 1 <= |e| <= 6
  {
    if b == 0x08 then [BACKSLASH, 0x62]
    else if b == 0x09 then [BACKSLASH, 0x74]
    else if b == 0x0A then [BACKSLASH, 0x6E]
    else if b == 0x0C then [BACKSLASH, 0x66]
    else if b == 0x0D then [BACKSLASH, 0x72]
    else if b < 0x20 || b == 0x7F then EscapeText(b)
    else if b == QUOTE || b == SLASH || b == BACKSLASH then [BACKSLASH, b]
    else [b]
  }

  function Escaped(s: seq<Byte>): (e: seq<Byte>)
    ensures |s| <= |e| <= 6 * |s|
  {
    if s == [] then [] else EscapeOf(s[0]) + Escaped(s[1..])
  }

  function Quoted(s: seq<Byte>): seq<Byte> {
    [QUOTE] + Escaped(s) + [QUOTE]
  }

  /** escape2char; 0 is an error. */
  function Unescape(b: Byte): Byte {
    if b == QUOTE || b == BACKSLASH || b == SLASH then b
    else if b == 0x62 then 0x08
    else if b == 0x74 then 0x09
    else if b == 0x6E then 0x0A
    else if b == 0x66 then 0x0C
    else if b == 0x72 then 0x0D
    else if b == LETTER_U then LETTER_U
    else 0
  }

  /** A string body that starts with `bytes`, read from `n` characters. */
  function Prepend(bytes: seq<Byte>, n: nat, r: Option<(seq<Byte>, nat)>): Option<(seq<Byte>, nat)> {
    match r
    case None => None
    case Some((body, m)) => Some((bytes + body, n + m))
  }

  /** The rest of a string token, with its closing quote: the string and the characters read. */
  function Unquote(s: seq<Byte>): (r: Option<(seq<Byte>, nat)>)
    ensures r.Some? ==> 1 <= r.value.1 <= |s|
    decreases |s|
  {
    if At(s, 0) == QUOTE then Some(([], 1))
    else if At(s, 0) == 0 then None
    else if s[0] == BACKSLASH then
      var ch := Unescape(At(s, 1));
      if ch == LETTER_U then
        match Escape(s)
        case None => None
        case Some((cp, n)) =>
          EscapeIsScalar(s);
          Prepend(ToUtf8(cp), n, Unquote(s[n..]))
      else if ch == 0 then None
      else Prepend([ch], 2, Unquote(s[2..]))
    else Prepend([s[0]], 1, Unquote(s[1..]))
  }

  /** The string never takes more bytes than its text without the closing quote: the unchecked
      appends to a buffer as long as the whole input stay inside it. */
  lemma {:induction false} StringIsNoLonger(s: seq<Byte>)
    requires Unquote(s).Some?
    ensures |Unquote(s).value.0| < Unquote(s).value.1
    decreases |s|
  {
    hide Escape, ToUtf8;
    if At(s, 0) != QUOTE {
      if s[0] == BACKSLASH && Unescape(At(s, 1)) == LETTER_U {
        EscapeIsScalar(s);
        StringIsNoLonger(s[Escape(s).value.1..]);
      } else {
        StringIsNoLonger(s[if s[0] == BACKSLASH then 2 else 1..]);
      }
    }
  }

  lemma OneEscape(b: Byte, rest: seq<Byte>)
    ensures Unquote(EscapeOf(b) + rest) == Prepend([b], |EscapeOf(b)|, Unquote(rest))
  {
    hide Unquote, EscapeText;
    if EscapeOf(b) == EscapeText(b) {
      OneUnicodeEscape(b, rest);
    } else if |EscapeOf(b)| == 2 {
      OnePairEscape(EscapeOf(b)[1], rest);
      assert EscapeOf(b) == [BACKSLASH, EscapeOf(b)[1]];
    } else {
      OnePlain(b, rest);
    }
  }

  lemma OnePairEscape(e: Byte, rest: seq<Byte>)
    requires Unescape(e) != 0 && Unescape(e) != LETTER_U
    ensures Unquote([BACKSLASH, e] + rest) == Prepend([Unescape(e)], 2, Unquote(rest))
  {
    hide Escape, ToUtf8, Unescape;
    var s := [BACKSLASH, e] + rest;
    assert s[2..] == rest && s[0] == BACKSLASH && At(s, 1) == e;
  }

  lemma OnePlain(b: Byte, rest: seq<Byte>)
    requires b != QUOTE && b != BACKSLASH && b != 0
    ensures Unquote([b] + rest) == Prepend([b], 1, Unquote(rest))
  {
    hide Escape, ToUtf8, Unescape;
    var s := [b] + rest;
    assert s[1..] == rest && s[0] == b;
  }

  lemma OneUnicodeEscape(b: Byte, rest: seq<Byte>)
    requires b < 0x80
    ensures Unquote(EscapeText(b) + rest) == Prepend([b], 6, Unquote(rest))
  {
    var s := EscapeText(b) + rest;
    assert s[6..] == rest;
    assert EscapesOf(b) == EscapeText(b);
    assert s[0] == BACKSLASH && At(s, 1) == LETTER_U;
    EscapesAreRead(b, rest);
    assert ToUtf8(b) == [b];
    hide ToUtf8, Escape, EscapeText;
  }

  /** Reading undoes quoting, for every byte string and whatever follows. */
  lemma {:induction false} UnquoteEscaped(x: seq<Byte>, k: seq<Byte>)
    ensures Unquote(Escaped(x) + [QUOTE] + k) == Some((x, |Escaped(x)| + 1))
    decreases |x|
  {
    hide EscapeOf, Escape, ToUtf8;
    if x == [] {
      assert Escaped(x) + [QUOTE] + k == [QUOTE] + k;
    } else {
      var rest := Escaped(x[1..]) + [QUOTE] + k;
      assert Escaped(x) + [QUOTE] + k == EscapeOf(x[0]) + rest;
      OneEscape(x[0], rest);
      UnquoteEscaped(x[1..], k);
      assert [x[0]] + x[1..] == x;
    }
  }

  // ----- tokens -------------------------------------------------------------

  datatype Token<+N> =
    ObjBegin | ObjEnd | ArrBegin | ArrEnd | Str(s: seq<Byte>) | Num(x: N) | Bool(b: bool) | Null | Colon | Comma | End | Error

  predicate IsSpace(b: Byte) {
    b == 0x20 || b == 0x09 || b == 0x0A || b == 0x0D
  }

  /** strncmp with a literal. */
  predicate StartsWith(s: seq<Byte>, literal: seq<Byte>) {
    |literal| <= |s| && s[..|literal|] == literal
  }

  /** strncasecmp with a literal of lower-case letters. */
  predicate StartsWithLetters(s: seq<Byte>, literal: seq<Byte>) {
    |literal| <= |s| && forall i :: 0 <= i < |literal| ==> s[i] == literal[i] || s[i] as int == literal[i] as int - 0x20
  }

  /** json_is_invalid_number. */
  predicate IsInvalidNumber(s: seq<Byte>) {
    if At(s, 0) == 0x2B then true
    else
      var p := if At(s, 0) == 0x2D then s[1..] else s;
      if At(p, 0) == 0x30 then ForceLower(At(p, 1)) == 0x78 || IsDigit(At(p, 1))
      else At(p, 0) > 0x39 && (StartsWithLetters(p, INF_TEXT) || StartsWithLetters(p, NAN_TEXT))
  }

  /** json_next_number_token. */
  function NumberToken<N>(c: Codec<N>, s: seq<Byte>): (r: (Token<N>, nat))
    ensures r.1 <= |s| && (r.0 == Error || (r.0.Num? && r.1 > 0))
  {
    match c.scan(s)
    case Some((x, n)) => if 0 < n <= |s| then (Num(x), n) else (Error, 0)
    case None => (Error, 0)
  }

  function StringToken<N>(s: seq<Byte>): (r: (Token<N>, nat))
    requires |s| > 0
    ensures r.1 <= |s| && (r.0.Str? ==> r.1 > 0)
  {
    match Unquote(s[1..])
    case None => (Error, 0)
    case Some((body, n)) => (Str(body), n + 1)
  }

  /** ch2token for the characters that are a token of their own. */
  function SingleToken<N>(b: Byte): Option<Token<N>> {
    if b == OBJ_BEGIN then Some(ObjBegin)
    else if b == OBJ_END then Some(ObjEnd)
    else if b == ARR_BEGIN then Some(ArrBegin)
    else if b == ARR_END then Some(ArrEnd)
    else if b == COMMA then Some(Comma)
    else if b == COLON then Some(Colon)
    else None
  }

  /** ch2token: the letters f, i, I, n, N, t and the plus sign. */
  predicate NeedsALook(b: Byte) {
    b == 0x66 || b == 0x69 || b == 0x49 || b == 0x6E || b == 0x4E || b == 0x74 || b == 0x2B
  }

  /** `lax` is decode_invalid_numbers. */
  function WordToken<N>(c: Codec<N>, lax: bool, s: seq<Byte>): (r: (Token<N>, nat))
    ensures r.1 <= |s| && (r.0 != Error ==> r.1 > 0 && (r.0.Bool? || r.0.Null? || r.0.Num?))
  {
    if StartsWith(s, TRUE_TEXT) then (Bool(true), 4)
    else if StartsWith(s, FALSE_TEXT) then (Bool(false), 5)
    else if StartsWith(s, NULL_TEXT) then (Null, 4)
    else if lax && IsInvalidNumber(s) then NumberToken(c, s)
    else (Error, 0)
  }

  /** The token at the front of a text without white space in front. */
  function TokenAt<N>(c: Codec<N>, lax: bool, s: seq<Byte>): (r: (Token<N>, nat))
    ensures r.1 <= |s| && (r.0 == End || r.0 == Error || r.1 > 0)
  {
    var ch := At(s, 0);
    if ch == 0 then (End, 0)
    else if SingleToken<N>(ch).Some? then (SingleToken(ch).value, 1)
    else if ch == QUOTE then StringToken(s)
    else if ch == 0x2D || IsDigit(ch) then
      if !lax && IsInvalidNumber(s) then (Error, 0) else NumberToken(c, s)
    else if NeedsALook(ch) then WordToken(c, lax, s)
    else (Error, 0)
  }

  function Spaces(s: seq<Byte>): (n: nat)
    ensures n <= |s| && !IsSpace(At(s, n)) && forall i :: 0 <= i < n ==> IsSpace(s[i])
  {
    if !IsSpace(At(s, 0)) then 0 else 1 + Spaces(s[1..])
  }

  /** json_next_token: the token and the characters up to its end. */
  function NextToken<N>(c: Codec<N>, lax: bool, s: seq<Byte>): (r: (Token<N>, nat))
    ensures r.1 <= |s| && (r.0 == End || r.0 == Error || r.1 > 0)
  {
    var n := Spaces(s);
    var (tok, m) := TokenAt(c, lax, s[n..]);
    (tok, n + m)
  }

  datatype List<+T> = Nil | Cons(head: T, tail: List<T>)

  /** The tokens of a text, up to the end or the first error. */
  function Lex<N>(c: Codec<N>, lax: bool, s: seq<Byte>): List<Token<N>>
    decreases |s|
  {
    var (tok, n) := NextToken(c, lax, s);
    if tok == End || tok == Error then Cons(tok, Nil) else Cons(tok, Lex(c, lax, s[n..]))
  }

  /** `text` is read as the one token `tok` wherever it stands before a delimiter. */
  ghost predicate Reads<N>(c: Codec<N>, lax: bool, text: seq<Byte>, tok: Token<N>) {
    0 !in text && tok != End && tok != Error && forall k :: Delimits(k) || tok.Str? ==> NextToken(c, lax, text + k) == (tok, |text|)
  }

  lemma SingleReads<N>(c: Codec<N>, lax: bool, b: Byte, k: seq<Byte>)
    requires SingleToken<N>(b).Some?
    ensures NextToken(c, lax, [b] + k) == (SingleToken<N>(b).value, 1)
  {
    hide IsInvalidNumber, Unquote;
  }

  lemma {:induction false} NoNulInside(s: seq<Byte>)
    ensures 0 !in Escaped(s)
  {
    if s != [] {
      assert 0 !in EscapeOf(s[0]);
      NoNulInside(s[1..]);
    }
  }

  lemma NoSpaces<N>(c: Codec<N>, lax: bool, s: seq<Byte>)
    requires !IsSpace(At(s, 0))
    ensures NextToken(c, lax, s) == TokenAt(c, lax, s)
  {
    hide TokenAt;
    assert s[0..] == s;
  }

  lemma QuoteToken<N>(c: Codec<N>, lax: bool, s: seq<Byte>)
    requires s != [] && s[0] == QUOTE
    ensures NextToken(c, lax, s) == StringToken(s)
  {
    hide StringToken;
    NoSpaces(c, lax, s);
  }

  lemma QuotedToken<N>(c: Codec<N>, lax: bool, s: seq<Byte>, k: seq<Byte>)
    ensures NextToken(c, lax, Quoted(s) + k) == (Token<N>.Str(s), |Quoted(s)|)
  {
    hide NextToken, Unquote, Escaped;
    var text := Quoted(s) + k;
    var body := Escaped(s) + [QUOTE] + k;
    assert text == [QUOTE] + body;
    UnquoteEscaped(s, k);
    assert text[1..] == body;
    QuoteToken(c, lax, text);
  }

  lemma QuotedReads<N>(c: Codec<N>, lax: bool, s: seq<Byte>)
    ensures Reads(c, lax, Quoted(s), Str(s))
  {
    hide NextToken;
    NoNulInside(s);
    assert 0 !in Quoted(s);
    hide Quoted;
    forall k: seq<Byte> ensures NextToken(c, lax, Quoted(s) + k) == (Token<N>.Str(s), |Quoted(s)|) {
      QuotedToken(c, lax, s, k);
    }
  }

  lemma WordReads<N>(c: Codec<N>, lax: bool, word: seq<Byte>, tok: Token<N>)
    requires (word == TRUE_TEXT && tok == Bool(true)) || (word == FALSE_TEXT && tok == Bool(false)) || (word == NULL_TEXT && tok == Null)
    ensures Reads(c, lax, word, tok)
  {
    hide Unquote, NumberToken;
    forall k: seq<Byte> ensures NextToken(c, lax, word + k) == (tok, |word|) {
      var text := word + k;
      assert text[0..] == text && text[0] == word[0];
      assert text[..|word|] == word;
      if word != TRUE_TEXT { assert text[..4][0] == word[0] != TRUE_TEXT[0]; }
      if word == NULL_TEXT && |text| >= 5 { assert text[..5][0] == word[0] != FALSE_TEXT[0]; }
    }
  }

  lemma NumberReads<N(!new)>(c: Codec<N>, lax: bool, x: N)
    requires TextOf(c, x)
    ensures Reads(c, lax, c.format(x), Num(Reread(c, x)))
  {
    hide Unquote, IsInvalidNumber, Reread;
    var word := c.format(x);
    forall k: seq<Byte> | Delimits(k) ensures NextToken(c, lax, word + k) == (Num(Reread(c, x)), |word|) {
      var text := word + k;
      assert text[0..] == text && text[0] == word[0];
    }
  }

  /** Number characters need no escape: a number key is quoted text like any other. */
  lemma {:induction false} NumberCharsArePlain(s: seq<Byte>)
    requires forall i :: 0 <= i < |s| ==> NumberChar(s[i])
    ensures Escaped(s) == s
  {
    if s != [] {
      NumberCharsArePlain(s[1..]);
      assert [s[0]] + s[1..] == s;
    }
  }
}
