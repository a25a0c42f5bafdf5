/** json_decode over a C string and one temporary string buffer (Lua/lua_cjson.c:716-946,
    1014-1294): the routines find exactly the tokens and values of the specification, read
    nothing behind the terminating NUL, and never overrun the buffer. */
module JsonDecoder {
  import opened Options
  import opened StrBuf
  import opened Utf8
  import opened JsonLexer
  import JG = JsonGrammar
  import opened JsonGrammar

  lemma AtSuffix(s: seq<Byte>, p: nat, i: nat)
    requires p <= |s|
    ensures At(s[p..], i) == At(s, p + i)
  {
  }

  lemma Hex4Suffix(s: seq<Byte>, p: nat, at: nat)
    requires p <= |s|
    ensures Hex4(s[p..], at) == Hex4(s, p + at)
  {
    hide HexDigit, At;
    AtSuffix(s, p, at);
    AtSuffix(s, p, at + 1);
    AtSuffix(s, p, at + 2);
    AtSuffix(s, p, at + 3);
  }

  lemma SuffixOfSuffix(s: seq<Byte>, p: nat, n: nat)
    requires p <= |s| && n <= |s| - p
    ensures s[p..][n..] == s[p + n..]
  {
  }

  class Parser<N(==)> {
    const c: Codec<N>
    const lax: bool
    const decodeMaxDepth: nat

    /** The Lua string with the NUL behind it. */
    const data: seq<Byte>

    /** The C string, up to the first NUL. */
    ghost const text: seq<Byte>

    var ptr: nat
    var currentDepth: nat
    const tmp: Buffer

    ghost predicate Valid()
      reads this, tmp
    {
      && |text| < |data| && text == data[..|text|] && data[|text|] == 0 && 0 !in text
      && ptr <= |text| && tmp.Valid() && tmp.buf.Length >= |data|
    }

    /** What is not read yet, as tokens. */
    ghost function Tokens(): List<Token<N>>
      requires ptr <= |text|
      reads this
    {
      Lex(c, lax, text[ptr..])
    }

    constructor (c: Codec<N>, lax: bool, decodeMaxDepth: nat, input: seq<Byte>)
      ensures Valid() && fresh(this) && fresh(tmp) && fresh(tmp.buf) && ptr == 0 && currentDepth == 0
      ensures this.c == c && this.lax == lax && this.decodeMaxDepth == decodeMaxDepth && text == CString(input)
    {
      this.c, this.lax, this.decodeMaxDepth := c, lax, decodeMaxDepth;
      data := input + [0];
      text := CString(input);
      ptr, currentDepth := 0, 0;
      tmp := new Buffer(|input|);
    }

    /** A read at `i`, which the terminating NUL bounds. */
    function Char(i: nat): (b: Byte)
      requires Valid() && i <= |text|
      reads this, tmp
      ensures b == At(text, i)
    {
      data[i]
    }

    /** decode_hex4: it stops at the first character that is not a digit, so never behind the NUL. */
    method DecodeHex4(at: nat) returns (r: int)
      requires Valid() && at <= |text|
      ensures r == Hex4(text, at)
    {
      var digit := new int[4];
      for i := 0 to 4
        invariant at + i <= |text|
        invariant forall j :: 0 <= j < i ==> digit[j] == HexDigit(At(text, at + j)) && digit[j] >= 0
      {
        digit[i] := HexDigit(Char(at + i));
        if digit[i] < 0 { return -1; }
      }
      hide HexDigit;
      assert digit[0] >= 0 && digit[1] >= 0 && digit[2] >= 0 && digit[3] >= 0;
      r := digit[0] * 0x1000 + digit[1] * 0x100 + digit[2] * 0x10 + digit[3];
    }

    /** The two code units of an escape at `ptr`: the code point and the length of the escape, or -1. */
    method ReadEscape() returns (codepoint: int, escapeLen: nat)
      requires Valid() && ptr + 1 < |text| && text[ptr] == BACKSLASH && text[ptr + 1] == LETTER_U
      ensures match Escape(text[ptr..])
        case None => codepoint == -1
        case Some((cp, n)) => codepoint == cp && escapeLen == n
    {
      hide Hex4;
      Hex4Suffix(text, ptr, 2);
      Hex4Suffix(text, ptr, 8);
      AtSuffix(text, ptr, 6);
      AtSuffix(text, ptr, 7);
      escapeLen := 6;
      codepoint := DecodeHex4(ptr + 2);
      if codepoint < 0 { return -1, 6; }
      HexRead(text, ptr + 2);
      if codepoint / 0x800 == 0xD800 / 0x800 {
        if codepoint / 0x400 % 2 == 1 { return -1, 6; }
        if Char(ptr + escapeLen) != BACKSLASH || Char(ptr + escapeLen + 1) != LETTER_U { return -1, 6; }
        var surrogateLow := DecodeHex4(ptr + 2 + escapeLen);
        if surrogateLow < 0 || surrogateLow / 0x400 != 0xDC00 / 0x400 { return -1, 6; }
        codepoint := codepoint % 0x400 * 0x400 + surrogateLow % 0x400 + 0x10000;
        escapeLen := 12;
      }
    }

    lemma HexRead(s: seq<Byte>, at: nat)
      requires Hex4(s, at) >= 0
      ensures at + 4 <= |s|
    {
      assert HexDigit(0) == -1;
      assert HexDigit(At(s, at + 3)) >= 0;
    }

    /** json_append_unicode_escape. */
    method AppendUnicodeEscape() returns (ok: bool)
      requires Valid() && ptr + 1 < |text| && text[ptr] == BACKSLASH && text[ptr + 1] == LETTER_U
      requires tmp.EmptyLength() >= |text| - ptr
      modifies this`ptr, tmp`length, tmp.buf
      ensures Valid() && ok == Escape(text[old(ptr)..]).Some?
      ensures ok ==>
        var (cp, n) := Escape(text[old(ptr)..]).value;
        tmp.Contents() == old(tmp.Contents()) + ToUtf8(cp) && ptr == old(ptr) + n
      ensures tmp.length - old(tmp.length) <= ptr - old(ptr)
    {
      hide Escape, ToUtf8;
      var codepoint, escapeLen := ReadEscape();
      ok := codepoint >= 0;
      if ok {
        EscapeIsScalar(text[ptr..]);
        tmp.AppendMemUnsafe(ToUtf8(codepoint));
        ptr := ptr + escapeLen;
      }
    }

    /** One turn of the loop in json_next_string_token: one character or one escape. */
    method StringChar() returns (ok: bool)
      requires Valid() && Char(ptr) != QUOTE && tmp.EmptyLength() >= |text| - ptr
      modifies this`ptr, tmp`length, tmp.buf
      ensures Valid() && tmp.length - old(tmp.length) <= ptr - old(ptr)
      ensures !ok ==> Unquote(text[old(ptr)..]) == None
      ensures ok ==> old(ptr) < ptr && old(tmp.length) <= tmp.length && tmp.Contents()[..old(tmp.length)] == old(tmp.Contents())
      ensures ok ==> Unquote(text[old(ptr)..]) == Prepend(tmp.Contents()[old(tmp.length)..], ptr - old(ptr), Unquote(text[ptr..]))
    {
      hide Unquote, Prepend, Unescape, Escape, ToUtf8;
      StringStep(text, ptr);
      var ch := Char(ptr);
      if ch == 0 { return false; }
      if ch == BACKSLASH {
        ch := Unescape(Char(ptr + 1));
        if ch == LETTER_U {
          ok := AppendUnicodeEscape();
          if ok { EscapeIsScalar(text[old(ptr)..]); }
          return;
        }
        if ch == 0 { return false; }
        ptr := ptr + 1;
      }
      tmp.AppendCharUnsafe(ch);
      ptr := ptr + 1;
      ok := true;
    }

    /** The loop of json_next_string_token. The bytes in `tmp` are never more than the characters
        read, so they and the final NUL fit the buffer. */
    method StringLoop() returns (ok: bool)
      requires Valid() && tmp.length == 0
      modifies this`ptr, tmp`length, tmp.buf
      ensures Valid() && old(ptr) <= ptr
      ensures match Unquote(text[old(ptr)..])
        case None => !ok
        case Some((body, n)) => ok && tmp.Contents() == body && ptr == old(ptr) + n
    {
      hide Unquote, Prepend;
      ghost var start := ptr;
      PrependNothing(Unquote(text[start..]));
      assert tmp.Contents() == [];
      while Char(ptr) != QUOTE
        invariant Valid() && start <= ptr && tmp.length <= ptr - start
        invariant Unquote(text[start..]) == Prepend(tmp.Contents(), ptr - start, Unquote(text[ptr..]))
        decreases |text| - ptr
      {
        ghost var before, p := tmp.Contents(), ptr;
        ok := StringChar();
        if !ok {
          NothingPrepended(before, p - start);
          return;
        }
        ghost var bytes := tmp.Contents()[|before|..];
        assert tmp.Contents() == before + bytes;
        PrependTwice(before, p - start, bytes, ptr - p, Unquote(text[ptr..]));
      }
      QuoteEnds(text, ptr);
      LastPrepended(tmp.Contents(), ptr - start);
      ptr := ptr + 1;
      ok := true;
    }

    /** json_next_string_token: the string stays in `tmp` until the next string is read. */
    method NextStringToken() returns (tok: Token<N>)
      requires Valid() && Char(ptr) == QUOTE
      modifies this`ptr, tmp`length, tmp.buf
      ensures Valid() && old(ptr) < ptr
      ensures var (t, n) := StringToken<N>(text[old(ptr)..]); tok == t && (tok != Error ==> ptr == old(ptr) + n)
      ensures tok == Error || (tok.Str? && tmp.Contents() == tok.s)
    {
      hide Unquote;
      SuffixOfSuffix(text, ptr, 1);
      ptr := ptr + 1;
      tmp.Reset();
      var ok := StringLoop();
      if ok {
        tmp.EnsureNull();
        tok := Str(tmp.buf[..tmp.length]);
        assert tmp.Contents() == tok.s;
      } else {
        tok := Error;
      }
    }

    /** json_next_number_token: strtod sees the C string at `ptr`. */
    method NextNumberToken() returns (tok: Token<N>)
      requires Valid()
      modifies this`ptr
      ensures Valid() && old(ptr) <= ptr
      ensures var (t, n) := NumberToken(c, text[old(ptr)..]); tok == t && ptr == old(ptr) + n
    {
      CStringSuffix(data, text, ptr);
      var (t, n) := NumberToken(c, CString(data[ptr..]));
      tok := t;
      ptr := ptr + n;
    }

    /** strncmp(s, literal, n) == 0, and strncasecmp for lower-case letters with `letters`. */
    method Matches(at: nat, literal: seq<Byte>, letters: bool) returns (same: bool)
      requires Valid() && at <= |text| && forall i :: 0 <= i < |literal| ==> literal[i] > 0x20
      ensures same == if letters then StartsWithLetters(text[at..], literal) else StartsWith(text[at..], literal)
    {
      var i := 0;
      while i < |literal|
        invariant 0 <= i <= |literal| && at + i <= |text|
        invariant forall j :: 0 <= j < i ==> text[at + j] == literal[j] || (letters && text[at + j] as int == literal[j] as int - 0x20)
      {
        var ch := Char(at + i);
        if !(ch == literal[i] || (letters && ch as int == literal[i] as int - 0x20)) {
          if at + i < |text| { assert text[at..][i] == ch; }
          if |literal| <= |text[at..]| { assert text[at..][..|literal|][i] == text[at..][i]; }
          return false;
        }
        i := i + 1;
      }
      assert forall j :: 0 <= j < |literal| ==> text[at..][j] == text[at + j];
      same := true;
    }

    /** json_is_invalid_number. */
    method LooksInvalid() returns (r: bool)
      requires Valid()
      ensures r == IsInvalidNumber(text[ptr..])
    {
      hide StartsWithLetters, ForceLower;
      var p := ptr;
      AtSuffix(text, p, 0);
      if Char(p) == 0x2B { return true; }
      if Char(p) == 0x2D {
        SuffixOfSuffix(text, p, 1);
        p := p + 1;
      }
      AtSuffix(text, p, 0);
      AtSuffix(text, p, 1);
      if Char(p) == 0x30 {
        var ch2 := Char(p + 1);
        return ForceLower(ch2) == 0x78 || IsDigit(ch2);
      }
      if Char(p) <= 0x39 { return false; }
      r := Matches(p, INF_TEXT, true);
      if !r { r := Matches(p, NAN_TEXT, true); }
    }

    /** The part of json_next_token for the letters and the plus sign. */
    method NextWordToken() returns (tok: Token<N>)
      requires Valid()
      modifies this`ptr
      ensures Valid() && old(ptr) <= ptr
      ensures var (t, n) := WordToken(c, lax, text[old(ptr)..]); tok == t && ptr == old(ptr) + n
    {
      hide StartsWith, IsInvalidNumber, NumberToken;
      WordLengths(text[ptr..]);
      var found := Matches(ptr, TRUE_TEXT, false);
      if found {
        ptr := ptr + 4;
        return Bool(true);
      }
      found := Matches(ptr, FALSE_TEXT, false);
      if found {
        ptr := ptr + 5;
        return Bool(false);
      }
      found := Matches(ptr, NULL_TEXT, false);
      if found {
        ptr := ptr + 4;
        return Null;
      }
      var invalid := LooksInvalid();
      if lax && invalid {
        tok := NextNumberToken();
      } else {
        tok := Error;
      }
    }

    /** json_next_token. */
    method NextToken() returns (tok: Token<N>)
      requires Valid()
      modifies this`ptr, tmp`length, tmp.buf
      ensures Valid() && old(ptr) <= ptr
      ensures tok == End || tok == Error || old(ptr) < ptr
      ensures old(Tokens()) == Cons(tok, if tok == End || tok == Error then Nil else Tokens())
      ensures tok.Str? ==> tmp.Contents() == tok.s
    {
      hide StringToken, WordToken, NumberToken, IsInvalidNumber, SingleToken, TokenAt, Lex;
      ghost var start := ptr;
      while IsSpace(Char(ptr))
        invariant Valid() && start <= ptr
        invariant forall i :: start <= i < ptr ==> IsSpace(text[i])
        decreases |text| - ptr
      {
        ptr := ptr + 1;
      }
      ghost var p := ptr;
      tok := TokenHere();
      LexStep(c, lax, text, start, p);
      if tok != End && tok != Error {
        SuffixOfSuffix(text, p, ptr - p);
      }
    }

    /** json_next_token behind the white space. */
    method TokenHere() returns (tok: Token<N>)
      requires Valid()
      modifies this`ptr, tmp`length, tmp.buf
      ensures Valid() && old(ptr) <= ptr
      ensures var (t, n) := TokenAt(c, lax, text[old(ptr)..]); tok == t && (tok != Error ==> ptr == old(ptr) + n)
      ensures tok.Str? ==> tmp.Contents() == tok.s
    {
      hide StringToken, WordToken, NumberToken, IsInvalidNumber, SingleToken;
      AtSuffix(text, ptr, 0);
      var ch := Char(ptr);
      if ch == 0 { return End; }
      var single := SingleToken<N>(ch);
      if single.Some? {
        SingleIsNotAString<N>(ch);
        ptr := ptr + 1;
        return single.value;
      }
      if ch == QUOTE {
        tok := NextStringToken();
        return;
      }
      if ch == 0x2D || IsDigit(ch) {
        var invalid := LooksInvalid();
        if !lax && invalid { return Error; }
        tok := NextNumberToken();
        return;
      }
      if !NeedsALook(ch) { return Error; }
      tok := NextWordToken();
    }

    /** json_decode_descend. */
    method Descend() returns (ok: bool)
      requires Valid()
      modifies this`currentDepth
      ensures Valid() && currentDepth == old(currentDepth) + 1 && ok == (currentDepth <= decodeMaxDepth)
    {
      currentDepth := currentDepth + 1;
      ok := currentDepth <= decodeMaxDepth;
    }

    method Ascend()
      requires Valid() && currentDepth > 0
      modifies this`currentDepth
      ensures Valid() && currentDepth == old(currentDepth) - 1
    {
      currentDepth := currentDepth - 1;
    }

    /** `r` is what the specification finds: a thrown error, or the value and what is left. */
    ghost predicate Finds(r: Parsed<N>, ok: bool, v: Value<N>, depth: nat)
      reads this
      requires ptr <= |text|
    {
      match r
      case None => !ok
      case Some((v', rest)) => ok && v == v' && Tokens() == rest && currentDepth == depth
    }

    /** How far it is to the end: one more than the characters left while the token is not the last. */
    ghost function Left(tok: Token<N>): nat
      requires ptr <= |text|
      reads this
    {
      |text| - ptr + if tok == End || tok == Error then 0 else 1
    }

    /** json_process_value. */
    method ProcessValue(tok: Token<N>) returns (ok: bool, v: Value<N>)
      requires Valid() && currentDepth <= decodeMaxDepth && (tok.Str? ==> tmp.Contents() == tok.s)
      modifies this`ptr, this`currentDepth, tmp`length, tmp.buf
      ensures Valid() && old(ptr) <= ptr
      ensures Finds(ParseValue(c, Cons(tok, old(Tokens())), old(currentDepth), decodeMaxDepth), ok, v, old(currentDepth))
      decreases Left(tok), 1
    {
      hide ParseMembers, ParseItems, Lex;
      ok, v := true, NullValue;
      match tok
      case Str(_) => v := StrValue(tmp.buf[..tmp.length]); assert tmp.Contents() == tmp.buf[..tmp.length];
      case Num(x) => v := NumValue(x);
      case Bool(b) => v := BoolValue(b);
      case ObjBegin => ok, v := ParseObjectContext();
      case ArrBegin => ok, v := ParseArrayContext();
      case Null => v := NullValue;
      case _ => ok := false;
    }

    /** json_parse_array_context. */
    method ParseArrayContext() returns (ok: bool, v: Value<N>)
      requires Valid() && currentDepth <= decodeMaxDepth
      modifies this`ptr, this`currentDepth, tmp`length, tmp.buf
      ensures Valid() && old(ptr) <= ptr
      ensures Finds(ParseValue(c, Cons(ArrBegin, old(Tokens())), old(currentDepth), decodeMaxDepth), ok, v, old(currentDepth))
      decreases |text| - ptr + 1, 0
    {
      hide ParseValue, ParseMembers, ParseItems, Lex;
      ghost var depth := currentDepth;
      ParseBegins(c, Tokens(), depth, decodeMaxDepth);
      v := NullValue;
      ok := Descend();
      if !ok { return; }
      var m: map<Key<N>, Value<N>> := map[];
      var token := NextToken();
      if token == ArrEnd {
        Ascend();
        return true, Table(m);
      }
      ghost var all := ParseItems(c, old(Tokens()), depth + 1, decodeMaxDepth, 1, m);
      var i := 1;
      while true
        invariant Valid() && old(ptr) <= ptr && currentDepth == depth + 1 <= decodeMaxDepth && i >= 1
        invariant token.Str? ==> tmp.Contents() == token.s
        invariant all == ParseItems(c, Cons(token, if token == End || token == Error then Nil else Tokens()), depth + 1, decodeMaxDepth, i, m)
        invariant token == End || token == Error || old(ptr) < ptr
        decreases Left(token)
      {
        ItemsUnfold(c, token, Tokens(), depth + 1, decodeMaxDepth, i, m);
        var item;
        ok, item := ProcessValue(token);
        if !ok { return; }
        m := m[AtNumber(c.ofIndex(i)) := item];
        token := NextToken();
        if token == ArrEnd {
          Ascend();
          return true, Table(m);
        }
        if token != Comma { return false, v; }
        token := NextToken();
        i := i + 1;
      }
    }

    /** One turn of the loop in json_parse_object_context. The key is copied before the next string overwrites `tmp`. */
    method ParseMember(keyToken: Token<N>) returns (ok: bool, key: seq<Byte>, value: Value<N>)
      requires Valid() && currentDepth <= decodeMaxDepth && (keyToken.Str? ==> tmp.Contents() == keyToken.s)
      modifies this`ptr, this`currentDepth, tmp`length, tmp.buf
      ensures Valid() && old(ptr) <= ptr
      ensures match MemberAhead(c, keyToken, old(Tokens()), old(currentDepth), decodeMaxDepth)
        case None => !ok
        case Some((k, v, rest)) => ok && key == k && value == v && Tokens() == rest && currentDepth == old(currentDepth)
      decreases Left(keyToken), 0
    {
      hide ParseValue, Lex;
      key, value := [], NullValue;
      if !keyToken.Str? { return false, key, value; }
      key := tmp.buf[..tmp.length];
      assert key == tmp.Contents();
      var token := NextToken();
      if token != Colon { return false, key, value; }
      token := NextToken();
      ValueUnfold(c, token, Tokens(), currentDepth, decodeMaxDepth);
      ok, value := ProcessValue(token);
    }

    /** json_parse_object_context. */
    method ParseObjectContext() returns (ok: bool, v: Value<N>)
      requires Valid() && currentDepth <= decodeMaxDepth
      modifies this`ptr, this`currentDepth, tmp`length, tmp.buf
      ensures Valid() && old(ptr) <= ptr
      ensures Finds(ParseValue(c, Cons(ObjBegin, old(Tokens())), old(currentDepth), decodeMaxDepth), ok, v, old(currentDepth))
      decreases |text| - ptr + 1, 0
    {
      hide ParseValue, ParseMembers, ParseItems, Lex;
      ghost var depth := currentDepth;
      ParseBegins(c, Tokens(), depth, decodeMaxDepth);
      v := NullValue;
      ok := Descend();
      if !ok { return; }
      var m: map<Key<N>, Value<N>> := map[];
      var token := NextToken();
      if token == ObjEnd {
        Ascend();
        return true, Table(m);
      }
      ok, v := MembersLoop(token);
    }

    /** The loop of json_parse_object_context, entered with its first token. */
    method MembersLoop(first: Token<N>) returns (ok: bool, v: Value<N>)
      requires Valid() && 0 < currentDepth <= decodeMaxDepth && (first.Str? ==> tmp.Contents() == first.s)
      modifies this`ptr, this`currentDepth, tmp`length, tmp.buf
      ensures Valid() && old(ptr) <= ptr
      ensures Finds(ParseMembers(c, Cons(first, if first == End || first == Error then Nil else old(Tokens())),
        old(currentDepth), decodeMaxDepth, map[]), ok, v, old(currentDepth) - 1)
      decreases Left(first), 1
    {
      hide ParseMembers, Lex, MemberAhead;
      ghost var depth := currentDepth;
      var m: map<Key<N>, Value<N>> := map[];
      var token := first;
      v := NullValue;
      ghost var all := ParseMembers(c, Cons(first, if first == End || first == Error then Nil else Tokens()), depth, decodeMaxDepth, m);
      while true
        invariant Valid() && old(ptr) <= ptr && currentDepth == depth
        invariant token.Str? ==> tmp.Contents() == token.s
        invariant all == ParseMembers(c, Cons(token, if token == End || token == Error then Nil else Tokens()), depth, decodeMaxDepth, m)
        invariant Left(token) <= old(Left(first))
        decreases Left(token)
      {
        MembersUnfold(c, token, Tokens(), depth, decodeMaxDepth, m);
        var key, value;
        ok, key, value := ParseMember(token);
        if !ok { return; }
        m := m[AtName(key) := value];
        token := NextToken();
        if token == ObjEnd {
          Ascend();
          return true, Table(m);
        }
        if token != Comma { return false, v; }
        token := NextToken();
      }
    }
  }

  lemma SingleIsNotAString<N>(b: Byte)
    ensures SingleToken<N>(b).Some? ==> !SingleToken<N>(b).value.Str? && SingleToken<N>(b).value != Error
  {
  }

  lemma WordLengths(s: seq<Byte>)
    ensures StartsWith(s, TRUE_TEXT) ==> 4 <= |s|
    ensures StartsWith(s, FALSE_TEXT) ==> 5 <= |s|
    ensures StartsWith(s, NULL_TEXT) ==> 4 <= |s|
  {
  }

  lemma {:induction false} CStringSuffix(data: seq<Byte>, text: seq<Byte>, p: nat)
    requires |text| < |data| && text == data[..|text|] && data[|text|] == 0 && 0 !in text && p <= |text|
    ensures CString(data[p..]) == text[p..]
    decreases |text| - p
  {
    if p < |text| {
      assert data[p..][1..] == data[p + 1..] && text[p..] == [text[p]] + text[p + 1..];
      CStringSuffix(data, text, p + 1);
    }
  }

  lemma {:induction false} SpacesAre(s: seq<Byte>, n: nat)
    requires n <= |s| && !IsSpace(At(s, n)) && forall i :: 0 <= i < n ==> IsSpace(s[i])
    ensures Spaces(s) == n
    decreases n
  {
    if n > 0 { SpacesAre(s[1..], n - 1); }
  }

  lemma NextTokenIs<N>(c: Codec<N>, lax: bool, text: seq<Byte>, start: nat, p: nat)
    requires start <= p <= |text| && !IsSpace(At(text, p)) && forall i :: start <= i < p ==> IsSpace(text[i])
    ensures var (tok, n) := TokenAt(c, lax, text[p..]); NextToken(c, lax, text[start..]) == (tok, p - start + n)
  {
    hide TokenAt, IsSpace;
    AtSuffix(text, start, p - start);
    SpacesAre(text[start..], p - start);
    SuffixOfSuffix(text, start, p - start);
  }

  lemma LexUnfold<N>(c: Codec<N>, lax: bool, s: seq<Byte>)
    ensures var (tok, n) := NextToken(c, lax, s);
      Lex(c, lax, s) == Cons(tok, if tok == End || tok == Error then Nil else Lex(c, lax, s[n..]))
  {
    hide NextToken;
  }

  lemma LexStep<N>(c: Codec<N>, lax: bool, text: seq<Byte>, start: nat, p: nat)
    requires start <= p <= |text| && !IsSpace(At(text, p)) && forall i :: start <= i < p ==> IsSpace(text[i])
    ensures var (tok, n) := TokenAt(c, lax, text[p..]);
      Lex(c, lax, text[start..]) == Cons(tok, if tok == End || tok == Error then Nil else Lex(c, lax, text[p..][n..]))
  {
    hide TokenAt, NextToken, Lex;
    NextTokenIs(c, lax, text, start, p);
    LexUnfold(c, lax, text[start..]);
    var n := TokenAt(c, lax, text[p..]).1;
    SuffixOfSuffix(text, p, n);
    SuffixOfSuffix(text, start, p - start + n);
  }

  lemma PrependNothing(r: Option<(seq<Byte>, nat)>)
    ensures Prepend([], 0, r) == r
  {
    if r.Some? { assert [] + r.value.0 == r.value.0; }
  }

  lemma NothingPrepended(a: seq<Byte>, n: nat)
    ensures Prepend(a, n, None) == None
  {
  }

  lemma LastPrepended(a: seq<Byte>, n: nat)
    ensures Prepend(a, n, Some(([], 1))) == Some((a, n + 1))
  {
    assert a + [] == a;
  }

  lemma PrependTwice(a: seq<Byte>, n: nat, b: seq<Byte>, m: nat, r: Option<(seq<Byte>, nat)>)
    ensures Prepend(a, n, Prepend(b, m, r)) == Prepend(a + b, n + m, r)
  {
    if r.Some? { assert a + (b + r.value.0) == a + b + r.value.0; }
  }

  lemma QuoteEnds(text: seq<Byte>, p: nat)
    requires p <= |text| && At(text, p) == QUOTE
    ensures p < |text| && Unquote(text[p..]) == Some(([], 1))
  {
    AtSuffix(text, p, 0);
  }

  /** One turn of the loop, over the whole text. */
  lemma StringStep(text: seq<Byte>, p: nat)
    requires p <= |text| && At(text, p) != QUOTE && 0 !in text
    ensures p == |text| <==> At(text, p) == 0
    ensures p == |text| ==> Unquote(text[p..]) == None
    ensures p < |text| && text[p] != BACKSLASH ==> Unquote(text[p..]) == Prepend([text[p]], 1, Unquote(text[p + 1..]))
    ensures p < |text| && text[p] == BACKSLASH ==>
      var ch := Unescape(At(text, p + 1));
      && (ch != 0 ==> p + 1 < |text| && (ch == LETTER_U ==> text[p + 1] == LETTER_U))
      && (ch == 0 ==> Unquote(text[p..]) == None)
      && (ch == LETTER_U && Escape(text[p..]).None? ==> Unquote(text[p..]) == None)
      && (ch == LETTER_U && Escape(text[p..]).Some? ==>
        var (cp, n) := Escape(text[p..]).value;
        n <= |text| - p && Unquote(text[p..]) == Prepend(ToUtf8(cp), n, Unquote(text[p + n..])))
      && (ch != 0 && ch != LETTER_U ==> Unquote(text[p..]) == Prepend([ch], 2, Unquote(text[p + 2..])))
  {
    var s := text[p..];
    AtSuffix(text, p, 0);
    AtSuffix(text, p, 1);
    hide Escape, ToUtf8, Prepend;
    if p < |text| {
      SuffixOfSuffix(text, p, 1);
      if text[p] == BACKSLASH && Unescape(At(text, p + 1)) != 0 {
        SuffixOfSuffix(text, p, 2);
        if Unescape(At(text, p + 1)) == LETTER_U && Escape(s).Some? {
          EscapeIsScalar(s);
          SuffixOfSuffix(text, p, Escape(s).value.1);
        }
      }
    }
  }

  /** Behind the end and behind an error nothing is read: the parser rejects either at once. */
  lemma ValueUnfold<N>(c: Codec<N>, tok: Token<N>, rest: List<Token<N>>, depth: nat, max: nat)
    ensures ParseValue(c, Cons(tok, if tok == End || tok == Error then Nil else rest), depth, max) == ParseValue(c, Cons(tok, rest), depth, max)
  {
    hide ParseItems, ParseMembers;
  }

  lemma ItemsUnfold<N>(c: Codec<N>, tok: Token<N>, rest: List<Token<N>>, depth: nat, max: nat, i: nat, m: map<Key<N>, Value<N>>)
    ensures ParseItems(c, Cons(tok, if tok == End || tok == Error then Nil else rest), depth, max, i, m) ==
      match ParseValue(c, Cons(tok, rest), depth, max)
      case None => None
      case Some((v, k)) =>
        var m := m[AtNumber(c.ofIndex(i)) := v];
        if k.Nil? then None
        else if k.head == ArrEnd then Some((Table(m), k.tail))
        else if k.head == Comma then ParseItems(c, k.tail, depth, max, i + 1, m)
        else None
  {
    ValueUnfold(c, tok, rest, depth, max);
    hide ParseValue;
  }

  /** A key token, a colon and a value: the key, the value and what is left. */
  ghost function MemberAhead<N>(c: Codec<N>, tok: Token<N>, rest: List<Token<N>>, depth: nat, max: nat): Option<(seq<Byte>, Value<N>, List<Token<N>>)> {
    if !tok.Str? || rest.Nil? || rest.head != Colon then None
    else
      match ParseValue(c, rest.tail, depth, max)
      case None => None
      case Some((v, k)) => Some((tok.s, v, k))
  }

  lemma MembersUnfold<N>(c: Codec<N>, tok: Token<N>, rest: List<Token<N>>, depth: nat, max: nat, m: map<Key<N>, Value<N>>)
    ensures ParseMembers(c, Cons(tok, if tok == End || tok == Error then Nil else rest), depth, max, m) ==
      match MemberAhead(c, tok, rest, depth, max)
      case None => None
      case Some((key, v, k)) =>
        var m := m[AtName(key) := v];
        if k.Nil? then None
        else if k.head == ObjEnd then Some((Table(m), k.tail))
        else if k.head == Comma then ParseMembers(c, k.tail, depth, max, m)
        else None
  {
    hide ParseValue;
  }

  /** json_decode. */
  method Decode<N(==)>(c: Codec<N>, lax: bool, decodeMaxDepth: nat, input: seq<Byte>) returns (r: Option<Value<N>>)
    ensures r == JG.Decode(c, lax, decodeMaxDepth, input)
  {
    hide Lex, ParseValue, CString;
    if |input| >= 2 && (input[0] == 0 || input[1] == 0) { return None; }
    var json := new Parser(c, lax, decodeMaxDepth, input);
    assert json.text[0..] == json.text;
    var token := json.NextToken();
    ValueUnfold(c, token, json.Tokens(), 0, decodeMaxDepth);
    var ok, v := json.ProcessValue(token);
    if !ok { return None; }
    assert json.currentDepth == 0;
    token := json.NextToken();
    r := if token == End then Some(v) else None;
  }
}
