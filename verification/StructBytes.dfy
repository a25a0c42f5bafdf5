/** What the letters of a format mean in bytes: sizes, byte orders, signs, padding and alignment, each for all
    arguments and from the text of the format (Lua/struct.c:92-261, 264-355). */
module StructBytes {
  import opened Options
  import opened StrBuf
  import opened Struct
  import opened StructPack

  /** The number of a byte string, big end first. */
  function BigNumber(b: seq<Byte>): nat {
    if |b| == 1 then At(b, 0)
    else if |b| == 2 then At(b, 0) * 0x100 + At(b, 1)
    else if |b| == 4 then At(b, 0) * 0x100_0000 + At(b, 1) * 0x1_0000 + At(b, 2) * 0x100 + At(b, 3)
    else 0
  }

  /** Little end first. */
  function LittleNumber(b: seq<Byte>): nat {
    if |b| == 1 then At(b, 0)
    else if |b| == 2 then At(b, 1) * 0x100 + At(b, 0)
    else if |b| == 4 then At(b, 3) * 0x100_0000 + At(b, 2) * 0x1_0000 + At(b, 1) * 0x100 + At(b, 0)
    else 0
  }

  function At(b: seq<Byte>, i: nat): nat
    requires i < |b|
  {
    b[i] as nat
  }

  /** The letters of integers of one, two and four bytes. */
  predicate IsLetter(c: char, signed: bool, size: nat) {
    if signed then (c == 'b' && size == 1) || (c == 'h' && size == 2) || (c == 'l' && size == 4) || (c == 'i' && size == 4)
    else (c == 'B' && size == 1) || (c == 'H' && size == 2) || (c == 'L' && size == 4) || (c == 'I' && size == 4) || (c == 'T' && size == 4)
  }

  /** 256 to the power of a size. */
  function Modulus(size: nat): nat {
    if size == 1 then 0x100 else if size == 2 then 0x1_0000 else 0x1_0000_0000
  }

  // ----- integers -----------------------------------------------------------

  lemma OneMore(v: nat, n: nat)
    ensures LittleBytes(v, n + 1) == [v % 256] + LittleBytes(v / 256, n) && BigBytes(v, n + 1) == BigBytes(v / 256, n) + [v % 256]
    ensures LittleBytes(v, 0) == BigBytes(v, 0) == []
  {
  }

  lemma TwoBytes(v: nat)
    ensures LittleBytes(v, 2) == [v % 256, v / 256 % 256] && BigBytes(v, 2) == [v / 256 % 256, v % 256]
    ensures LittleBytes(v, 1) == BigBytes(v, 1) == [v % 256]
  {
    hide LittleBytes, BigBytes;
    OneMore(v, 0);
    OneMore(v, 1);
    OneMore(v / 256, 0);
  }

  lemma FourBytes(v: nat)
    ensures LittleBytes(v, 4) == [v % 256, v / 256 % 256, v / 256 / 256 % 256, v / 256 / 256 / 256 % 256]
    ensures BigBytes(v, 4) == [v / 256 / 256 / 256 % 256, v / 256 / 256 % 256, v / 256 % 256, v % 256]
  {
    hide LittleBytes, BigBytes;
    OneMore(v, 3);
    OneMore(v / 256, 2);
    TwoBytes(v / 256 / 256);
  }

  lemma Positions(v: nat)
    requires v < 0x1_0000_0000
    ensures v / 256 / 256 / 256 % 256 * 0x100_0000 + v / 256 / 256 % 256 * 0x1_0000 + v / 256 % 256 * 0x100 + v % 256 == v
    ensures v / 256 % 256 * 0x100 + v % 256 == v % 0x1_0000
  {
    var a := v / 256;
    var b := a / 256;
    var c := b / 256;
    assert v == a * 256 + v % 256 && a == b * 256 + a % 256 && b == c * 256 + b % 256 && c < 256;
    assert v == b * 0x1_0000 + (a % 256 * 256 + v % 256);
  }

  lemma Numbers(n: int, size: nat)
    requires size == 1 || size == 2 || size == 4
    ensures BigNumber(PutInteger(n, false, size)) == n % Modulus(size) && LittleNumber(PutInteger(n, true, size)) == n % Modulus(size)
  {
    var v := n % WORD;
    TwoBytes(v);
    FourBytes(v);
    Positions(v);
    ModuloWord(n);
    hide LittleBytes, BigBytes;
  }

  lemma ModuloWord(n: int)
    ensures n % WORD % 0x100 == n % 0x100 && n % WORD % 0x1_0000 == n % 0x1_0000
  {
    PowersDivide(n, 1);
    PowersDivide(n, 2);
    Powers();
    hide Pow256;
  }

  lemma LetterOpt(c: char, signed: bool, size: nat)
    requires IsLetter(c, signed, size)
    ensures NextOpt([c]) == (IntOpt(signed, size), 1)
  {
    assert [c][1..] == "";
  }

  lemma OneLetter(c: char, signed: bool, size: nat, little: bool, n: int)
    requires IsLetter(c, signed, size)
    ensures AllCovered([c]) && Pack([c], Header(little, 1), 0, [Int(n)]) == Some((PutInteger(n, little, size), size))
  {
    hide PutInteger, NextOpt;
    LetterOpt(c, signed, size);
    assert [c][1..] == "" && [Int(n)][1..] == [];
    var h, bytes := Header(little, 1), PutInteger(n, little, size);
    assert ToAlign(0, h, IntOpt(signed, size)) == 0;
    assert Zeros(0) + bytes + [] == bytes;
    assert Pack("", h, size, []) == Some(([], size));
  }

  lemma Switch(s: char, rest: string, args: seq<Item>)
    requires (s == '<' || s == '>') && AllCovered(rest)
    ensures AllCovered([s] + rest)
    ensures Pack([s] + rest, DefaultHeader, 0, args) == Pack(rest, Header(s == '<', 1), 0, args)
  {
    var fmt := [s] + rest;
    assert fmt[1..] == rest;
    assert NextOpt(fmt) == (if s == '<' then LittleOpt else BigOpt, 1);
    var r := Pack(rest, Header(s == '<', 1), 0, args);
    if r.Some? { assert Zeros(0) + [] + r.value.0 == r.value.0; }
    hide NextOpt;
  }

  /** The bytes of one integer: `>` puts the big end first, `<` and the default the little end. The bytes are those of
      the number modulo 256 to the power of the size, so that an unsigned number in range is the number of its bytes. */
  lemma IntegerBytes(c: char, signed: bool, size: nat, n: int)
    requires IsLetter(c, signed, size)
    ensures AllCovered(['>'] + [c]) && AllCovered(['<'] + [c]) && AllCovered([c])
    ensures var r := Pack(['>'] + [c], DefaultHeader, 0, [Int(n)]); r.Some? && |r.value.0| == size && BigNumber(r.value.0) == n % Modulus(size)
    ensures var r := Pack(['<'] + [c], DefaultHeader, 0, [Int(n)]); r.Some? && |r.value.0| == size && LittleNumber(r.value.0) == n % Modulus(size)
    ensures var r := Pack([c], DefaultHeader, 0, [Int(n)]); r.Some? && |r.value.0| == size && LittleNumber(r.value.0) == n % Modulus(size)
  {
    hide Pack, PutInteger, BigNumber, LittleNumber, AllCovered;
    OneLetter(c, signed, size, true, n);
    OneLetter(c, signed, size, false, n);
    Switch('>', [c], [Int(n)]);
    Switch('<', [c], [Int(n)]);
    Numbers(n, size);
  }

  /** The number that unpack gives: the upper half of the signed range is negative. */
  function Signed(v: nat, signed: bool, size: nat): int {
    if signed && v >= Modulus(size) / 2 then v - Modulus(size) else v
  }

  lemma OneMoreRead(s: seq<Byte>)
    requires s != []
    ensures FromLittle(s) == At(s, 0) + 256 * FromLittle(s[1..]) && FromBig(s) == 256 * FromBig(s[..|s| - 1]) + At(s, |s| - 1)
    ensures FromLittle([]) == FromBig([]) == 0
  {
  }

  lemma OneByteRead(s: seq<Byte>)
    requires |s| == 1
    ensures FromLittle(s) == FromBig(s) == At(s, 0)
  {
    hide FromLittle, FromBig;
    OneMoreRead(s);
    assert s[1..] == [] && s[..0] == [];
  }

  lemma TwoBytesRead(s: seq<Byte>)
    requires |s| == 2
    ensures FromLittle(s) == LittleNumber(s) && FromBig(s) == BigNumber(s)
  {
    hide FromLittle, FromBig;
    OneMoreRead(s);
    OneByteRead(s[1..]);
    OneByteRead(s[..1]);
  }

  lemma FourBytesRead(s: seq<Byte>)
    requires |s| == 4
    ensures FromLittle(s) == LittleNumber(s) && FromBig(s) == BigNumber(s)
  {
    hide FromLittle, FromBig;
    OneMoreRead(s);
    OneMoreRead(s[1..]);
    OneMoreRead(s[..3]);
    assert s[1..][1..] == s[2..] && s[..3][..2] == s[..2];
    TwoBytesRead(s[2..]);
    TwoBytesRead(s[..2]);
  }

  lemma NumberFits(s: seq<Byte>)
    requires |s| == 1 || |s| == 2 || |s| == 4
    ensures LittleNumber(s) < Modulus(|s|) && BigNumber(s) < Modulus(|s|)
  {
  }

  lemma FromBytes(s: seq<Byte>)
    requires |s| == 1 || |s| == 2 || |s| == 4
    ensures FromLittle(s) == LittleNumber(s) && FromBig(s) == BigNumber(s)
  {
    if |s| == 1 { OneByteRead(s); } else if |s| == 2 { TwoBytesRead(s); } else { FourBytesRead(s); }
    hide FromLittle, FromBig;
  }

  lemma SignIs(v: nat, signed: bool, size: nat)
    requires (size == 1 || size == 2 || size == 4) && v < Modulus(size)
    ensures (if signed then SignExtend(v % WORD, size) else v % WORD) == Signed(v, signed, size)
  {
    Powers();
    hide Pow256;
  }

  lemma ReadIs(s: seq<Byte>, little: bool, signed: bool)
    requires |s| == 1 || |s| == 2 || |s| == 4
    ensures GetInteger(s, little, signed) == Signed(if little then LittleNumber(s) else BigNumber(s), signed, |s|)
  {
    hide FromLittle, FromBig, LittleNumber, BigNumber, SignExtend, Signed, Modulus;
    FromBytes(s);
    NumberFits(s);
    SignIs(if little then LittleNumber(s) else BigNumber(s), signed, |s|);
  }

  lemma OneLetterRead(c: char, signed: bool, size: nat, little: bool, b: seq<Byte>)
    requires IsLetter(c, signed, size) && |b| == size
    ensures AllCovered([c])
    ensures Unpack([c], Header(little, 1), b, 0) == Some(([Int(Signed(if little then LittleNumber(b) else BigNumber(b), signed, size))], size))
  {
    hide GetInteger, NextOpt, LittleNumber, BigNumber, Signed, FindNul;
    LetterOpt(c, signed, size);
    assert [c][1..] == "" && b[0..size] == b;
    ReadIs(b, little, signed);
    var h, v := Header(little, 1), GetInteger(b, little, signed);
    assert ToAlign(0, h, IntOpt(signed, size)) == 0;
    assert UnpackOpt(IntOpt(signed, size), h, b, 0) == Some(Unpacked([Int(v)], size, h));
    assert [Int(v)] + [] == [Int(v)];
    assert Unpack("", h, b, size) == Some(([], size));
  }

  lemma SwitchRead(s: char, rest: string, data: seq<Byte>)
    requires (s == '<' || s == '>') && AllCovered(rest)
    ensures AllCovered([s] + rest) && Unpack([s] + rest, DefaultHeader, data, 0) == Unpack(rest, Header(s == '<', 1), data, 0)
  {
    var fmt := [s] + rest;
    assert fmt[1..] == rest;
    assert NextOpt(fmt) == (if s == '<' then LittleOpt else BigOpt, 1);
    var r := Unpack(rest, Header(s == '<', 1), data, 0);
    if r.Some? { assert [] + r.value.0 == r.value.0; }
    hide NextOpt, GetInteger, FindNul;
  }

  /** The number of the bytes, in the byte order of the switch; small letters are signed. */
  lemma IntegerRead(c: char, signed: bool, size: nat, b: seq<Byte>)
    requires IsLetter(c, signed, size) && |b| == size
    ensures AllCovered(['>'] + [c]) && AllCovered(['<'] + [c]) && AllCovered([c])
    ensures Unpack(['>'] + [c], DefaultHeader, b, 0) == Some(([Int(Signed(BigNumber(b), signed, size))], size))
    ensures Unpack(['<'] + [c], DefaultHeader, b, 0) == Some(([Int(Signed(LittleNumber(b), signed, size))], size))
    ensures Unpack([c], DefaultHeader, b, 0) == Some(([Int(Signed(LittleNumber(b), signed, size))], size))
  {
    hide Unpack, BigNumber, LittleNumber, Signed, AllCovered;
    OneLetterRead(c, signed, size, true, b);
    OneLetterRead(c, signed, size, false, b);
    SwitchRead('>', [c], b);
    SwitchRead('<', [c], b);
  }

  // ----- the other letters --------------------------------------------------

  /** `s` puts a zero behind its string, `x` is a zero byte, `c3` takes three bytes, `c` one, and a blank nothing. */
  lemma OtherLetters(t: seq<Byte>)
    ensures AllCovered("s") && Pack("s", DefaultHeader, 0, [Str(t)]) == Some((t + [0], |t| + 1))
    ensures AllCovered("x") && Pack("x", DefaultHeader, 0, []) == Some(([0], 1))
    ensures AllCovered(" ") && Pack(" ", DefaultHeader, 0, []) == Some(([], 0))
    ensures AllCovered("c") && Pack("c", DefaultHeader, 0, [Str(t)]) == if |t| >= 1 then Some((t[..1], 1)) else None
    ensures AllCovered("c3") && Pack("c3", DefaultHeader, 0, [Str(t)]) == if |t| >= 3 then Some((t[..3], 3)) else None
  {
    StringLetter(t);
    PadLetters();
    CharLetters(t);
  }

  lemma Alone(fmt: string, opt: Opt, args: seq<Item>)
    requires fmt != "" && NextOpt(fmt) == (opt, |fmt|) && Covered(opt)
    ensures AllCovered(fmt)
    ensures match PackOpt(opt, DefaultHeader, args)
      case None => Pack(fmt, DefaultHeader, 0, args) == None
      case Some(p) => Pack(fmt, DefaultHeader, 0, args) == Some((p.bytes, p.size))
  {
    hide NextOpt, PutInteger;
    assert fmt[|fmt|..] == "";
    assert AllCovered("");
    assert ToAlign(0, DefaultHeader, opt) == 0;
    match PackOpt(opt, DefaultHeader, args)
    case None =>
    case Some(p) =>
      assert Zeros(0) + p.bytes + [] == p.bytes;
      assert p.h.align > 0;
      assert Pack("", p.h, p.size, p.args) == Some(([], p.size));
  }

  lemma StringLetter(t: seq<Byte>)
    ensures AllCovered("s") && Pack("s", DefaultHeader, 0, [Str(t)]) == Some((t + [0], |t| + 1))
  {
    hide Pack;
    Alone("s", StringOpt, [Str(t)]);
  }

  lemma PadLetters()
    ensures AllCovered("x") && Pack("x", DefaultHeader, 0, []) == Some(([0], 1))
    ensures AllCovered(" ") && Pack(" ", DefaultHeader, 0, []) == Some(([], 0))
  {
    hide Pack;
    Alone("x", PadOpt, []);
    Alone(" ", BlankOpt, []);
  }

  lemma CharLetters(t: seq<Byte>)
    ensures AllCovered("c") && Pack("c", DefaultHeader, 0, [Str(t)]) == if |t| >= 1 then Some((t[..1], 1)) else None
    ensures AllCovered("c3") && Pack("c3", DefaultHeader, 0, [Str(t)]) == if |t| >= 3 then Some((t[..3], 3)) else None
  {
    hide Pack, AllCovered;
    assert "c"[1..] == "" && "c3"[1..] == "3" && "3"[1..] == "";
    assert Digits("", 3) == (3, 0);
    assert NextOpt("c") == (CharsOpt(1), 1) && NextOpt("c3") == (CharsOpt(3), 2);
    Alone("c", CharsOpt(1), [Str(t)]);
    Alone("c3", CharsOpt(3), [Str(t)]);
  }

  /** A number in a format is decimal. */
  lemma TwoDigits(a: char, b: char)
    requires '0' <= a <= '9' && '0' <= b <= '9'
    ensures GetNum([a, b], 7) == (10 * (a as int - 48) + (b as int - 48), 2) && GetNum([a], 7) == (a as int - 48, 1) && GetNum("", 7) == (7, 0)
  {
    var x, y := a as int - 48, b as int - 48;
    assert '0' as int == 48;
    assert [a, b][1..] == [b] && [b][1..] == "" && [a][1..] == "";
    assert Digits("", x) == (x, 0) && Digits("", 10 * x + y) == (10 * x + y, 0);
    assert Digits([a], 0) == (x, 1);
    assert Digits([b], x) == (x * 10 + y, 1);
    assert Digits([a, b], 0) == (x * 10 + y, 2);
  }

  /** Without `!` nothing is aligned; `!` alone aligns an integer to its size, `!2` to two bytes. */
  lemma AlignedBytes(m: int, n: int)
    ensures AllCovered("bi") && Pack("bi", DefaultHeader, 0, [Int(m), Int(n)]) == Some((PutInteger(m, true, 1) + PutInteger(n, true, 4), 5))
    ensures AllCovered("!bi") && Pack("!bi", DefaultHeader, 0, [Int(m), Int(n)]) == Some((PutInteger(m, true, 1) + [0, 0, 0] + PutInteger(n, true, 4), 8))
    ensures AllCovered("!2bi") && Pack("!2bi", DefaultHeader, 0, [Int(m), Int(n)]) == Some((PutInteger(m, true, 1) + [0] + PutInteger(n, true, 4), 6))
  {
    ByteAndInt(m, n, 1);
    ByteAndInt(m, n, 8);
    ByteAndInt(m, n, 2);
    Alignments();
    AlignSwitch("!bi", 8, 1, [Int(m), Int(n)]);
    AlignSwitch("!2bi", 2, 2, [Int(m), Int(n)]);
    hide Pack, PutInteger, AllCovered;
    assert Zeros(0) == [] && Zeros(3) == [0, 0, 0] && Zeros(1) == [0];
    assert PutInteger(m, true, 1) + [] == PutInteger(m, true, 1);
  }

  lemma Alignments()
    ensures NextOpt("!bi") == (AlignOpt(8), 1) && "!bi"[1..] == "bi" && NextOpt("!2bi") == (AlignOpt(2), 2) && "!2bi"[2..] == "bi"
    ensures IsPowerOf2(8) && IsPowerOf2(2)
  {
    assert "!2bi"[1..] == "2bi" && "2bi"[1..] == "bi";
    assert IsPowerOf2(1);
    assert IsPowerOf2(4);
  }

  lemma AlignSwitch(fmt: string, a: nat, n: nat, args: seq<Item>)
    requires n <= |fmt| && fmt != "" && NextOpt(fmt) == (AlignOpt(a), n) && IsPowerOf2(a) && AllCovered(fmt[n..])
    ensures AllCovered(fmt) && a > 0 && Pack(fmt, DefaultHeader, 0, args) == Pack(fmt[n..], Header(true, a), 0, args)
  {
    hide NextOpt, PutInteger;
    var r := Pack(fmt[n..], Header(true, a), 0, args);
    if r.Some? { assert Zeros(0) + [] + r.value.0 == r.value.0; }
  }

  lemma ByteAndInt(m: int, n: int, a: nat)
    requires a == 1 || a == 2 || a == 8
    ensures var pad := if a == 1 then 0 else if a == 2 then 1 else 3;
      AllCovered("bi") && Pack("bi", Header(true, a), 0, [Int(m), Int(n)]) == Some((PutInteger(m, true, 1) + Zeros(pad) + PutInteger(n, true, 4), 5 + pad))
  {
    var h, pad := Header(true, a), if a == 1 then 0 else if a == 2 then 1 else 3;
    LetterOpt('i', true, 4);
    assert "bi"[1..] == "i" == ['i'] && "i"[1..] == "";
    assert NextOpt("bi") == (IntOpt(true, 1), 1);
    PadOfInt(a);
    hide PutInteger, NextOpt, ToAlign, And;
    assert [Int(m), Int(n)][1..] == [Int(n)] && [Int(n)][1..] == [];
    var x, y := PutInteger(m, true, 1), PutInteger(n, true, 4);
    assert Pack("", h, 5 + pad, []) == Some(([], 5 + pad));
    assert Zeros(pad) + y + [] == Zeros(pad) + y;
    assert Pack("i", h, 1, [Int(n)]) == Some((Zeros(pad) + y, 5 + pad));
    assert Zeros(0) + x + (Zeros(pad) + y) == x + Zeros(pad) + y;
  }

  lemma PadOfInt(a: nat)
    requires a == 1 || a == 2 || a == 8
    ensures ToAlign(0, Header(true, a), IntOpt(true, 1)) == 0
    ensures ToAlign(1, Header(true, a), IntOpt(true, 4)) == if a == 1 then 0 else if a == 2 then 1 else 3
  {
    assert And(1, 3) == 1 && And(3, 3) == 3 && And(1, 1) == 1 && And(1, 0) == 0;
  }

  /** Integers of more than 32 bytes are an error, and so is an alignment that is no power of two. */
  lemma Limits(signed: bool, size: nat, n: int, h: Header)
    ensures PackOpt(IntOpt(signed, size), h, [Int(n)]).Some? <==> size <= 32
    ensures PackOpt(AlignOpt(4), h, []) == Some(Packed([], 0, h.(align := 4), [])) && PackOpt(AlignOpt(16), h, []).Some?
    ensures PackOpt(AlignOpt(0), h, []) == PackOpt(AlignOpt(3), h, []) == PackOpt(AlignOpt(6), h, []) == None
  {
    hide PutInteger;
    assert IsPowerOf2(1) && !IsPowerOf2(3);
    assert IsPowerOf2(2);
    assert IsPowerOf2(4);
    assert IsPowerOf2(8);
  }

  /** The letters of options without a number behind them. */
  predicate IsPlain(c: char) {
    c == 'b' || c == 'B' || c == 'h' || c == 'H' || c == 'l' || c == 'L' || c == 'T' || c == 'x' || c == 's' || c == ' ' || c == '<' || c == '>'
  }

  /** How much of a format an option takes: its letter, and for c, i, I and ! the digits behind it. */
  lemma OptionLength(c: char, d: char, rest: string)
    requires rest == "" || !('0' <= rest[0] <= '9')
    ensures IsPlain(c) ==> NextOpt([c] + rest).1 == 1 && NextOpt([c] + ([d] + rest)).1 == 1
    ensures c == 'c' || c == 'i' || c == 'I' || c == '!' ==>
      NextOpt([c] + rest).1 == 1 && ('0' <= d <= '9' ==> NextOpt([c] + ([d] + rest)).1 == 2)
  {
    var more := [d] + rest;
    assert ([c] + rest)[1..] == rest && ([c] + more)[1..] == more && more[1..] == rest;
    if '0' <= d <= '9' {
      forall df: nat ensures GetNum(more, df).1 == 1 {
        assert Digits(rest, 10 * 0 + (d as int - '0' as int)).1 == 0;
      }
    }
    hide GetNum;
    assert forall df: nat :: GetNum(rest, df).1 == 0 by { NoNumber(rest); }
  }

  lemma NoNumber(rest: string)
    requires rest == "" || !('0' <= rest[0] <= '9')
    ensures forall df: nat :: GetNum(rest, df) == (df, 0)
  {
  }

  /** Letters and digits are those of ASCII. */
  lemma AlnumIs(c: char)
    ensures IsAlnum(c) <==> 48 <= c as int <= 57 || 65 <= c as int <= 90 || 97 <= c as int <= 122
  {
    assert '0' as int == 48 && '9' as int == 57 && 'A' as int == 65 && 'Z' as int == 90 && 'a' as int == 97 && 'z' as int == 122;
  }
}
