/** struct.pack, struct.unpack and struct.size (Lua/struct.c:88-377) over their format strings, for
    the sizes of the 32-bit target. */
module Struct {
  import opened Options
  import opened StrBuf

  const MAXINTSIZE := 32
  const MAXALIGN := 8
  const INT_SIZE := 4
  const WORD := 0x1_0000_0000

  /** One option of a format. */
  datatype Opt =
    | IntOpt(signed: bool, size: nat) | PadOpt | CharsOpt(n: nat) | StringOpt | FloatOpt
    | BigOpt | LittleOpt | AlignOpt(a: nat) | BlankOpt | BadOpt(c: char)

  /** What is packed and unpacked. */
  datatype Item = Int(n: int) | Str(s: seq<Byte>)

  datatype Header = Header(little: bool, align: nat)

  const DefaultHeader := Header(true, 1)

  // ----- formats ------------------------------------------------------------

  predicate IsDigit(c: char) {
    '0' <= c <= '9'
  }

  /** getnum in front of a digit: the number and its length. */
  function Digits(fmt: string, a: nat): (r: (nat, nat))
    ensures r.1 <= |fmt|
  {
    if fmt == "" || !IsDigit(fmt[0]) then (a, 0)
    else
      var (n, len) := Digits(fmt[1..], a * 10 + (fmt[0] as int - '0' as int));
      (n, len + 1)
  }

  function GetNum(fmt: string, df: nat): (r: (nat, nat))
    ensures r.1 <= |fmt|
  {
    if fmt == "" || !IsDigit(fmt[0]) then (df, 0) else Digits(fmt, 0)
  }

  /** The option at the front of a format and its length. */
  function NextOpt(fmt: string): (r: (Opt, nat))
    requires fmt != ""
    ensures 1 <= r.1 <= |fmt|
  {
    var rest := fmt[1..];
    match fmt[0]
    case 'b' => (IntOpt(true, 1), 1)
    case 'B' => (IntOpt(false, 1), 1)
    case 'h' => (IntOpt(true, 2), 1)
    case 'H' => (IntOpt(false, 2), 1)
    case 'l' => (IntOpt(true, 4), 1)
    case 'L' => (IntOpt(false, 4), 1)
    case 'T' => (IntOpt(false, 4), 1)
    case 'i' => (IntOpt(true, GetNum(rest, INT_SIZE).0), 1 + GetNum(rest, INT_SIZE).1)
    case 'I' => (IntOpt(false, GetNum(rest, INT_SIZE).0), 1 + GetNum(rest, INT_SIZE).1)
    case 'x' => (PadOpt, 1)
    case 'c' => (CharsOpt(GetNum(rest, 1).0), 1 + GetNum(rest, 1).1)
    case 's' => (StringOpt, 1)
    case 'f' => (FloatOpt, 1)
    case 'd' => (FloatOpt, 1)
    case '>' => (BigOpt, 1)
    case '<' => (LittleOpt, 1)
    case '!' => (AlignOpt(GetNum(rest, MAXALIGN).0), 1 + GetNum(rest, MAXALIGN).1)
    case ' ' => (BlankOpt, 1)
    case c => (BadOpt(c), 1)
  }

  function OptSize(opt: Opt): nat {
    match opt
    case IntOpt(_, size) => size
    case PadOpt => 1
    case CharsOpt(n) => n
    case _ => 0
  }

  /** isp2. */
  predicate IsPowerOf2(x: nat) {
    x == 1 || (x > 1 && x % 2 == 0 && IsPowerOf2(x / 2))
  }

  /** `x & mask`. */
  function And(x: nat, mask: nat): (r: nat)
    ensures r <= mask
  {
    if mask == 0 then 0 else (if x % 2 == 1 && mask % 2 == 1 then 1 else 0) + 2 * And(x / 2, mask / 2)
  }

  /** Options that this model covers: no c0, f and d, and no signed integer of no byte or of more than
      four, whose sign mask the source shifts by more than a word. A size above 32 is an error. */
  predicate Covered(opt: Opt) {
    && (opt.IntOpt? && opt.signed ==> 1 <= opt.size <= 4 || opt.size > MAXINTSIZE)
    && (opt.CharsOpt? ==> opt.n > 0) && !opt.FloatOpt?
  }

  /** gettoalign. */
  function ToAlign(len: nat, h: Header, opt: Opt): nat
    requires Covered(opt) && h.align > 0
  {
    if OptSize(opt) == 0 || opt.CharsOpt? then 0
    else
      var size := if OptSize(opt) > h.align then h.align else OptSize(opt);
      And(size - And(len, size - 1), size - 1)
  }

  /** The options that change the header: `!` wants a power of two. */
  function Control(opt: Opt, h: Header): Option<Header> {
    match opt
    case BigOpt => Some(h.(little := false))
    case LittleOpt => Some(h.(little := true))
    case AlignOpt(a) => if IsPowerOf2(a) then Some(h.(align := a)) else None
    case BadOpt(_) => None
    case _ => Some(h)
  }

  // ----- integers -----------------------------------------------------------

  function Pow256(n: nat): (p: nat)
    ensures p > 0
  {
    if n == 0 then 1 else 256 * Pow256(n - 1)
  }

  function LittleBytes(v: nat, size: nat): (s: seq<Byte>)
    ensures |s| == size
  {
    if size == 0 then [] else [v % 256] + LittleBytes(v / 256, size - 1)
  }

  function BigBytes(v: nat, size: nat): (s: seq<Byte>)
    ensures |s| == size
  {
    if size == 0 then [] else BigBytes(v / 256, size - 1) + [v % 256]
  }

  function FromLittle(s: seq<Byte>): nat {
    if s == [] then 0 else s[0] + 256 * FromLittle(s[1..])
  }

  function FromBig(s: seq<Byte>): nat {
    if s == [] then 0 else 256 * FromBig(s[..|s| - 1]) + s[|s| - 1]
  }

  function PutInteger(n: int, little: bool, size: nat): (s: seq<Byte>)
    ensures |s| == size
  {
    if little then LittleBytes(n % WORD, size) else BigBytes(n % WORD, size)
  }

  /** The sign of a number of `size` bytes is its highest bit. */
  function SignExtend(v: nat, size: nat): int {
    if size > 0 && v >= Pow256(size) / 2 then v - Pow256(size) else v
  }

  /** The register has 32 bits. */
  function GetInteger(s: seq<Byte>, little: bool, signed: bool): int {
    var v := (if little then FromLittle(s) else FromBig(s)) % WORD;
    if signed then SignExtend(v, |s|) else v
  }

  lemma {:induction false} LittleReads(v: nat, size: nat)
    ensures FromLittle(LittleBytes(v, size)) == v % Pow256(size)
  {
    if size > 0 {
      LittleReads(v / 256, size - 1);
      assert LittleBytes(v, size)[1..] == LittleBytes(v / 256, size - 1);
      ModPow(v, Pow256(size - 1));
    }
  }

  lemma {:induction false} BigReads(v: nat, size: nat)
    ensures FromBig(BigBytes(v, size)) == v % Pow256(size)
  {
    if size > 0 {
      BigReads(v / 256, size - 1);
      var s := BigBytes(v, size);
      assert s[..|s| - 1] == BigBytes(v / 256, size - 1);
      ModPow(v, Pow256(size - 1));
    }
  }

  lemma ModPow(v: nat, p: nat)
    requires p > 0
    ensures v % (256 * p) == v % 256 + 256 * (v / 256 % p)
  {
    var q := v / 256 / p;
    var r := v % 256 + 256 * (v / 256 % p);
    assert v / 256 == q * p + v / 256 % p;
    assert v == 256 * (v / 256) + v % 256;
    assert v == 256 * (q * p) + r;
    assert 256 * (q * p) == q * (256 * p);
    assert v / 256 % p <= p - 1;
    DivisionIsUnique(v, 256 * p, q, r);
  }

  lemma AtLeastFactor(d: nat, m: nat)
    requires d >= 1
    ensures d * m >= m
  {
    assert d * m == (d - 1) * m + m;
  }

  lemma DivisionIsUnique(v: int, m: nat, q: int, r: nat)
    requires m > 0 && v == q * m + r && r < m
    ensures v % m == r
  {
    var k := v / m;
    assert v == k * m + v % m;
    assert (q - k) * m == q * m - k * m && (k - q) * m == k * m - q * m;
    if k < q { AtLeastFactor(q - k, m); } else if k > q { AtLeastFactor(k - q, m); }
  }

  /** The number of bytes that count. */
  function Width(size: nat): nat {
    if size < 4 then size else 4
  }

  predicate InRange(signed: bool, size: nat, n: int) {
    if signed then -(Pow256(size) / 2) <= n < Pow256(size) / 2 else 0 <= n < Pow256(Width(size))
  }

  /** What an integer of `size` bytes keeps of `n`. */
  function FitInteger(signed: bool, size: nat, n: int): int {
    var v := n % Pow256(Width(size));
    if signed then SignExtend(v, size) else v
  }

  lemma Powers()
    ensures Pow256(0) == 1 && Pow256(1) == 0x100 && Pow256(2) == 0x1_0000 && Pow256(3) == 0x100_0000 && Pow256(4) == WORD
  {
  }

  lemma {:induction false} PowersGrow(size: nat)
    requires size >= 4
    ensures Pow256(size) >= WORD
    decreases size
  {
    if size == 4 { Powers(); } else { PowersGrow(size - 1); }
  }

  lemma PowersDivide(n: int, size: nat)
    requires size <= 4
    ensures n % WORD % Pow256(size) == n % Pow256(size) && (size > 0 ==> Pow256(size) % 2 == 0) && Pow256(size) <= WORD
  {
    Powers();
    hide Pow256;
    var p := Pow256(size);
    var c := if size == 0 then WORD else if size == 1 then 0x100_0000 else if size == 2 then 0x1_0000 else if size == 3 then 0x100 else 1;
    assert WORD == c * p;
    var k, r := n / WORD, n % WORD;
    var q := r / p;
    assert n == k * (c * p) + r && r == q * p + r % p;
    assert k * (c * p) == k * c * p && (k * c + q) * p == k * c * p + q * p;
    DivisionIsUnique(n, p, k * c + q, r % p);
  }

  /** Both ways of reading bring a 32-bit number back modulo 256 to the power of the bytes that count. */
  lemma WidthReads(n: int, size: nat)
    ensures n % WORD % Pow256(size) % WORD == n % Pow256(Width(size))
  {
    PowersDivide(n, Width(size));
    var v := n % WORD;
    if size >= 4 {
      PowersGrow(size);
      Powers();
      DivisionIsUnique(v, Pow256(size), 0, v);
    } else {
      var r := v % Pow256(size);
      DivisionIsUnique(r, WORD, 0, r);
    }
  }

  /** An integer comes back as what `size` bytes keep of it, in either byte order. */
  lemma IntegerReads(n: int, little: bool, signed: bool, size: nat)
    ensures GetInteger(PutInteger(n, little, size), little, signed) == FitInteger(signed, size, n)
  {
    WidthReads(n, size);
    LittleReads(n % WORD, size);
    BigReads(n % WORD, size);
    hide LittleBytes, BigBytes, FromLittle, FromBig, Pow256;
  }

  /** It comes back unchanged if and only if it is in the range of its option. */
  lemma FitsIff(signed: bool, size: nat, n: int)
    requires signed ==> 1 <= size <= 4
    ensures FitInteger(signed, size, n) == n <==> InRange(signed, size, n)
  {
    PowersDivide(n, Width(size));
    var p := Pow256(Width(size));
    assert p > 0;
    hide Pow256;
    if InRange(signed, size, n) {
      if n >= 0 { DivisionIsUnique(n, p, 0, n); } else { DivisionIsUnique(n, p, -1, n + p); }
    }
  }
}
