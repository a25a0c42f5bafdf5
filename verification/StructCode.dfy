/** The loops of struct.pack, struct.unpack and struct.size (Lua/struct.c:88-100, 167-377). */
module StructCode {
  import opened Options
  import opened StrBuf
  import opened Struct
  import opened StructPack

  /** getnum: it moves the cursor behind the number. */
  method ReadNumber(fmt: string, at: nat, df: nat) returns (a: nat, next: nat)
    requires at <= |fmt|
    ensures (a, next - at) == GetNum(fmt[at..], df) && at <= next <= |fmt|
  {
    if at == |fmt| || !IsDigit(fmt[at]) { return df, at; }
    a, next := 0, at;
    while next < |fmt| && IsDigit(fmt[next])
      invariant at <= next <= |fmt|
      invariant var (n, len) := Digits(fmt[next..], a); Digits(fmt[at..], 0) == (n, len + (next - at))
    {
      assert fmt[next..][1..] == fmt[next + 1..];
      a := a * 10 + (fmt[next] as int - '0' as int);
      next := next + 1;
    }
  }

  method WriteLittle(buff: array<Byte>, value0: nat, size: nat)
    requires size <= buff.Length
    modifies buff
    ensures buff[..size] == LittleBytes(value0, size)
  {
    var value, i := value0, 0;
    while i < size
      invariant 0 <= i <= size && value >= 0
      invariant LittleBytes(value0, size) == buff[..i] + LittleBytes(value, size - i)
    {
      LittleGrows(buff[..i], value, size - i);
      ghost var before := buff[..i];
      buff[i] := value % 256;
      assert buff[..i + 1] == before + [value % 256];
      value := value / 256;
      i := i + 1;
    }
    assert buff[..size] + [] == buff[..size];
  }

  method WriteBig(buff: array<Byte>, value0: nat, size: nat)
    requires size <= buff.Length
    modifies buff
    ensures buff[..size] == BigBytes(value0, size)
  {
    var value, i := value0, size - 1;
    while i >= 0
      invariant -1 <= i < size && value >= 0
      invariant BigBytes(value0, size) == BigBytes(value, i + 1) + buff[i + 1..size]
    {
      BigGrows(value, i + 1, buff[i + 1..size]);
      ghost var after := buff[i + 1..size];
      buff[i] := value % 256;
      assert buff[i..size] == [value % 256] + after;
      value := value / 256;
      i := i - 1;
    }
    assert [] + buff[0..size] == buff[..size];
  }

  /** putinteger. */
  method WriteInteger(n: int, little: bool, size: nat) returns (b: seq<Byte>)
    requires size <= MAXINTSIZE
    ensures b == PutInteger(n, little, size)
  {
    var buff := new Byte[MAXINTSIZE];
    if little { WriteLittle(buff, n % WORD, size); } else { WriteBig(buff, n % WORD, size); }
    b := buff[..size];
  }

  lemma LittleGrows(done: seq<Byte>, v: nat, n: nat)
    requires n > 0
    ensures done + LittleBytes(v, n) == done + [v % 256] + LittleBytes(v / 256, n - 1)
  {
  }

  lemma BigGrows(v: nat, n: nat, done: seq<Byte>)
    requires n > 0
    ensures BigBytes(v, n) + done == BigBytes(v / 256, n - 1) + ([v % 256] + done)
  {
  }

  lemma {:induction false} Bounds(s: seq<Byte>)
    ensures FromBig(s) < Pow256(|s|) && FromLittle(s) < Pow256(|s|)
  {
    if s != [] {
      Bounds(s[1..]);
      Bounds(s[..|s| - 1]);
    }
  }

  /** The next byte enters the 32-bit register. */
  function ShiftIn(l: nat, b: Byte): nat {
    l * 256 % WORD + b
  }

  /** The bits that the shift drops do not come back. */
  lemma ShiftsIn(x: nat, b: Byte)
    ensures ShiftIn(x % WORD, b) == (256 * x + b) % WORD
  {
    var q, y := x / WORD, x % WORD;
    var u, t := y / 0x100_0000, y % 0x100_0000;
    DivisionIsUnique(y * 256, WORD, u, 256 * t);
    DivisionIsUnique(256 * x + b, WORD, 256 * q + u, 256 * t + b);
  }

  method ReadBig(buff: seq<Byte>) returns (l: nat)
    ensures l == FromBig(buff) % WORD
  {
    hide ShiftIn;
    l := 0;
    var i := 0;
    while i < |buff|
      invariant 0 <= i <= |buff| && l == FromBig(buff[..i]) % WORD
    {
      ShiftsIn(FromBig(buff[..i]), buff[i]);
      assert buff[..i + 1][..i] == buff[..i];
      l := ShiftIn(l, buff[i]);
      i := i + 1;
    }
    assert buff[..|buff|] == buff;
  }

  method ReadLittle(buff: seq<Byte>) returns (l: nat)
    ensures l == FromLittle(buff) % WORD
  {
    hide ShiftIn;
    l := 0;
    var i := |buff| - 1;
    while i >= 0
      invariant -1 <= i < |buff| && l == FromLittle(buff[i + 1..]) % WORD
    {
      ShiftsIn(FromLittle(buff[i + 1..]), buff[i]);
      assert buff[i..][1..] == buff[i + 1..];
      l := ShiftIn(l, buff[i]);
      i := i - 1;
    }
  }

  lemma Exact(buff: seq<Byte>)
    requires |buff| <= 4
    ensures FromBig(buff) % WORD < Pow256(|buff|) && FromLittle(buff) % WORD < Pow256(|buff|)
  {
    Bounds(buff);
    PowersDivide(0, |buff|);
    hide Pow256, FromBig, FromLittle;
  }

  /** getinteger. */
  method ReadInteger(buff: seq<Byte>, little: bool, signed: bool) returns (n: int)
    requires signed ==> 1 <= |buff| <= 4
    ensures n == GetInteger(buff, little, signed)
  {
    hide Pow256, FromBig, FromLittle, SignExtend;
    var l;
    if little { l := ReadLittle(buff); } else { l := ReadBig(buff); }
    n := l;
    if signed {
      Exact(buff);
      n := ExtendSign(l, |buff|);
    }
  }

  /** The mask covers the sign bit and everything above it; the result is read as a signed word. */
  method ExtendSign(l0: nat, size: nat) returns (n: int)
    requires 1 <= size <= 4 && l0 < Pow256(size)
    ensures n == SignExtend(l0, size)
  {
    Powers();
    var half := if size == 1 then 0x80 else if size == 2 then 0x8000 else if size == 3 then 0x80_0000 else 0x8000_0000;
    var mask := WORD - half;
    var l := l0;
    if l >= half {
      l := mask + l % half;
    }
    n := if l >= WORD / 2 then l - WORD else l;
  }

  // ----- pack ---------------------------------------------------------------

  /** What is packed already and what is left make up the whole, or both fail. */
  ghost predicate PackGoesOn(all: Option<(seq<Byte>, nat)>, rest: Option<(seq<Byte>, nat)>, done: seq<Byte>) {
    match all
    case None => rest == None
    case Some((bytes, end)) => rest.Some? && rest.value.1 == end && bytes == done + rest.value.0
  }

  lemma PackStep(all: Option<(seq<Byte>, nat)>, fmt: string, h: Header, total: nat, args: seq<Item>, done: seq<Byte>)
    requires fmt != "" && AllCovered(fmt) && h.align > 0 && PackGoesOn(all, Pack(fmt, h, total, args), done)
    ensures var (opt, n) := NextOpt(fmt);
      var pad := ToAlign(total, h, opt);
      match PackOpt(opt, h, args)
      case None => all == None
      case Some(p) => p.h.align > 0 && PackGoesOn(all, Pack(fmt[n..], p.h, total + pad + p.size, p.args), done + Zeros(pad) + p.bytes)
  {
    hide PackOpt, ToAlign, NextOpt;
    var (opt, n) := NextOpt(fmt);
    if PackOpt(opt, h, args).Some? {
      PackOptLength(opt, h, args);
      var p := PackOpt(opt, h, args).value;
      var pad := ToAlign(total, h, opt);
      var rest := Pack(fmt[n..], p.h, total + pad + p.size, p.args);
      if rest.Some? { Regroup3(done, Zeros(pad), p.bytes, rest.value.0); }
    }
  }

  lemma Regroup3(a: seq<Byte>, b: seq<Byte>, c: seq<Byte>, d: seq<Byte>)
    ensures a + (b + c + d) == a + b + c + d
  {
  }

  /** The options that take an argument, and x. */
  method PackArgument(opt: Opt, h: Header, args: seq<Item>, arg: nat) returns (ok: bool, bytes: seq<Byte>, size: nat, next: nat)
    requires Covered(opt) && arg <= |args| && (TakesArgument(opt) || opt.PadOpt?)
    ensures match PackOpt(opt, h, args[arg..])
      case None => !ok
      case Some(p) => ok && bytes == p.bytes && size == p.size && p.h == h && next <= |args| && p.args == args[next..]
  {
    hide PutInteger;
    ok, bytes, size, next := true, [], OptSize(opt), arg;
    if opt.PadOpt? { return true, [0], 1, arg; }
    if arg == |args| { return false, [], 0, arg; }
    next := arg + 1;
    assert args[arg..][0] == args[arg] && args[arg..][1..] == args[next..];
    if opt.IntOpt? {
      ok := size <= MAXINTSIZE && args[arg].Int?;
      if ok { bytes := WriteInteger(args[arg].n, h.little, size); }
    } else if !args[arg].Str? {
      ok := false;
    } else {
      var s := args[arg].s;
      if size == 0 { size := |s|; }
      ok := |s| >= size;
      if ok { bytes := s[..size]; }
      if opt.StringOpt? {
        bytes := bytes + [0];
        size := size + 1;
      }
    }
  }

  /** b_pack. */
  method BPack(fmt: string, args: seq<Item>) returns (r: Option<seq<Byte>>)
    requires AllCovered(fmt)
    ensures match Pack(fmt, DefaultHeader, 0, args)
      case None => r == None
      case Some((bytes, _)) => r == Some(bytes)
  {
    hide Pack, PackOpt, ToAlign, NextOpt, Control, AllCovered, Covered;
    ghost var all := Pack(fmt, DefaultHeader, 0, args);
    var h, arg, totalsize, at := DefaultHeader, 0, 0, 0;
    var b: seq<Byte> := [];
    PackBegins(fmt, args);
    while at < |fmt|
      invariant at <= |fmt| && 0 <= arg <= |args| && totalsize >= 0 && h.align > 0 && AllCovered(fmt[at..])
      invariant PackGoesOn(all, Pack(fmt[at..], h, totalsize, args[arg..]), b)
    {
      PackStep(all, fmt[at..], h, totalsize, args[arg..], b);
      OptAhead(fmt, at);
      var (opt, n) := NextOpt(fmt[at..]);
      var toalign := ToAlign(totalsize, h, opt);
      b := b + Zeros(toalign);
      var bytes, size := [], 0;
      ArgumentOrControl(opt, h, args[arg..]);
      if TakesArgument(opt) || opt.PadOpt? {
        var ok;
        ok, bytes, size, arg := PackArgument(opt, h, args, arg);
        if !ok { return None; }
      } else {
        var c := Control(opt, h);
        if c.None? { return None; }
        h := c.value;
      }
      b := b + bytes;
      totalsize := totalsize + toalign + size;
      at := at + n;
    }
    PackEnds(all, fmt[at..], h, totalsize, args[arg..], b);
    r := Some(b);
  }

  lemma PackBegins(fmt: string, args: seq<Item>)
    requires AllCovered(fmt)
    ensures fmt[0..] == fmt && args[0..] == args && PackGoesOn(Pack(fmt, DefaultHeader, 0, args), Pack(fmt, DefaultHeader, 0, args), [])
  {
    hide Pack;
    var all := Pack(fmt, DefaultHeader, 0, args);
    if all.Some? { assert [] + all.value.0 == all.value.0; }
  }

  lemma PackEnds(all: Option<(seq<Byte>, nat)>, fmt: string, h: Header, total: nat, args: seq<Item>, done: seq<Byte>)
    requires fmt == "" && h.align > 0 && PackGoesOn(all, Pack(fmt, h, total, args), done)
    ensures all == Some((done, total))
  {
    assert done + [] == done;
  }

  lemma OptAhead(fmt: string, at: nat)
    requires at < |fmt| && AllCovered(fmt[at..])
    ensures var (opt, n) := NextOpt(fmt[at..]);
      Covered(opt) && at + n <= |fmt| && fmt[at..][n..] == fmt[at + n..] && AllCovered(fmt[at + n..])
  {
    hide NextOpt;
    var n := NextOpt(fmt[at..]).1;
    assert fmt[at..][n..] == fmt[at + n..];
  }

  lemma ArgumentOrControl(opt: Opt, h: Header, args: seq<Item>)
    requires Covered(opt)
    ensures !(TakesArgument(opt) || opt.PadOpt?) ==>
      PackOpt(opt, h, args) == match Control(opt, h) case None => None case Some(h') => Some(Packed([], 0, h', args))
  {
    hide Control;
  }

  // ----- unpack -------------------------------------------------------------

  ghost predicate UnpackGoesOn(all: Option<(seq<Item>, nat)>, rest: Option<(seq<Item>, nat)>, done: seq<Item>) {
    match all
    case None => rest == None
    case Some((items, end)) => rest.Some? && rest.value.1 == end && items == done + rest.value.0
  }

  lemma UnpackStep(all: Option<(seq<Item>, nat)>, fmt: string, h: Header, data: seq<Byte>, pos: nat, done: seq<Item>)
    requires fmt != "" && AllCovered(fmt) && h.align > 0 && UnpackGoesOn(all, Unpack(fmt, h, data, pos), done)
    ensures var (opt, n) := NextOpt(fmt);
      var at := pos + ToAlign(pos, h, opt);
      match UnpackOpt(opt, h, data, at)
      case None => all == None
      case Some(u) => u.h.align > 0 && UnpackGoesOn(all, Unpack(fmt[n..], u.h, data, at + u.size), done + u.items)
  {
    hide ToAlign, NextOpt, UnpackOpt;
    var (opt, n) := NextOpt(fmt);
    var at := pos + ToAlign(pos, h, opt);
    if UnpackOpt(opt, h, data, at).Some? {
      var u := UnpackOpt(opt, h, data, at).value;
      UnpackOptHeader(opt, h, data, at);
      var rest := Unpack(fmt[n..], u.h, data, at + u.size);
      if rest.Some? { assert done + (u.items + rest.value.0) == done + u.items + rest.value.0; }
    }
  }

  lemma UnpackOptHeader(opt: Opt, h: Header, data: seq<Byte>, at: nat)
    requires h.align > 0 && UnpackOpt(opt, h, data, at).Some?
    ensures UnpackOpt(opt, h, data, at).value.h.align > 0
  {
    hide GetInteger, FindNul;
  }

  /** memchr with 0. */
  method MemChr(data: seq<Byte>, pos: nat) returns (e: nat)
    requires pos <= |data|
    ensures e == FindNul(data, pos)
  {
    e := pos;
    while e < |data| && data[e] != 0
      invariant pos <= e <= |data| && FindNul(data, pos) == FindNul(data, e)
    {
      e := e + 1;
    }
  }

  method UnpackOne(opt: Opt, h: Header, data: seq<Byte>, pos: nat) returns (r: Option<Unpacked>)
    requires Covered(opt)
    ensures r == UnpackOpt(opt, h, data, pos)
  {
    hide Control, GetInteger, FindNul;
    var size := OptSize(opt);
    if opt.IntOpt? && size > MAXINTSIZE { return None; }
    if pos + size > |data| { return None; }
    if opt.IntOpt? {
      var n := ReadInteger(data[pos..pos + size], h.little, opt.signed);
      r := Some(Unpacked([Int(n)], size, h));
    } else if opt.PadOpt? {
      r := Some(Unpacked([], size, h));
    } else if opt.CharsOpt? {
      r := Some(Unpacked([Str(data[pos..pos + size])], size, h));
    } else if opt.StringOpt? {
      var e := MemChr(data, pos);
      if e == |data| { return None; }
      size := e - pos + 1;
      r := Some(Unpacked([Str(data[pos..pos + size - 1])], size, h));
    } else {
      var c := Control(opt, h);
      if c.None? { return None; }
      r := Some(Unpacked([], 0, c.value));
    }
  }

  /** b_unpack: the items and the position behind them, counted from 1. */
  method BUnpack(fmt: string, data: seq<Byte>, start: nat) returns (r: Option<(seq<Item>, nat)>)
    requires AllCovered(fmt) && start >= 1
    ensures match Unpack(fmt, DefaultHeader, data, start - 1)
      case None => r == None
      case Some((items, end)) => r == Some((items, end + 1))
  {
    hide Unpack, UnpackOpt, ToAlign, NextOpt, AllCovered, Covered;
    var pos, h, at := start - 1, DefaultHeader, 0;
    ghost var all := Unpack(fmt, h, data, pos);
    var items: seq<Item> := [];
    assert fmt[0..] == fmt && (all.Some? ==> [] + all.value.0 == all.value.0);
    while at < |fmt|
      invariant at <= |fmt| && pos >= 0 && h.align > 0 && AllCovered(fmt[at..])
      invariant UnpackGoesOn(all, Unpack(fmt[at..], h, data, pos), items)
    {
      UnpackStep(all, fmt[at..], h, data, pos, items);
      OptAhead(fmt, at);
      var (opt, n) := NextOpt(fmt[at..]);
      pos := pos + ToAlign(pos, h, opt);
      var u := UnpackOne(opt, h, data, pos);
      if u.None? { return None; }
      items, h, pos := items + u.value.items, u.value.h, pos + u.value.size;
      at := at + n;
    }
    UnpackEnds(all, fmt[at..], h, data, pos, items);
    r := Some((items, pos + 1));
  }

  lemma UnpackEnds(all: Option<(seq<Item>, nat)>, fmt: string, h: Header, data: seq<Byte>, pos: nat, done: seq<Item>)
    requires fmt == "" && h.align > 0 && UnpackGoesOn(all, Unpack(fmt, h, data, pos), done)
    ensures all == Some((done, pos))
  {
    assert done + [] == done;
  }

  /** b_size. */
  method BSize(fmt: string) returns (r: Option<nat>)
    requires AllCovered(fmt)
    ensures r == Size(fmt, DefaultHeader, 0)
  {
    hide ToAlign, NextOpt, AllCovered, Covered, Size;
    var pos, h, at := 0, DefaultHeader, 0;
    assert fmt[0..] == fmt;
    while at < |fmt|
      invariant at <= |fmt| && pos >= 0 && h.align > 0 && AllCovered(fmt[at..])
      invariant Size(fmt, DefaultHeader, 0) == Size(fmt[at..], h, pos)
    {
      OptAhead(fmt, at);
      SizeStep(fmt[at..], h, pos);
      var (opt, n) := NextOpt(fmt[at..]);
      var size := OptSize(opt);
      pos := pos + ToAlign(pos, h, opt);
      if opt.StringOpt? || (opt.IntOpt? && size > MAXINTSIZE) { return None; }
      if !IsAlnum(fmt[at]) {
        var c := Control(opt, h);
        if c.None? { return None; }
        h := c.value;
      }
      pos := pos + size;
      at := at + n;
    }
    SizeEnds(fmt[at..], h, pos);
    r := Some(pos);
  }

  lemma SizeStep(fmt: string, h: Header, pos: nat)
    requires fmt != "" && AllCovered(fmt) && h.align > 0
    ensures var (opt, n) := NextOpt(fmt);
      var at := pos + ToAlign(pos, h, opt);
      Size(fmt, h, pos) ==
        if opt.StringOpt? || (opt.IntOpt? && opt.size > MAXINTSIZE) then None
        else
          match if IsAlnum(fmt[0]) then Some(h) else Control(opt, h)
          case None => None
          case Some(h') => Size(fmt[n..], h', at + OptSize(opt))
    ensures Control(NextOpt(fmt).0, h).Some? ==> Control(NextOpt(fmt).0, h).value.align > 0
  {
    hide ToAlign, NextOpt;
  }

  lemma SizeEnds(fmt: string, h: Header, pos: nat)
    requires fmt == "" && h.align > 0
    ensures Size(fmt, h, pos) == Some(pos)
  {
  }
}
