/** struct.unpack undoes struct.pack, and struct.size gives its length (Lua/struct.c:185-377). */
module StructPack {
  import opened Options
  import opened StrBuf
  import opened Struct

  function Zeros(n: nat): (s: seq<Byte>)
    ensures |s| == n
  {
    seq(n, _ => 0)
  }

  // ----- one option ---------------------------------------------------------

  datatype Packed = Packed(bytes: seq<Byte>, size: nat, h: Header, args: seq<Item>)

  /** The bytes of one option behind its alignment, and the size that is added to the total. */
  function PackOpt(opt: Opt, h: Header, args: seq<Item>): Option<Packed> {
    match opt
    case IntOpt(_, size) =>
      if size > MAXINTSIZE || args == [] || !args[0].Int? then None else Some(Packed(PutInteger(args[0].n, h.little, size), size, h, args[1..]))
    case PadOpt => Some(Packed([0], 1, h, args))
    case CharsOpt(n) =>
      if args == [] || !args[0].Str? || |args[0].s| < n then None else Some(Packed(args[0].s[..n], n, h, args[1..]))
    case StringOpt =>
      if args == [] || !args[0].Str? then None else Some(Packed(args[0].s + [0], |args[0].s| + 1, h, args[1..]))
    case _ =>
      match Control(opt, h)
      case None => None
      case Some(h') => Some(Packed([], 0, h', args))
  }

  datatype Unpacked = Unpacked(items: seq<Item>, size: nat, h: Header)

  /** Where the first NUL at or behind `pos` is, or the length of the data. */
  function FindNul(data: seq<Byte>, pos: nat): (e: nat)
    requires pos <= |data|
    ensures pos <= e <= |data| && (e < |data| ==> data[e] == 0) && forall k :: pos <= k < e ==> data[k] != 0
    decreases |data| - pos
  {
    if pos == |data| || data[pos] == 0 then pos else FindNul(data, pos + 1)
  }

  /** What one option reads at `pos`, where the alignment is already skipped. */
  function UnpackOpt(opt: Opt, h: Header, data: seq<Byte>, pos: nat): Option<Unpacked> {
    if (opt.IntOpt? && opt.size > MAXINTSIZE) || pos + OptSize(opt) > |data| then None
    else
      match opt
      case IntOpt(signed, size) => Some(Unpacked([Int(GetInteger(data[pos..pos + size], h.little, signed))], size, h))
      case PadOpt => Some(Unpacked([], 1, h))
      case CharsOpt(n) => Some(Unpacked([Str(data[pos..pos + n])], n, h))
      case StringOpt =>
        var e := FindNul(data, pos);
        if e == |data| then None else Some(Unpacked([Str(data[pos..e])], e - pos + 1, h))
      case _ =>
        match Control(opt, h)
        case None => None
        case Some(h') => Some(Unpacked([], 0, h'))
  }

  // ----- whole formats ------------------------------------------------------

  predicate AllCovered(fmt: string)
    decreases |fmt|
  {
    fmt == "" || (Covered(NextOpt(fmt).0) && AllCovered(fmt[NextOpt(fmt).1..]))
  }

  /** b_pack: the bytes from here on and `totalsize` at the end. */
  function Pack(fmt: string, h: Header, total: nat, args: seq<Item>): Option<(seq<Byte>, nat)>
    requires AllCovered(fmt) && h.align > 0
    decreases |fmt|
  {
    if fmt == "" then Some(([], total))
    else
      var (opt, n) := NextOpt(fmt);
      var pad := ToAlign(total, h, opt);
      match PackOpt(opt, h, args)
      case None => None
      case Some(p) =>
        match Pack(fmt[n..], p.h, total + pad + p.size, p.args)
        case None => None
        case Some((bytes, end)) => Some((Zeros(pad) + p.bytes + bytes, end))
  }

  /** b_unpack: the items from here on and the position at the end, counted from 0. */
  function Unpack(fmt: string, h: Header, data: seq<Byte>, pos: nat): Option<(seq<Item>, nat)>
    requires AllCovered(fmt) && h.align > 0
    decreases |fmt|
  {
    if fmt == "" then Some(([], pos))
    else
      var (opt, n) := NextOpt(fmt);
      var at := pos + ToAlign(pos, h, opt);
      match UnpackOpt(opt, h, data, at)
      case None => None
      case Some(u) =>
        match Unpack(fmt[n..], u.h, data, at + u.size)
        case None => None
        case Some((items, end)) => Some((u.items + items, end))
  }

  predicate IsAlnum(c: char) {
    IsDigit(c) || 'a' <= c <= 'z' || 'A' <= c <= 'Z'
  }

  /** b_size: letters and digits that are no option pass for nothing. */
  function Size(fmt: string, h: Header, pos: nat): Option<nat>
    requires AllCovered(fmt) && h.align > 0
    decreases |fmt|
  {
    if fmt == "" then Some(pos)
    else
      var (opt, n) := NextOpt(fmt);
      if opt.StringOpt? || (opt.IntOpt? && opt.size > MAXINTSIZE) then None
      else
        var at := pos + ToAlign(pos, h, opt);
        match if IsAlnum(fmt[0]) then Some(h) else Control(opt, h)
        case None => None
        case Some(h') => Size(fmt[n..], h', at + OptSize(opt))
  }

  // ----- what comes back ----------------------------------------------------

  /** What an option keeps of its argument: the low bytes of a number, the front of a string. */
  function Kept(opt: Opt, arg: Item): Item
    requires Covered(opt)
  {
    if opt.IntOpt? && arg.Int? then Int(FitInteger(opt.signed, opt.size, arg.n))
    else if opt.CharsOpt? && arg.Str? && opt.n <= |arg.s| then Str(arg.s[..opt.n])
    else arg
  }

  predicate TakesArgument(opt: Opt) {
    opt.IntOpt? || opt.CharsOpt? || opt.StringOpt?
  }

  /** The arguments that the format takes, as far as its options keep them. */
  function AllKept(fmt: string, args: seq<Item>): seq<Item>
    requires AllCovered(fmt)
    decreases |fmt|
  {
    if fmt == "" then []
    else
      var (opt, n) := NextOpt(fmt);
      if TakesArgument(opt) && args != [] then [Kept(opt, args[0])] + AllKept(fmt[n..], args[1..]) else AllKept(fmt[n..], args)
  }

  /** No string for an option `s` has a NUL inside. */
  predicate NulFree(fmt: string, args: seq<Item>)
    decreases |fmt|
  {
    fmt == "" ||
    var (opt, n) := NextOpt(fmt);
    if TakesArgument(opt) && args != [] then
      (opt.StringOpt? && args[0].Str? ==> 0 !in args[0].s) && NulFree(fmt[n..], args[1..])
    else NulFree(fmt[n..], args)
  }

  /** Every argument fits its option: numbers in range, strings of the option's length. */
  predicate AllFit(fmt: string, args: seq<Item>)
    requires AllCovered(fmt)
    decreases |fmt|
  {
    fmt == "" ||
    var (opt, n) := NextOpt(fmt);
    if TakesArgument(opt) && args != [] then
      && (opt.IntOpt? && args[0].Int? ==> InRange(opt.signed, opt.size, args[0].n))
      && (opt.CharsOpt? && args[0].Str? ==> |args[0].s| <= opt.n)
      && AllFit(fmt[n..], args[1..])
    else AllFit(fmt[n..], args)
  }

  /** Pack needs one argument for each option that takes one. */
  function ArgCount(fmt: string): nat
    decreases |fmt|
  {
    if fmt == "" then 0
    else (if TakesArgument(NextOpt(fmt).0) then 1 else 0) + ArgCount(fmt[NextOpt(fmt).1..])
  }

  // ----- the round trip -----------------------------------------------------

  lemma PackOptLength(opt: Opt, h: Header, args: seq<Item>)
    requires PackOpt(opt, h, args).Some?
    ensures var p := PackOpt(opt, h, args).value; |p.bytes| == p.size && (h.align > 0 ==> p.h.align > 0)
  {
    hide PutInteger;
  }

  /** totalsize is the length of the result. */
  lemma {:induction false} TotalIsLength(fmt: string, h: Header, total: nat, args: seq<Item>)
    requires AllCovered(fmt) && h.align > 0 && Pack(fmt, h, total, args).Some?
    ensures var (bytes, end) := Pack(fmt, h, total, args).value; end == total + |bytes|
    decreases |fmt|
  {
    hide PackOpt, ToAlign, NextOpt;
    if fmt != "" {
      var (opt, n) := NextOpt(fmt);
      PackOptLength(opt, h, args);
      var p := PackOpt(opt, h, args).value;
      TotalIsLength(fmt[n..], p.h, total + ToAlign(total, h, opt) + p.size, p.args);
    }
  }

  lemma FindNulIs(data: seq<Byte>, pos: nat, s: seq<Byte>)
    requires pos + |s| < |data| && data[pos..pos + |s|] == s && 0 !in s && data[pos + |s|] == 0
    ensures FindNul(data, pos) == pos + |s|
  {
    assert forall k :: pos <= k < pos + |s| ==> data[k] == s[k - pos];
  }

  /** One option reads back what it wrote, wherever the bytes stand. */
  lemma OptReads(opt: Opt, h: Header, args: seq<Item>, data: seq<Byte>, at: nat)
    requires Covered(opt) && PackOpt(opt, h, args).Some?
    requires opt.StringOpt? && args != [] && args[0].Str? ==> 0 !in args[0].s
    requires var p := PackOpt(opt, h, args).value; at + p.size <= |data| && data[at..at + p.size] == p.bytes
    ensures var p := PackOpt(opt, h, args).value;
      UnpackOpt(opt, h, data, at) == Some(Unpacked(if TakesArgument(opt) then [Kept(opt, args[0])] else [], p.size, p.h))
    ensures TakesArgument(opt) ==> args != [] && PackOpt(opt, h, args).value.args == args[1..]
    ensures !TakesArgument(opt) ==> PackOpt(opt, h, args).value.args == args
  {
    hide PutInteger, GetInteger, FitInteger, FindNul, Control;
    var p := PackOpt(opt, h, args).value;
    if opt.IntOpt? {
      IntegerReads(args[0].n, h.little, opt.signed, opt.size);
    } else if opt.StringOpt? {
      var s := args[0].s;
      assert data[at..at + |s|] == data[at..at + p.size][..|s|] == s;
      assert data[at + |s|] == data[at..at + p.size][|s|];
      FindNulIs(data, at, s);
    }
  }

  /** A string with a NUL inside comes back cut off there. */
  lemma CutOff(opt: Opt, h: Header, args: seq<Item>, data: seq<Byte>, at: nat)
    requires opt.StringOpt? && args != [] && args[0].Str? && 0 in args[0].s
    requires var p := PackOpt(opt, h, args).value; at + p.size <= |data| && data[at..at + p.size] == p.bytes
    ensures UnpackOpt(opt, h, data, at).Some? && UnpackOpt(opt, h, data, at).value.h == h
    ensures var items := UnpackOpt(opt, h, data, at).value.items; |items| == 1 && items[0] != args[0]
  {
    var s := args[0].s;
    var k :| 0 <= k < |s| && s[k] == 0;
    assert data[at + k] == data[at..at + |s| + 1][k];
  }

  lemma OptOfPack(opt: Opt, h: Header, args: seq<Item>)
    requires Covered(opt) && PackOpt(opt, h, args).Some?
    ensures TakesArgument(opt) ==> args != [] && PackOpt(opt, h, args).value.args == args[1..]
    ensures opt.StringOpt? ==> args[0].Str? && Kept(opt, args[0]) == args[0]
  {
    hide PutInteger, FitInteger, Control;
  }

  /** Some argument for an option `s` came back as something else. */
  ghost predicate Spoilt(items: seq<Item>, args: seq<Item>, kept: seq<Item>) {
    exists j :: 0 <= j < |items| && j < |args| && j < |kept| && kept[j] == args[j] != items[j]
  }

  lemma SpoiltBehind(items: seq<Item>, x: Item, args: seq<Item>, y: Item, kept: seq<Item>)
    requires args != [] && Spoilt(items, args[1..], kept)
    ensures Spoilt([x] + items, args, [y] + kept)
  {
    var j :| 0 <= j < |items| && j < |args[1..]| && j < |kept| && kept[j] == args[1..][j] != items[j];
    assert ([y] + kept)[j + 1] == args[j + 1] != ([x] + items)[j + 1];
  }

  /** The bytes of a packed format, the part of the first option and the rest. */
  lemma PackParts(fmt: string, h: Header, args: seq<Item>, before: seq<Byte>, after: seq<Byte>)
    requires fmt != "" && AllCovered(fmt) && h.align > 0 && Pack(fmt, h, |before|, args).Some?
    ensures var (opt, n) := NextOpt(fmt);
      var pad := ToAlign(|before|, h, opt);
      PackOpt(opt, h, args).Some? &&
      var p := PackOpt(opt, h, args).value;
      var front := before + Zeros(pad) + p.bytes;
      var data := before + Pack(fmt, h, |before|, args).value.0 + after;
      && |p.bytes| == p.size && p.h.align > 0 && |front| == |before| + pad + p.size && Pack(fmt[n..], p.h, |front|, p.args).Some?
      && Pack(fmt[n..], p.h, |front|, p.args).value.1 == Pack(fmt, h, |before|, args).value.1
      && data == front + Pack(fmt[n..], p.h, |front|, p.args).value.0 + after
      && |before| + pad + p.size <= |data| && data[|before| + pad..|before| + pad + p.size] == p.bytes
  {
    hide PackOpt, ToAlign, NextOpt;
    var (opt, n) := NextOpt(fmt);
    var pad := ToAlign(|before|, h, opt);
    PackOptLength(opt, h, args);
    var p := PackOpt(opt, h, args).value;
    var front := before + Zeros(pad) + p.bytes;
    Regroup(before, Zeros(pad), p.bytes, Pack(fmt[n..], p.h, |front|, p.args).value.0, after);
  }

  /** Unpacking gives back what the options keep of the arguments, whatever stands before and after. */
  lemma {:induction false} KeptIsRead(fmt: string, h: Header, args: seq<Item>, before: seq<Byte>, after: seq<Byte>)
    requires AllCovered(fmt) && h.align > 0 && NulFree(fmt, args) && Pack(fmt, h, |before|, args).Some?
    ensures var (bytes, end) := Pack(fmt, h, |before|, args).value;
      Unpack(fmt, h, before + bytes + after, |before|) == Some((AllKept(fmt, args), end))
    decreases |fmt|
  {
    hide PackOpt, UnpackOpt, ToAlign, NextOpt, Kept, Pack;
    if fmt != "" {
      var (opt, n) := NextOpt(fmt);
      var pad := ToAlign(|before|, h, opt);
      PackParts(fmt, h, args, before, after);
      var p := PackOpt(opt, h, args).value;
      OptReads(opt, h, args, before + Pack(fmt, h, |before|, args).value.0 + after, |before| + pad);
      KeptIsRead(fmt[n..], p.h, p.args, before + Zeros(pad) + p.bytes, after);
      var items := AllKept(fmt[n..], p.args);
      assert [] + items == items;
    } else { PackOfNothing(h, |before|, args); }
  }

  lemma PackOfNothing(h: Header, total: nat, args: seq<Item>)
    requires h.align > 0
    ensures Pack("", h, total, args) == Some(([], total))
  {
  }

  /** A string with a NUL inside spoils what comes back. */
  lemma {:induction false} NulSpoils(fmt: string, h: Header, args: seq<Item>, before: seq<Byte>, after: seq<Byte>)
    requires AllCovered(fmt) && h.align > 0 && !NulFree(fmt, args) && Pack(fmt, h, |before|, args).Some?
    ensures var bytes := Pack(fmt, h, |before|, args).value.0;
      var r := Unpack(fmt, h, before + bytes + after, |before|);
      r.Some? ==> Spoilt(r.value.0, args, AllKept(fmt, args))
    decreases |fmt|
  {
    hide PackOpt, UnpackOpt, ToAlign, NextOpt, Kept, Pack, Spoilt;
    var (opt, n) := NextOpt(fmt);
    var pad := ToAlign(|before|, h, opt);
    PackParts(fmt, h, args, before, after);
    OptOfPack(opt, h, args);
    var p := PackOpt(opt, h, args).value;
    var data := before + Pack(fmt, h, |before|, args).value.0 + after;
    var r := Unpack(fmt, h, data, |before|);
    if opt.StringOpt? && 0 in args[0].s {
      CutOff(opt, h, args, data, |before| + pad);
      if r.Some? { SpoiltHere(r.value.0, args, AllKept(fmt, args)); }
    } else {
      OptReads(opt, h, args, data, |before| + pad);
      NulSpoils(fmt[n..], p.h, p.args, before + Zeros(pad) + p.bytes, after);
      var rest := Unpack(fmt[n..], p.h, data, |before| + pad + p.size);
      if rest.Some? {
        if TakesArgument(opt) {
          SpoiltBehind(rest.value.0, Kept(opt, args[0]), args, Kept(opt, args[0]), AllKept(fmt[n..], p.args));
        } else {
          assert [] + rest.value.0 == rest.value.0;
        }
      }
    }
  }

  lemma SpoiltHere(items: seq<Item>, args: seq<Item>, kept: seq<Item>)
    requires items != [] && args != [] && kept != [] && kept[0] == args[0] != items[0]
    ensures Spoilt(items, args, kept)
  {
  }

  /** Unpacking at the same position gives back what the options keep of the arguments, whatever
      stands before and after, if and only if no string for an option `s` has a NUL inside. */
  lemma UnpackReads(fmt: string, h: Header, args: seq<Item>, before: seq<Byte>, after: seq<Byte>)
    requires AllCovered(fmt) && h.align > 0 && Pack(fmt, h, |before|, args).Some?
    ensures var (bytes, end) := Pack(fmt, h, |before|, args).value;
      Unpack(fmt, h, before + bytes + after, |before|) == Some((AllKept(fmt, args), end)) <==> NulFree(fmt, args)
  {
    hide Pack, Unpack, AllKept, NulFree;
    if NulFree(fmt, args) { KeptIsRead(fmt, h, args, before, after); } else { NulSpoils(fmt, h, args, before, after); }
  }

  lemma Regroup(a: seq<Byte>, b: seq<Byte>, c: seq<Byte>, d: seq<Byte>, e: seq<Byte>)
    ensures a + (b + c + d) + e == a + b + c + d + e
  {
  }

  lemma {:induction false} KeptIffFits(fmt: string, args: seq<Item>, h: Header, total: nat)
    requires AllCovered(fmt) && h.align > 0 && |args| == ArgCount(fmt) && Pack(fmt, h, total, args).Some?
    ensures AllKept(fmt, args) == args <==> AllFit(fmt, args)
    decreases |fmt|
  {
    hide ToAlign, NextOpt, PutInteger, FitInteger, InRange, Control;
    if fmt != "" {
      var (opt, n) := NextOpt(fmt);
      var p := PackOpt(opt, h, args).value;
      PackOptLength(opt, h, args);
      KeptIffFits(fmt[n..], p.args, p.h, total + ToAlign(total, h, opt) + p.size);
      if TakesArgument(opt) {
        if opt.IntOpt? { FitsIff(opt.signed, opt.size, args[0].n); }
        HeadAndTail(Kept(opt, args[0]), AllKept(fmt[n..], args[1..]), args);
      }
    }
  }

  lemma HeadAndTail(x: Item, tail: seq<Item>, args: seq<Item>)
    requires args != []
    ensures [x] + tail == args <==> x == args[0] && tail == args[1..]
  {
    assert args == [args[0]] + args[1..];
    if [x] + tail == args {
      assert ([x] + tail)[0] == x && ([x] + tail)[1..] == tail;
    }
  }

  lemma {:induction false} KeptCount(fmt: string, args: seq<Item>, h: Header, total: nat)
    requires AllCovered(fmt) && h.align > 0 && Pack(fmt, h, total, args).Some?
    ensures |AllKept(fmt, args)| == ArgCount(fmt)
    decreases |fmt|
  {
    hide PackOpt, ToAlign, NextOpt, Kept;
    if fmt != "" {
      var (opt, n) := NextOpt(fmt);
      PackOptLength(opt, h, args);
      OptOfPack(opt, h, args);
      var p := PackOpt(opt, h, args).value;
      if !TakesArgument(opt) { OptOfControl(opt, h, args); }
      KeptCount(fmt[n..], p.args, p.h, total + ToAlign(total, h, opt) + p.size);
    }
  }

  lemma OptOfControl(opt: Opt, h: Header, args: seq<Item>)
    requires Covered(opt) && PackOpt(opt, h, args).Some? && !TakesArgument(opt)
    ensures PackOpt(opt, h, args).value.args == args
  {
    hide Control;
  }

  /** struct.unpack(fmt, struct.pack(fmt, ...)) gives the arguments back if and only if there is one
      for each option that takes one, every number
      is in the range of its option, every string has the length of its option, and no string for
      an option `s` has a NUL inside. */
  lemma UnpackUndoesPack(fmt: string, args: seq<Item>)
    requires AllCovered(fmt) && Pack(fmt, DefaultHeader, 0, args).Some?
    ensures var (bytes, total) := Pack(fmt, DefaultHeader, 0, args).value;
      && total == |bytes|
      && (Unpack(fmt, DefaultHeader, bytes, 0) == Some((args, |bytes|)) <==>
            |args| == ArgCount(fmt) && AllFit(fmt, args) && NulFree(fmt, args))
  {
    hide Pack, Unpack, AllFit, AllKept, NulFree;
    var (bytes, total) := Pack(fmt, DefaultHeader, 0, args).value;
    assert [] + bytes + [] == bytes;
    TotalIsLength(fmt, DefaultHeader, 0, args);
    if NulFree(fmt, args) {
      KeptIsRead(fmt, DefaultHeader, args, [], []);
      KeptCount(fmt, args, DefaultHeader, 0);
      if |args| == ArgCount(fmt) { KeptIffFits(fmt, args, DefaultHeader, 0); }
    } else {
      NulSpoils(fmt, DefaultHeader, args, [], []);
    }
  }

  predicate FixedSize(fmt: string)
    decreases |fmt|
  {
    fmt == "" || (!NextOpt(fmt).0.StringOpt? && FixedSize(fmt[NextOpt(fmt).1..]))
  }

  /** For a format of fixed size, struct.size gives the length of whatever struct.pack makes of it. */
  lemma {:induction false} SizeIsLength(fmt: string, h: Header, total: nat, args: seq<Item>)
    requires AllCovered(fmt) && h.align > 0 && FixedSize(fmt) && Pack(fmt, h, total, args).Some?
    ensures Size(fmt, h, total) == Some(Pack(fmt, h, total, args).value.1)
    decreases |fmt|
  {
    hide ToAlign, PutInteger;
    if fmt != "" {
      var (opt, n) := NextOpt(fmt);
      var p := PackOpt(opt, h, args).value;
      PackOptLength(opt, h, args);
      OptOfLetter(fmt);
      SizeIsLength(fmt[n..], p.h, total + ToAlign(total, h, opt) + p.size, p.args);
    }
  }

  /** Only options that are no letters or digits change the header. */
  lemma OptOfLetter(fmt: string)
    requires fmt != ""
    ensures var opt := NextOpt(fmt).0;
      IsAlnum(fmt[0]) <==> opt.IntOpt? || opt.PadOpt? || opt.CharsOpt? || opt.StringOpt? || opt.FloatOpt? || (opt.BadOpt? && IsAlnum(opt.c))
    ensures NextOpt(fmt).0.BadOpt? ==> NextOpt(fmt).0.c == fmt[0]
  {
  }

  // ----- formats that nothing rejects ---------------------------------------

  /** pack and unpack reject neither a size nor an alignment nor a letter of the format. */
  predicate Lawful(fmt: string, h: Header)
    decreases |fmt|
  {
    fmt == "" ||
    var (opt, n) := NextOpt(fmt);
    && (opt.IntOpt? ==> opt.size <= MAXINTSIZE)
    && Control(opt, h).Some? && Lawful(fmt[n..], Control(opt, h).value)
  }

  /** No letter or digit of the format stands where no option does. */
  predicate NoBadLetter(fmt: string)
    decreases |fmt|
  {
    fmt == "" ||
    var (opt, n) := NextOpt(fmt);
    !(opt.BadOpt? && IsAlnum(opt.c)) && NoBadLetter(fmt[n..])
  }

  /** Arguments that every option takes. */
  function Sample(fmt: string): seq<Item>
    decreases |fmt|
  {
    if fmt == "" then []
    else
      var (opt, n) := NextOpt(fmt);
      SampleOf(opt) + Sample(fmt[n..])
  }

  function SampleOf(opt: Opt): seq<Item> {
    if opt.IntOpt? then [Int(0)] else if opt.CharsOpt? then [Str(Zeros(opt.n))] else if opt.StringOpt? then [Str([])] else []
  }

  lemma SampleOptIsPacked(opt: Opt, h: Header, rest: seq<Item>)
    requires Covered(opt) && (opt.IntOpt? ==> opt.size <= MAXINTSIZE) && Control(opt, h).Some?
    ensures var r := PackOpt(opt, h, SampleOf(opt) + rest); r.Some? && r.value.args == rest && r.value.h == Control(opt, h).value
  {
    hide PutInteger;
    assert TakesArgument(opt) ==> (SampleOf(opt) + rest)[1..] == rest;
    assert [] + rest == rest;
  }

  lemma {:induction false} SampleIsPacked(fmt: string, h: Header, total: nat)
    requires AllCovered(fmt) && h.align > 0 && Lawful(fmt, h)
    ensures Pack(fmt, h, total, Sample(fmt)).Some?
    decreases |fmt|
  {
    hide ToAlign, NextOpt, PackOpt, SampleOf;
    if fmt != "" {
      var (opt, n) := NextOpt(fmt);
      SampleOptIsPacked(opt, h, Sample(fmt[n..]));
      PackOptLength(opt, h, Sample(fmt));
      var p := PackOpt(opt, h, Sample(fmt)).value;
      SampleIsPacked(fmt[n..], p.h, total + ToAlign(total, h, opt) + p.size);
    }
  }

  lemma {:induction false} PackedIsLawful(fmt: string, h: Header, total: nat, args: seq<Item>)
    requires AllCovered(fmt) && h.align > 0 && Pack(fmt, h, total, args).Some?
    ensures Lawful(fmt, h)
    decreases |fmt|
  {
    hide ToAlign, PutInteger, NextOpt;
    if fmt != "" {
      var (opt, n) := NextOpt(fmt);
      PackOptLength(opt, h, args);
      var p := PackOpt(opt, h, args).value;
      PackedIsLawful(fmt[n..], p.h, total + ToAlign(total, h, opt) + p.size, p.args);
    }
  }

  lemma {:induction false} UnpackedIsLawful(fmt: string, h: Header, data: seq<Byte>, pos: nat)
    requires AllCovered(fmt) && h.align > 0 && Unpack(fmt, h, data, pos).Some?
    ensures Lawful(fmt, h)
    decreases |fmt|
  {
    hide ToAlign, GetInteger, NextOpt, FindNul;
    if fmt != "" {
      var (opt, n) := NextOpt(fmt);
      var at := pos + ToAlign(pos, h, opt);
      var u := UnpackOpt(opt, h, data, at).value;
      UnpackedIsLawful(fmt[n..], u.h, data, at + u.size);
    }
  }

  lemma {:induction false} SizedIffLawful(fmt: string, h: Header, pos: nat)
    requires AllCovered(fmt) && h.align > 0
    ensures Size(fmt, h, pos).Some? && NoBadLetter(fmt) <==> FixedSize(fmt) && Lawful(fmt, h)
    decreases |fmt|
  {
    hide ToAlign, NextOpt;
    if fmt != "" {
      var (opt, n) := NextOpt(fmt);
      OptOfLetter(fmt);
      if Control(opt, h).Some? {
        SizedIffLawful(fmt[n..], Control(opt, h).value, pos + ToAlign(pos, h, opt) + OptSize(opt));
      }
    }
  }

  lemma {:induction false} FixedIsNulFree(fmt: string, args: seq<Item>)
    requires FixedSize(fmt)
    ensures NulFree(fmt, args)
    decreases |fmt|
  {
    hide NextOpt;
    if fmt != "" {
      var (opt, n) := NextOpt(fmt);
      FixedIsNulFree(fmt[n..], if TakesArgument(opt) && args != [] then args[1..] else args);
    }
  }

  /** struct.size takes a format if and only if it has a fixed size and some arguments can be packed
      with it, except that it passes over letters that are no option. */
  lemma SizeAgreesWithPackIff(fmt: string)
    requires AllCovered(fmt)
    ensures Size(fmt, DefaultHeader, 0).Some? && NoBadLetter(fmt) <==>
      FixedSize(fmt) && exists args :: Pack(fmt, DefaultHeader, 0, args).Some?
  {
    hide Pack, Size, Lawful;
    SizedIffLawful(fmt, DefaultHeader, 0);
    if Lawful(fmt, DefaultHeader) { SampleIsPacked(fmt, DefaultHeader, 0); }
    forall args | Pack(fmt, DefaultHeader, 0, args).Some? ensures Lawful(fmt, DefaultHeader) {
      PackedIsLawful(fmt, DefaultHeader, 0, args);
    }
  }

  /** The same holds of struct.unpack and the data that it can read. */
  lemma SizeAgreesWithUnpackIff(fmt: string)
    requires AllCovered(fmt)
    ensures Size(fmt, DefaultHeader, 0).Some? && NoBadLetter(fmt) <==>
      FixedSize(fmt) && exists data :: Unpack(fmt, DefaultHeader, data, 0).Some?
  {
    hide Pack, Unpack, Size, Lawful;
    SizedIffLawful(fmt, DefaultHeader, 0);
    if FixedSize(fmt) && Lawful(fmt, DefaultHeader) {
      SampleIsPacked(fmt, DefaultHeader, 0);
      FixedIsNulFree(fmt, Sample(fmt));
      KeptIsRead(fmt, DefaultHeader, Sample(fmt), [], []);
      var bytes := Pack(fmt, DefaultHeader, 0, Sample(fmt)).value.0;
      assert Unpack(fmt, DefaultHeader, [] + bytes + [], 0).Some?;
    }
    forall data | Unpack(fmt, DefaultHeader, data, 0).Some? ensures Lawful(fmt, DefaultHeader) {
      UnpackedIsLawful(fmt, DefaultHeader, data, 0);
    }
  }

  /** Such a letter: struct.size counts it for nothing. */
  lemma SizeIgnoresLetters(args: seq<Item>, data: seq<Byte>)
    ensures Size("q", DefaultHeader, 0) == Some(0) && Pack("q", DefaultHeader, 0, args).None? && Unpack("q", DefaultHeader, data, 0).None?
  {
    assert NextOpt("q") == (BadOpt('q'), 1);
    assert "q"[1..] == "";
  }

  // ----- alignment ----------------------------------------------------------

  lemma HalfMod(x: nat, k: nat)
    requires k > 0
    ensures x % (2 * k) == x % 2 + 2 * (x / 2 % k)
  {
    var q := x / 2 / k;
    var r := x % 2 + 2 * (x / 2 % k);
    assert x / 2 == q * k + x / 2 % k;
    assert x == 2 * (x / 2) + x % 2;
    assert 2 * (q * k) == q * (2 * k);
    assert x / 2 % k <= k - 1;
    DivisionIsUnique(x, 2 * k, q, r);
  }

  function Rem(x: nat, m: nat): nat
    requires m > 0
  {
    x % m
  }

  /** A mask below a power of two takes the remainder. */
  lemma {:induction false} AndMask(x: nat, m: nat)
    requires IsPowerOf2(m)
    ensures And(x, m - 1) == Rem(x, m) < m
    decreases m
  {
    if m > 1 {
      AndMask(x / 2, m / 2);
      HalfMod(x, m / 2);
      assert (m - 1) / 2 == m / 2 - 1 && (m - 1) % 2 == 1 && 2 * (m / 2) == m;
    }
  }

  /** The distance to the next multiple. */
  lemma UpToMultiple(len: nat, m: nat)
    requires m > 0
    ensures Rem(len, m) < m && Rem(m - Rem(len, m), m) < m && Rem(len + Rem(m - Rem(len, m), m), m) == 0
  {
    var q, r := len / m, len % m;
    assert len == q * m + r && (q + 1) * m == q * m + m;
    if r == 0 {
      DivisionIsUnique(m, m, 1, 0);
    } else {
      DivisionIsUnique(m - r, m, 0, m - r);
      DivisionIsUnique(len + (m - r), m, q + 1, 0);
    }
  }

  lemma AlignDistance(len: nat, m: nat)
    requires IsPowerOf2(m)
    ensures And(len, m - 1) < m && And(m - And(len, m - 1), m - 1) < m && Rem(len + And(m - And(len, m - 1), m - 1), m) == 0
  {
    hide Rem, And, IsPowerOf2;
    AndMask(len, m);
    AndMask(m - Rem(len, m), m);
    UpToMultiple(len, m);
  }

  /** An integer whose size is a power of two starts at the next multiple of its size or of the
      alignment, whichever is less. */
  lemma AlignsToSize(len: nat, h: Header, opt: Opt)
    requires opt.IntOpt? && Covered(opt) && IsPowerOf2(opt.size) && IsPowerOf2(h.align)
    ensures var m := if opt.size > h.align then h.align else opt.size;
      m > 0 && (len + ToAlign(len, h, opt)) % m == 0 && ToAlign(len, h, opt) < m
  {
    AlignDistance(len, if opt.size > h.align then h.align else opt.size);
    hide And, IsPowerOf2;
  }
}
