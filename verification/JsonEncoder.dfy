/** json_encode over a string buffer (Lua/lua_cjson.c:458-704): each routine appends exactly the
    text of the tree that it stands for, or fails with the tree's error. */
module JsonEncoder {
  import opened Options
  import opened StrBuf
  import opened JsonLexer
  import opened JsonGrammar
  import JE = JsonEncode
  import opened JsonEncode

  const FPCONV_G_FMT_BUFSIZE := 32

  lemma {:induction false} EscapedGrows(s: seq<Byte>, b: Byte)
    ensures Escaped(s + [b]) == Escaped(s) + EscapeOf(b)
  {
    hide EscapeOf;
    if s == [] {
      assert [b][1..] == [] && s + [b] == [b];
    } else {
      assert (s + [b])[1..] == s[1..] + [b];
      EscapedGrows(s[1..], b);
    }
  }

  /** json_append_string. After the reservation of six bytes for each character and two quotes, no
      append runs out of the buffer or moves it. */
  method AppendString(json: Buffer, str: seq<Byte>)
    requires json.Valid()
    modifies json, json.buf
    ensures json.Valid() && json.Contents() == old(json.Contents()) + Quoted(str)
    ensures json.buf == old(json.buf) || fresh(json.buf)
    ensures json.reallocs == old(json.reallocs) + if old(json.EmptyLength()) >= |str| * 6 + 2 then 0 else 1
  {
    hide EscapeOf, Escaped;
    json.EnsureEmptyLength(|str| * 6 + 2);
    ghost var buf, reallocs := json.buf, json.reallocs;
    json.AppendCharUnsafe(QUOTE);
    ghost var start := json.Contents();
    EscapedNothing();
    for i := 0 to |str|
      invariant json.Valid() && json.buf == buf && json.reallocs == reallocs
      invariant json.EmptyLength() >= (|str| - i) * 6 + 1
      invariant json.Contents() == start + Escaped(str[..i])
    {
      ghost var before := json.Contents();
      var escstr := EscapeOf(str[i]);
      if escstr != [str[i]] {
        json.AppendString(escstr);
      } else {
        json.AppendCharUnsafe(str[i]);
      }
      EscapedGrows(str[..i], str[i]);
      assert str[..i] + [str[i]] == str[..i + 1];
      assert json.Contents() == before + escstr;
    }
    assert str[..|str|] == str;
    json.AppendCharUnsafe(QUOTE);
    assert json.Contents() == old(json.Contents()) + Quoted(str);
  }

  lemma EscapedNothing()
    ensures Escaped([]) == []
  {
  }

  /** lua_array_length: -1 for an object. */
  method LuaArrayLength<N>(c: Codec<N>, cfg: Config, entries: seq<Entry<N>>) returns (r: Result<int>)
    ensures match ArrayLength(c, cfg, entries)
      case Ok(Some(len)) => r == Ok(len)
      case Ok(None) => r == Ok(-1)
      case Err(e) => r == Err(e)
  {
    var max, items := 0, 0;
    for i := 0 to |entries|
      invariant items == i && max == MaxIndex(c, entries[..i]) && AllIndices(c, entries[..i])
    {
      assert entries[..i + 1][..i] == entries[..i];
      var k := IndexOf(c, entries[i].key);
      if k < 1 {
        return Ok(-1);
      }
      if k > max { max := k; }
      items := items + 1;
    }
    assert entries[..|entries|] == entries;
    if cfg.sparseRatio > 0 && max > items * cfg.sparseRatio && max > cfg.sparseSafe {
      if !cfg.sparseConvert { return Err(ExcessivelySparse); }
      return Ok(-1);
    }
    return Ok(max);
  }

  method AppendNumber<N(!new)>(json: Buffer, c: Codec<N>, num: N) returns (err: Option<Failure>)
    requires json.Valid() && GoodCodec(c)
    modifies json, json.buf
    ensures json.Valid() && (json.buf == old(json.buf) || fresh(json.buf))
    ensures err == if c.finite(num) then None else Some(BadNumber)
    ensures json.Contents() == old(json.Contents()) + if c.finite(num) then c.format(num) else []
  {
    if !c.finite(num) {
      assert json.Contents() + [] == json.Contents();
      return Some(BadNumber);
    }
    json.EnsureEmptyLength(FPCONV_G_FMT_BUFSIZE);
    assert TextOf(c, num);
    json.AppendMemUnsafe(c.format(num));
    return None;
  }

  // ----- the text of what is left to write -----------------------------------

  function ItemsLeft<N>(items: Items<N>, comma: bool): seq<Byte> {
    if items.NoItem? then [] else (if comma then [COMMA] else []) + ItemsText(items)
  }

  function MembersLeft<N>(members: Members<N>, comma: bool): seq<Byte> {
    if members.NoMember? then [] else (if comma then [COMMA] else []) + MembersText(members)
  }

  lemma NextItem<N>(head: Tree<N>, tail: Items<N>, comma: bool)
    ensures ItemsLeft(Item(head, tail), comma) == (if comma then [COMMA] else []) + (Text(head) + ItemsLeft(tail, true))
  {
    hide Text;
  }

  lemma NextMember<N>(key: seq<Byte>, keyText: seq<Byte>, value: Tree<N>, tail: Members<N>, comma: bool)
    ensures MembersLeft(Member(key, keyText, value, tail), comma) ==
      (if comma then [COMMA] else []) + (keyText + [COLON] + Text(value) + MembersLeft(tail, true))
  {
    hide Text;
    var front := keyText + [COLON] + Text(value);
    if tail.Member? {
      var more := MembersText(tail);
      assert MembersText(Member(key, keyText, value, tail)) == front + [COMMA] + more;
      hide MembersText;
      assert front + [COMMA] + more == front + ([COMMA] + more);
    } else {
      assert front + [] == front;
    }
  }

  /** `done` is written and `rest` is left of `all`, or both fail alike. */
  ghost predicate ItemsGoOn<N>(all: Result<Items<N>>, rest: Result<Items<N>>, done: seq<Byte>, comma: bool) {
    match all
    case Err(e) => rest == Err(e)
    case Ok(items) => rest.Ok? && ItemsText(items) == done + ItemsLeft(rest.value, comma)
  }

  ghost predicate MembersGoOn<N>(all: Result<Members<N>>, rest: Result<Members<N>>, done: seq<Byte>, comma: bool) {
    match all
    case Err(e) => rest == Err(e)
    case Ok(members) => rest.Ok? && MembersText(members) == done + MembersLeft(rest.value, comma)
  }

  lemma ItemWritten<N>(
    c: Codec<N>, cfg: Config, n: Node<N>, i: nat, len: nat, depth: nat, all: Result<Items<N>>, done: seq<Byte>, comma: bool)
    requires n.TableNode? && i <= len && ItemsGoOn(all, ItemsOf(c, cfg, n, i, len, depth), done, comma)
    ensures match ElementOf(c, cfg, n, i, depth)
      case Err(e) => all == Err(e)
      case Ok(t) => ItemsGoOn(all, ItemsOf(c, cfg, n, i + 1, len, depth), done + (if comma then [COMMA] else []) + Text(t), true)
  {
    hide Text, ItemsText, ItemsLeft, ElementOf;
    var e, rest := ElementOf(c, cfg, n, i, depth), ItemsOf(c, cfg, n, i + 1, len, depth);
    if e.Ok? && rest.Ok? {
      NextItem(e.value, rest.value, comma);
    }
  }

  /** The text of one entry of an object. */
  ghost function EntryText<N>(c: Codec<N>, cfg: Config, e: Entry<N>, depth: nat): Result<seq<Byte>> {
    match KeyOf(c, e.key)
    case Err(f) => Err(f)
    case Ok(key) =>
      match TreeOf(c, cfg, e.value, depth)
      case Err(f) => Err(f)
      case Ok(t) => Ok(KeyText(e.key, key) + [COLON] + Text(t))
  }

  lemma MemberWritten<N>(
    c: Codec<N>, cfg: Config, n: Node<N>, i: nat, depth: nat, all: Result<Members<N>>, done: seq<Byte>, comma: bool)
    requires n.TableNode? && i < |n.entries| && MembersGoOn(all, MembersOf(c, cfg, n, i, depth), done, comma)
    ensures match EntryText(c, cfg, n.entries[i], depth)
      case Err(e) => all == Err(e)
      case Ok(text) => MembersGoOn(all, MembersOf(c, cfg, n, i + 1, depth), done + (if comma then [COMMA] else []) + text, true)
  {
    hide Text, MembersText, MembersLeft, TreeOf, KeyOf, Quoted;
    var k, e := KeyOf(c, n.entries[i].key), TreeOf(c, cfg, n.entries[i].value, depth);
    var rest := MembersOf(c, cfg, n, i + 1, depth);
    if k.Ok? && e.Ok? && rest.Ok? {
      var keyText := KeyText(n.entries[i].key, k.value);
      NextMember(k.value, keyText, e.value, rest.value, comma);
      Regroup(done, if comma then [COMMA] else [], keyText + [COLON] + Text(e.value), MembersLeft(rest.value, true));
    }
  }

  lemma Regroup(a: seq<Byte>, b: seq<Byte>, c: seq<Byte>, d: seq<Byte>)
    ensures a + (b + (c + d)) == a + b + c + d
  {
  }

  // ----- the routines -------------------------------------------------------

  ghost predicate Appends<N>(r: Result<Tree<N>>, err: Option<Failure>, before: seq<Byte>, after: seq<Byte>) {
    match r
    case Ok(t) => err == None && after == before + Text(t)
    case Err(e) => err == Some(e)
  }

  method AppendArray<N(!new)>(json: Buffer, c: Codec<N>, cfg: Config, n: Node<N>, depth: nat, arrayLength: nat) returns (err: Option<Failure>)
    requires json.Valid() && GoodCodec(c) && n.TableNode?
    modifies json, json.buf
    ensures json.Valid() && (json.buf == old(json.buf) || fresh(json.buf))
    ensures match ItemsOf(c, cfg, n, 1, arrayLength, depth)
      case Ok(items) => err == None && json.Contents() == old(json.Contents()) + ([ARR_BEGIN] + ItemsText(items) + [ARR_END])
      case Err(e) => err == Some(e)
    decreases n, 1
  {
    hide GoodCodec, ItemsOf, ElementOf, ItemsText, Text, ItemsGoOn;
    ghost var all := ItemsOf(c, cfg, n, 1, arrayLength, depth);
    json.AppendChar(ARR_BEGIN);
    ghost var start := json.Contents();
    ghost var done: seq<Byte> := [];
    StartItems(all);
    assert start + done == start;
    var comma := false;
    var i := 1;
    while i <= arrayLength
      invariant 1 <= i <= arrayLength + 1
      invariant json.Valid() && (json.buf == old(json.buf) || fresh(json.buf)) && json.Contents() == start + done
      invariant ItemsGoOn(all, ItemsOf(c, cfg, n, i, arrayLength, depth), done, comma)
    {
      ItemWritten(c, cfg, n, i, arrayLength, depth, all, done, comma);
      ghost var sep := if comma then [COMMA] else [];
      if comma { json.AppendChar(COMMA); }
      assert json.Contents() == start + done + sep;
      comma := true;
      err := AppendElement(json, c, cfg, n, i, depth);
      if err.Some? { return; }
      ghost var text := Text(ElementOf(c, cfg, n, i, depth).value);
      Grown(start, done, sep, text);
      done := done + sep + text;
      i := i + 1;
    }
    NoItemsLeft(c, cfg, n, arrayLength, depth, all, done, comma);
    json.AppendChar(ARR_END);
    Around(old(json.Contents()), ARR_BEGIN, done, ARR_END);
    err := None;
  }

  lemma Grown(start: seq<Byte>, done: seq<Byte>, sep: seq<Byte>, text: seq<Byte>)
    ensures start + done + sep + text == start + (done + sep + text)
  {
  }

  lemma Around(before: seq<Byte>, open: Byte, done: seq<Byte>, close: Byte)
    ensures before + [open] + done + [close] == before + ([open] + done + [close])
  {
  }

  /** The element that lua_rawgeti finds, nil for a hole. */
  method AppendElement<N(!new)>(json: Buffer, c: Codec<N>, cfg: Config, n: Node<N>, i: nat, depth: nat) returns (err: Option<Failure>)
    requires json.Valid() && GoodCodec(c) && n.TableNode?
    modifies json, json.buf
    ensures json.Valid() && (json.buf == old(json.buf) || fresh(json.buf))
    ensures Appends(ElementOf(c, cfg, n, i, depth), err, old(json.Contents()), json.Contents())
    decreases n, 0
  {
    hide GoodCodec, TreeOf, Text;
    var v := ValueAt(c, n.entries, i);
    if v.Some? {
      err := AppendData(json, c, cfg, v.value, depth);
    } else {
      json.AppendMem(NULL_TEXT);
      NullText<N>();
      err := None;
    }
  }

  lemma NullText<N>()
    ensures Text(Leaf(Token<N>.Null, NULL_TEXT)) == NULL_TEXT
  {
  }

  lemma StartItems<N>(all: Result<Items<N>>)
    ensures ItemsGoOn(all, all, [], false)
  {
    if all.Ok? { assert [] + ItemsText(all.value) == ItemsText(all.value); }
  }

  lemma StartMembers<N>(all: Result<Members<N>>)
    ensures MembersGoOn(all, all, [], false)
  {
    if all.Ok? { assert [] + MembersText(all.value) == MembersText(all.value); }
  }

  lemma NoItemsLeft<N>(c: Codec<N>, cfg: Config, n: Node<N>, len: nat, depth: nat, all: Result<Items<N>>, done: seq<Byte>, comma: bool)
    requires n.TableNode? && ItemsGoOn(all, ItemsOf(c, cfg, n, len + 1, len, depth), done, comma)
    ensures all.Ok? && ItemsText(all.value) == done
  {
    assert done + [] == done;
  }

  lemma NoMembersLeft<N>(c: Codec<N>, cfg: Config, n: Node<N>, depth: nat, all: Result<Members<N>>, done: seq<Byte>, comma: bool)
    requires n.TableNode? && MembersGoOn(all, MembersOf(c, cfg, n, |n.entries|, depth), done, comma)
    ensures all.Ok? && MembersText(all.value) == done
  {
    assert done + [] == done;
  }

  /** A key with its colon. */
  method AppendKey<N(!new)>(json: Buffer, c: Codec<N>, key: NodeKey<N>) returns (err: Option<Failure>)
    requires json.Valid() && GoodCodec(c)
    modifies json, json.buf
    ensures json.Valid() && (json.buf == old(json.buf) || fresh(json.buf))
    ensures match KeyOf(c, key)
      case Ok(k) => err == None && json.Contents() == old(json.Contents()) + (KeyText(key, k) + [COLON])
      case Err(e) => err == Some(e)
  {
    hide GoodCodec, Quoted;
    ghost var before := json.Contents();
    match key
    case NumKey(x) =>
      json.AppendChar(QUOTE);
      err := AppendNumber(json, c, x);
      if err.None? {
        assert json.Contents() == before + ([QUOTE] + c.format(x));
        json.AppendMem([QUOTE, COLON]);
        assert json.Contents() == before + ([QUOTE] + c.format(x) + [QUOTE] + [COLON]);
      }
    case StrKey(s) =>
      AppendString(json, s);
      json.AppendChar(COLON);
      assert json.Contents() == before + (Quoted(s) + [COLON]);
      err := None;
    case OtherKey =>
      err := Some(BadKey);
  }

  method AppendObject<N(!new)>(json: Buffer, c: Codec<N>, cfg: Config, n: Node<N>, depth: nat) returns (err: Option<Failure>)
    requires json.Valid() && GoodCodec(c) && n.TableNode?
    modifies json, json.buf
    ensures json.Valid() && (json.buf == old(json.buf) || fresh(json.buf))
    ensures match MembersOf(c, cfg, n, 0, depth)
      case Ok(members) => err == None && json.Contents() == old(json.Contents()) + ([OBJ_BEGIN] + MembersText(members) + [OBJ_END])
      case Err(e) => err == Some(e)
    decreases n, 1
  {
    hide GoodCodec, MembersOf, EntryText, MembersText, MembersGoOn;
    ghost var all := MembersOf(c, cfg, n, 0, depth);
    json.AppendChar(OBJ_BEGIN);
    ghost var start := json.Contents();
    ghost var done: seq<Byte> := [];
    StartMembers(all);
    assert start + done == start;
    var comma := false;
    for i := 0 to |n.entries|
      invariant json.Valid() && (json.buf == old(json.buf) || fresh(json.buf)) && json.Contents() == start + done
      invariant MembersGoOn(all, MembersOf(c, cfg, n, i, depth), done, comma)
    {
      MemberWritten(c, cfg, n, i, depth, all, done, comma);
      ghost var sep := if comma then [COMMA] else [];
      if comma { json.AppendChar(COMMA); }
      assert json.Contents() == start + done + sep;
      comma := true;
      err := AppendMember(json, c, cfg, n, i, depth);
      if err.Some? { return; }
      ghost var text := EntryText(c, cfg, n.entries[i], depth).value;
      Grown(start, done, sep, text);
      done := done + sep + text;
    }
    NoMembersLeft(c, cfg, n, depth, all, done, comma);
    json.AppendChar(OBJ_END);
    Around(old(json.Contents()), OBJ_BEGIN, done, OBJ_END);
    err := None;
  }

  method AppendMember<N(!new)>(json: Buffer, c: Codec<N>, cfg: Config, n: Node<N>, i: nat, depth: nat) returns (err: Option<Failure>)
    requires json.Valid() && GoodCodec(c) && n.TableNode? && i < |n.entries|
    modifies json, json.buf
    ensures json.Valid() && (json.buf == old(json.buf) || fresh(json.buf))
    ensures match EntryText(c, cfg, n.entries[i], depth)
      case Ok(text) => err == None && json.Contents() == old(json.Contents()) + text
      case Err(e) => err == Some(e)
    decreases n, 0
  {
    hide GoodCodec, TreeOf, Text, KeyOf, KeyText;
    ghost var before := json.Contents();
    err := AppendKey(json, c, n.entries[i].key);
    if err.Some? { return; }
    ghost var keyText := KeyText(n.entries[i].key, KeyOf(c, n.entries[i].key).value);
    err := AppendData(json, c, cfg, n.entries[i].value, depth);
    if err.Some? { return; }
    assert json.Contents() == before + (keyText + [COLON] + Text(TreeOf(c, cfg, n.entries[i].value, depth).value));
  }

  method AppendTable<N(!new)>(json: Buffer, c: Codec<N>, cfg: Config, n: Node<N>, depth: nat) returns (err: Option<Failure>)
    requires json.Valid() && GoodCodec(c) && n.TableNode?
    modifies json, json.buf
    ensures json.Valid() && (json.buf == old(json.buf) || fresh(json.buf))
    ensures Appends(TreeOf(c, cfg, n, depth), err, old(json.Contents()), json.Contents())
    decreases n, 2
  {
    hide GoodCodec, ItemsOf, MembersOf, ArrayLength, ItemsText;
    if depth + 1 > cfg.maxDepth { return Some(ExcessiveNesting); }
    var len := LuaArrayLength(c, cfg, n.entries);
    if len.Err? { return Some(len.failure); }
    if len.value == 0 { EmptyObject(c, cfg, n, depth + 1); }
    if len.value > 0 {
      err := AppendArray(json, c, cfg, n, depth + 1, len.value);
    } else {
      err := AppendObject(json, c, cfg, n, depth + 1);
    }
  }

  lemma EmptyObject<N>(c: Codec<N>, cfg: Config, n: Node<N>, depth: nat)
    requires n.TableNode? && ArrayLength(c, cfg, n.entries) == Ok(Some(0))
    ensures MembersOf(c, cfg, n, 0, depth) == Ok(NoMember)
  {
    if n.entries != [] { NoEntryAtZero(c, n.entries); }
  }

  /** json_append_data. */
  method AppendData<N(!new)>(json: Buffer, c: Codec<N>, cfg: Config, n: Node<N>, depth: nat) returns (err: Option<Failure>)
    requires json.Valid() && GoodCodec(c)
    modifies json, json.buf
    ensures json.Valid() && (json.buf == old(json.buf) || fresh(json.buf))
    ensures Appends(TreeOf(c, cfg, n, depth), err, old(json.Contents()), json.Contents())
    decreases n, 3
  {
    hide GoodCodec, ItemsOf, MembersOf, ArrayLength, Quoted;
    err := None;
    match n
    case StrNode(s) => AppendString(json, s);
    case NumNode(x) => err := AppendNumber(json, c, x);
    case BoolNode(b) => json.AppendMem(if b then TRUE_TEXT else FALSE_TEXT);
    case TableNode(_) => err := AppendTable(json, c, cfg, n, depth);
    case NullNode => json.AppendMem(NULL_TEXT);
    case Unsupported => err := Some(BadType);
  }

  /** json_encode with the buffer that is kept between calls: whatever an earlier call left there, failed or not, does not matter. */
  method Encode<N(!new)>(encodeBuf: Buffer, c: Codec<N>, cfg: Config, n: Node<N>) returns (r: Result<seq<Byte>>)
    requires encodeBuf.Valid() && GoodCodec(c)
    modifies encodeBuf, encodeBuf.buf
    ensures encodeBuf.Valid() && (encodeBuf.buf == old(encodeBuf.buf) || fresh(encodeBuf.buf))
    ensures r == JE.Encode(c, cfg, n)
  {
    hide GoodCodec, TreeOf;
    encodeBuf.Reset();
    var err := AppendData(encodeBuf, c, cfg, n, 0);
    if err.Some? { return Err(err.value); }
    assert [] + encodeBuf.Contents() == encodeBuf.Contents();
    assert [] + Text(TreeOf(c, cfg, n, 0).value) == Text(TreeOf(c, cfg, n, 0).value);
    r := Ok(encodeBuf.buf[..encodeBuf.length]);
    assert encodeBuf.Contents() == encodeBuf.buf[..encodeBuf.length];
  }
}
