/** What json_encode writes for a Lua value: the tree, its text, and the errors
    (Lua/lua_cjson.c:458-704). */
module JsonEncode {
  import opened Options
  import opened StrBuf
  import opened JsonLexer
  import opened JsonGrammar

  /** A Lua value as the encoder finds it. A table lists its entries in the order in which
      lua_next gives them. `Unsupported` stands for functions, threads and the like. */
  datatype Node<N> = StrNode(s: seq<Byte>) | NumNode(x: N) | BoolNode(b: bool) | NullNode | Unsupported | TableNode(entries: seq<Entry<N>>)

  datatype NodeKey<N> = NumKey(k: N) | StrKey(s: seq<Byte>) | OtherKey

  datatype Entry<N> = Entry(key: NodeKey<N>, value: Node<N>)

  datatype Config = Config(sparseConvert: bool, sparseRatio: nat, sparseSafe: nat, maxDepth: nat)

  datatype Failure = ExcessiveNesting | ExcessivelySparse | BadKey | BadNumber | BadType

  datatype Result<+T> = Ok(value: T) | Err(failure: Failure)

  // ----- arrays -------------------------------------------------------------

  /** The array index that a key is: an integer above 0, or 0 for any other key. */
  function IndexOf<N>(c: Codec<N>, k: NodeKey<N>): nat {
    if k.NumKey? then c.index(k.k) else 0
  }

  predicate AllIndices<N>(c: Codec<N>, entries: seq<Entry<N>>) {
    forall i :: 0 <= i < |entries| ==> IndexOf(c, entries[i].key) >= 1
  }

  function MaxIndex<N>(c: Codec<N>, entries: seq<Entry<N>>): (m: nat)
    ensures forall i :: 0 <= i < |entries| ==> IndexOf(c, entries[i].key) <= m
    ensures m == 0 || exists i :: 0 <= i < |entries| && IndexOf(c, entries[i].key) == m
  {
    if entries == [] then 0
    else
      var m := MaxIndex(c, entries[..|entries| - 1]);
      var k := IndexOf(c, entries[|entries| - 1].key);
      if k > m then k else m
  }

  lemma NoEntryAtZero<N>(c: Codec<N>, entries: seq<Entry<N>>)
    requires entries != [] && MaxIndex(c, entries) == 0
    ensures !AllIndices(c, entries)
  {
    assert IndexOf(c, entries[0].key) == 0;
  }

  predicate TooSparse(cfg: Config, max: nat, items: nat) {
    cfg.sparseRatio > 0 && max > items * cfg.sparseRatio && max > cfg.sparseSafe
  }

  /** lua_array_length: the length of an array, or None for an object. */
  function ArrayLength<N>(c: Codec<N>, cfg: Config, entries: seq<Entry<N>>): Result<Option<nat>> {
    if !AllIndices(c, entries) then Ok(None)
    else
      var max := MaxIndex(c, entries);
      if TooSparse(cfg, max, |entries|) then (if cfg.sparseConvert then Ok(None) else Err(ExcessivelySparse))
      else Ok(Some(max))
  }

  /** lua_rawgeti: the value at index `i`, nil where there is none. */
  function ValueAt<N>(c: Codec<N>, entries: seq<Entry<N>>, i: nat): (r: Option<Node<N>>)
    ensures r.Some? ==> exists j :: 0 <= j < |entries| && r.value == entries[j].value && IndexOf(c, entries[j].key) == i
    ensures r.None? ==> forall j :: 0 <= j < |entries| ==> IndexOf(c, entries[j].key) != i
  {
    if entries == [] then None
    else if IndexOf(c, entries[0].key) == i then Some(entries[0].value)
    else ValueAt(c, entries[1..], i)
  }

  // ----- the tree that is written -------------------------------------------

  /** json_append_number. */
  ghost function NumberLeaf<N>(c: Codec<N>, x: N): Result<Tree<N>> {
    if c.finite(x) then Ok(Leaf(Num(Reread(c, x)), c.format(x))) else Err(BadNumber)
  }

  ghost function KeyOf<N>(c: Codec<N>, k: NodeKey<N>): Result<seq<Byte>> {
    match k
    case NumKey(x) => if c.finite(x) then Ok(c.format(x)) else Err(BadNumber)
    case StrKey(s) => Ok(s)
    case OtherKey => Err(BadKey)
  }

  /** How a key is written: number text is not escaped. */
  function KeyText<N>(k: NodeKey<N>, key: seq<Byte>): seq<Byte> {
    if k.NumKey? then [QUOTE] + key + [QUOTE] else Quoted(key)
  }

  /** json_append_data at nesting `depth`. */
  ghost function TreeOf<N>(c: Codec<N>, cfg: Config, n: Node<N>, depth: nat): Result<Tree<N>>
    decreases n, 1
  {
    match n
    case StrNode(s) => Ok(Leaf(Str(s), Quoted(s)))
    case NumNode(x) => NumberLeaf(c, x)
    case BoolNode(b) => Ok(Leaf(Bool(b), if b then TRUE_TEXT else FALSE_TEXT))
    case NullNode => Ok(Leaf(Null, NULL_TEXT))
    case Unsupported => Err(BadType)
    case TableNode(entries) =>
      if depth + 1 > cfg.maxDepth then Err(ExcessiveNesting)
      else
        match ArrayLength(c, cfg, entries)
        case Err(e) => Err(e)
        case Ok(Some(len)) =>
          if len == 0 then Ok(Obj(NoMember))
          else
            (match ItemsOf(c, cfg, n, 1, len, depth + 1)
             case Err(e) => Err(e)
             case Ok(items) => Ok(Arr(items)))
        case Ok(None) =>
          (match MembersOf(c, cfg, n, 0, depth + 1)
           case Err(e) => Err(e)
           case Ok(members) => Ok(Obj(members)))
  }

  /** The element at index `i`: null for a hole. */
  ghost function ElementOf<N>(c: Codec<N>, cfg: Config, n: Node<N>, i: nat, depth: nat): Result<Tree<N>>
    requires n.TableNode?
    decreases n, 0, 0
  {
    match ValueAt(c, n.entries, i)
    case None => Ok(Leaf(Null, NULL_TEXT))
    case Some(v) => TreeOf(c, cfg, v, depth)
  }

  /** json_append_array from index `i` on. */
  ghost function ItemsOf<N>(c: Codec<N>, cfg: Config, n: Node<N>, i: nat, len: nat, depth: nat): Result<Items<N>>
    requires n.TableNode?
    decreases n, 0, len + 1 - i
  {
    if i > len then Ok(NoItem)
    else
      match ElementOf(c, cfg, n, i, depth)
      case Err(e) => Err(e)
      case Ok(head) =>
        match ItemsOf(c, cfg, n, i + 1, len, depth)
        case Err(e) => Err(e)
        case Ok(tail) => Ok(Item(head, tail))
  }

  /** json_append_object from entry `i` on. */
  ghost function MembersOf<N>(c: Codec<N>, cfg: Config, n: Node<N>, i: nat, depth: nat): Result<Members<N>>
    requires n.TableNode?
    decreases n, 0, |n.entries| - i
  {
    if i >= |n.entries| then Ok(NoMember)
    else
      match KeyOf(c, n.entries[i].key)
      case Err(e) => Err(e)
      case Ok(key) =>
        match TreeOf(c, cfg, n.entries[i].value, depth)
        case Err(e) => Err(e)
        case Ok(value) =>
          match MembersOf(c, cfg, n, i + 1, depth)
          case Err(e) => Err(e)
          case Ok(tail) => Ok(Member(key, KeyText(n.entries[i].key, key), value, tail))
  }

  // ----- its text -----------------------------------------------------------

  function Text<N>(t: Tree<N>): seq<Byte> {
    match t
    case Leaf(_, text) => text
    case Arr(items) => [ARR_BEGIN] + ItemsText(items) + [ARR_END]
    case Obj(members) => [OBJ_BEGIN] + MembersText(members) + [OBJ_END]
  }

  function ItemsText<N>(items: Items<N>): seq<Byte> {
    match items
    case NoItem => []
    case Item(head, NoItem) => Text(head)
    case Item(head, tail) => Text(head) + [COMMA] + ItemsText(tail)
  }

  function MembersText<N>(members: Members<N>): seq<Byte> {
    match members
    case NoMember => []
    case Member(_, keyText, value, NoMember) => keyText + [COLON] + Text(value)
    case Member(_, keyText, value, tail) => keyText + [COLON] + Text(value) + [COMMA] + MembersText(tail)
  }

  /** json_encode. */
  ghost function Encode<N>(c: Codec<N>, cfg: Config, n: Node<N>): Result<seq<Byte>> {
    match TreeOf(c, cfg, n, 0)
    case Err(e) => Err(e)
    case Ok(t) => Ok(Text(t))
  }

  // ----- its tokens ---------------------------------------------------------

  /** Every leaf and every key is written as a text that is read as that one token. */
  ghost predicate IsWritten<N>(c: Codec<N>, lax: bool, t: Tree<N>) {
    match t
    case Leaf(tok, text) => Reads(c, lax, text, tok)
    case Arr(items) => ItemsWritten(c, lax, items)
    case Obj(members) => MembersWritten(c, lax, members)
  }

  ghost predicate ItemsWritten<N>(c: Codec<N>, lax: bool, items: Items<N>) {
    items.Item? ==> IsWritten(c, lax, items.head) && ItemsWritten(c, lax, items.tail)
  }

  ghost predicate MembersWritten<N>(c: Codec<N>, lax: bool, members: Members<N>) {
    members.Member? ==>
      Reads(c, lax, members.keyText, Str(members.key)) && IsWritten(c, lax, members.value) && MembersWritten(c, lax, members.tail)
  }

  lemma LexOne<N>(c: Codec<N>, lax: bool, text: seq<Byte>, tok: Token<N>, k: seq<Byte>)
    requires Reads(c, lax, text, tok) && (Delimits(k) || tok.Str?)
    ensures Lex(c, lax, text + k) == Cons(tok, Lex(c, lax, k))
  {
    assert (text + k)[|text|..] == k;
    hide NextToken;
  }

  lemma LexSingle<N>(c: Codec<N>, lax: bool, b: Byte, k: seq<Byte>)
    requires SingleToken<N>(b).Some?
    ensures Lex(c, lax, [b] + k) == Cons(SingleToken<N>(b).value, Lex(c, lax, k))
  {
    SingleReads(c, lax, b, k);
    assert ([b] + k)[1..] == k;
    hide NextToken;
  }

  /** The tokenizer finds the tokens of the tree in its text. */
  lemma {:induction false} TextIsLexed<N>(c: Codec<N>, lax: bool, t: Tree<N>, k: seq<Byte>)
    requires IsWritten(c, lax, t) && Delimits(k)
    ensures Lex(c, lax, Text(t) + k) == Yield(t, Lex(c, lax, k))
    decreases t
  {
    hide Lex, Reads;
    match t
    case Leaf(tok, text) => LexOne(c, lax, text, tok, k);
    case Arr(items) =>
      assert Text(t) + k == [ARR_BEGIN] + (ItemsText(items) + ([ARR_END] + k));
      LexSingle(c, lax, ARR_BEGIN, ItemsText(items) + ([ARR_END] + k));
      LexSingle(c, lax, ARR_END, k);
      ItemsAreLexed(c, lax, items, [ARR_END] + k);
    case Obj(members) =>
      assert Text(t) + k == [OBJ_BEGIN] + (MembersText(members) + ([OBJ_END] + k));
      LexSingle(c, lax, OBJ_BEGIN, MembersText(members) + ([OBJ_END] + k));
      LexSingle(c, lax, OBJ_END, k);
      MembersAreLexed(c, lax, members, [OBJ_END] + k);
  }

  lemma {:induction false} ItemsAreLexed<N>(c: Codec<N>, lax: bool, items: Items<N>, k: seq<Byte>)
    requires ItemsWritten(c, lax, items) && Delimits(k)
    ensures Lex(c, lax, ItemsText(items) + k) == YieldItems(items, Lex(c, lax, k))
    decreases items
  {
    hide Lex, Reads;
    match items
    case NoItem => assert ItemsText(items) + k == k;
    case Item(head, NoItem) => TextIsLexed(c, lax, head, k);
    case Item(head, tail) =>
      assert ItemsText(items) + k == Text(head) + ([COMMA] + (ItemsText(tail) + k));
      TextIsLexed(c, lax, head, [COMMA] + (ItemsText(tail) + k));
      LexSingle(c, lax, COMMA, ItemsText(tail) + k);
      ItemsAreLexed(c, lax, tail, k);
  }

  lemma {:induction false} MembersAreLexed<N>(c: Codec<N>, lax: bool, members: Members<N>, k: seq<Byte>)
    requires MembersWritten(c, lax, members) && Delimits(k)
    ensures Lex(c, lax, MembersText(members) + k) == YieldMembers(members, Lex(c, lax, k))
    decreases members
  {
    hide Lex, Reads;
    match members
    case NoMember => assert MembersText(members) + k == k;
    case Member(key, keyText, value, tail) =>
      var after := if tail.NoMember? then k else [COMMA] + (MembersText(tail) + k);
      assert MembersText(members) + k == keyText + ([COLON] + (Text(value) + after));
      LexOne(c, lax, keyText, Str(key), [COLON] + (Text(value) + after));
      LexSingle(c, lax, COLON, Text(value) + after);
      TextIsLexed(c, lax, value, after);
      if tail.Member? {
        LexSingle(c, lax, COMMA, MembersText(tail) + k);
        MembersAreLexed(c, lax, tail, k);
      }
  }

  // ----- the encoder's trees ------------------------------------------------

  /** What the encoder writes is a tree of the grammar, within its own depth limit, whose leaves and keys can be read back. */
  lemma {:induction false} TreeIsWritten<N(!new)>(c: Codec<N>, cfg: Config, lax: bool, n: Node<N>, depth: nat)
    requires GoodCodec(c) && depth <= cfg.maxDepth && TreeOf(c, cfg, n, depth).Ok?
    ensures var t := TreeOf(c, cfg, n, depth).value; IsTree(t) && IsWritten(c, lax, t) && depth + Height(t) <= cfg.maxDepth
    decreases n, 1
  {
    hide GoodCodec, Reads;
    match n
    case StrNode(s) => QuotedReads(c, lax, s);
    case NumNode(x) => FiniteReads(c, lax, x);
    case BoolNode(b) => WordReads(c, lax, if b then TRUE_TEXT else FALSE_TEXT, Bool(b));
    case NullNode => WordReads(c, lax, NULL_TEXT, Null);
    case TableNode(entries) =>
      var len := ArrayLength(c, cfg, entries).value;
      if len.Some? {
        if len.value > 0 { ItemsAreWritten(c, cfg, lax, n, 1, len.value, depth + 1); }
      } else {
        MembersAreWritten(c, cfg, lax, n, 0, depth + 1);
      }
  }

  lemma FiniteReads<N(!new)>(c: Codec<N>, lax: bool, x: N)
    requires GoodCodec(c) && c.finite(x)
    ensures Reads(c, lax, c.format(x), Num(Reread(c, x)))
    ensures Reads(c, lax, [QUOTE] + c.format(x) + [QUOTE], Str(c.format(x)))
  {
    hide Reads;
    assert TextOf(c, x);
    NumberReads(c, lax, x);
    NumberCharsArePlain(c.format(x));
    QuotedReads(c, lax, c.format(x));
  }

  lemma {:induction false} ElementIsWritten<N(!new)>(c: Codec<N>, cfg: Config, lax: bool, n: Node<N>, i: nat, depth: nat)
    requires GoodCodec(c) && n.TableNode? && depth <= cfg.maxDepth && ElementOf(c, cfg, n, i, depth).Ok?
    ensures var t := ElementOf(c, cfg, n, i, depth).value; IsTree(t) && IsWritten(c, lax, t) && depth + Height(t) <= cfg.maxDepth
    decreases n, 0, 0
  {
    hide GoodCodec, Reads, TreeOf;
    match ValueAt(c, n.entries, i)
    case None => WordReads(c, lax, NULL_TEXT, Null);
    case Some(v) => TreeIsWritten(c, cfg, lax, v, depth);
  }

  lemma {:induction false} ItemsAreWritten<N(!new)>(c: Codec<N>, cfg: Config, lax: bool, n: Node<N>, i: nat, len: nat, depth: nat)
    requires GoodCodec(c) && n.TableNode? && depth <= cfg.maxDepth && ItemsOf(c, cfg, n, i, len, depth).Ok?
    ensures var items := ItemsOf(c, cfg, n, i, len, depth).value;
      AreItems(items) && ItemsWritten(c, lax, items) && depth + HeightOfItems(items) <= cfg.maxDepth
    decreases n, 0, len + 1 - i
  {
    hide GoodCodec, Reads;
    if i <= len {
      ElementIsWritten(c, cfg, lax, n, i, depth);
      hide ElementOf;
      ItemsAreWritten(c, cfg, lax, n, i + 1, len, depth);
    }
  }

  lemma {:induction false} MembersAreWritten<N(!new)>(c: Codec<N>, cfg: Config, lax: bool, n: Node<N>, i: nat, depth: nat)
    requires GoodCodec(c) && n.TableNode? && depth <= cfg.maxDepth && MembersOf(c, cfg, n, i, depth).Ok?
    ensures var members := MembersOf(c, cfg, n, i, depth).value;
      AreMembers(members) && MembersWritten(c, lax, members) && depth + HeightOfMembers(members) <= cfg.maxDepth
    decreases n, 0, |n.entries| - i
  {
    hide GoodCodec, Reads;
    if i < |n.entries| {
      var key := n.entries[i].key;
      if key.NumKey? { FiniteReads(c, lax, key.k); } else { QuotedReads(c, lax, key.s); }
      TreeIsWritten(c, cfg, lax, n.entries[i].value, depth);
      MembersAreWritten(c, cfg, lax, n, i + 1, depth);
    }
  }
}
