/** The grammar of JSON values (sections 2, 4 and 5 of RFC 8259) and the recursive-descent
    parser for it (Lua/lua_cjson.c:1106-1294), both over lists of tokens. */
module JsonGrammar {
  import opened Options
  import opened StrBuf
  import opened JsonLexer

  // ----- Lua values ---------------------------------------------------------

  datatype Key<+N> = AtNumber(k: N) | AtName(s: seq<Byte>)

  datatype Value<N(==)> = StrValue(s: seq<Byte>) | NumValue(x: N) | BoolValue(b: bool) | NullValue | Table(m: map<Key<N>, Value<N>>)

  // ----- parse trees --------------------------------------------------------

  /** A leaf and a key carry the text that the encoder writes for them; the grammar does not look at it. */
  datatype Tree<N> = Leaf(tok: Token<N>, text: seq<Byte>) | Arr(items: Items<N>) | Obj(members: Members<N>)

  datatype Items<N> = NoItem | Item(head: Tree<N>, tail: Items<N>)

  datatype Members<N> = NoMember | Member(key: seq<Byte>, keyText: seq<Byte>, value: Tree<N>, tail: Members<N>)

  predicate IsScalar<N>(tok: Token<N>) {
    tok.Str? || tok.Num? || tok.Bool? || tok.Null?
  }

  /** Every leaf is a value on its own. */
  predicate IsTree<N>(t: Tree<N>) {
    match t
    case Leaf(tok, _) => IsScalar(tok)
    case Arr(items) => AreItems(items)
    case Obj(members) => AreMembers(members)
  }

  predicate AreItems<N>(items: Items<N>) {
    items.Item? ==> IsTree(items.head) && AreItems(items.tail)
  }

  predicate AreMembers<N>(members: Members<N>) {
    members.Member? ==> IsTree(members.value) && AreMembers(members.tail)
  }

  /** The tokens of a tree with `k` behind them. */
  function Yield<N>(t: Tree<N>, k: List<Token<N>>): List<Token<N>> {
    match t
    case Leaf(tok, _) => Cons(tok, k)
    case Arr(items) => Cons(ArrBegin, YieldItems(items, Cons(ArrEnd, k)))
    case Obj(members) => Cons(ObjBegin, YieldMembers(members, Cons(ObjEnd, k)))
  }

  function YieldItems<N>(items: Items<N>, k: List<Token<N>>): List<Token<N>> {
    match items
    case NoItem => k
    case Item(head, NoItem) => Yield(head, k)
    case Item(head, tail) => Yield(head, Cons(Comma, YieldItems(tail, k)))
  }

  function YieldMembers<N>(members: Members<N>, k: List<Token<N>>): List<Token<N>> {
    match members
    case NoMember => k
    case Member(key, _, value, NoMember) => Cons(Str(key), Cons(Colon, Yield(value, k)))
    case Member(key, _, value, tail) => Cons(Str(key), Cons(Colon, Yield(value, Cons(Comma, YieldMembers(tail, k)))))
  }

  function Higher(a: nat, b: nat): nat {
    if a < b then b else a
  }

  /** How deep arrays and objects are nested. */
  function Height<N>(t: Tree<N>): nat {
    match t
    case Leaf(_, _) => 0
    case Arr(items) => 1 + HeightOfItems(items)
    case Obj(members) => 1 + HeightOfMembers(members)
  }

  function HeightOfItems<N>(items: Items<N>): nat {
    match items
    case NoItem => 0
    case Item(head, tail) => Higher(Height(head), HeightOfItems(tail))
  }

  function HeightOfMembers<N>(members: Members<N>): nat {
    match members
    case NoMember => 0
    case Member(_, _, value, tail) => Higher(Height(value), HeightOfMembers(tail))
  }

  function ScalarValue<N(==)>(tok: Token<N>): Value<N>
    requires IsScalar(tok)
  {
    match tok
    case Str(s) => StrValue(s)
    case Num(x) => NumValue(x)
    case Bool(b) => BoolValue(b)
    case Null => NullValue
  }

  /** The Lua value of a tree: arrays count from 1, and the last of several equal keys counts. */
  ghost function ValueOf<N>(c: Codec<N>, t: Tree<N>): Value<N>
    requires IsTree(t)
  {
    match t
    case Leaf(tok, _) => ScalarValue(tok)
    case Arr(items) => Table(ItemsMap(c, items, 1, map[]))
    case Obj(members) => Table(MembersMap(c, members, map[]))
  }

  ghost function ItemsMap<N>(c: Codec<N>, items: Items<N>, i: nat, m: map<Key<N>, Value<N>>): map<Key<N>, Value<N>>
    requires AreItems(items)
  {
    match items
    case NoItem => m
    case Item(head, tail) => ItemsMap(c, tail, i + 1, m[AtNumber(c.ofIndex(i)) := ValueOf(c, head)])
  }

  ghost function MembersMap<N>(c: Codec<N>, members: Members<N>, m: map<Key<N>, Value<N>>): map<Key<N>, Value<N>>
    requires AreMembers(members)
  {
    match members
    case NoMember => m
    case Member(key, _, value, tail) => MembersMap(c, tail, m[AtName(key) := ValueOf(c, value)])
  }

  // ----- the parser ---------------------------------------------------------

  function Len<T>(l: List<T>): nat {
    if l.Nil? then 0 else 1 + Len(l.tail)
  }

  type Parsed<N(==)> = Option<(Value<N>, List<Token<N>>)>

  predicate Shorter<N(==)>(r: Parsed<N>, l: List<Token<N>>) {
    r.Some? ==> Len(r.value.1) < Len(l)
  }

  /** json_process_value: None stands for a thrown error. */
  ghost function ParseValue<N>(c: Codec<N>, l: List<Token<N>>, depth: nat, max: nat): (r: Parsed<N>)
    ensures Shorter(r, l)
    decreases Len(l), 0
  {
    match l
    case Nil => None
    case Cons(tok, rest) =>
      if IsScalar(tok) then Some((ScalarValue(tok), rest))
      else if tok == ObjBegin then
        if depth + 1 > max then None
        else if rest.Cons? && rest.head == ObjEnd then Some((Table(map[]), rest.tail))
        else ParseMembers(c, rest, depth + 1, max, map[])
      else if tok == ArrBegin then
        if depth + 1 > max then None
        else if rest.Cons? && rest.head == ArrEnd then Some((Table(map[]), rest.tail))
        else ParseItems(c, rest, depth + 1, max, 1, map[])
      else None
  }

  /** The loop of json_parse_array_context. */
  ghost function ParseItems<N>(c: Codec<N>, l: List<Token<N>>, depth: nat, max: nat, i: nat, m: map<Key<N>, Value<N>>): (r: Parsed<N>)
    ensures Shorter(r, l)
    decreases Len(l), 1
  {
    match ParseValue(c, l, depth, max)
    case None => None
    case Some((v, rest)) =>
      var m := m[AtNumber(c.ofIndex(i)) := v];
      if rest.Nil? then None
      else if rest.head == ArrEnd then Some((Table(m), rest.tail))
      else if rest.head == Comma then ParseItems(c, rest.tail, depth, max, i + 1, m)
      else None
  }

  /** The loop of json_parse_object_context. */
  ghost function ParseMembers<N>(c: Codec<N>, l: List<Token<N>>, depth: nat, max: nat, m: map<Key<N>, Value<N>>): (r: Parsed<N>)
    ensures Shorter(r, l)
    decreases Len(l)
  {
    if l.Nil? || !l.head.Str? || l.tail.Nil? || l.tail.head != Colon then None
    else
      assert Len(l.tail) < Len(l);
      match ParseValue(c, l.tail.tail, depth, max)
      case None => None
      case Some((v, rest)) =>
        var m := m[AtName(l.head.s) := v];
        if rest.Nil? then None
        else if rest.head == ObjEnd then Some((Table(m), rest.tail))
        else if rest.head == Comma then ParseMembers(c, rest.tail, depth, max, m)
        else None
  }

  // ----- the parser accepts exactly the grammar ----------------------------

  lemma ParseBegins<N>(c: Codec<N>, rest: List<Token<N>>, depth: nat, max: nat)
    ensures ParseValue(c, Cons(ArrBegin, rest), depth, max) ==
      if depth + 1 > max then None
      else if rest.Cons? && rest.head == ArrEnd then Some((Table(map[]), rest.tail))
      else ParseItems(c, rest, depth + 1, max, 1, map[])
    ensures ParseValue(c, Cons(ObjBegin, rest), depth, max) ==
      if depth + 1 > max then None
      else if rest.Cons? && rest.head == ObjEnd then Some((Table(map[]), rest.tail))
      else ParseMembers(c, rest, depth + 1, max, map[])
    ensures forall tok :: IsScalar(tok) ==> ParseValue(c, Cons(tok, rest), depth, max) == Some((ScalarValue(tok), rest))
  {
    hide ParseItems, ParseMembers;
  }

  /** The tokens of a tree are parsed to its value when the nesting stays within the limit, and rejected otherwise. */
  lemma {:induction false} TreeIsParsed<N>(c: Codec<N>, t: Tree<N>, k: List<Token<N>>, depth: nat, max: nat)
    requires IsTree(t) && depth <= max
    ensures ParseValue(c, Yield(t, k), depth, max) == if depth + Height(t) <= max then Some((ValueOf(c, t), k)) else None
    decreases t
  {
    hide ParseValue, ParseItems, ParseMembers;
    match t
    case Leaf(tok, _) => ParseBegins(c, k, depth, max);
    case Arr(items) =>
      ParseBegins(c, YieldItems(items, Cons(ArrEnd, k)), depth, max);
      if depth + 1 <= max && items.Item? {
        ItemsAreParsed(c, items, k, depth + 1, max, 1, map[]);
        FirstItem(items, Cons(ArrEnd, k));
      }
    case Obj(members) =>
      ParseBegins(c, YieldMembers(members, Cons(ObjEnd, k)), depth, max);
      if depth + 1 <= max && members.Member? {
        MembersAreParsed(c, members, k, depth + 1, max, map[]);
      }
  }

  lemma FirstItem<N>(items: Items<N>, k: List<Token<N>>)
    requires AreItems(items) && items.Item?
    ensures YieldItems(items, k).Cons? && YieldItems(items, k).head != ArrEnd
  {
    FirstToken(items.head, if items.tail.NoItem? then k else Cons(Comma, YieldItems(items.tail, k)));
  }

  lemma FirstToken<N>(t: Tree<N>, k: List<Token<N>>)
    requires IsTree(t)
    ensures Yield(t, k).Cons? && Yield(t, k).head != ArrEnd
  {
  }

  lemma {:induction false} ItemsAreParsed<N>(
    c: Codec<N>, items: Items<N>, k: List<Token<N>>, depth: nat, max: nat, i: nat, m: map<Key<N>, Value<N>>)
    requires AreItems(items) && items.Item? && depth <= max
    ensures ParseItems(c, YieldItems(items, Cons(ArrEnd, k)), depth, max, i, m) ==
      if depth + HeightOfItems(items) <= max then Some((Table(ItemsMap(c, items, i, m)), k)) else None
    decreases items
  {
    var after := if items.tail.NoItem? then Cons(ArrEnd, k) else Cons(Comma, YieldItems(items.tail, Cons(ArrEnd, k)));
    TreeIsParsed(c, items.head, after, depth, max);
    if items.tail.Item? && depth + Height(items.head) <= max {
      ItemsAreParsed(c, items.tail, k, depth, max, i + 1, m[AtNumber(c.ofIndex(i)) := ValueOf(c, items.head)]);
    }
  }

  lemma {:induction false} MembersAreParsed<N>(
    c: Codec<N>, members: Members<N>, k: List<Token<N>>, depth: nat, max: nat, m: map<Key<N>, Value<N>>)
    requires AreMembers(members) && members.Member? && depth <= max
    ensures ParseMembers(c, YieldMembers(members, Cons(ObjEnd, k)), depth, max, m) ==
      if depth + HeightOfMembers(members) <= max then Some((Table(MembersMap(c, members, m)), k)) else None
    decreases members
  {
    var after := if members.tail.NoMember? then Cons(ObjEnd, k) else Cons(Comma, YieldMembers(members.tail, Cons(ObjEnd, k)));
    TreeIsParsed(c, members.value, after, depth, max);
    if members.tail.Member? && depth + Height(members.value) <= max {
      MembersAreParsed(c, members.tail, k, depth, max, m[AtName(members.key) := ValueOf(c, members.value)]);
    }
  }

  /** What is parsed is a tree of the grammar within the limit, followed by the rest. */
  lemma {:induction false} ParsedIsTree<N>(c: Codec<N>, l: List<Token<N>>, depth: nat, max: nat) returns (t: Tree<N>)
    requires depth <= max && ParseValue(c, l, depth, max).Some?
    ensures IsTree(t) && depth + Height(t) <= max
    ensures var (v, k) := ParseValue(c, l, depth, max).value; v == ValueOf(c, t) && l == Yield(t, k)
    decreases Len(l), 0
  {
    var tok, rest := l.head, l.tail;
    if IsScalar(tok) {
      t := Leaf(tok, []);
    } else if tok == ObjBegin {
      if rest.Cons? && rest.head == ObjEnd {
        t := Obj(NoMember);
      } else {
        var members := ParsedAreMembers(c, rest, depth + 1, max, map[]);
        t := Obj(members);
      }
    } else {
      if rest.Cons? && rest.head == ArrEnd {
        t := Arr(NoItem);
      } else {
        var items := ParsedAreItems(c, rest, depth + 1, max, 1, map[]);
        t := Arr(items);
      }
    }
  }

  lemma {:induction false} ParsedAreItems<N>(
    c: Codec<N>, l: List<Token<N>>, depth: nat, max: nat, i: nat, m: map<Key<N>, Value<N>>) returns (items: Items<N>)
    requires depth <= max && ParseItems(c, l, depth, max, i, m).Some?
    ensures AreItems(items) && items.Item? && depth + HeightOfItems(items) <= max
    ensures var (v, k) := ParseItems(c, l, depth, max, i, m).value;
      v == Table(ItemsMap(c, items, i, m)) && l == YieldItems(items, Cons(ArrEnd, k))
    decreases Len(l), 1
  {
    var head := ParsedIsTree(c, l, depth, max);
    var (v, rest) := ParseValue(c, l, depth, max).value;
    if rest.head == ArrEnd {
      items := Item(head, NoItem);
    } else {
      var tail := ParsedAreItems(c, rest.tail, depth, max, i + 1, m[AtNumber(c.ofIndex(i)) := v]);
      items := Item(head, tail);
    }
  }

  lemma {:induction false} ParsedAreMembers<N>(
    c: Codec<N>, l: List<Token<N>>, depth: nat, max: nat, m: map<Key<N>, Value<N>>) returns (members: Members<N>)
    requires depth <= max && ParseMembers(c, l, depth, max, m).Some?
    ensures AreMembers(members) && members.Member? && depth + HeightOfMembers(members) <= max
    ensures var (v, k) := ParseMembers(c, l, depth, max, m).value;
      v == Table(MembersMap(c, members, m)) && l == YieldMembers(members, Cons(ObjEnd, k))
    decreases Len(l)
  {
    assert Len(l.tail) < Len(l);
    var value := ParsedIsTree(c, l.tail.tail, depth, max);
    var (v, rest) := ParseValue(c, l.tail.tail, depth, max).value;
    if rest.head == ObjEnd {
      members := Member(l.head.s, [], value, NoMember);
    } else {
      var tail := ParsedAreMembers(c, rest.tail, depth, max, m[AtName(l.head.s) := v]);
      members := Member(l.head.s, [], value, tail);
    }
  }

  // ----- json_decode --------------------------------------------------------

  /** The C string of a Lua string: what stands before the first NUL. */
  function CString(s: seq<Byte>): (r: seq<Byte>)
    ensures r <= s && 0 !in r && (r == s || s[|r|] == 0)
  {
    if s == [] || s[0] == 0 then [] else [s[0]] + CString(s[1..])
  }

  predicate LooksLikeUtf16(s: seq<Byte>) {
    |s| >= 2 && (s[0] == 0 || s[1] == 0)
  }

  ghost function DecodeTokens<N>(c: Codec<N>, l: List<Token<N>>, max: nat): Option<Value<N>> {
    match ParseValue(c, l, 0, max)
    case None => None
    case Some((v, rest)) => if rest.Cons? && rest.head == End then Some(v) else None
  }

  /** json_decode: the value, or None for an error. */
  ghost function Decode<N>(c: Codec<N>, lax: bool, max: nat, s: seq<Byte>): Option<Value<N>> {
    if LooksLikeUtf16(s) then None else DecodeTokens(c, Lex(c, lax, CString(s)), max)
  }

  /** The tokens of the text are those of the tree, and nothing comes after it. */
  ghost predicate IsTextOf<N>(c: Codec<N>, lax: bool, s: seq<Byte>, t: Tree<N>) {
    IsTree(t) && Lex(c, lax, CString(s)) == Yield(t, Cons(End, Nil))
  }

  lemma {:induction false} LexEnds<N>(c: Codec<N>, lax: bool, s: seq<Byte>)
    ensures EndsOnce(Lex(c, lax, s))
    decreases |s|
  {
    var (tok, n) := NextToken(c, lax, s);
    hide NextToken;
    if tok != End && tok != Error { LexEnds(c, lax, s[n..]); }
  }

  /** End can only be the last token. */
  predicate EndsOnce<N>(l: List<Token<N>>) {
    l.Cons? && (if l.head == End || l.head == Error then l.tail == Nil else EndsOnce(l.tail))
  }

  lemma {:induction false} RestEndsOnce<N>(t: Tree<N>, k: List<Token<N>>)
    requires IsTree(t) && EndsOnce(Yield(t, k))
    ensures EndsOnce(k)
    decreases t
  {
    match t
    case Leaf(_, _) =>
    case Arr(items) => RestOfItems(items, Cons(ArrEnd, k));
    case Obj(members) => RestOfMembers(members, Cons(ObjEnd, k));
  }

  lemma {:induction false} RestOfItems<N>(items: Items<N>, k: List<Token<N>>)
    requires AreItems(items) && EndsOnce(YieldItems(items, k))
    ensures EndsOnce(k)
    decreases items
  {
    if items.Item? {
      if items.tail.NoItem? {
        RestEndsOnce(items.head, k);
      } else {
        RestEndsOnce(items.head, Cons(Comma, YieldItems(items.tail, k)));
        RestOfItems(items.tail, k);
      }
    }
  }

  lemma {:induction false} RestOfMembers<N>(members: Members<N>, k: List<Token<N>>)
    requires AreMembers(members) && EndsOnce(YieldMembers(members, k))
    ensures EndsOnce(k)
    decreases members
  {
    if members.Member? {
      if members.tail.NoMember? {
        RestEndsOnce(members.value, k);
      } else {
        RestEndsOnce(members.value, Cons(Comma, YieldMembers(members.tail, k)));
        RestOfMembers(members.tail, k);
      }
    }
  }

  /** A text is decoded to `v` exactly when its tokens are those of one value of the grammar, with
      nothing after it and nested no deeper than the limit, and `v` is its value. */
  lemma DecodeAcceptsGrammar<N(!new)>(c: Codec<N>, lax: bool, max: nat, s: seq<Byte>, v: Value<N>)
    ensures Decode(c, lax, max, s) == Some(v) <==>
      !LooksLikeUtf16(s) && exists t :: IsTextOf(c, lax, s, t) && Height(t) <= max && ValueOf(c, t) == v
  {
    hide Lex, CString, ParseValue, Yield, ValueOf, Height;
    var l := Lex(c, lax, CString(s));
    if Decode(c, lax, max, s) == Some(v) {
      var t := ParsedIsTree(c, l, 0, max);
      LexEnds(c, lax, CString(s));
      RestEndsOnce(t, ParseValue(c, l, 0, max).value.1);
      assert IsTextOf(c, lax, s, t);
    }
    if !LooksLikeUtf16(s) {
      forall t | IsTextOf(c, lax, s, t) && Height(t) <= max && ValueOf(c, t) == v
        ensures Decode(c, lax, max, s) == Some(v)
      {
        TreeIsParsed(c, t, Cons(End, Nil), 0, max);
      }
    }
  }

  /** The grammar is unambiguous: a token list starts with at most one value. */
  lemma GrammarIsUnambiguous<N>(c: Codec<N>, t: Tree<N>, k: List<Token<N>>, t': Tree<N>, k': List<Token<N>>)
    requires IsTree(t) && IsTree(t') && Yield(t, k) == Yield(t', k')
    ensures k == k' && ValueOf(c, t) == ValueOf(c, t')
  {
    hide ParseValue, Yield, ValueOf, Height;
    var max := Higher(Height(t), Height(t'));
    TreeIsParsed(c, t, k, 0, max);
    TreeIsParsed(c, t', k', 0, max);
  }

  /** Behind a NUL anything at all is accepted: the tokenizer never looks at it. */
  lemma NulHidesTheRest<N>(c: Codec<N>, lax: bool, max: nat, s: seq<Byte>, more: seq<Byte>)
    requires |s| >= 2
    ensures Decode(c, lax, max, s + [0] + more) == Decode(c, lax, max, s)
  {
    hide DecodeTokens, Lex;
    CutAtNul(s, more);
    assert (s + [0] + more)[..2] == s[..2];
    assert (s + [0] + more)[0] == s[0] && (s + [0] + more)[1] == s[1];
  }

  lemma {:induction false} CutAtNul(s: seq<Byte>, more: seq<Byte>)
    ensures CString(s + [0] + more) == CString(s)
  {
    var t := s + [0] + more;
    if s != [] && s[0] != 0 {
      assert t[1..] == s[1..] + [0] + more;
      CutAtNul(s[1..], more);
    }
  }
}
