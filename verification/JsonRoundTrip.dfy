/** json_decode undoes json_encode, on exactly the values that JSON can hold. */
module JsonRoundTrip {
  import opened Options
  import opened StrBuf
  import opened JsonLexer
  import opened JsonGrammar
  import opened JsonEncode

  // ----- the Lua value of a node --------------------------------------------

  /** A table's keys are numbers or strings, each at most once, and its values are of types that JSON knows. */
  predicate IsLua<N(==)>(n: Node<N>) {
    match n
    case Unsupported => false
    case TableNode(entries) =>
      && (forall i, j :: 0 <= i < j < |entries| ==> entries[i].key != entries[j].key)
      && (forall i :: 0 <= i < |entries| ==> !entries[i].key.OtherKey? && IsLua(entries[i].value))
    case _ => true
  }

  function LuaKey<N>(k: NodeKey<N>): Key<N>
    requires !k.OtherKey?
  {
    match k
    case NumKey(x) => AtNumber(x)
    case StrKey(s) => AtName(s)
  }

  /** The table that holds these entries, a later one in place of an earlier one with its key. */
  function Fold<K(==), V>(m: map<K, V>, pairs: seq<(K, V)>): map<K, V>
    decreases |pairs|
  {
    if pairs == [] then m else Fold(m[pairs[0].0 := pairs[0].1], pairs[1..])
  }

  /** The value that the program sees, in whatever order the entries come. */
  function Meaning<N(==)>(n: Node<N>): Value<N>
    requires IsLua(n)
  {
    match n
    case StrNode(s) => StrValue(s)
    case NumNode(x) => NumValue(x)
    case BoolNode(b) => BoolValue(b)
    case NullNode => NullValue
    case TableNode(entries) =>
      Table(Fold(map[], seq(|entries|, i requires 0 <= i < |entries| => (LuaKey(entries[i].key), Meaning(entries[i].value)))))
  }

  predicate AllNames<N>(entries: seq<Entry<N>>) {
    forall i :: 0 <= i < |entries| ==> entries[i].key.StrKey?
  }

  /** A non-empty array without holes. */
  predicate Dense<N(==)>(c: Codec<N>, entries: seq<Entry<N>>) {
    entries != [] && AllIndices(c, entries) && forall i :: 1 <= i <= MaxIndex(c, entries) ==> ValueAt(c, entries, i).Some?
  }

  /** What JSON can hold: every table is a dense array or has string keys only, and every
      number survives its text. */
  ghost predicate Faithful<N>(c: Codec<N>, n: Node<N>) {
    match n
    case NumNode(x) => Reread(c, x) == x
    case TableNode(entries) =>
      (AllNames(entries) || Dense(c, entries)) && forall i :: 0 <= i < |entries| ==> Faithful(c, entries[i].value)
    case _ => true
  }

  predicate FiniteNumbers<N>(c: Codec<N>, n: Node<N>) {
    match n
    case NumNode(x) => c.finite(x)
    case TableNode(entries) => forall i :: 0 <= i < |entries| ==> FiniteNumbers(c, entries[i].value)
    case _ => true
  }

  /** How deep tables are nested: at most `h`. */
  predicate NestedAtMost<N>(n: Node<N>, h: nat) {
    n.TableNode? ==> h > 0 && forall i :: 0 <= i < |n.entries| ==> NestedAtMost(n.entries[i].value, h - 1)
  }

  // ----- tables as folds ----------------------------------------------------

  lemma {:induction false} FoldAt<K, V>(m: map<K, V>, pairs: seq<(K, V)>)
    requires forall i, j :: 0 <= i < j < |pairs| ==> pairs[i].0 != pairs[j].0
    ensures forall i :: 0 <= i < |pairs| ==> pairs[i].0 in Fold(m, pairs) && Fold(m, pairs)[pairs[i].0] == pairs[i].1
    ensures forall k :: k in m && (forall i :: 0 <= i < |pairs| ==> pairs[i].0 != k) ==> k in Fold(m, pairs) && Fold(m, pairs)[k] == m[k]
    decreases |pairs|
  {
    if pairs != [] {
      FoldAt(m[pairs[0].0 := pairs[0].1], pairs[1..]);
      var f := Fold(m, pairs);
      assert f == Fold(m[pairs[0].0 := pairs[0].1], pairs[1..]);
      forall i | 0 <= i < |pairs| ensures pairs[i].0 in f && f[pairs[i].0] == pairs[i].1 {
        if i > 0 { assert pairs[1..][i - 1] == pairs[i]; }
      }
      forall k | k in m && (forall i :: 0 <= i < |pairs| ==> pairs[i].0 != k) ensures k in f && f[k] == m[k] {
        assert forall i :: 0 <= i < |pairs[1..]| ==> pairs[1..][i].0 != k;
      }
    }
  }

  lemma {:induction false} FoldKeys<K, V>(m: map<K, V>, pairs: seq<(K, V)>)
    ensures forall k :: k in Fold(m, pairs) ==> k in m || exists i :: 0 <= i < |pairs| && pairs[i].0 == k
    decreases |pairs|
  {
    if pairs != [] {
      var next := m[pairs[0].0 := pairs[0].1];
      FoldKeys(next, pairs[1..]);
      forall k | k in Fold(m, pairs) && k !in m ensures exists i :: 0 <= i < |pairs| && pairs[i].0 == k {
        assert k in Fold(next, pairs[1..]);
        if k != pairs[0].0 {
          var i :| 0 <= i < |pairs[1..]| && pairs[1..][i].0 == k;
          assert pairs[i + 1].0 == k;
        }
      }
    }
  }

  ghost function ItemPairs<N>(c: Codec<N>, items: Items<N>, i: nat): seq<(Key<N>, Value<N>)>
    requires AreItems(items)
  {
    match items
    case NoItem => []
    case Item(head, tail) => [(AtNumber(c.ofIndex(i)), ValueOf(c, head))] + ItemPairs(c, tail, i + 1)
  }

  ghost function MemberPairs<N>(c: Codec<N>, members: Members<N>): seq<(Key<N>, Value<N>)>
    requires AreMembers(members)
  {
    match members
    case NoMember => []
    case Member(key, _, value, tail) => [(AtName(key), ValueOf(c, value))] + MemberPairs(c, tail)
  }

  lemma {:induction false} ItemsFold<N>(c: Codec<N>, items: Items<N>, i: nat, m: map<Key<N>, Value<N>>)
    requires AreItems(items)
    ensures ItemsMap(c, items, i, m) == Fold(m, ItemPairs(c, items, i))
    decreases items
  {
    hide ValueOf;
    if items.Item? {
      assert ItemPairs(c, items, i)[1..] == ItemPairs(c, items.tail, i + 1);
      ItemsFold(c, items.tail, i + 1, m[AtNumber(c.ofIndex(i)) := ValueOf(c, items.head)]);
    }
  }

  lemma {:induction false} MembersFold<N>(c: Codec<N>, members: Members<N>, m: map<Key<N>, Value<N>>)
    requires AreMembers(members)
    ensures MembersMap(c, members, m) == Fold(m, MemberPairs(c, members))
    decreases members
  {
    hide ValueOf;
    if members.Member? {
      assert MemberPairs(c, members)[1..] == MemberPairs(c, members.tail);
      MembersFold(c, members.tail, m[AtName(members.key) := ValueOf(c, members.value)]);
    }
  }

  /** The value of the tree for the entry, or what stands for a tree that is not there. */
  ghost predicate Worth<N>(c: Codec<N>, r: Result<Tree<N>>, v: Value<N>) {
    r.Ok? && IsTree(r.value) && ValueOf(c, r.value) == v
  }

  lemma {:induction false} ItemPairsAre<N>(c: Codec<N>, cfg: Config, n: Node<N>, i: nat, len: nat, depth: nat)
    requires n.TableNode? && i <= len + 1 && ItemsOf(c, cfg, n, i, len, depth).Ok? && AreItems(ItemsOf(c, cfg, n, i, len, depth).value)
    ensures var p := ItemPairs(c, ItemsOf(c, cfg, n, i, len, depth).value, i);
      && |p| == len + 1 - i
      && forall j :: 0 <= j < |p| ==> p[j].0 == AtNumber(c.ofIndex(i + j)) && Worth(c, ElementOf(c, cfg, n, i + j, depth), p[j].1)
    decreases len + 1 - i
  {
    hide ValueOf, IsTree, ElementOf;
    if i <= len {
      ItemPairsAre(c, cfg, n, i + 1, len, depth);
      var q := ItemPairs(c, ItemsOf(c, cfg, n, i + 1, len, depth).value, i + 1);
      var p := ItemPairs(c, ItemsOf(c, cfg, n, i, len, depth).value, i);
      assert forall j :: 1 <= j < |p| ==> p[j] == q[j - 1] && i + 1 + (j - 1) == i + j;
    }
  }

  ghost predicate MemberPair<N>(c: Codec<N>, cfg: Config, e: Entry<N>, depth: nat, p: (Key<N>, Value<N>)) {
    KeyOf(c, e.key).Ok? && p.0 == AtName(KeyOf(c, e.key).value) && Worth(c, TreeOf(c, cfg, e.value, depth), p.1)
  }

  lemma {:induction false} MemberPairsAre<N>(c: Codec<N>, cfg: Config, n: Node<N>, i: nat, depth: nat)
    requires n.TableNode? && i <= |n.entries| && MembersOf(c, cfg, n, i, depth).Ok? && AreMembers(MembersOf(c, cfg, n, i, depth).value)
    ensures var p := MemberPairs(c, MembersOf(c, cfg, n, i, depth).value);
      |p| == |n.entries| - i && forall j :: 0 <= j < |p| ==> MemberPair(c, cfg, n.entries[i + j], depth, p[j])
    decreases |n.entries| - i
  {
    hide ValueOf, IsTree, TreeOf, KeyOf, MemberPair, MemberPairs, MembersOf, AreMembers;
    var p := MemberPairs(c, MembersOf(c, cfg, n, i, depth).value);
    if i < |n.entries| {
      MemberStep(c, cfg, n, i, depth);
      MemberPairsAre(c, cfg, n, i + 1, depth);
      var q := p[1..];
      forall j | 0 <= j < |p| ensures MemberPair(c, cfg, n.entries[i + j], depth, p[j]) {
        if j > 0 { assert p[j] == q[j - 1] && i + j == i + 1 + (j - 1); }
      }
    } else {
      NoMemberLeft(c, cfg, n, depth);
    }
  }

  lemma NoMemberLeft<N>(c: Codec<N>, cfg: Config, n: Node<N>, depth: nat)
    requires n.TableNode?
    ensures MembersOf(c, cfg, n, |n.entries|, depth) == Ok(NoMember) && AreMembers<N>(NoMember) && MemberPairs(c, NoMember) == []
  {
  }

  lemma MemberStep<N>(c: Codec<N>, cfg: Config, n: Node<N>, i: nat, depth: nat)
    requires n.TableNode? && i < |n.entries| && MembersOf(c, cfg, n, i, depth).Ok? && AreMembers(MembersOf(c, cfg, n, i, depth).value)
    ensures MembersOf(c, cfg, n, i + 1, depth).Ok? && AreMembers(MembersOf(c, cfg, n, i + 1, depth).value)
    ensures var p := MemberPairs(c, MembersOf(c, cfg, n, i, depth).value);
      |p| > 0 && MemberPair(c, cfg, n.entries[i], depth, p[0]) && p[1..] == MemberPairs(c, MembersOf(c, cfg, n, i + 1, depth).value)
  {
    hide ValueOf, IsTree, TreeOf, KeyOf;
  }

  function EntryPairs<N(==)>(entries: seq<Entry<N>>): (p: seq<(Key<N>, Value<N>)>)
    requires IsLua(TableNode(entries))
    ensures |p| == |entries| && forall i :: 0 <= i < |p| ==> p[i] == (LuaKey(entries[i].key), Meaning(entries[i].value))
  {
    seq(|entries|, i requires 0 <= i < |entries| => (LuaKey(entries[i].key), Meaning(entries[i].value)))
  }

  lemma MeaningOfTable<N>(entries: seq<Entry<N>>)
    requires IsLua(TableNode(entries))
    ensures Meaning(TableNode(entries)) == Table(Fold(map[], EntryPairs(entries)))
  {
    var p := seq(|entries|, i requires 0 <= i < |entries| => (LuaKey(entries[i].key), Meaning(entries[i].value)));
    assert p == EntryPairs(entries);
  }

  // ----- arrays -------------------------------------------------------------

  /** With distinct keys, the value at an entry's index is that entry's. */
  lemma {:induction false} EntryAtIndex<N(!new)>(c: Codec<N>, entries: seq<Entry<N>>, j: nat)
    requires GoodCodec(c) && j < |entries| && AllIndices(c, entries)
    requires forall i, j :: 0 <= i < j < |entries| ==> entries[i].key != entries[j].key
    ensures ValueAt(c, entries, IndexOf(c, entries[j].key)) == Some(entries[j].value)
  {
    var i := IndexOf(c, entries[j].key);
    assert entries[j].key.NumKey? && c.ofIndex(i) == entries[j].key.k;
    var r := ValueAt(c, entries, i);
    if r.Some? {
      var m :| 0 <= m < |entries| && r.value == entries[m].value && IndexOf(c, entries[m].key) == i;
      assert entries[m].key.NumKey? && c.ofIndex(i) == entries[m].key.k;
    }
  }

  ghost predicate SameWhenFaithful<N>(c: Codec<N>, cfg: Config, n: Node<N>, depth: nat)
    requires IsLua(n)
  {
    && TreeOf(c, cfg, n, depth).Ok? && IsTree(TreeOf(c, cfg, n, depth).value)
    && (ValueOf(c, TreeOf(c, cfg, n, depth).value) == Meaning(n) <==> Faithful(c, n))
  }

  lemma IndexKey<N(!new)>(c: Codec<N>, k: NodeKey<N>)
    requires GoodCodec(c) && IndexOf(c, k) >= 1
    ensures k == NumKey(c.ofIndex(IndexOf(c, k)))
  {
  }

  lemma ItemKeysDiffer<N(!new)>(c: Codec<N>, p: seq<(Key<N>, Value<N>)>)
    requires GoodCodec(c) && forall j :: 0 <= j < |p| ==> p[j].0 == AtNumber(c.ofIndex(1 + j))
    ensures forall i, j :: 0 <= i < j < |p| ==> p[i].0 != p[j].0
  {
    forall i, j | 0 <= i < j < |p| ensures p[i].0 != p[j].0 {
      assert c.index(c.ofIndex(1 + i)) == 1 + i && c.index(c.ofIndex(1 + j)) == 1 + j;
    }
  }

  lemma ArrayPairs<N(!new)>(c: Codec<N>, cfg: Config, n: Node<N>, len: nat, depth: nat)
    requires GoodCodec(c) && n.TableNode? && ItemsOf(c, cfg, n, 1, len, depth).Ok? && AreItems(ItemsOf(c, cfg, n, 1, len, depth).value)
    ensures var v := ItemsMap(c, ItemsOf(c, cfg, n, 1, len, depth).value, 1, map[]);
      && CountsTo(c, v, len)
      && (forall i :: 1 <= i <= len ==> AtNumber(c.ofIndex(i)) in v && Worth(c, ElementOf(c, cfg, n, i, depth), v[AtNumber(c.ofIndex(i))]))
  {
    hide ValueOf, IsTree, ElementOf, Fold;
    var items := ItemsOf(c, cfg, n, 1, len, depth).value;
    var p := ItemPairs(c, items, 1);
    ItemPairsAre(c, cfg, n, 1, len, depth);
    ItemsFold(c, items, 1, map[]);
    hide ItemsOf, ItemPairs, ItemsMap, AreItems;
    ItemKeysDiffer(c, p);
    FoldAt(map[], p);
    FoldKeys(map[], p);
    forall i | 1 <= i <= len
      ensures AtNumber(c.ofIndex(i)) in Fold(map[], p) && Worth(c, ElementOf(c, cfg, n, i, depth), Fold(map[], p)[AtNumber(c.ofIndex(i))])
    {
      assert p[i - 1].0 == AtNumber(c.ofIndex(1 + (i - 1)));
    }
  }

  /** The entry's key is in the table, with its value if and only if that is faithful. */
  ghost predicate Agrees<N>(c: Codec<N>, v: map<Key<N>, Value<N>>, e: Entry<N>)
    requires !e.key.OtherKey? && IsLua(e.value)
  {
    LuaKey(e.key) in v && (v[LuaKey(e.key)] == Meaning(e.value) <==> Faithful(c, e.value))
  }

  lemma ArrayAgrees<N(!new)>(c: Codec<N>, cfg: Config, n: Node<N>, len: nat, depth: nat, v: map<Key<N>, Value<N>>, j: nat)
    requires GoodCodec(c) && n.TableNode? && IsLua(n) && ArrayLength(c, cfg, n.entries) == Ok(Some(len)) && j < |n.entries|
    requires forall i :: 1 <= i <= len ==> AtNumber(c.ofIndex(i)) in v && Worth(c, ElementOf(c, cfg, n, i, depth), v[AtNumber(c.ofIndex(i))])
    requires TreeOf(c, cfg, n.entries[j].value, depth).Ok? ==> SameWhenFaithful(c, cfg, n.entries[j].value, depth)
    ensures Agrees(c, v, n.entries[j])
  {
    hide ValueOf, Meaning, TreeOf, Faithful;
    var entries := n.entries;
    var i := IndexOf(c, entries[j].key);
    EntryAtIndex(c, entries, j);
    IndexKey(c, entries[j].key);
    hide GoodCodec;
    assert ElementOf(c, cfg, n, i, depth) == TreeOf(c, cfg, entries[j].value, depth);
    assert Worth(c, ElementOf(c, cfg, n, i, depth), v[AtNumber(c.ofIndex(i))]);
  }

  lemma TableAt<N>(entries: seq<Entry<N>>)
    requires IsLua(TableNode(entries))
    ensures Meaning(TableNode(entries)).Table?
    ensures var m := Meaning(TableNode(entries)).m;
      && EntryKeysOnly(m, entries)
      && (forall j :: 0 <= j < |entries| ==> LuaKey(entries[j].key) in m && m[LuaKey(entries[j].key)] == Meaning(entries[j].value))
  {
    MeaningOfTable(entries);
    hide Meaning, Fold;
    var e := EntryPairs(entries);
    FoldAt(map[], e);
    FoldKeys(map[], e);
    forall j | 0 <= j < |entries|
      ensures LuaKey(entries[j].key) in Fold(map[], e) && Fold(map[], e)[LuaKey(entries[j].key)] == Meaning(entries[j].value)
    {
      assert e[j] == (LuaKey(entries[j].key), Meaning(entries[j].value));
    }
  }

  ghost predicate AllAgree<N>(c: Codec<N>, v: map<Key<N>, Value<N>>, entries: seq<Entry<N>>)
    requires IsLua(TableNode(entries))
  {
    forall j :: 0 <= j < |entries| ==> Agrees(c, v, entries[j])
  }

  /** The keys of the table are 1 to `len`. */
  ghost predicate CountsTo<N>(c: Codec<N>, v: map<Key<N>, Value<N>>, len: nat) {
    && (forall k :: k in v ==> exists i :: 1 <= i <= len && k == AtNumber(c.ofIndex(i)))
    && (forall i :: 1 <= i <= len ==> AtNumber(c.ofIndex(i)) in v)
  }

  ghost predicate EntryKeysOnly<N>(v: map<Key<N>, Value<N>>, entries: seq<Entry<N>>)
    requires IsLua(TableNode(entries))
  {
    forall k :: k in v ==> exists j :: 0 <= j < |entries| && k == LuaKey(entries[j].key)
  }

  lemma ArrayMeans<N(!new)>(c: Codec<N>, cfg: Config, n: Node<N>, len: nat, depth: nat)
    requires GoodCodec(c) && n.TableNode? && IsLua(n) && ArrayLength(c, cfg, n.entries) == Ok(Some(len)) && len > 0
    requires ItemsOf(c, cfg, n, 1, len, depth).Ok? && AreItems(ItemsOf(c, cfg, n, 1, len, depth).value)
    requires forall j :: 0 <= j < |n.entries| && TreeOf(c, cfg, n.entries[j].value, depth).Ok? ==> SameWhenFaithful(c, cfg, n.entries[j].value, depth)
    ensures Table(ItemsMap(c, ItemsOf(c, cfg, n, 1, len, depth).value, 1, map[])) == Meaning(n) <==> Faithful(c, n)
  {
    hide ValueOf, Meaning, ItemsOf, AreItems, TreeOf, GoodCodec, ItemsMap, SameWhenFaithful, Faithful, Agrees, MaxIndex, CountsTo;
    var v := ItemsMap(c, ItemsOf(c, cfg, n, 1, len, depth).value, 1, map[]);
    ArrayPairs(c, cfg, n, len, depth);
    assert n == TableNode(n.entries);
    forall j | 0 <= j < |n.entries| ensures Agrees(c, v, n.entries[j]) {
      ArrayAgrees(c, cfg, n, len, depth, v, j);
    }
    hide Worth, IsLua, CountsTo;
    assert AllAgree(c, v, n.entries);
    hide AllAgree;
    ArrayEqual(c, n.entries, v);
  }

  /** A table with the entries' keys and the right value for each faithful entry. */
  lemma AgreeingTables<N>(c: Codec<N>, entries: seq<Entry<N>>, v: map<Key<N>, Value<N>>)
    requires IsLua(TableNode(entries)) && AllAgree(c, v, entries) && EntryKeysOnly(v, entries)
    ensures Table(v) == Meaning(TableNode(entries)) <==> forall j :: 0 <= j < |entries| ==> Faithful(c, entries[j].value)
  {
    hide Meaning, AllAgree;
    assert forall j :: 0 <= j < |entries| ==> !entries[j].key.OtherKey? && IsLua(entries[j].value);
    hide IsLua;
    TableAt(entries);
    var m := Meaning(TableNode(entries)).m;
    forall j | 0 <= j < |entries|
      ensures LuaKey(entries[j].key) in v && (v[LuaKey(entries[j].key)] == Meaning(entries[j].value) <==> Faithful(c, entries[j].value))
    {
      AgreesAt(c, v, entries, j);
    }
    if forall j :: 0 <= j < |entries| ==> Faithful(c, entries[j].value) {
      forall k | k in v || k in m ensures k in m && k in v && m[k] == v[k] {
        var j :| 0 <= j < |entries| && k == LuaKey(entries[j].key);
      }
      assert v == m;
    }
  }

  lemma ArrayEqual<N(!new)>(c: Codec<N>, entries: seq<Entry<N>>, v: map<Key<N>, Value<N>>)
    requires GoodCodec(c) && IsLua(TableNode(entries)) && AllIndices(c, entries) && MaxIndex(c, entries) > 0
    requires CountsTo(c, v, MaxIndex(c, entries)) && AllAgree(c, v, entries)
    ensures Table(v) == Meaning(TableNode(entries)) <==> Faithful(c, TableNode(entries))
  {
    hide Meaning, GoodCodec, CountsTo, AllAgree, AllIndices, MaxIndex, IsLua, EntryKeysOnly;
    NotAllNames(c, entries);
    TableAt(entries);
    if v == Meaning(TableNode(entries)).m {
      NoHoles(c, entries, v);
      AgreeingTables(c, entries, v);
    }
    if Faithful(c, TableNode(entries)) {
      assert Dense(c, entries);
      KeysWithoutHoles(c, entries, v);
      AgreeingTables(c, entries, v);
    }
  }

  lemma AgreesAt<N>(c: Codec<N>, v: map<Key<N>, Value<N>>, entries: seq<Entry<N>>, j: nat)
    requires IsLua(TableNode(entries)) && AllAgree(c, v, entries) && j < |entries|
    ensures !entries[j].key.OtherKey? && IsLua(entries[j].value)
    ensures LuaKey(entries[j].key) in v && (v[LuaKey(entries[j].key)] == Meaning(entries[j].value) <==> Faithful(c, entries[j].value))
  {
    assert Agrees(c, v, entries[j]);
    hide Meaning, Faithful;
  }

  lemma NoHoles<N(!new)>(c: Codec<N>, entries: seq<Entry<N>>, v: map<Key<N>, Value<N>>)
    requires GoodCodec(c) && IsLua(TableNode(entries))
    requires CountsTo(c, v, MaxIndex(c, entries)) && EntryKeysOnly(v, entries)
    ensures forall i :: 1 <= i <= MaxIndex(c, entries) ==> ValueAt(c, entries, i).Some?
  {
    hide GoodCodec, MaxIndex;
    forall i | 1 <= i <= MaxIndex(c, entries) ensures ValueAt(c, entries, i).Some? {
      assert AtNumber(c.ofIndex(i)) in v;
      var j :| 0 <= j < |entries| && AtNumber(c.ofIndex(i)) == LuaKey(entries[j].key);
      IndexOfBack(c, i);
      assert IndexOf(c, entries[j].key) == i;
    }
  }

  lemma KeysWithoutHoles<N(!new)>(c: Codec<N>, entries: seq<Entry<N>>, v: map<Key<N>, Value<N>>)
    requires GoodCodec(c) && IsLua(TableNode(entries)) && Dense(c, entries) && CountsTo(c, v, MaxIndex(c, entries))
    ensures EntryKeysOnly(v, entries)
  {
    hide GoodCodec, MaxIndex;
    forall k | k in v ensures exists j :: 0 <= j < |entries| && k == LuaKey(entries[j].key) {
      var i :| 1 <= i <= MaxIndex(c, entries) && k == AtNumber(c.ofIndex(i));
      assert ValueAt(c, entries, i).Some?;
      var j :| 0 <= j < |entries| && IndexOf(c, entries[j].key) == i;
      IndexKey(c, entries[j].key);
    }
  }

  lemma IndexOfBack<N(!new)>(c: Codec<N>, i: nat)
    requires GoodCodec(c) && i >= 1
    ensures c.index(c.ofIndex(i)) == i
  {
  }

  lemma NotAllNames<N>(c: Codec<N>, entries: seq<Entry<N>>)
    requires AllIndices(c, entries) && MaxIndex(c, entries) > 0
    ensures !AllNames(entries) && entries != []
  {
    var i :| 0 <= i < |entries| && IndexOf(c, entries[i].key) == MaxIndex(c, entries);
  }

  // ----- objects ------------------------------------------------------------

  lemma ObjectMeans<N(!new)>(c: Codec<N>, cfg: Config, n: Node<N>, depth: nat)
    requires n.TableNode? && IsLua(n) && !Dense(c, n.entries)
    requires MembersOf(c, cfg, n, 0, depth).Ok? && AreMembers(MembersOf(c, cfg, n, 0, depth).value)
    requires forall j :: 0 <= j < |n.entries| && TreeOf(c, cfg, n.entries[j].value, depth).Ok? ==> SameWhenFaithful(c, cfg, n.entries[j].value, depth)
    ensures Table(MembersMap(c, MembersOf(c, cfg, n, 0, depth).value, map[])) == Meaning(n) <==> Faithful(c, n)
  {
    hide ValueOf, Meaning, TreeOf, Dense, MembersOf, AreMembers, MembersMap, MemberPairs, MemberPair, Fold, IsLua, SameWhenFaithful, EntryKeysOnly;
    var entries := n.entries;
    var members := MembersOf(c, cfg, n, 0, depth).value;
    MemberPairsAre(c, cfg, n, 0, depth);
    MembersFold(c, members, map[]);
    var p := MemberPairs(c, members);
    assert n == TableNode(entries);
    forall j | 0 <= j < |entries| ensures MemberPair(c, cfg, entries[j], depth, p[j]) {
      assert MemberPair(c, cfg, entries[0 + j], depth, p[j]);
    }
    if AllNames(entries) {
      forall j | 0 <= j < |entries| ensures p[j].0 == AtName(entries[j].key.s) && SameOrNotOk(c, cfg, entries[j].value, depth) {
        assert MemberPair(c, cfg, entries[j], depth, p[j]);
        NamePair(c, cfg, entries[j], depth, p[j]);
        IsLuaAt(entries, j);
      }
      NamesMean(c, cfg, entries, depth, p);
    } else {
      var j :| 0 <= j < |entries| && !entries[j].key.StrKey?;
      NumberKeyLost(c, cfg, entries, depth, p, j);
    }
  }

  ghost predicate SameOrNotOk<N>(c: Codec<N>, cfg: Config, n: Node<N>, depth: nat) {
    IsLua(n) && (TreeOf(c, cfg, n, depth).Ok? ==> SameWhenFaithful(c, cfg, n, depth))
  }

  lemma IsLuaAt<N>(entries: seq<Entry<N>>, j: nat)
    requires IsLua(TableNode(entries)) && j < |entries|
    ensures !entries[j].key.OtherKey? && IsLua(entries[j].value)
  {
  }

  lemma NamePair<N>(c: Codec<N>, cfg: Config, e: Entry<N>, depth: nat, p: (Key<N>, Value<N>))
    requires MemberPair(c, cfg, e, depth, p)
    ensures e.key.StrKey? ==> p.0 == AtName(e.key.s)
    ensures p.0.AtName? && Worth(c, TreeOf(c, cfg, e.value, depth), p.1)
  {
    hide Worth, TreeOf;
  }

  /** An object with string keys only. */
  lemma NamesMean<N>(c: Codec<N>, cfg: Config, entries: seq<Entry<N>>, depth: nat, p: seq<(Key<N>, Value<N>)>)
    requires IsLua(TableNode(entries)) && AllNames(entries) && |p| == |entries|
    requires forall j :: 0 <= j < |p| ==> MemberPair(c, cfg, entries[j], depth, p[j])
    requires forall j :: 0 <= j < |p| ==> p[j].0 == AtName(entries[j].key.s) && SameOrNotOk(c, cfg, entries[j].value, depth)
    ensures Table(Fold(map[], p)) == Meaning(TableNode(entries)) <==> Faithful(c, TableNode(entries))
  {
    hide ValueOf, Meaning, TreeOf, MemberPair, Fold, SameOrNotOk, Dense;
    var v := Fold(map[], p);
    FoldKeys(map[], p);
    FoldAt(map[], p);
    forall j | 0 <= j < |entries| ensures Agrees(c, v, entries[j]) {
      hide Faithful;
      assert MemberPair(c, cfg, entries[j], depth, p[j]) && SameOrNotOk(c, cfg, entries[j].value, depth);
      assert p[j].0 in v && v[p[j].0] == p[j].1;
      NameAgrees(c, cfg, entries[j], depth, p[j]);
    }
    assert EntryKeysOnly(v, entries) by {
      forall k | k in v ensures exists j :: 0 <= j < |entries| && k == LuaKey(entries[j].key) {
        var j :| 0 <= j < |p| && p[j].0 == k;
        assert k == LuaKey(entries[j].key);
      }
    }
    AgreeingTables(c, entries, v);
  }

  lemma NameAgrees<N>(c: Codec<N>, cfg: Config, e: Entry<N>, depth: nat, p: (Key<N>, Value<N>))
    requires MemberPair(c, cfg, e, depth, p) && SameOrNotOk(c, cfg, e.value, depth)
    ensures p.1 == Meaning(e.value) <==> Faithful(c, e.value)
  {
    hide ValueOf, Meaning, Faithful;
  }

  /** A number key comes back as a string: the table is another one. */
  lemma NumberKeyLost<N>(c: Codec<N>, cfg: Config, entries: seq<Entry<N>>, depth: nat, p: seq<(Key<N>, Value<N>)>, j: nat)
    requires IsLua(TableNode(entries)) && !Dense(c, entries) && |p| == |entries| && j < |entries| && !entries[j].key.StrKey?
    requires forall j :: 0 <= j < |p| ==> MemberPair(c, cfg, entries[j], depth, p[j])
    ensures Table(Fold(map[], p)) != Meaning(TableNode(entries)) && !Faithful(c, TableNode(entries))
  {
    hide ValueOf, Meaning, TreeOf, MemberPair, Fold, Dense;
    assert !Faithful(c, TableNode(entries));
    hide Faithful;
    var v := Fold(map[], p);
    FoldKeys(map[], p);
    TableAt(entries);
    IsLuaAt(entries, j);
    hide IsLua;
    var k := LuaKey(entries[j].key);
    if k in v {
      var i :| 0 <= i < |p| && p[i].0 == k;
      assert MemberPair(c, cfg, entries[i], depth, p[i]);
      NamePair(c, cfg, entries[i], depth, p[i]);
    }
  }

  // ----- dense arrays are never too sparse ----------------------------------

  function IndexSet<N>(c: Codec<N>, entries: seq<Entry<N>>): (s: set<nat>)
    ensures |s| <= |entries|
    ensures forall j :: 0 <= j < |entries| ==> IndexOf(c, entries[j].key) in s
  {
    if entries == [] then {} else IndexSet(c, entries[..|entries| - 1]) + {IndexOf(c, entries[|entries| - 1].key)}
  }

  lemma {:induction false} CountedSet(s: set<nat>, n: nat)
    requires forall i :: 1 <= i <= n ==> i in s
    ensures n <= |s|
  {
    if n > 0 {
      CountedSet(s - {n}, n - 1);
    }
  }

  lemma TimesAtLeast(a: nat, b: nat)
    requires b > 0
    ensures a * b >= a
  {
  }

  lemma DenseIsArray<N>(c: Codec<N>, cfg: Config, entries: seq<Entry<N>>)
    requires Dense(c, entries)
    ensures MaxIndex(c, entries) > 0 && ArrayLength(c, cfg, entries) == Ok(Some(MaxIndex(c, entries)))
  {
    var s := IndexSet(c, entries);
    var max := MaxIndex(c, entries);
    assert IndexOf(c, entries[0].key) >= 1;
    forall i: nat | 1 <= i <= max ensures i in s {
      assert ValueAt(c, entries, i).Some?;
    }
    CountedSet(s, max);
    if cfg.sparseRatio > 0 { TimesAtLeast(|entries|, cfg.sparseRatio); }
  }

  // ----- the round trip -----------------------------------------------------

  /** The tree that is written stands for the value if and only if JSON can hold the value. */
  lemma {:induction false} TreeMeans<N(!new)>(c: Codec<N>, cfg: Config, n: Node<N>, depth: nat)
    requires GoodCodec(c) && IsLua(n) && depth <= cfg.maxDepth && TreeOf(c, cfg, n, depth).Ok?
    ensures SameWhenFaithful(c, cfg, n, depth)
    decreases n
  {
    hide GoodCodec;
    TreeIsWritten(c, cfg, true, n, depth);
    if n.TableNode? {
      forall j | 0 <= j < |n.entries| && depth + 1 <= cfg.maxDepth && TreeOf(c, cfg, n.entries[j].value, depth + 1).Ok?
        ensures SameWhenFaithful(c, cfg, n.entries[j].value, depth + 1)
      {
        IsLuaAt(n.entries, j);
        TreeMeans(c, cfg, n.entries[j].value, depth + 1);
      }
      hide SameWhenFaithful;
      TableMeans(c, cfg, n, depth);
    }
  }

  lemma TableMeans<N(!new)>(c: Codec<N>, cfg: Config, n: Node<N>, depth: nat)
    requires GoodCodec(c) && IsLua(n) && n.TableNode? && TreeOf(c, cfg, n, depth).Ok? && IsTree(TreeOf(c, cfg, n, depth).value)
    requires forall j :: 0 <= j < |n.entries| && TreeOf(c, cfg, n.entries[j].value, depth + 1).Ok? ==> SameWhenFaithful(c, cfg, n.entries[j].value, depth + 1)
    ensures SameWhenFaithful(c, cfg, n, depth)
  {
    hide GoodCodec, Meaning, Faithful, IsLua, ItemsMap, MembersMap, AreItems, AreMembers, Dense, ArrayLength, ItemsOf, MembersOf;
    var len := ArrayLength(c, cfg, n.entries).value;
    if len.Some? && len.value > 0 {
      ArrayMeans(c, cfg, n, len.value, depth + 1);
    } else if len.Some? {
      EmptyMeans(c, cfg, n);
    } else {
      if Dense(c, n.entries) { DenseIsArray(c, cfg, n.entries); }
      ObjectMeans(c, cfg, n, depth + 1);
    }
  }

  lemma EmptyMeans<N>(c: Codec<N>, cfg: Config, n: Node<N>)
    requires n.TableNode? && IsLua(n) && ArrayLength(c, cfg, n.entries) == Ok(Some(0))
    ensures Meaning(n) == Table(map[]) && Faithful(c, n) && MembersMap(c, NoMember, map[]) == map[]
  {
    if n.entries != [] { NoEntryAtZero(c, n.entries); }
  }

  lemma {:induction false} WrittenWithoutNul<N>(c: Codec<N>, lax: bool, t: Tree<N>)
    requires IsWritten(c, lax, t)
    ensures 0 !in Text(t)
    decreases t
  {
    match t
    case Leaf(_, _) =>
    case Arr(items) => ItemsWithoutNul(c, lax, items);
    case Obj(members) => MembersWithoutNul(c, lax, members);
  }

  lemma {:induction false} ItemsWithoutNul<N>(c: Codec<N>, lax: bool, items: Items<N>)
    requires ItemsWritten(c, lax, items)
    ensures 0 !in ItemsText(items)
    decreases items
  {
    if items.Item? {
      WrittenWithoutNul(c, lax, items.head);
      ItemsWithoutNul(c, lax, items.tail);
    }
  }

  lemma {:induction false} MembersWithoutNul<N>(c: Codec<N>, lax: bool, members: Members<N>)
    requires MembersWritten(c, lax, members)
    ensures 0 !in MembersText(members)
    decreases members
  {
    if members.Member? {
      WrittenWithoutNul(c, lax, members.value);
      MembersWithoutNul(c, lax, members.tail);
    }
  }

  lemma {:induction false} WholeCString(s: seq<Byte>)
    requires 0 !in s
    ensures CString(s) == s
  {
    if s != [] {
      WholeCString(s[1..]);
    }
  }

  /** Whatever json_encode writes, json_decode reads, unless it is nested too deep for it. */
  lemma EncodedIsDecoded<N(!new)>(c: Codec<N>, cfg: Config, lax: bool, max: nat, n: Node<N>)
    requires GoodCodec(c) && Encode(c, cfg, n).Ok?
    ensures IsTree(TreeOf(c, cfg, n, 0).value)
    ensures var t := TreeOf(c, cfg, n, 0).value;
      Decode(c, lax, max, Encode(c, cfg, n).value) == if Height(t) <= max then Some(ValueOf(c, t)) else None
  {
    hide GoodCodec, TreeOf, Lex, ParseValue, Yield, Text, IsTree, IsWritten, CString, Height, ValueOf;
    var t := TreeOf(c, cfg, n, 0).value;
    var s := Text(t);
    TreeIsWritten(c, cfg, lax, n, 0);
    WrittenWithoutNul(c, lax, t);
    WholeCString(s);
    TextIsLexed(c, lax, t, []);
    assert s + [] == s;
    LexOfNothing(c, lax);
    TreeIsParsed(c, t, Cons(End, Nil), 0, max);
  }

  lemma LexOfNothing<N>(c: Codec<N>, lax: bool)
    ensures Lex(c, lax, []) == Cons(Token<N>.End, Nil)
  {
  }

  /** Encoding and decoding gives the value back if and only if JSON can hold it. */
  lemma RoundTrip<N(!new)>(c: Codec<N>, cfg: Config, lax: bool, max: nat, n: Node<N>)
    requires GoodCodec(c) && IsLua(n) && Encode(c, cfg, n).Ok? && cfg.maxDepth <= max
    ensures Decode(c, lax, max, Encode(c, cfg, n).value).Some?
    ensures Decode(c, lax, max, Encode(c, cfg, n).value) == Some(Meaning(n)) <==> Faithful(c, n)
  {
    EncodedIsDecoded(c, cfg, lax, max, n);
    TreeIsWritten(c, cfg, lax, n, 0);
    TreeMeans(c, cfg, n, 0);
    hide GoodCodec, TreeOf, IsTree, IsWritten, Height, ValueOf, Decode, IsLua, Meaning, Faithful;
  }

  // ----- what is encoded at all ---------------------------------------------

  ghost predicate FitsIn<N>(r: Result<Tree<N>>, h: nat) {
    r.Ok? && Height(r.value) <= h
  }

  lemma {:induction false} ItemsFit<N>(c: Codec<N>, cfg: Config, n: Node<N>, i: nat, len: nat, depth: nat, h: nat)
    requires n.TableNode? && forall j :: i <= j <= len ==> FitsIn(ElementOf(c, cfg, n, j, depth), h)
    ensures var r := ItemsOf(c, cfg, n, i, len, depth); r.Ok? && HeightOfItems(r.value) <= h
    decreases len + 1 - i
  {
    hide ElementOf, Height;
    if i <= len {
      assert FitsIn(ElementOf(c, cfg, n, i, depth), h);
      ItemsFit(c, cfg, n, i + 1, len, depth, h);
    }
  }

  lemma {:induction false} MembersFit<N>(c: Codec<N>, cfg: Config, n: Node<N>, i: nat, depth: nat, h: nat)
    requires n.TableNode? && forall j :: i <= j < |n.entries| ==> n.entries[j].key.StrKey? && FitsIn(TreeOf(c, cfg, n.entries[j].value, depth), h)
    ensures var r := MembersOf(c, cfg, n, i, depth); r.Ok? && HeightOfMembers(r.value) <= h
    decreases |n.entries| - i
  {
    hide TreeOf, Height;
    if i < |n.entries| {
      assert FitsIn(TreeOf(c, cfg, n.entries[i].value, depth), h);
      MembersFit(c, cfg, n, i + 1, depth, h);
    }
  }

  /** Every value that JSON can hold is encoded, when its numbers are finite and it is not nested too deep. */
  lemma {:induction false} FaithfulIsEncoded<N>(c: Codec<N>, cfg: Config, n: Node<N>, depth: nat, h: nat)
    requires IsLua(n) && Faithful(c, n) && FiniteNumbers(c, n) && NestedAtMost(n, h) && depth + h <= cfg.maxDepth
    ensures FitsIn(TreeOf(c, cfg, n, depth), h)
    decreases n
  {
    if n.TableNode? {
      forall j | 0 <= j < |n.entries| ensures FitsIn(TreeOf(c, cfg, n.entries[j].value, depth + 1), h - 1) {
        FaithfulIsEncoded(c, cfg, n.entries[j].value, depth + 1, h - 1);
      }
      hide FitsIn;
      TableIsEncoded(c, cfg, n, depth, h);
    }
  }

  lemma TableIsEncoded<N>(c: Codec<N>, cfg: Config, n: Node<N>, depth: nat, h: nat)
    requires n.TableNode? && (AllNames(n.entries) || Dense(c, n.entries)) && 0 < h && depth + h <= cfg.maxDepth
    requires forall j :: 0 <= j < |n.entries| ==> FitsIn(TreeOf(c, cfg, n.entries[j].value, depth + 1), h - 1)
    ensures FitsIn(TreeOf(c, cfg, n, depth), h)
  {
    hide ItemsOf, MembersOf, IsLua;
    if Dense(c, n.entries) {
      var len := MaxIndex(c, n.entries);
      DenseIsArray(c, cfg, n.entries);
      var d := depth + 1;
      forall i: nat | 1 <= i <= len ensures FitsIn(ElementOf(c, cfg, n, i, d), h - 1) {
        ElementFits(c, cfg, n, i, d, h - 1);
      }
      hide Dense, ArrayLength, FitsIn, ElementOf;
      ItemsFit(c, cfg, n, 1, len, depth + 1, h - 1);
      ArrayTree(c, cfg, n, len, depth, h);
    } else {
      hide FitsIn;
      MembersFit(c, cfg, n, 0, depth + 1, h - 1);
      ObjectTree(c, cfg, n, depth, h);
    }
  }

  lemma ElementFits<N>(c: Codec<N>, cfg: Config, n: Node<N>, i: nat, depth: nat, h: nat)
    requires n.TableNode? && ValueAt(c, n.entries, i).Some?
    requires forall j :: 0 <= j < |n.entries| ==> FitsIn(TreeOf(c, cfg, n.entries[j].value, depth), h)
    ensures FitsIn(ElementOf(c, cfg, n, i, depth), h)
  {
    hide FitsIn, TreeOf;
    var j :| 0 <= j < |n.entries| && ValueAt(c, n.entries, i).value == n.entries[j].value;
  }

  lemma ArrayTree<N>(c: Codec<N>, cfg: Config, n: Node<N>, len: nat, depth: nat, h: nat)
    requires n.TableNode? && ArrayLength(c, cfg, n.entries) == Ok(Some(len)) && len > 0 && h > 0 && depth + 1 <= cfg.maxDepth
    requires var r := ItemsOf(c, cfg, n, 1, len, depth + 1); r.Ok? && HeightOfItems(r.value) <= h - 1
    ensures FitsIn(TreeOf(c, cfg, n, depth), h)
  {
    hide ItemsOf, ArrayLength;
  }

  lemma ObjectTree<N>(c: Codec<N>, cfg: Config, n: Node<N>, depth: nat, h: nat)
    requires n.TableNode? && AllNames(n.entries) && h > 0 && depth + 1 <= cfg.maxDepth
    requires var r := MembersOf(c, cfg, n, 0, depth + 1); r.Ok? && HeightOfMembers(r.value) <= h - 1
    ensures FitsIn(TreeOf(c, cfg, n, depth), h)
  {
    hide MembersOf;
    if n.entries != [] { assert IndexOf(c, n.entries[0].key) == 0; }
  }

  /** The law of the library: for every value that JSON can hold, with finite numbers and within both
      depth limits, encoding succeeds and decoding gives the value back, in whatever order its
      tables list their entries. */
  lemma DecodeUndoesEncode<N(!new)>(c: Codec<N>, cfg: Config, lax: bool, max: nat, n: Node<N>, h: nat)
    requires GoodCodec(c) && IsLua(n) && Faithful(c, n) && FiniteNumbers(c, n) && NestedAtMost(n, h)
    requires h <= cfg.maxDepth && h <= max
    ensures Encode(c, cfg, n).Ok? && Decode(c, lax, max, Encode(c, cfg, n).value) == Some(Meaning(n))
  {
    FaithfulIsEncoded(c, cfg, n, 0, h);
    EncodedIsDecoded(c, cfg, lax, max, n);
    TreeMeans(c, cfg, n, 0);
    hide GoodCodec, TreeOf, IsTree, Height, ValueOf, Decode, IsLua, Meaning, Faithful, Text;
  }

  // ----- a number library that meets the assumptions -------------------------

  const DigitCodec: Codec<nat> := Codec(
    (x: nat) => [0x30 + x % 10],
    (s: seq<Byte>) => if s != [] && IsDigit(s[0]) then Some(((s[0] - 0x30) as nat, 1)) else None,
    (x: nat) => x < 10,
    (x: nat) => x,
    (i: nat) => i)

  /** One-digit numbers are a number library as assumed, and every one of them survives. */
  lemma DigitsAreGood()
    ensures GoodCodec(DigitCodec) && forall x :: x < 10 ==> Faithful(DigitCodec, NumNode(x))
  {
    var c := DigitCodec;
    forall x: nat | c.finite(x) ensures TextOf(c, x) && Reread(c, x) == x {
      assert c.format(x) == [0x30 + x];
      forall rest: seq<Byte> | Delimits(rest)
        ensures !IsInvalidNumber(c.format(x) + rest) && c.scan(c.format(x) + rest) == Some((x, 1))
      {
        var s := c.format(x) + rest;
        assert s[0] == 0x30 + x && (rest != [] ==> s[1] == rest[0]);
      }
    }
  }
}
