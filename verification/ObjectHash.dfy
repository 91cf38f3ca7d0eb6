/**
The streamed object-hash representation of a configuration: one pass over the tokens, writing into
a bounded sink, against the plain recursive text of the tree.  Trimming and number formatting
are parameters.
 */
module ObjectHash {
  import opened Wrappers
  import opened JsonTree

  const MAX_DEPTH: nat := 64
  const MAX_TOKENS: nat := 65_536
  const MAX_OUTPUT: nat := 0x20_0000

  datatype Format = Format(trim: string -> string, number: string -> string)

  // ---------- The text of a tree ----------

  function Stringify(f: Format, v: Json): string {
    match v
    case Null => ""
    case Bool(b) => if b then "1" else "0"
    case Number(n) => f.number(n)
    case Text(t) => f.trim(t)
    case Arr(items) => "[" + ItemsText(f, items, true) + "]"
    case Obj(members) => "{" + MembersText(f, members, true) + "}"
  }

  function Comma(first: bool): string {
    if first then "" else ","
  }

  function ItemsText(f: Format, items: seq<Json>, first: bool): string {
    if items == [] then "" else Comma(first) + Stringify(f, items[0]) + ItemsText(f, items[1..], false)
  }

  function MembersText(f: Format, members: seq<Member>, first: bool): string {
    if members == [] then "" else PairText(f, members[0], first) + MembersText(f, members[1..], false)
  }

  function PairText(f: Format, m: Member, first: bool): string {
    Comma(first) + (m.key + ":") + Stringify(f, m.value)
  }

  /** How deep containers nest. */
  function Height(v: Json): nat {
    match v
    case Arr(items) => 1 + ItemsHeight(items)
    case Obj(members) => 1 + MembersHeight(members)
    case _ => 0
  }

  function Max(a: nat, b: nat): nat {
    if a < b then b else a
  }

  function ItemsHeight(items: seq<Json>): nat {
    if items == [] then 0 else Max(Height(items[0]), ItemsHeight(items[1..]))
  }

  function MembersHeight(members: seq<Member>): nat {
    if members == [] then 0 else Max(Height(members[0].value), MembersHeight(members[1..]))
  }

  // ---------- The pass ----------

  /** Whether the pass goes on, how far it has read, how many tokens it counted and what it has written. */
  datatype Pass = Pass(ok: bool, pos: nat, tokens: nat, out: string)

  function Put(s: Pass, text: string): (r: Pass)
    ensures r.pos == s.pos
  {
    if !s.ok then s
    else if |s.out| + |text| > MAX_OUTPUT then s.(ok := false)
    else s.(out := s.out + text)
  }

  /** A comma, unless nothing came before. */
  function Separate(s: Pass, first: bool): (r: Pass)
    ensures r.pos == s.pos
  {
    if first then s else Put(s, ",")
  }

  function Take(stream: seq<Token>, s: Pass, fits: bool): (r: Pass)
    ensures r.ok ==> s.ok && s.pos < |stream| && fits && r.pos == s.pos + 1
  {
    if !s.ok then s
    else if s.pos >= |stream| || !fits then s.(ok := false)
    else if s.tokens + 1 > MAX_TOKENS then Pass(false, s.pos + 1, s.tokens + 1, s.out)
    else Pass(true, s.pos + 1, s.tokens + 1, s.out)
  }

  function PassValue(f: Format, stream: seq<Token>, s: Pass, depth: nat): (r: Pass)
    ensures r.ok ==> s.ok && s.pos < r.pos <= |stream|
    decreases |stream| - s.pos, 0, 0
  {
    var t := Take(stream, s, s.pos < |stream| && StartsValue(stream[s.pos]));
    if !t.ok then t
    else
      match stream[s.pos]
      case OpenObject =>
        if depth >= MAX_DEPTH then t.(ok := false) else PassMembers(f, stream, Put(t, "{"), depth + 1, true)
      case OpenArray =>
        if depth >= MAX_DEPTH then t.(ok := false) else PassItems(f, stream, Put(t, "["), depth + 1, true)
      case TextToken(text) => Put(t, f.trim(text))
      case NumberToken(n) => Put(t, f.number(n))
      case BoolToken(b) => Put(t, if b then "1" else "0")
      case _ => t
  }

  function PassMembers(f: Format, stream: seq<Token>, s: Pass, depth: nat, first: bool): (r: Pass)
    ensures r.ok ==> s.ok && s.pos < r.pos <= |stream|
    decreases |stream| - s.pos, 1
  {
    if !s.ok then s
    else if s.pos >= |stream| || IsClose(stream[s.pos]) then
      Put(Take(stream, s, s.pos < |stream| && stream[s.pos].CloseObject?), "}")
    else
      var pair := PassPair(f, stream, s, depth, first);
      if !pair.ok then pair else PassMembers(f, stream, pair, depth, false)
  }

  function PassPair(f: Format, stream: seq<Token>, s: Pass, depth: nat, first: bool): (r: Pass)
    requires s.pos < |stream|
    ensures r.ok ==> s.ok && s.pos < r.pos <= |stream|
    decreases |stream| - s.pos, 0, 1
  {
    var named := Take(stream, s, stream[s.pos].TextToken?);
    if !named.ok then named
    else
      var key := stream[s.pos].text;
      var labelled := Labelled(named, first, key);
      if !labelled.ok then labelled else PassValue(f, stream, labelled, depth)
  }

  function Labelled(s: Pass, first: bool, key: string): (r: Pass)
    ensures r.pos == s.pos
  {
    Put(Put(Separate(s, first), key), ":")
  }

  function PassItems(f: Format, stream: seq<Token>, s: Pass, depth: nat, first: bool): (r: Pass)
    ensures r.ok ==> s.ok && s.pos < r.pos <= |stream|
    decreases |stream| - s.pos, 1
  {
    if !s.ok then s
    else if s.pos >= |stream| || IsClose(stream[s.pos]) then
      Put(Take(stream, s, s.pos < |stream| && stream[s.pos].CloseArray?), "]")
    else
      var item := PassItem(f, stream, s, depth, first);
      if !item.ok then item else PassItems(f, stream, item, depth, false)
  }

  function PassItem(f: Format, stream: seq<Token>, s: Pass, depth: nat, first: bool): (r: Pass)
    ensures r.ok ==> s.ok && s.pos < r.pos <= |stream|
    decreases |stream| - s.pos, 0, 1
  {
    PassValue(f, stream, Separate(s, first), depth)
  }

  // ---------- The pass over a tree ----------

  /** The pass may go on from here. */
  predicate Running(s: Pass) {
    s.ok && s.tokens <= MAX_TOKENS && |s.out| <= MAX_OUTPUT
  }

  /**
  From s, the pass reads this many tokens and writes this text, if the condition holds and the
  budgets allow; otherwise it stops with a prefix of the text written.
   */
  ghost predicate Yields(r: Pass, s: Pass, length: nat, text: string, condition: bool) {
    && (r.ok <==> condition && s.tokens + length <= MAX_TOKENS && |s.out| + |text| <= MAX_OUTPUT)
    && (r.ok ==> r == Pass(true, s.pos + length, s.tokens + length, s.out + text))
    && s.out <= r.out <= s.out + text
  }

  lemma {:induction false} Then(s: Pass, a: Pass, l1: nat, t1: string, c1: bool, b: Pass, l2: nat, t2: string, c2: bool)
    requires s.ok && Yields(a, s, l1, t1, c1)
    requires if a.ok then Yields(b, a, l2, t2, c2) else b == a
    ensures Yields(b, s, l1 + l2, t1 + t2, c1 && c2)
  {
    assert s.out + t1 + t2 == s.out + (t1 + t2);
  }

  lemma {:induction false} PutYields(s: Pass, text: string)
    requires s.ok && s.tokens <= MAX_TOKENS
    ensures Yields(Put(s, text), s, 0, text, true)
  {
  }

  lemma {:induction false} SeparateYields(s: Pass, first: bool)
    requires Running(s)
    ensures Yields(Separate(s, first), s, 0, Comma(first), true)
  {
    if first {
      assert s.out + "" == s.out;
    } else {
      PutYields(s, ",");
    }
  }

  lemma {:induction false} TakeYields(stream: seq<Token>, s: Pass)
    requires s.ok && s.pos < |stream| && |s.out| <= MAX_OUTPUT
    ensures Yields(Take(stream, s, true), s, 1, "", true)
  {
  }

  /** One token, and one write for it. */
  lemma {:induction false} BracketYields(stream: seq<Token>, s: Pass, bracket: string)
    requires Running(s) && s.pos < |stream|
    ensures Yields(Put(Take(stream, s, true), bracket), s, 1, bracket, true)
  {
    var t := Take(stream, s, true);
    TakeYields(stream, s);
    if t.ok {
      PutYields(t, bracket);
    }
    Then(s, t, 1, "", true, Put(t, bracket), 0, bracket, true);
    assert "" + bracket == bracket;
  }

  /** Over a tree, the pass writes its text within the budgets, or a prefix of it. */
  lemma {:induction false} PassTree(f: Format, stream: seq<Token>, s: Pass, depth: nat, v: Json)
    requires Running(s) && depth <= MAX_DEPTH && JsonTree.At(stream, s.pos, Tokens(v))
    ensures Yields(PassValue(f, stream, s, depth), s, |Tokens(v)|, Stringify(f, v), depth + Height(v) <= MAX_DEPTH)
    decreases v, 0
  {
    assert stream[s.pos] == Tokens(v)[0];
    var t := Take(stream, s, true);
    match v {
      case Arr(items) =>
        AtThree(stream, s.pos, [OpenArray], ItemTokens(items), [CloseArray]);
        PassArray(f, stream, s, depth, items);
      case Obj(members) =>
        AtThree(stream, s.pos, [OpenObject], MemberTokens(members), [CloseObject]);
        PassObject(f, stream, s, depth, members);
      case _ =>
        BracketYields(stream, s, Stringify(f, v));
        assert Put(t, "") == t by { assert t.out + "" == t.out; }
    }
  }

  lemma {:induction false} PassArray(f: Format, stream: seq<Token>, s: Pass, depth: nat, items: seq<Json>)
    requires Running(s) && depth <= MAX_DEPTH && s.pos < |stream| && stream[s.pos] == OpenArray
    requires JsonTree.At(stream, s.pos + 1, ItemTokens(items) + [CloseArray])
    ensures Yields(PassValue(f, stream, s, depth), s, |Tokens(Arr(items))|, Stringify(f, Arr(items)), depth + Height(Arr(items)) <= MAX_DEPTH)
    decreases items, 1
  {
    if depth < MAX_DEPTH {
      var a := Put(Take(stream, s, true), "[");
      BracketYields(stream, s, "[");
      var b := PassItems(f, stream, a, depth + 1, true);
      if a.ok {
        PassItemsTree(f, stream, a, depth + 1, true, items);
      }
      Then(s, a, 1, "[", true, b, |ItemTokens(items)| + 1, ItemsText(f, items, true) + "]", depth + 1 + ItemsHeight(items) <= MAX_DEPTH);
      assert "[" + (ItemsText(f, items, true) + "]") == Stringify(f, Arr(items));
    }
  }

  lemma {:induction false} PassObject(f: Format, stream: seq<Token>, s: Pass, depth: nat, members: seq<Member>)
    requires Running(s) && depth <= MAX_DEPTH && s.pos < |stream| && stream[s.pos] == OpenObject
    requires JsonTree.At(stream, s.pos + 1, MemberTokens(members) + [CloseObject])
    ensures Yields(PassValue(f, stream, s, depth), s, |Tokens(Obj(members))|, Stringify(f, Obj(members)), depth + Height(Obj(members)) <= MAX_DEPTH)
    decreases members, 1
  {
    if depth < MAX_DEPTH {
      var a := Put(Take(stream, s, true), "{");
      BracketYields(stream, s, "{");
      var b := PassMembers(f, stream, a, depth + 1, true);
      if a.ok {
        PassMembersTree(f, stream, a, depth + 1, true, members);
      }
      Then(s, a, 1, "{", true, b, |MemberTokens(members)| + 1, MembersText(f, members, true) + "}", depth + 1 + MembersHeight(members) <= MAX_DEPTH);
      assert "{" + (MembersText(f, members, true) + "}") == Stringify(f, Obj(members));
    }
  }

  lemma {:induction false} ItemsUnfold(f: Format, items: seq<Json>, first: bool, depth: nat)
    requires items != []
    ensures ItemsText(f, items, first) + "]" == Comma(first) + Stringify(f, items[0]) + (ItemsText(f, items[1..], false) + "]")
    ensures |ItemTokens(items)| + 1 == |Tokens(items[0])| + (|ItemTokens(items[1..])| + 1)
    ensures depth + ItemsHeight(items) <= MAX_DEPTH <==>
      depth + Height(items[0]) <= MAX_DEPTH && depth + ItemsHeight(items[1..]) <= MAX_DEPTH
  {
  }

  lemma {:induction false} MembersUnfold(f: Format, members: seq<Member>, first: bool, depth: nat)
    requires members != []
    ensures MembersText(f, members, first) + "}" == PairText(f, members[0], first) + (MembersText(f, members[1..], false) + "}")
    ensures |MemberTokens(members)| + 1 == |PairTokens(members[0])| + (|MemberTokens(members[1..])| + 1)
    ensures depth + MembersHeight(members) <= MAX_DEPTH <==>
      depth + Height(members[0].value) <= MAX_DEPTH && depth + MembersHeight(members[1..]) <= MAX_DEPTH
  {
  }

  /** The first item and then the rest are the items. */
  lemma {:induction false} ItemsStep(f: Format, items: seq<Json>, first: bool, depth: nat, s: Pass, b: Pass, c: Pass)
    requires items != [] && s.ok
    requires Yields(b, s, |Tokens(items[0])|, Comma(first) + Stringify(f, items[0]), depth + Height(items[0]) <= MAX_DEPTH)
    requires if b.ok
      then Yields(c, b, |ItemTokens(items[1..])| + 1, ItemsText(f, items[1..], false) + "]", depth + ItemsHeight(items[1..]) <= MAX_DEPTH)
      else c == b
    ensures Yields(c, s, |ItemTokens(items)| + 1, ItemsText(f, items, first) + "]", depth + ItemsHeight(items) <= MAX_DEPTH)
  {
    Then(s, b, |Tokens(items[0])|, Comma(first) + Stringify(f, items[0]), depth + Height(items[0]) <= MAX_DEPTH,
         c, |ItemTokens(items[1..])| + 1, ItemsText(f, items[1..], false) + "]", depth + ItemsHeight(items[1..]) <= MAX_DEPTH);
    ItemsUnfold(f, items, first, depth);
  }

  lemma {:induction false} MembersStep(f: Format, members: seq<Member>, first: bool, depth: nat, s: Pass, b: Pass, c: Pass)
    requires members != [] && s.ok
    requires Yields(b, s, |PairTokens(members[0])|, PairText(f, members[0], first), depth + Height(members[0].value) <= MAX_DEPTH)
    requires if b.ok
      then Yields(c, b, |MemberTokens(members[1..])| + 1, MembersText(f, members[1..], false) + "}", depth + MembersHeight(members[1..]) <= MAX_DEPTH)
      else c == b
    ensures Yields(c, s, |MemberTokens(members)| + 1, MembersText(f, members, first) + "}", depth + MembersHeight(members) <= MAX_DEPTH)
  {
    Then(s, b, |PairTokens(members[0])|, PairText(f, members[0], first), depth + Height(members[0].value) <= MAX_DEPTH,
         c, |MemberTokens(members[1..])| + 1, MembersText(f, members[1..], false) + "}", depth + MembersHeight(members[1..]) <= MAX_DEPTH);
    MembersUnfold(f, members, first, depth);
  }

  lemma {:induction false} PassItemsTree(f: Format, stream: seq<Token>, s: Pass, depth: nat, first: bool, items: seq<Json>)
    requires Running(s) && depth <= MAX_DEPTH && JsonTree.At(stream, s.pos, ItemTokens(items) + [CloseArray])
    ensures Yields(PassItems(f, stream, s, depth, first), s, |ItemTokens(items)| + 1, ItemsText(f, items, first) + "]",
                   depth + ItemsHeight(items) <= MAX_DEPTH)
    decreases items, 0
  {
    if items == [] {
      EndAt(stream, s.pos, CloseArray);
      BracketYields(stream, s, "]");
      assert ItemsText(f, items, first) + "]" == "]";
    } else {
      ItemAt(stream, s.pos, items);
      var b := PassItem(f, stream, s, depth, first);
      PassItemTree(f, stream, s, depth, first, items[0]);
      var c := if b.ok then PassItems(f, stream, b, depth, false) else b;
      if b.ok {
        PassItemsTree(f, stream, b, depth, false, items[1..]);
      }
      ItemsStep(f, items, first, depth, s, b, c);
    }
  }

  lemma {:induction false} PassItemTree(f: Format, stream: seq<Token>, s: Pass, depth: nat, first: bool, item: Json)
    requires Running(s) && depth <= MAX_DEPTH && JsonTree.At(stream, s.pos, Tokens(item))
    ensures Yields(PassItem(f, stream, s, depth, first), s, |Tokens(item)|, Comma(first) + Stringify(f, item),
                   depth + Height(item) <= MAX_DEPTH)
    decreases item, 1
  {
    var a := Separate(s, first);
    SeparateYields(s, first);
    if a.ok {
      PassTree(f, stream, a, depth, item);
    }
    Then(s, a, 0, Comma(first), true, PassValue(f, stream, a, depth), |Tokens(item)|, Stringify(f, item),
         depth + Height(item) <= MAX_DEPTH);
  }

  lemma {:induction false} PassMembersTree(f: Format, stream: seq<Token>, s: Pass, depth: nat, first: bool, members: seq<Member>)
    requires Running(s) && depth <= MAX_DEPTH && JsonTree.At(stream, s.pos, MemberTokens(members) + [CloseObject])
    ensures Yields(PassMembers(f, stream, s, depth, first), s, |MemberTokens(members)| + 1, MembersText(f, members, first) + "}",
                   depth + MembersHeight(members) <= MAX_DEPTH)
    decreases members, 0
  {
    if members == [] {
      EndAt(stream, s.pos, CloseObject);
      BracketYields(stream, s, "}");
      assert MembersText(f, members, first) + "}" == "}";
    } else {
      MemberAt(stream, s.pos, members);
      var b := PassPair(f, stream, s, depth, first);
      PassPairTree(f, stream, s, depth, first, members[0]);
      var c := if b.ok then PassMembers(f, stream, b, depth, false) else b;
      if b.ok {
        PassMembersTree(f, stream, b, depth, false, members[1..]);
      }
      MembersStep(f, members, first, depth, s, b, c);
    }
  }

  lemma {:induction false} PassPairTree(f: Format, stream: seq<Token>, s: Pass, depth: nat, first: bool, m: Member)
    requires Running(s) && depth <= MAX_DEPTH && JsonTree.At(stream, s.pos, PairTokens(m))
    ensures Yields(PassPair(f, stream, s, depth, first), s, |PairTokens(m)|, PairText(f, m, first),
                   depth + Height(m.value) <= MAX_DEPTH)
    decreases m
  {
    AtConcat(stream, s.pos, [TextToken(m.key)], Tokens(m.value));
    assert stream[s.pos] == PairTokens(m)[0];
    var named := Take(stream, s, true);
    TakeYields(stream, s);
    LabelYields(s, named, first, m.key);
    var labelled := Labelled(named, first, m.key);
    var b := if labelled.ok then PassValue(f, stream, labelled, depth) else labelled;
    if labelled.ok {
      PassTree(f, stream, labelled, depth, m.value);
    }
    Then(s, labelled, 1, Comma(first) + (m.key + ":"), true, b, |Tokens(m.value)|, Stringify(f, m.value), depth + Height(m.value) <= MAX_DEPTH);
    assert PassPair(f, stream, s, depth, first) == b;
  }

  /** The three writes before a value. */
  lemma {:induction false} LabelYields(s: Pass, named: Pass, first: bool, key: string)
    requires Running(s) && Yields(named, s, 1, "", true)
    ensures Yields(Labelled(named, first, key), s, 1, Comma(first) + (key + ":"), true)
  {
    var a := Separate(named, first);
    var b := Put(a, key);
    var c := Put(b, ":");
    if named.ok {
      SeparateYields(named, first);
    }
    Then(s, named, 1, "", true, a, 0, Comma(first), true);
    if a.ok {
      PutYields(a, key);
    }
    Then(s, a, 1, "" + Comma(first), true, b, 0, key, true);
    if b.ok {
      PutYields(b, ":");
    }
    Then(s, b, 1, "" + Comma(first) + key, true, c, 0, ":", true);
    assert "" + Comma(first) + key + ":" == Comma(first) + (key + ":");
  }

  // ---------- Whatever succeeds is a tree ----------

  lemma {:induction false} ValueIsTree(f: Format, stream: seq<Token>, s: Pass, depth: nat) returns (v: Json)
    requires Running(s) && depth <= MAX_DEPTH && PassValue(f, stream, s, depth).ok
    ensures JsonTree.At(stream, s.pos, Tokens(v))
    decreases |stream| - s.pos, 0, 0
  {
    var t := Take(stream, s, true);
    match stream[s.pos] {
      case NullToken => v := Null;
      case BoolToken(b) => v := Bool(b);
      case NumberToken(n) => v := Number(n);
      case TextToken(text) => v := Text(text);
      case OpenArray =>
        var items := ItemsAreTrees(f, stream, Put(t, "["), depth + 1, true);
        v := Arr(items);
        AtThree(stream, s.pos, [OpenArray], ItemTokens(items), [CloseArray]);
      case OpenObject =>
        var members := MembersAreTrees(f, stream, Put(t, "{"), depth + 1, true);
        v := Obj(members);
        AtThree(stream, s.pos, [OpenObject], MemberTokens(members), [CloseObject]);
    }
  }

  lemma {:induction false} ItemsAreTrees(f: Format, stream: seq<Token>, s: Pass, depth: nat, first: bool) returns (items: seq<Json>)
    requires Running(s) && depth <= MAX_DEPTH && PassItems(f, stream, s, depth, first).ok
    ensures JsonTree.At(stream, s.pos, ItemTokens(items) + [CloseArray])
    decreases |stream| - s.pos, 1
  {
    if IsClose(stream[s.pos]) {
      items := [];
      CloseAt(stream, s.pos);
    } else {
      SeparateYields(s, first);
      var item := ValueIsTree(f, stream, Separate(s, first), depth);
      PassItemTree(f, stream, s, depth, first, item);
      var rest := ItemsAreTrees(f, stream, PassItem(f, stream, s, depth, first), depth, false);
      items := [item] + rest;
      ItemThen(stream, s.pos, item, rest);
    }
  }

  lemma {:induction false} MembersAreTrees(f: Format, stream: seq<Token>, s: Pass, depth: nat, first: bool) returns (members: seq<Member>)
    requires Running(s) && depth <= MAX_DEPTH && PassMembers(f, stream, s, depth, first).ok
    ensures JsonTree.At(stream, s.pos, MemberTokens(members) + [CloseObject])
    decreases |stream| - s.pos, 1
  {
    if IsClose(stream[s.pos]) {
      members := [];
      CloseAt(stream, s.pos);
    } else {
      var m := PairIsTree(f, stream, s, depth, first);
      PassPairTree(f, stream, s, depth, first, m);
      var rest := MembersAreTrees(f, stream, PassPair(f, stream, s, depth, first), depth, false);
      members := [m] + rest;
      MemberThen(stream, s.pos, m, rest);
    }
  }

  lemma {:induction false} PairIsTree(f: Format, stream: seq<Token>, s: Pass, depth: nat, first: bool) returns (m: Member)
    requires Running(s) && depth <= MAX_DEPTH && s.pos < |stream| && PassPair(f, stream, s, depth, first).ok
    ensures JsonTree.At(stream, s.pos, PairTokens(m))
    decreases |stream| - s.pos, 0, 1
  {
    var key := stream[s.pos].text;
    var named := Take(stream, s, true);
    var value := ValueIsTree(f, stream, Labelled(named, first, key), depth);
    m := Member(key, value);
    AtConcat(stream, s.pos, [TextToken(key)], Tokens(value));
  }

  // ---------- Documents ----------

  const START := Pass(true, 0, 0, "")

  /** A value, and then the end of the input. */
  predicate Hashes(f: Format, stream: seq<Token>) {
    var r := PassValue(f, stream, START, 0);
    r.ok && r.pos == |stream|
  }

  predicate WithinBudgets(f: Format, v: Json) {
    Height(v) <= MAX_DEPTH && |Tokens(v)| <= MAX_TOKENS && |Stringify(f, v)| <= MAX_OUTPUT
  }

  /** The stream of a value is hashed exactly when it is within the budgets, and what is written is its text, or a prefix of it. */
  lemma {:induction false} HashesExactly(f: Format, v: Json)
    ensures Hashes(f, Tokens(v)) <==> WithinBudgets(f, v)
    ensures Hashes(f, Tokens(v)) ==> PassValue(f, Tokens(v), START, 0).out == Stringify(f, v)
    ensures PassValue(f, Tokens(v), START, 0).out <= Stringify(f, v)
  {
    assert Tokens(v)[0..|Tokens(v)|] == Tokens(v);
    PassTree(f, Tokens(v), START, 0, v);
    assert "" + Stringify(f, v) == Stringify(f, v);
  }

  /** And nothing but the stream of one value within the budgets is hashed. */
  lemma {:induction false} OnlyValuesHash(f: Format, stream: seq<Token>) returns (v: Json)
    requires Hashes(f, stream)
    ensures Tokens(v) == stream && WithinBudgets(f, v)
  {
    v := ValueIsTree(f, stream, START, 0);
    PassTree(f, stream, START, 0, v);
    assert stream[0..|stream|] == stream;
  }

  // ---------- The pass only appends ----------

  lemma {:induction false} ValueGrows(f: Format, stream: seq<Token>, s: Pass, depth: nat)
    ensures s.out <= PassValue(f, stream, s, depth).out
    decreases |stream| - s.pos, 0, 0
  {
    var t := Take(stream, s, s.pos < |stream| && StartsValue(stream[s.pos]));
    if t.ok && depth < MAX_DEPTH {
      if stream[s.pos].OpenObject? {
        MembersGrow(f, stream, Put(t, "{"), depth + 1, true);
      } else if stream[s.pos].OpenArray? {
        ItemsGrow(f, stream, Put(t, "["), depth + 1, true);
      }
    }
  }

  lemma {:induction false} MembersGrow(f: Format, stream: seq<Token>, s: Pass, depth: nat, first: bool)
    ensures s.out <= PassMembers(f, stream, s, depth, first).out
    decreases |stream| - s.pos, 1
  {
    if s.ok && s.pos < |stream| && !IsClose(stream[s.pos]) {
      var pair := PassPair(f, stream, s, depth, first);
      PairGrows(f, stream, s, depth, first);
      if pair.ok {
        MembersGrow(f, stream, pair, depth, false);
      }
    }
  }

  lemma {:induction false} PairGrows(f: Format, stream: seq<Token>, s: Pass, depth: nat, first: bool)
    requires s.pos < |stream|
    ensures s.out <= PassPair(f, stream, s, depth, first).out
    decreases |stream| - s.pos, 0, 1
  {
    var named := Take(stream, s, stream[s.pos].TextToken?);
    if named.ok {
      var labelled := Labelled(named, first, stream[s.pos].text);
      assert s.out <= labelled.out;
      if labelled.ok {
        ValueGrows(f, stream, labelled, depth);
      }
    }
  }

  lemma {:induction false} ItemsGrow(f: Format, stream: seq<Token>, s: Pass, depth: nat, first: bool)
    ensures s.out <= PassItems(f, stream, s, depth, first).out
    decreases |stream| - s.pos, 1
  {
    if s.ok && s.pos < |stream| && !IsClose(stream[s.pos]) {
      var item := PassItem(f, stream, s, depth, first);
      ValueGrows(f, stream, Separate(s, first), depth);
      if item.ok {
        ItemsGrow(f, stream, item, depth, false);
      }
    }
  }

  // ---------- The traversal ----------

  /**
  The bounded sink.  Unless it is sturdy, its destination takes any first part of what it is given and
  may report an error; `broken` says that it did one or the other.
   */
  class BoundedWriter {
    const sturdy: bool
    var written: string
    var remaining: nat
    var broken: bool

    ghost predicate Valid()
      reads this
    {
      |written| + remaining == MAX_OUTPUT && (sturdy ==> !broken)
    }

    constructor (sturdy: bool)
      ensures Valid() && this.sturdy == sturdy && written == "" && !broken
    {
      this.sturdy := sturdy;
      written, remaining, broken := "", MAX_OUTPUT, false;
    }

    /** All of the value or nothing, within the remaining output, unless the destination breaks. */
    method Write(value: string) returns (ok: bool)
      requires Valid() && !broken
      modifies this
      ensures Valid()
      ensures !broken ==> ok == (|old(written)| + |value| <= MAX_OUTPUT)
      ensures !broken ==> written == if ok then old(written) + value else old(written)
      ensures broken ==> !ok && |old(written)| + |value| <= MAX_OUTPUT && old(written) <= written <= old(written) + value
    {
      if |value| > remaining {
        return false;
      }
      var n: int := *;
      var failed: bool := *;
      n := if 0 <= n <= |value| && !sturdy then n else |value|;
      written, remaining := written + value[..n], remaining - n;
      assert value[..|value|] == value;
      broken := !sturdy && (failed || n != |value|);
      ok := !broken;
    }
  }

  /** The method fails where the function says and has written what it says. */
  predicate Agrees(ok: bool, r: Pass, here: Pass) {
    ok == r.ok && here.out == r.out && (ok ==> here == r)
  }

  /** Interrupted, the method fails with a first part of that written. */
  predicate Follows(interrupted: bool, ok: bool, r: Pass, here: Pass) {
    if interrupted then !ok && here.out <= r.out else Agrees(ok, r, here)
  }

  datatype NextError = Cancelled | Decoding(error: DecodeError) | TokenBudget

  class HashTraversal {
    const f: Format
    const decoder: Decoder
    const writer: BoundedWriter
    /** The context lasts as long as the traversal. */
    const lasting: bool
    var tokens: nat
    var cancelled: bool

    ghost predicate Valid()
      reads this, decoder, writer
    {
      decoder.Valid() && writer.Valid() && (lasting ==> !cancelled)
    }

    /** The context was found cancelled, or the destination broke. */
    predicate Interrupted()
      reads this, writer
    {
      cancelled || writer.broken
    }

    ghost predicate Ready()
      reads this, decoder, writer
    {
      Valid() && !Interrupted()
    }

    ghost function Here(): Pass
      reads this, decoder, writer
    {
      Pass(true, decoder.pos, tokens, writer.written)
    }

    constructor (f: Format, decoder: Decoder, writer: BoundedWriter, lasting: bool)
      requires decoder.Valid() && writer.Valid() && !writer.broken
      ensures this.f == f && this.decoder == decoder && this.writer == writer && this.lasting == lasting && tokens == 0 && Ready()
    {
      this.lasting := lasting;
      this.f, this.decoder, this.writer, this.tokens, this.cancelled := f, decoder, writer, 0, false;
    }

    method NextToken() returns (token: Result<Token, NextError>)
      requires Ready()
      modifies this, decoder
      ensures Valid()
      ensures var fits := old(decoder.pos) < |decoder.stream| && Advance(old(decoder.open), decoder.stream[old(decoder.pos)]).Some?;
        Follows(Interrupted(), token.Ok?, Take(decoder.stream, old(Here()), fits), Here())
      ensures token.Ok? ==>
        token.value == decoder.stream[old(decoder.pos)] && Advance(old(decoder.open), token.value) == Some(decoder.open)
      ensures token.Err? ==> (token.error == Cancelled <==> cancelled) && !writer.broken
      ensures token.Err? && !cancelled ==> (token.error == Decoding(EndOfInput) <==> old(decoder.pos) == |decoder.stream|)
    {
      var gone: bool := *;
      if gone && !lasting {
        cancelled := true;
        return Err(Cancelled);
      }
      var next := decoder.Token();
      if next.Err? {
        return Err(Decoding(next.error));
      }
      tokens := tokens + 1;
      if tokens > MAX_TOKENS {
        return Err(TokenBudget);
      }
      token := Ok(next.value);
    }

    method StringifyToken(depth: nat, ghost base: seq<Frame>) returns (ok: bool)
      requires Ready() && !WantsKey(decoder.open) && base == AfterValue(decoder.open)
      requires decoder.pos < |decoder.stream| && decoder.stream[decoder.pos].CloseArray? ==>
        decoder.open == [] || !decoder.open[|decoder.open| - 1].InArray?
      modifies this, decoder, writer
      ensures Valid()
      ensures Follows(Interrupted(), ok, PassValue(f, decoder.stream, old(Here()), depth), Here())
      ensures ok ==> decoder.open == base
      decreases |decoder.stream| - decoder.pos, 0, 0
    {
      ValueGrows(f, decoder.stream, Here(), depth);
      var token := NextToken();
      if token.Err? {
        return false;
      }
      match token.value {
        case OpenObject =>
          if depth >= MAX_DEPTH {
            return false;
          }
          ok := StringifyObject(depth + 1, base);
        case OpenArray =>
          if depth >= MAX_DEPTH {
            return false;
          }
          ok := StringifyArray(depth + 1, base);
        case TextToken(text) =>
          ok := writer.Write(f.trim(text));
        case NumberToken(n) =>
          ok := writer.Write(f.number(n));
        case BoolToken(b) =>
          ok := writer.Write(if b then "1" else "0");
        case NullToken =>
          ok := true;
      }
    }

    method StringifyObject(depth: nat, ghost base: seq<Frame>) returns (ok: bool)
      requires Ready() && decoder.open == base + [InObject(true)]
      modifies this, decoder, writer
      ensures Valid()
      ensures Follows(Interrupted(), ok, PassMembers(f, decoder.stream, Put(old(Here()), "{"), depth, true), Here())
      ensures ok ==> decoder.open == base
      decreases |decoder.stream| - decoder.pos, 1
    {
      MembersGrow(f, decoder.stream, Put(Here(), "{"), depth, true);
      ok := writer.Write("{");
      if !ok {
        return;
      }
      var first := true;
      var more := decoder.More();
      while more
        invariant Ready() && decoder.open == base + [InObject(true)] && old(decoder.pos) <= decoder.pos
        invariant more == (decoder.pos < |decoder.stream| && !IsClose(decoder.stream[decoder.pos]))
        invariant PassMembers(f, decoder.stream, Here(), depth, first)
               == PassMembers(f, decoder.stream, Put(old(Here()), "{"), depth, true)
        decreases |decoder.stream| - decoder.pos
      {
        MembersGrow(f, decoder.stream, PassPair(f, decoder.stream, Here(), depth, first), depth, false);
        ok := StringifyMember(depth, first, base);
        if !ok {
          return;
        }
        first := false;
        more := decoder.More();
      }
      ok := Close("}");
    }

    /** A key token, a comma unless it is the first, the key and a colon, and the value. */
    method StringifyMember(depth: nat, first: bool, ghost base: seq<Frame>) returns (ok: bool)
      requires Ready() && decoder.open == base + [InObject(true)]
      requires decoder.pos < |decoder.stream| && !IsClose(decoder.stream[decoder.pos])
      modifies this, decoder, writer
      ensures Valid()
      ensures Follows(Interrupted(), ok, PassPair(f, decoder.stream, old(Here()), depth, first), Here())
      ensures ok ==> decoder.open == base + [InObject(true)]
      decreases |decoder.stream| - decoder.pos, 0, 1
    {
      PairGrows(f, decoder.stream, Here(), depth, first);
      var key := NextToken();
      if key.Err? {
        return false;
      }
      ghost var labelled := Labelled(Here(), first, key.value.text);
      ValueGrows(f, decoder.stream, labelled, depth);
      ok := WriteLabel(first, key.value.text);
      if !ok {
        return;
      }
      ok := StringifyToken(depth, base + [InObject(true)]);
    }

    /** A comma unless it is the first, the key and a colon. */
    method WriteLabel(first: bool, key: string) returns (ok: bool)
      requires Ready()
      modifies writer
      ensures Valid()
      ensures Follows(Interrupted(), ok, Labelled(old(Here()), first, key), Here())
    {
      if !first {
        ok := writer.Write(",");
        if !ok {
          return;
        }
      }
      ok := writer.Write(key);
      if !ok {
        return;
      }
      ok := writer.Write(":");
    }

    method StringifyArray(depth: nat, ghost base: seq<Frame>) returns (ok: bool)
      requires Ready() && decoder.open == base + [InArray]
      modifies this, decoder, writer
      ensures Valid()
      ensures Follows(Interrupted(), ok, PassItems(f, decoder.stream, Put(old(Here()), "["), depth, true), Here())
      ensures ok ==> decoder.open == base
      decreases |decoder.stream| - decoder.pos, 1
    {
      ItemsGrow(f, decoder.stream, Put(Here(), "["), depth, true);
      ok := writer.Write("[");
      if !ok {
        return;
      }
      var first := true;
      var more := decoder.More();
      while more
        invariant Ready() && decoder.open == base + [InArray] && old(decoder.pos) <= decoder.pos
        invariant more == (decoder.pos < |decoder.stream| && !IsClose(decoder.stream[decoder.pos]))
        invariant PassItems(f, decoder.stream, Here(), depth, first)
               == PassItems(f, decoder.stream, Put(old(Here()), "["), depth, true)
        decreases |decoder.stream| - decoder.pos
      {
        ItemsGrow(f, decoder.stream, PassItem(f, decoder.stream, Here(), depth, first), depth, false);
        ok := StringifyItem(depth, first, base);
        if !ok {
          return;
        }
        first := false;
        more := decoder.More();
      }
      ok := Close("]");
    }

    /** A comma unless it is the first, and the value. */
    method StringifyItem(depth: nat, first: bool, ghost base: seq<Frame>) returns (ok: bool)
      requires Ready() && decoder.open == base + [InArray]
      requires decoder.pos < |decoder.stream| && !IsClose(decoder.stream[decoder.pos])
      modifies this, decoder, writer
      ensures Valid()
      ensures Follows(Interrupted(), ok, PassItem(f, decoder.stream, old(Here()), depth, first), Here())
      ensures ok ==> decoder.open == base + [InArray]
      decreases |decoder.stream| - decoder.pos, 0, 1
    {
      ValueGrows(f, decoder.stream, Separate(Here(), first), depth);
      if !first {
        ok := writer.Write(",");
        if !ok {
          return;
        }
      }
      ok := StringifyToken(depth, base + [InArray]);
    }

    /** The closing token, and its text. */
    method Close(bracket: string) returns (ok: bool)
      requires Ready() && decoder.open != [] && decoder.open[|decoder.open| - 1] != InObject(false)
      requires decoder.pos < |decoder.stream| ==> IsClose(decoder.stream[decoder.pos])
      modifies this, decoder, writer
      ensures Valid()
      ensures var closes := if old(WantsKey(decoder.open)) then CloseObject else CloseArray;
        Follows(Interrupted(), ok, Put(Take(decoder.stream, old(Here()), old(decoder.pos) < |decoder.stream| && decoder.stream[old(decoder.pos)] == closes), bracket), Here())
      ensures ok ==> decoder.open == old(decoder.open)[..|old(decoder.open)| - 1]
    {
      var closing := NextToken();
      if closing.Err? {
        return false;
      }
      ok := writer.Write(bracket);
    }
  }

  /**
  Streams a configuration into a fresh sink, until the context is cancelled or the destination breaks.
  With a lasting context and a sturdy destination neither happens.
   */
  method StringifyJSON(f: Format, stream: seq<Token>, lasting: bool, sturdy: bool)
    returns (ok: bool, written: string, interrupted: bool)
    ensures lasting && sturdy ==> !interrupted
    ensures ok ==> !interrupted && exists v :: Tokens(v) == stream
    ensures forall v :: Tokens(v) == stream ==> (ok <==> WithinBudgets(f, v) && !interrupted) && written <= Stringify(f, v)
    ensures forall v :: Tokens(v) == stream && ok ==> written == Stringify(f, v)
  {
    forall v | Tokens(v) == stream
      ensures Hashes(f, stream) <==> WithinBudgets(f, v)
      ensures PassValue(f, stream, START, 0).out <= Stringify(f, v)
      ensures Hashes(f, stream) ==> PassValue(f, stream, START, 0).out == Stringify(f, v)
    {
      HashesExactly(f, v);
    }
    interrupted := *;
    interrupted := interrupted && !lasting;
    if interrupted {
      return false, "", true;
    }
    var decoder := new Decoder(stream);
    var writer := new BoundedWriter(sturdy);
    var traversal := new HashTraversal(f, decoder, writer, lasting);
    ok := traversal.StringifyToken(0, []);
    written := writer.written;
    if ok {
      var trailing := traversal.NextToken();
      ok := trailing == Err(Decoding(EndOfInput));
      if ok {
        ghost var v := OnlyValuesHash(f, stream);
      }
    }
    interrupted := traversal.Interrupted();
  }
}
