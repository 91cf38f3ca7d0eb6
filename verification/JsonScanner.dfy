/**
The structural scan of a request body: one pass over the tokens with budgets on depth, members,
items, key length and tokens, rejecting duplicate and misspelt keys.  `Scan*` functions say
what the pass does to a token stream; `Shape` says what it accepts of a tree.
 */
module JsonScanner {
  import opened Wrappers
  import opened JsonTree

  const MAX_DEPTH: nat := 64
  const MAX_KEY_BYTES: nat := 1_024
  const MAX_TOKENS: nat := 1_048_576
  const MAX_OPAQUE_ITEMS: nat := 65_536
  const MAX_CONTROL_ITEMS: nat := 16_384

  /** A Go type, or none. */
  datatype Schema = Opaque | Type(id: nat)

  /** What reflection knows of the types: exported fields by wire name, array elements, and case folding. */
  datatype Types = Types(fields: nat -> Option<map<string, nat>>, element: nat -> Option<nat>, fold: (string, string) -> bool)

  function Fields(ty: Types, schema: Schema): Option<map<string, nat>> {
    if schema.Opaque? then None else ty.fields(schema.id)
  }

  function Element(ty: Types, schema: Schema): Schema {
    if schema.Opaque? || ty.element(schema.id).None? then Opaque else Type(ty.element(schema.id).value)
  }

  function MaxItems(ty: Types, schema: Schema): nat {
    if Element(ty, schema).Opaque? then MAX_OPAQUE_ITEMS else MAX_CONTROL_ITEMS
  }

  function MaxMembers(ty: Types, schema: Schema): nat {
    if Fields(ty, schema).Some? then MAX_CONTROL_ITEMS else MAX_OPAQUE_ITEMS
  }

  function Child(ty: Types, schema: Schema, key: string): Schema {
    var fields := Fields(ty, schema);
    if fields.Some? && key in fields.value then Type(fields.value[key]) else Opaque
  }

  /** Differs from a known field without being one, yet equal to one up to case. */
  predicate Misspelt(ty: Types, schema: Schema, key: string) {
    var fields := Fields(ty, schema);
    fields.Some? && key !in fields.value && exists name :: name in fields.value && ty.fold(key, name)
  }

  // ---------- What is accepted ----------

  predicate KeyFits(ty: Types, schema: Schema, key: string) {
    |key| <= MAX_KEY_BYTES && !Misspelt(ty, schema, key)
  }

  /** Containers at most MAX_DEPTH deep, within their limits, with distinct well-spelt keys. */
  ghost predicate Shape(ty: Types, v: Json, schema: Schema, depth: nat) {
    match v
    case Arr(items) =>
      && depth <= MAX_DEPTH && |items| <= MaxItems(ty, schema)
      && forall i :: 0 <= i < |items| ==> Shape(ty, items[i], Element(ty, schema), depth + 1)
    case Obj(members) =>
      && depth <= MAX_DEPTH && |members| <= MaxMembers(ty, schema)
      && (forall i :: 0 <= i < |members| ==> MemberShape(ty, members[i], schema, depth))
      && (forall i, j :: 0 <= i < j < |members| ==> members[i].key != members[j].key)
    case _ => true
  }

  ghost predicate MemberShape(ty: Types, m: Member, schema: Schema, depth: nat) {
    KeyFits(ty, schema, m.key) && Shape(ty, m.value, Child(ty, schema, m.key), depth + 1)
  }

  // ---------- What the scan does ----------

  datatype Problem =
    | BadSyntax | TooManyTokens | TooDeep | TooManyMembers | KeyTooLong | DuplicateKey | WrongSpelling | TooManyItems
    | NotAContainer | NotSingle | Missing

  /** How far the stream has been read, and how many tokens were counted. */
  datatype Mark = Mark(pos: nat, count: nat)

  /** One token: it must be there, be within the budget and be allowed to stand here. */
  function Take(stream: seq<Token>, m: Mark, fits: bool): (r: Result<Mark, Problem>)
    ensures r.Ok? ==> r.value == Mark(m.pos + 1, m.count + 1) && m.pos < |stream| && m.count < MAX_TOKENS && fits
  {
    if m.pos >= |stream| then Err(BadSyntax)
    else if m.count >= MAX_TOKENS then Err(TooManyTokens)
    else if !fits then Err(BadSyntax)
    else Ok(Mark(m.pos + 1, m.count + 1))
  }

  function ScanValue(ty: Types, stream: seq<Token>, m: Mark, schema: Schema, depth: nat): (r: Result<Mark, Problem>)
    ensures r.Ok? ==> m.pos < r.value.pos <= |stream|
    decreases |stream| - m.pos, 0
  {
    var next := Take(stream, m, m.pos < |stream| && StartsValue(stream[m.pos]));
    if next.Err? then next else ScanToken(ty, stream, stream[m.pos], next.value, schema, depth)
  }

  /** The rest of a value whose first token has been taken. */
  function ScanToken(ty: Types, stream: seq<Token>, first: Token, m: Mark, schema: Schema, depth: nat): (r: Result<Mark, Problem>)
    requires m.pos <= |stream| && StartsValue(first)
    ensures r.Ok? ==> m.pos <= r.value.pos <= |stream|
    decreases |stream| - m.pos, 2
  {
    if !first.OpenObject? && !first.OpenArray? then Ok(m)
    else if depth > MAX_DEPTH then Err(TooDeep)
    else if first.OpenObject? then ScanMembers(ty, stream, m, schema, depth, {}, 0)
    else ScanItems(ty, stream, m, schema, depth, 0)
  }

  function KeyProblem(ty: Types, schema: Schema, key: string, seen: set<string>): Option<Problem> {
    if |key| > MAX_KEY_BYTES then Some(KeyTooLong)
    else if key in seen then Some(DuplicateKey)
    else if Misspelt(ty, schema, key) then Some(WrongSpelling)
    else None
  }

  function ScanMembers(ty: Types, stream: seq<Token>, m: Mark, schema: Schema, depth: nat, seen: set<string>, n: nat)
    : (r: Result<Mark, Problem>)
    requires m.pos <= |stream|
    ensures r.Ok? ==> m.pos < r.value.pos <= |stream|
    decreases |stream| - m.pos, 1
  {
    if m.pos == |stream| || IsClose(stream[m.pos]) then Take(stream, m, m.pos < |stream| && stream[m.pos].CloseObject?)
    else
      var pair := ScanMember(ty, stream, m, schema, depth, seen, n);
      if pair.Err? then pair
      else ScanMembers(ty, stream, pair.value, schema, depth, seen + {stream[m.pos].text}, n + 1)
  }

  /** A key and its value, n members before it. */
  function ScanMember(ty: Types, stream: seq<Token>, m: Mark, schema: Schema, depth: nat, seen: set<string>, n: nat)
    : (r: Result<Mark, Problem>)
    requires m.pos < |stream|
    ensures r.Ok? ==> m.pos < r.value.pos <= |stream| && stream[m.pos].TextToken?
    decreases |stream| - m.pos, 0
  {
    if n >= MaxMembers(ty, schema) then Err(TooManyMembers)
    else
      var named := Take(stream, m, stream[m.pos].TextToken?);
      if named.Err? then named
      else
        var key := stream[m.pos].text;
        if KeyProblem(ty, schema, key, seen).Some? then Err(KeyProblem(ty, schema, key, seen).value)
        else ScanValue(ty, stream, named.value, Child(ty, schema, key), depth + 1)
  }

  function ScanItems(ty: Types, stream: seq<Token>, m: Mark, schema: Schema, depth: nat, n: nat): (r: Result<Mark, Problem>)
    requires m.pos <= |stream|
    ensures r.Ok? ==> m.pos < r.value.pos <= |stream|
    decreases |stream| - m.pos, 1
  {
    if m.pos == |stream| || IsClose(stream[m.pos]) then Take(stream, m, m.pos < |stream| && stream[m.pos].CloseArray?)
    else if n >= MaxItems(ty, schema) then Err(TooManyItems)
    else
      var item := ScanValue(ty, stream, m, Element(ty, schema), depth + 1);
      if item.Err? then item else ScanItems(ty, stream, item.value, schema, depth, n + 1)
  }

  // ---------- The scan of a tree ----------

  /** The accepted trees, as the scan goes through them. */
  predicate Good(ty: Types, v: Json, schema: Schema, depth: nat)
    decreases v
  {
    match v
    case Arr(items) => depth <= MAX_DEPTH && ItemsGood(ty, items, schema, depth, 0)
    case Obj(members) => depth <= MAX_DEPTH && MembersGood(ty, members, schema, depth, {}, 0)
    case _ => true
  }

  /** The members still to come, when `seen` came before them and they are preceded by n. */
  predicate MembersGood(ty: Types, ms: seq<Member>, schema: Schema, depth: nat, seen: set<string>, n: nat)
    decreases ms
  {
    ms == [] ||
    (MemberGood(ty, ms[0], schema, depth, seen, n) && MembersGood(ty, ms[1..], schema, depth, seen + {ms[0].key}, n + 1))
  }

  predicate MemberGood(ty: Types, m: Member, schema: Schema, depth: nat, seen: set<string>, n: nat)
    decreases m
  {
    n < MaxMembers(ty, schema) && KeyFits(ty, schema, m.key) && m.key !in seen
    && Good(ty, m.value, Child(ty, schema, m.key), depth + 1)
  }

  predicate ItemsGood(ty: Types, items: seq<Json>, schema: Schema, depth: nat, n: nat)
    decreases items
  {
    items == [] ||
    (n < MaxItems(ty, schema) && Good(ty, items[0], Element(ty, schema), depth + 1)
     && ItemsGood(ty, items[1..], schema, depth, n + 1))
  }

  /** Scanning exactly these many tokens, or failing, as the condition says. */
  predicate Reads(r: Result<Mark, Problem>, m: Mark, length: nat, condition: bool) {
    (r.Ok? <==> condition && m.count + length <= MAX_TOKENS) && (r.Ok? ==> r.value == Mark(m.pos + length, m.count + length))
  }

  /** The scan of a tree's tokens succeeds exactly when the tree has the shape and the tokens are within the budget. */
  lemma {:induction false} ScanTree(ty: Types, stream: seq<Token>, m: Mark, schema: Schema, depth: nat, v: Json)
    requires JsonTree.At(stream, m.pos, Tokens(v))
    ensures Reads(ScanValue(ty, stream, m, schema, depth), m, |Tokens(v)|, Good(ty, v, schema, depth))
    decreases v
  {
    assert stream[m.pos] == Tokens(v)[0];
    var next := Mark(m.pos + 1, m.count + 1);
    match v {
      case Arr(items) =>
        Bracketed(stream, m.pos, OpenArray, ItemTokens(items), CloseArray);
        if depth <= MAX_DEPTH {
          ScanItemsTree(ty, stream, next, schema, depth, 0, items);
        }
      case Obj(members) =>
        Bracketed(stream, m.pos, OpenObject, MemberTokens(members), CloseObject);
        if depth <= MAX_DEPTH {
          ScanMembersTree(ty, stream, next, schema, depth, {}, 0, members);
        }
      case _ =>
    }
  }

  lemma {:induction false} Bracketed(stream: seq<Token>, pos: nat, open: Token, inner: seq<Token>, close: Token)
    requires JsonTree.At(stream, pos, [open] + inner + [close])
    ensures JsonTree.At(stream, pos + 1, inner + [close]) && stream[pos] == open
  {
    AtThree(stream, pos, [open], inner, [close]);
    assert stream[pos] == [open][0];
  }

  lemma {:induction false} ScanMembersTree(ty: Types, stream: seq<Token>, m: Mark, schema: Schema, depth: nat,
                                           seen: set<string>, n: nat, ms: seq<Member>)
    requires JsonTree.At(stream, m.pos, MemberTokens(ms) + [CloseObject])
    ensures Reads(ScanMembers(ty, stream, m, schema, depth, seen, n), m, |MemberTokens(ms)| + 1,
                  MembersGood(ty, ms, schema, depth, seen, n))
    decreases ms
  {
    if ms == [] {
      EndAt(stream, m.pos, CloseObject);
    } else {
      MemberAt(stream, m.pos, ms);
      ScanMemberTree(ty, stream, m, schema, depth, seen, n, ms[0]);
      var after := Mark(m.pos + |PairTokens(ms[0])|, m.count + |PairTokens(ms[0])|);
      ScanMembersTree(ty, stream, after, schema, depth, seen + {ms[0].key}, n + 1, ms[1..]);
    }
  }

  lemma {:induction false} ScanMemberTree(ty: Types, stream: seq<Token>, m: Mark, schema: Schema, depth: nat,
                                          seen: set<string>, n: nat, member: Member)
    requires JsonTree.At(stream, m.pos, PairTokens(member))
    ensures Reads(ScanMember(ty, stream, m, schema, depth, seen, n), m, |PairTokens(member)|,
                  MemberGood(ty, member, schema, depth, seen, n))
    decreases member
  {
    AtConcat(stream, m.pos, [TextToken(member.key)], Tokens(member.value));
    assert stream[m.pos] == PairTokens(member)[0];
    ScanTree(ty, stream, Mark(m.pos + 1, m.count + 1), Child(ty, schema, member.key), depth + 1, member.value);
  }

  lemma {:induction false} ScanItemsTree(ty: Types, stream: seq<Token>, m: Mark, schema: Schema, depth: nat, n: nat, items: seq<Json>)
    requires JsonTree.At(stream, m.pos, ItemTokens(items) + [CloseArray])
    ensures Reads(ScanItems(ty, stream, m, schema, depth, n), m, |ItemTokens(items)| + 1, ItemsGood(ty, items, schema, depth, n))
    decreases items
  {
    if items == [] {
      EndAt(stream, m.pos, CloseArray);
    } else {
      ItemAt(stream, m.pos, items);
      ScanTree(ty, stream, m, Element(ty, schema), depth + 1, items[0]);
      var after := Mark(m.pos + |Tokens(items[0])|, m.count + |Tokens(items[0])|);
      ScanItemsTree(ty, stream, after, schema, depth, n + 1, items[1..]);
    }
  }

  // ---------- The accepted trees, said outright ----------

  lemma {:induction false} GoodIsShape(ty: Types, v: Json, schema: Schema, depth: nat)
    ensures Good(ty, v, schema, depth) <==> Shape(ty, v, schema, depth)
    decreases v
  {
    match v {
      case Arr(items) =>
        ItemsGoodMeans(ty, items, schema, depth, 0);
        forall i | 0 <= i < |items|
          ensures Good(ty, items[i], Element(ty, schema), depth + 1) <==> Shape(ty, items[i], Element(ty, schema), depth + 1)
        {
          GoodIsShape(ty, items[i], Element(ty, schema), depth + 1);
        }
      case Obj(members) =>
        MembersGoodMeans(ty, members, schema, depth, {}, 0);
        forall i | 0 <= i < |members|
          ensures Good(ty, members[i].value, Child(ty, schema, members[i].key), depth + 1)
             <==> Shape(ty, members[i].value, Child(ty, schema, members[i].key), depth + 1)
        {
          GoodIsShape(ty, members[i].value, Child(ty, schema, members[i].key), depth + 1);
        }
      case _ =>
    }
  }

  lemma {:induction false} ItemsGoodMeans(ty: Types, items: seq<Json>, schema: Schema, depth: nat, n: nat)
    ensures ItemsGood(ty, items, schema, depth, n)
       <==> (items != [] ==> n + |items| <= MaxItems(ty, schema))
            && forall i :: 0 <= i < |items| ==> Good(ty, items[i], Element(ty, schema), depth + 1)
    decreases |items|
  {
    if items != [] {
      var rest := items[1..];
      ItemsGoodMeans(ty, rest, schema, depth, n + 1);
      assert forall i :: 0 <= i < |rest| ==> rest[i] == items[i + 1];
      assert forall i :: 1 <= i < |items| ==> items[i] == rest[i - 1];
    }
  }

  ghost predicate AllMembersGood(ty: Types, ms: seq<Member>, schema: Schema, depth: nat, seen: set<string>, n: nat) {
    && (ms != [] ==> n + |ms| <= MaxMembers(ty, schema))
    && (forall i :: 0 <= i < |ms| ==> KeyFits(ty, schema, ms[i].key) && ms[i].key !in seen)
    && (forall i :: 0 <= i < |ms| ==> Good(ty, ms[i].value, Child(ty, schema, ms[i].key), depth + 1))
    && (forall i, j :: 0 <= i < j < |ms| ==> ms[i].key != ms[j].key)
  }

  lemma {:induction false} MembersGoodMeans(ty: Types, ms: seq<Member>, schema: Schema, depth: nat, seen: set<string>, n: nat)
    ensures MembersGood(ty, ms, schema, depth, seen, n) <==> AllMembersGood(ty, ms, schema, depth, seen, n)
    decreases |ms|
  {
    if ms != [] {
      MembersGoodMeans(ty, ms[1..], schema, depth, seen + {ms[0].key}, n + 1);
      MembersCons(ty, ms, schema, depth, seen, n);
    }
  }

  lemma {:induction false} MembersCons(ty: Types, ms: seq<Member>, schema: Schema, depth: nat, seen: set<string>, n: nat)
    requires ms != []
    ensures AllMembersGood(ty, ms, schema, depth, seen, n)
       <==> MemberGood(ty, ms[0], schema, depth, seen, n) && AllMembersGood(ty, ms[1..], schema, depth, seen + {ms[0].key}, n + 1)
  {
    var rest := ms[1..];
    if AllMembersGood(ty, ms, schema, depth, seen, n) {
      assert forall i :: 0 <= i < |rest| ==> rest[i] == ms[i + 1];
    }
    if MemberGood(ty, ms[0], schema, depth, seen, n) && AllMembersGood(ty, rest, schema, depth, seen + {ms[0].key}, n + 1) {
      assert forall i :: 1 <= i < |ms| ==> ms[i] == rest[i - 1];
    }
  }

  // ---------- Whatever is accepted is a tree ----------

  lemma {:induction false} ValueIsTree(ty: Types, stream: seq<Token>, m: Mark, schema: Schema, depth: nat) returns (v: Json)
    requires ScanValue(ty, stream, m, schema, depth).Ok?
    ensures JsonTree.At(stream, m.pos, Tokens(v))
    decreases |stream| - m.pos, 0
  {
    var first := stream[m.pos];
    var next := Mark(m.pos + 1, m.count + 1);
    match first {
      case NullToken => v := Null;
      case BoolToken(b) => v := Bool(b);
      case NumberToken(n) => v := Number(n);
      case TextToken(t) => v := Text(t);
      case OpenArray =>
        var items := ItemsAreTrees(ty, stream, next, schema, depth, 0);
        v := Arr(items);
        AtThree(stream, m.pos, [OpenArray], ItemTokens(items), [CloseArray]);
      case OpenObject =>
        var members := MembersAreTrees(ty, stream, next, schema, depth, {}, 0);
        v := Obj(members);
        AtThree(stream, m.pos, [OpenObject], MemberTokens(members), [CloseObject]);
    }
  }

  lemma {:induction false} ItemsAreTrees(ty: Types, stream: seq<Token>, m: Mark, schema: Schema, depth: nat, n: nat) returns (items: seq<Json>)
    requires m.pos <= |stream| && ScanItems(ty, stream, m, schema, depth, n).Ok?
    ensures JsonTree.At(stream, m.pos, ItemTokens(items) + [CloseArray])
    decreases |stream| - m.pos, 1
  {
    if IsClose(stream[m.pos]) {
      items := [];
      CloseAt(stream, m.pos);
    } else {
      var item := ValueIsTree(ty, stream, m, Element(ty, schema), depth + 1);
      ScanTree(ty, stream, m, Element(ty, schema), depth + 1, item);
      var after := Mark(m.pos + |Tokens(item)|, m.count + |Tokens(item)|);
      var rest := ItemsAreTrees(ty, stream, after, schema, depth, n + 1);
      items := [item] + rest;
      ItemThen(stream, m.pos, item, rest);
    }
  }

  lemma {:induction false} MembersAreTrees(ty: Types, stream: seq<Token>, m: Mark, schema: Schema, depth: nat,
                                           seen: set<string>, n: nat) returns (members: seq<Member>)
    requires m.pos <= |stream| && ScanMembers(ty, stream, m, schema, depth, seen, n).Ok?
    ensures JsonTree.At(stream, m.pos, MemberTokens(members) + [CloseObject])
    decreases |stream| - m.pos, 1
  {
    if IsClose(stream[m.pos]) {
      members := [];
      CloseAt(stream, m.pos);
    } else {
      var key := stream[m.pos].text;
      var value := ValueIsTree(ty, stream, Mark(m.pos + 1, m.count + 1), Child(ty, schema, key), depth + 1);
      var member := Member(key, value);
      AtConcat(stream, m.pos, [TextToken(key)], Tokens(value));
      ScanMemberTree(ty, stream, m, schema, depth, seen, n, member);
      var after := Mark(m.pos + |PairTokens(member)|, m.count + |PairTokens(member)|);
      var rest := MembersAreTrees(ty, stream, after, schema, depth, seen + {key}, n + 1);
      members := [member] + rest;
      MemberThen(stream, m.pos, member, rest);
    }
  }

  // ---------- Documents ----------

  predicate IsContainer(v: Json) {
    v.Arr? || v.Obj?
  }

  /** A body with at least one token: one container, and nothing after it. */
  function ScanDocument(ty: Types, stream: seq<Token>, schema: Schema): Option<Problem>
    requires stream != []
  {
    if !StartsValue(stream[0]) then Some(BadSyntax)
    else if !stream[0].OpenObject? && !stream[0].OpenArray? then Some(NotAContainer)
    else
      var r := ScanToken(ty, stream, stream[0], Mark(1, 1), schema, 1);
      if r.Err? then Some(r.error)
      else if r.value.pos == |stream| then None
      else if r.value.count < MAX_TOKENS && StartsValue(stream[r.value.pos]) then Some(NotSingle)
      else Some(BadSyntax)
  }

  /** Accepted are exactly the streams of one container with the shape, of at most MAX_TOKENS tokens. */
  ghost predicate Acceptable(ty: Types, stream: seq<Token>, schema: Schema) {
    |stream| <= MAX_TOKENS && exists v :: Tokens(v) == stream && IsContainer(v) && Shape(ty, v, schema, 1)
  }

  lemma {:induction false} AcceptsExactly(ty: Types, stream: seq<Token>, schema: Schema)
    requires stream != []
    ensures ScanDocument(ty, stream, schema).None? <==> Acceptable(ty, stream, schema)
  {
    if ScanDocument(ty, stream, schema).None? {
      assert ScanValue(ty, stream, Mark(0, 0), schema, 1) == ScanToken(ty, stream, stream[0], Mark(1, 1), schema, 1);
      var v := ValueIsTree(ty, stream, Mark(0, 0), schema, 1);
      ScanTree(ty, stream, Mark(0, 0), schema, 1, v);
      GoodIsShape(ty, v, schema, 1);
      assert stream[0..|stream|] == stream;
      assert IsContainer(v);
    }
    if Acceptable(ty, stream, schema) {
      var v :| Tokens(v) == stream && IsContainer(v) && Shape(ty, v, schema, 1);
      GoodIsShape(ty, v, schema, 1);
      assert stream[0..|stream|] == stream;
      ScanTree(ty, stream, Mark(0, 0), schema, 1, v);
      assert ScanValue(ty, stream, Mark(0, 0), schema, 1) == ScanToken(ty, stream, stream[0], Mark(1, 1), schema, 1);
    }
  }

  // ---------- The scanner ----------

  datatype NextError = Decoding(error: DecodeError) | TokenLimit

  function SyntaxProblem(e: NextError): Problem {
    if e.TokenLimit? then TooManyTokens else BadSyntax
  }

  class TokenScanner {
    const ty: Types
    const decoder: Decoder
    var tokens: nat

    ghost predicate Valid()
      reads this, decoder
    {
      decoder.Valid()
    }

    ghost function Here(): Mark
      reads this, decoder
    {
      Mark(decoder.pos, tokens)
    }

    constructor (ty: Types, decoder: Decoder)
      requires decoder.Valid()
      ensures this.ty == ty && this.decoder == decoder && tokens == 0 && Valid()
    {
      this.ty, this.decoder, this.tokens := ty, decoder, 0;
    }

    /** The next token, counted; at the limit only the end of the input is not an error. */
    method Next() returns (r: Result<Token, NextError>)
      requires Valid()
      modifies this, decoder
      ensures Valid()
      ensures r.Ok? ==>
        && old(decoder.pos) < |decoder.stream| && r.value == decoder.stream[old(decoder.pos)]
        && Advance(old(decoder.open), r.value) == Some(decoder.open)
        && Here() == Mark(old(decoder.pos) + 1, old(tokens) + 1) && old(tokens) < MAX_TOKENS
      ensures r.Err? ==>
        r.error == if old(decoder.pos) == |decoder.stream| then Decoding(EndOfInput)
                   else if old(tokens) >= MAX_TOKENS then TokenLimit
                   else Decoding(Syntax)
      ensures r.Err? && r.error == Decoding(Syntax) ==> Advance(old(decoder.open), decoder.stream[old(decoder.pos)]).None?
    {
      if tokens >= MAX_TOKENS {
        var beyond := decoder.Token();
        if beyond == Err(EndOfInput) {
          return Err(Decoding(EndOfInput));
        }
        return Err(TokenLimit);
      }
      var token := decoder.Token();
      if token.Err? {
        return Err(Decoding(token.error));
      }
      tokens := tokens + 1;
      r := Ok(token.value);
    }

    /** The rest of the value whose first token is given, in the context `base`. */
    method ScanJSONToken(token: Token, schema: Schema, depth: nat, ghost base: seq<Frame>) returns (problem: Option<Problem>)
      requires Valid() && StartsValue(token) && decoder.open == Opened(base, token)
      modifies this, decoder
      ensures Valid()
      ensures Agrees(problem, ScanToken(ty, decoder.stream, token, old(Here()), schema, depth), Here())
      ensures problem.None? ==> decoder.open == base
      decreases |decoder.stream| - decoder.pos, 2
    {
      if !token.OpenObject? && !token.OpenArray? {
        return None;
      }
      if depth > MAX_DEPTH {
        return Some(TooDeep);
      }
      if token.OpenObject? {
        problem := ScanJSONObject(schema, depth, base);
      } else {
        problem := ScanJSONArray(schema, depth, base);
      }
    }

    /** The next value, where one may start. */
    method ScanJSONValue(schema: Schema, depth: nat, ghost base: seq<Frame>) returns (problem: Option<Problem>)
      requires Valid() && !WantsKey(decoder.open) && base == AfterValue(decoder.open)
      requires decoder.pos < |decoder.stream| && decoder.stream[decoder.pos].CloseArray? ==>
        decoder.open == [] || !decoder.open[|decoder.open| - 1].InArray?
      modifies this, decoder
      ensures Valid()
      ensures Agrees(problem, ScanValue(ty, decoder.stream, old(Here()), schema, depth), Here())
      ensures problem.None? ==> decoder.open == base
      decreases |decoder.stream| - decoder.pos, 0
    {
      var first := Next();
      if first.Err? {
        return Some(SyntaxProblem(first.error));
      }
      problem := ScanJSONToken(first.value, schema, depth, base);
    }

    method ScanJSONObject(schema: Schema, depth: nat, ghost base: seq<Frame>) returns (problem: Option<Problem>)
      requires Valid() && decoder.open == base + [InObject(true)]
      modifies this, decoder
      ensures Valid()
      ensures Agrees(problem, ScanMembers(ty, decoder.stream, old(Here()), schema, depth, {}, 0), Here())
      ensures problem.None? ==> decoder.open == base
      decreases |decoder.stream| - decoder.pos, 1
    {
      var seen: set<string>, n: nat := {}, 0;
      var more := decoder.More();
      while more
        invariant Valid() && decoder.open == base + [InObject(true)] && old(decoder.pos) <= decoder.pos
        invariant more == (decoder.pos < |decoder.stream| && !IsClose(decoder.stream[decoder.pos]))
        invariant ScanMembers(ty, decoder.stream, Here(), schema, depth, seen, n)
               == ScanMembers(ty, decoder.stream, old(Here()), schema, depth, {}, 0)
        decreases |decoder.stream| - decoder.pos
      {
        n := n + 1;
        if n > MaxMembers(ty, schema) {
          return Some(TooManyMembers);
        }
        var key := Next();
        if key.Err? {
          return Some(SyntaxProblem(key.error));
        }
        var wrong := KeyProblem(ty, schema, key.value.text, seen);
        if wrong.Some? {
          return wrong;
        }
        seen := seen + {key.value.text};
        problem := ScanJSONValue(Child(ty, schema, key.value.text), depth + 1, base + [InObject(true)]);
        if problem.Some? {
          return;
        }
        more := decoder.More();
      }
      problem := CloseContainer();
    }

    method ScanJSONArray(schema: Schema, depth: nat, ghost base: seq<Frame>) returns (problem: Option<Problem>)
      requires Valid() && decoder.open == base + [InArray]
      modifies this, decoder
      ensures Valid()
      ensures Agrees(problem, ScanItems(ty, decoder.stream, old(Here()), schema, depth, 0), Here())
      ensures problem.None? ==> decoder.open == base
      decreases |decoder.stream| - decoder.pos, 1
    {
      var n: nat := 0;
      var more := decoder.More();
      while more
        invariant Valid() && decoder.open == base + [InArray] && old(decoder.pos) <= decoder.pos
        invariant more == (decoder.pos < |decoder.stream| && !IsClose(decoder.stream[decoder.pos]))
        invariant ScanItems(ty, decoder.stream, Here(), schema, depth, n)
               == ScanItems(ty, decoder.stream, old(Here()), schema, depth, 0)
        decreases |decoder.stream| - decoder.pos
      {
        if n >= MaxItems(ty, schema) {
          return Some(TooManyItems);
        }
        n := n + 1;
        problem := ScanJSONValue(Element(ty, schema), depth + 1, base + [InArray]);
        if problem.Some? {
          return;
        }
        more := decoder.More();
      }
      problem := CloseContainer();
    }

    /** The closing token, where no more items follow. */
    method CloseContainer() returns (problem: Option<Problem>)
      requires Valid() && decoder.open != [] && !(decoder.open[|decoder.open| - 1] == InObject(false))
      requires decoder.pos < |decoder.stream| ==> IsClose(decoder.stream[decoder.pos])
      modifies this, decoder
      ensures Valid()
      ensures var closes := if old(WantsKey(decoder.open)) then CloseObject else CloseArray;
        Agrees(problem, Take(decoder.stream, old(Here()), old(decoder.pos) < |decoder.stream| && decoder.stream[old(decoder.pos)] == closes), Here())
      ensures problem.None? ==> decoder.open == old(decoder.open)[..|old(decoder.open)| - 1]
    {
      var end := Next();
      if end.Err? {
        return Some(SyntaxProblem(end.error));
      }
      problem := None;
    }
  }

  /** The stack right after the first token of a value in the context `base`. */
  function Opened(base: seq<Frame>, first: Token): seq<Frame> {
    if first.OpenObject? then base + [InObject(true)]
    else if first.OpenArray? then base + [InArray]
    else base
  }

  /** The method found what the function says, and stands where it says. */
  predicate Agrees(problem: Option<Problem>, r: Result<Mark, Problem>, here: Mark) {
    match r
    case Ok(mark) => problem.None? && here == mark
    case Err(error) => problem == Some(error)
  }

  /** A request body: none, or tokens; `blank` says that there were bytes although there may be no token. */
  datatype Body = Absent | Present(tokens: seq<Token>, blank: bool)

  /** An absent or empty body counts as empty; blanks do not. */
  predicate IsEmpty(body: Body) {
    body.Absent? || (body.tokens == [] && !body.blank)
  }

  method ScanJSONDocument(ty: Types, body: Body, schema: Schema, allowEmpty: bool) returns (problem: Option<Problem>)
    ensures problem.None? <==>
      (IsEmpty(body) && allowEmpty) || (body.Present? && body.tokens != [] && Acceptable(ty, body.tokens, schema))
    ensures IsEmpty(body) && !allowEmpty ==> problem == Some(Missing)
    ensures body.Present? && body.tokens != [] ==> problem == ScanDocument(ty, body.tokens, schema)
  {
    if body.Absent? {
      return if allowEmpty then None else Some(Missing);
    }
    var decoder := new Decoder(body.tokens);
    var scanner := new TokenScanner(ty, decoder);
    var first := scanner.Next();
    if first == Err(Decoding(EndOfInput)) {
      return if body.blank then Some(BadSyntax) else if allowEmpty then None else Some(Missing);
    }
    AcceptsExactly(ty, body.tokens, schema);
    if first.Err? {
      return Some(BadSyntax);
    }
    if !first.value.OpenObject? && !first.value.OpenArray? {
      return Some(NotAContainer);
    }
    problem := scanner.ScanJSONToken(first.value, schema, 1, []);
    if problem.Some? {
      return;
    }
    var trailing := scanner.Next();
    if trailing.Ok? {
      return Some(NotSingle);
    }
    problem := if trailing.error == Decoding(EndOfInput) then None else Some(BadSyntax);
  }
}
