/**
JSON values, their token streams, and a pull decoder over a token stream in the manner of Go's
`json.Decoder`.  Strings are byte strings: one char stands for one byte.
 */
module JsonTree {
  import opened Wrappers

  datatype Json =
    | Null
    | Bool(value: bool)
    | Number(lexeme: string)
    | Text(text: string)
    | Arr(items: seq<Json>)
    | Obj(members: seq<Member>)

  datatype Member = Member(key: string, value: Json)

  datatype Token =
    | NullToken
    | BoolToken(value: bool)
    | NumberToken(lexeme: string)
    | TextToken(text: string)
    | OpenObject
    | CloseObject
    | OpenArray
    | CloseArray
    | Invalid // where the input stops being JSON

  predicate IsClose(t: Token) {
    t.CloseObject? || t.CloseArray?
  }

  predicate StartsValue(t: Token) {
    !IsClose(t) && !t.Invalid?
  }

  // ---------- Trees as tokens ----------

  function Tokens(v: Json): (ts: seq<Token>)
    ensures ts != [] && StartsValue(ts[0])
  {
    match v
    case Null => [NullToken]
    case Bool(b) => [BoolToken(b)]
    case Number(n) => [NumberToken(n)]
    case Text(s) => [TextToken(s)]
    case Arr(items) => [OpenArray] + ItemTokens(items) + [CloseArray]
    case Obj(members) => [OpenObject] + MemberTokens(members) + [CloseObject]
  }

  function ItemTokens(items: seq<Json>): seq<Token> {
    if items == [] then [] else Tokens(items[0]) + ItemTokens(items[1..])
  }

  function MemberTokens(members: seq<Member>): seq<Token> {
    if members == [] then [] else PairTokens(members[0]) + MemberTokens(members[1..])
  }

  function PairTokens(m: Member): (ts: seq<Token>)
    ensures ts != [] && ts[0] == TextToken(m.key)
  {
    [TextToken(m.key)] + Tokens(m.value)
  }

  /** The tokens occur in the stream from this position on. */
  predicate At(stream: seq<Token>, pos: nat, ts: seq<Token>) {
    pos + |ts| <= |stream| && stream[pos..pos + |ts|] == ts
  }

  lemma {:induction false} AtConcat(stream: seq<Token>, pos: nat, a: seq<Token>, b: seq<Token>)
    ensures At(stream, pos, a + b) <==> At(stream, pos, a) && At(stream, pos + |a|, b)
  {
    if At(stream, pos, a + b) {
      assert a == (a + b)[..|a|] && b == (a + b)[|a|..];
    }
    if At(stream, pos, a) && At(stream, pos + |a|, b) {
      assert stream[pos..pos + |a + b|] == stream[pos..pos + |a|] + stream[pos + |a|..pos + |a| + |b|];
    }
  }

  lemma {:induction false} AtThree(stream: seq<Token>, pos: nat, a: seq<Token>, b: seq<Token>, c: seq<Token>)
    ensures At(stream, pos, a + b + c) <==> At(stream, pos, a) && At(stream, pos + |a|, b + c)
  {
    assert a + b + c == a + (b + c);
    AtConcat(stream, pos, a, b + c);
  }

  lemma {:induction false} EndAt(stream: seq<Token>, pos: nat, close: Token)
    requires At(stream, pos, [] + [close])
    ensures pos < |stream| && stream[pos] == close
  {
    assert stream[pos] == stream[pos..pos + 1][0];
  }

  lemma {:induction false} MemberAt(stream: seq<Token>, pos: nat, ms: seq<Member>)
    requires ms != [] && At(stream, pos, MemberTokens(ms) + [CloseObject])
    ensures At(stream, pos, PairTokens(ms[0])) && stream[pos] == TextToken(ms[0].key)
    ensures At(stream, pos + |PairTokens(ms[0])|, MemberTokens(ms[1..]) + [CloseObject])
  {
    var pair, rest := PairTokens(ms[0]), MemberTokens(ms[1..]);
    AtThree(stream, pos, pair, rest, [CloseObject]);
    assert stream[pos] == pair[0];
  }

  lemma {:induction false} ItemAt(stream: seq<Token>, pos: nat, items: seq<Json>)
    requires items != [] && At(stream, pos, ItemTokens(items) + [CloseArray])
    ensures At(stream, pos, Tokens(items[0])) && StartsValue(stream[pos])
    ensures At(stream, pos + |Tokens(items[0])|, ItemTokens(items[1..]) + [CloseArray])
  {
    var item, rest := Tokens(items[0]), ItemTokens(items[1..]);
    AtThree(stream, pos, item, rest, [CloseArray]);
    assert stream[pos] == item[0];
  }

  lemma {:induction false} CloseAt(stream: seq<Token>, pos: nat)
    requires pos < |stream|
    ensures stream[pos].CloseArray? ==> At(stream, pos, ItemTokens([]) + [CloseArray])
    ensures stream[pos].CloseObject? ==> At(stream, pos, MemberTokens([]) + [CloseObject])
  {
    assert stream[pos..pos + 1] == [stream[pos]];
  }

  lemma {:induction false} MemberThen(stream: seq<Token>, pos: nat, m: Member, rest: seq<Member>)
    requires At(stream, pos, PairTokens(m)) && At(stream, pos + |PairTokens(m)|, MemberTokens(rest) + [CloseObject])
    ensures At(stream, pos, MemberTokens([m] + rest) + [CloseObject])
  {
    AtThree(stream, pos, PairTokens(m), MemberTokens(rest), [CloseObject]);
    assert ([m] + rest)[1..] == rest;
  }

  lemma {:induction false} ItemThen(stream: seq<Token>, pos: nat, item: Json, rest: seq<Json>)
    requires At(stream, pos, Tokens(item)) && At(stream, pos + |Tokens(item)|, ItemTokens(rest) + [CloseArray])
    ensures At(stream, pos, ItemTokens([item] + rest) + [CloseArray])
  {
    AtThree(stream, pos, Tokens(item), ItemTokens(rest), [CloseArray]);
    assert ([item] + rest)[1..] == rest;
  }

  // ---------- The decoder ----------

  datatype Frame = InArray | InObject(wantKey: bool)

  datatype DecodeError = EndOfInput | Syntax

  /** The stack after a value starting in this context has been read. */
  function AfterValue(open: seq<Frame>): seq<Frame> {
    if open != [] && open[|open| - 1].InObject? then open[..|open| - 1] + [InObject(true)] else open
  }

  predicate WantsKey(open: seq<Frame>) {
    open != [] && open[|open| - 1] == InObject(true)
  }

  /** The stack after this token, or None where it may not stand. */
  function Advance(open: seq<Frame>, t: Token): Option<seq<Frame>> {
    if t.Invalid? then None
    else if t.CloseObject? then
      if WantsKey(open) then Some(open[..|open| - 1]) else None
    else if t.CloseArray? then
      if open != [] && open[|open| - 1].InArray? then Some(open[..|open| - 1]) else None
    else if WantsKey(open) then
      if t.TextToken? then Some(open[..|open| - 1] + [InObject(false)]) else None
    else if t.OpenObject? then Some(AfterValue(open) + [InObject(true)])
    else if t.OpenArray? then Some(AfterValue(open) + [InArray])
    else Some(AfterValue(open))
  }

  class Decoder {
    const stream: seq<Token>
    var pos: nat
    var open: seq<Frame>

    ghost predicate Valid()
      reads this
    {
      pos <= |stream|
    }

    constructor (stream: seq<Token>)
      ensures this.stream == stream && pos == 0 && open == [] && Valid()
    {
      this.stream, this.pos, this.open := stream, 0, [];
    }

    /** Whether another item or member follows in the current array or object. */
    method More() returns (more: bool)
      requires Valid()
      ensures more == (pos < |stream| && !IsClose(stream[pos]))
    {
      more := pos < |stream| && !IsClose(stream[pos]);
    }

    method Token() returns (r: Result<Token, DecodeError>)
      requires Valid()
      modifies this
      ensures Valid()
      ensures r == if old(pos) == |stream| then Err(EndOfInput)
                   else if Advance(old(open), stream[old(pos)]).None? then Err(Syntax)
                   else Ok(stream[old(pos)])
      ensures r.Ok? ==> pos == old(pos) + 1 && open == Advance(old(open), stream[old(pos)]).value
      ensures r.Err? ==> pos == old(pos) && open == old(open)
    {
      if pos == |stream| {
        return Err(EndOfInput);
      }
      var next := Advance(open, stream[pos]);
      if next.None? {
        return Err(Syntax);
      }
      r := Ok(stream[pos]);
      pos, open := pos + 1, next.value;
    }
  }
}
