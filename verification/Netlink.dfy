/**
Netlink messages: the header of section 2.3.2 of RFC 3549, the walker over a datagram of aligned messages,
and the sequence counter.
 */
module Netlink {
  import opened Wrappers
  import opened Bytes

  const HEADER_LEN: nat := 16

  datatype Message = Message(kind: uint16, flags: uint16, sequence: uint32, pid: uint32, payload: seq<byte>)

  predicate Sized(m: Message) {
    HEADER_LEN + |m.payload| <= 0xFFFF_FFFF
  }

  function Header(order: Order, length: nat, m: Message): (out: seq<byte>)
    ensures |out| == HEADER_LEN
  {
    Put(order, length, 4) + Put(order, m.kind, 2) + Put(order, m.flags, 2) + Put(order, m.sequence, 4) + Put(order, m.pid, 4)
  }

  function Marshal(order: Order, m: Message): (out: seq<byte>)
    ensures |out| == HEADER_LEN + |m.payload|
  {
    Header(order, HEADER_LEN + |m.payload|, m) + m.payload
  }

  function Align(length: nat): (aligned: nat)
    ensures length <= aligned < length + 4 && aligned % 4 == 0
  {
    (length + 3) / 4 * 4
  }

  // ---------- Decoding one message ----------

  function Field(order: Order, data: seq<byte>, at: nat, width: nat): (n: nat)
    requires at + width <= |data|
    ensures n < Pow256(width)
  {
    PutGet(order, data[at..at + width]);
    Get(order, data[at..at + width])
  }

  /** The message at the front of the remaining bytes; None for a truncated header, a length below it or beyond the end. */
  function FirstMessage(order: Order, rest: seq<byte>): (m: Option<Message>)
    ensures m.Some? ==> HEADER_LEN + |m.value.payload| <= |rest| && Sized(m.value)
  {
    if |rest| < HEADER_LEN then None
    else
      Powers();
      var length := Field(order, rest, 0, 4);
      if length < HEADER_LEN || length > |rest| then None
      else
        Some(Message(Field(order, rest, 4, 2), Field(order, rest, 6, 2), Field(order, rest, 8, 4), Field(order, rest, 12, 4),
                     rest[HEADER_LEN..length]))
  }

  lemma {:induction false} HeaderFields(order: Order, length: nat, m: Message, tail: seq<byte>)
    requires length <= 0xFFFF_FFFF
    ensures var d := Header(order, length, m) + tail;
      && Field(order, d, 0, 4) == length && Field(order, d, 4, 2) == m.kind && Field(order, d, 6, 2) == m.flags
      && Field(order, d, 8, 4) == m.sequence && Field(order, d, 12, 4) == m.pid
  {
    var d := Header(order, length, m) + tail;
    Powers();
    GetPut(order, length, 4);
    GetPut(order, m.kind, 2);
    GetPut(order, m.flags, 2);
    GetPut(order, m.sequence, 4);
    GetPut(order, m.pid, 4);
    assert d[0..4] == Put(order, length, 4) && d[4..6] == Put(order, m.kind, 2) && d[6..8] == Put(order, m.flags, 2);
    assert d[8..12] == Put(order, m.sequence, 4) && d[12..16] == Put(order, m.pid, 4);
  }

  lemma {:induction false} Slices(a: seq<byte>, b: seq<byte>, c: seq<byte>)
    ensures a + b + c == a + (b + c) && (a + b + c)[|a|..|a| + |b|] == b
  {
  }

  lemma {:induction false} FirstMessageOf(order: Order, rest: seq<byte>, length: nat, m: Message)
    requires HEADER_LEN <= length <= |rest|
    requires Field(order, rest, 0, 4) == length && Field(order, rest, 4, 2) == m.kind && Field(order, rest, 6, 2) == m.flags
    requires Field(order, rest, 8, 4) == m.sequence && Field(order, rest, 12, 4) == m.pid
    requires rest[HEADER_LEN..length] == m.payload
    ensures FirstMessage(order, rest) == Some(m)
  {
  }

  /** A marshalled message is decoded from the front of anything it starts. */
  lemma {:induction false} DecodesMarshalled(order: Order, m: Message, tail: seq<byte>)
    requires Sized(m)
    ensures FirstMessage(order, Marshal(order, m) + tail) == Some(m)
  {
    var length := HEADER_LEN + |m.payload|;
    var header := Header(order, length, m);
    var rest := header + m.payload + tail;
    HeaderFields(order, length, m, m.payload + tail);
    Slices(header, m.payload, tail);
    FirstMessageOf(order, rest, length, m);
  }

  /** And whatever is decoded was there in marshalled form. */
  lemma {:induction false} MarshalsDecoded(order: Order, rest: seq<byte>)
    requires FirstMessage(order, rest).Some?
    ensures Marshal(order, FirstMessage(order, rest).value) == rest[..HEADER_LEN + |FirstMessage(order, rest).value.payload|]
  {
    var m := FirstMessage(order, rest).value;
    var length := HEADER_LEN + |m.payload|;
    PutGet(order, rest[0..4]);
    PutGet(order, rest[4..6]);
    PutGet(order, rest[6..8]);
    PutGet(order, rest[8..12]);
    PutGet(order, rest[12..16]);
    assert Header(order, length, m) == rest[0..4] + rest[4..6] + rest[6..8] + rest[8..12] + rest[12..16];
    assert rest[..length] == rest[..HEADER_LEN] + rest[HEADER_LEN..length];
  }

  // ---------- Walking a datagram ----------

  /** A way to write a message and to read the one at the front of some bytes. */
  datatype Codec = Codec(marshal: Message -> seq<byte>, first: seq<byte> -> Option<Message>)

  function Native(order: Order): Codec {
    Codec((m: Message) => Marshal(order, m), (rest: seq<byte>) => FirstMessage(order, rest))
  }

  /** Reading undoes writing whatever follows, and only what was written is read. */
  ghost predicate Faithful(c: Codec) {
    && (forall m :: |c.marshal(m)| == HEADER_LEN + |m.payload|)
    && (forall m, tail :: Sized(m) ==> c.first(c.marshal(m) + tail) == Some(m))
    && (forall rest :: c.first(rest).Some? ==> Sized(c.first(rest).value) && c.marshal(c.first(rest).value) <= rest)
  }

  lemma {:induction false} NativeFaithful(order: Order)
    ensures Faithful(Native(order))
  {
    var c := Native(order);
    forall m, tail | Sized(m) ensures c.first(c.marshal(m) + tail) == Some(m) {
      DecodesMarshalled(order, m, tail);
    }
    forall rest | c.first(rest).Some?
      ensures Sized(c.first(rest).value) && c.marshal(c.first(rest).value) <= rest
    {
      MarshalsDecoded(order, rest);
    }
  }

  /** How far a message of this length reaches; None when its padding is cut short. */
  function Stride(length: nat, remaining: nat): (stride: Option<nat>)
    requires length <= remaining
    ensures stride.Some? ==> length <= stride.value <= remaining
  {
    if Align(length) <= remaining then Some(Align(length))
    else if length == remaining then Some(length)
    else None
  }

  /** The message at the front of a non-empty rest, if it lies inside. */
  function Front(c: Codec, rest: seq<byte>): (m: Option<Message>)
    ensures m.Some? ==> HEADER_LEN + |m.value.payload| <= |rest|
  {
    var m := c.first(rest);
    if m.None? || HEADER_LEN + |m.value.payload| > |rest| then None else m
  }

  /** The messages handed to the visitor, in order, and whether the datagram was well formed to its end. */
  function Visits(c: Codec, rest: seq<byte>): (v: (seq<Message>, bool))
    decreases |rest|
  {
    if rest == [] then ([], true)
    else
      var m := Front(c, rest);
      if m.None? then ([], false)
      else
        var stride := Stride(HEADER_LEN + |m.value.payload|, |rest|);
        if stride.None? then ([m.value], false)
        else
          var more := Visits(c, rest[stride.value..]);
          ([m.value] + more.0, more.1)
  }

  /** An empty datagram is an error of its own. */
  function Walk(c: Codec, data: seq<byte>): (seq<Message>, bool) {
    if data == [] then ([], false) else Visits(c, data)
  }

  /** The bytes are the marshalled messages, each padded to four bytes with anything; the last may go unpadded. */
  ghost predicate Packs(c: Codec, messages: seq<Message>, data: seq<byte>)
    decreases |messages|
  {
    if messages == [] then data == []
    else
      var m := c.marshal(messages[0]);
      && Sized(messages[0])
      && m <= data
      && ((|messages| == 1 && data == m) ||
          (Align(|m|) <= |data| && Packs(c, messages[1..], data[Align(|m|)..])))
  }

  lemma {:induction false} FrontOfPacked(c: Codec, m: Message, data: seq<byte>)
    requires Faithful(c) && Sized(m) && c.marshal(m) <= data
    ensures Front(c, data) == Some(m) && data != []
  {
    var bytes := c.marshal(m);
    assert data == bytes + data[|bytes|..];
  }

  lemma {:induction false} VisitsStep(c: Codec, m: Message, data: seq<byte>, stride: nat)
    requires data != [] && Front(c, data) == Some(m)
    requires Stride(HEADER_LEN + |m.payload|, |data|) == Some(stride)
    ensures Visits(c, data).0 == [m] + Visits(c, data[stride..]).0
    ensures Visits(c, data).1 == Visits(c, data[stride..]).1
  {
  }

  lemma {:induction false} VisitsPacked(c: Codec, messages: seq<Message>, data: seq<byte>)
    requires Faithful(c) && Packs(c, messages, data)
    ensures Visits(c, data).0 == messages && Visits(c, data).1
    decreases |messages|
  {
    if messages != [] {
      var length := |c.marshal(messages[0])|;
      var stride := if Align(length) <= |data| then Align(length) else length;
      FrontOfPacked(c, messages[0], data);
      VisitsStep(c, messages[0], data, stride);
      if |messages| == 1 && data[stride..] == [] {
        assert Visits(c, data[stride..]).0 == [];
      } else {
        VisitsPacked(c, messages[1..], data[stride..]);
      }
      assert messages == [messages[0]] + messages[1..];
    }
  }

  lemma {:induction false} PacksStep(c: Codec, m: Message, rest: seq<Message>, data: seq<byte>, stride: nat)
    requires Faithful(c) && data != [] && Front(c, data) == Some(m)
    requires Stride(HEADER_LEN + |m.payload|, |data|) == Some(stride) && Packs(c, rest, data[stride..])
    ensures Packs(c, [m] + rest, data)
  {
    var messages := [m] + rest;
    assert messages[1..] == rest;
    assert c.first(data) == Some(m);
    if stride < Align(HEADER_LEN + |m.payload|) {
      assert data[stride..] == [];
      assert rest == [];
      assert data == c.marshal(m);
    }
  }

  lemma {:induction false} PackedVisits(c: Codec, data: seq<byte>)
    requires Faithful(c) && Visits(c, data).1
    ensures Packs(c, Visits(c, data).0, data)
    decreases |data|
  {
    if data != [] {
      var m := Front(c, data).value;
      var stride := Stride(HEADER_LEN + |m.payload|, |data|).value;
      PackedVisits(c, data[stride..]);
      VisitsStep(c, m, data, stride);
      PacksStep(c, m, Visits(c, data[stride..]).0, data, stride);
    }
  }

  /** The walker accepts exactly the aligned concatenations and visits exactly the messages they were made of. */
  lemma {:induction false} WalkInvertsPacking(order: Order, data: seq<byte>, messages: seq<Message>)
    ensures Walk(Native(order), data) == (messages, true) <==> data != [] && Packs(Native(order), messages, data)
  {
    NativeFaithful(order);
    if Walk(Native(order), data) == (messages, true) {
      PackedVisits(Native(order), data);
    }
    if Packs(Native(order), messages, data) {
      VisitsPacked(Native(order), messages, data);
    }
  }

  /** What has been visited after a walk, given what had been before. */
  function Total(c: Codec, data: seq<byte>, before: seq<Message>): seq<Message> {
    before + Walk(c, data).0
  }

  /** At this offset, with `seen` behind it, a walk is where the walk over `data` would be. */
  ghost predicate Resumes(c: Codec, data: seq<byte>, before: seq<Message>, offset: nat, seen: seq<Message>) {
    && offset <= |data|
    && Total(c, data, before) == seen + Visits(c, data[offset..]).0
    && Walk(c, data).1 == Visits(c, data[offset..]).1
  }

  lemma {:induction false} WalkStarts(c: Codec, data: seq<byte>, before: seq<Message>)
    requires data != []
    ensures Resumes(c, data, before, 0, before)
  {
    assert data[0..] == data;
  }

  lemma {:induction false} WalkEnds(c: Codec, data: seq<byte>, before: seq<Message>, seen: seq<Message>)
    requires Resumes(c, data, before, |data|, seen)
    ensures Walk(c, data).1 && seen == Total(c, data, before)
  {
    assert data[|data|..] == [] && seen + [] == seen;
  }

  lemma {:induction false} VisitsCut(c: Codec, m: Message, data: seq<byte>)
    requires data != [] && Front(c, data) == Some(m) && Stride(HEADER_LEN + |m.payload|, |data|).None?
    ensures Visits(c, data).0 == [m] && !Visits(c, data).1
  {
  }

  lemma {:induction false} OneSeen(seen: seq<Message>, m: Message, later: seq<Message>)
    ensures seen + ([m] + later) == seen + [m] + later
    ensures seen + [m] <= seen + ([m] + later)
  {
  }

  lemma {:induction false} WalkMoves(c: Codec, data: seq<byte>, before: seq<Message>, offset: nat, seen: seq<Message>)
    requires Resumes(c, data, before, offset, seen) && offset < |data|
    ensures seen <= Total(c, data, before)
    ensures Front(c, data[offset..]).None? ==> !Walk(c, data).1 && seen == Total(c, data, before)
    ensures Front(c, data[offset..]).Some? ==>
      var m := Front(c, data[offset..]).value;
      var stride := Stride(HEADER_LEN + |m.payload|, |data| - offset);
      && seen + [m] <= Total(c, data, before)
      && (stride.None? ==> !Walk(c, data).1 && seen + [m] == Total(c, data, before))
      && (stride.Some? ==> Resumes(c, data, before, offset + stride.value, seen + [m]))
  {
    var rest := data[offset..];
    if Front(c, rest).Some? {
      var m := Front(c, rest).value;
      var stride := Stride(HEADER_LEN + |m.payload|, |rest|);
      if stride.Some? {
        VisitsStep(c, m, rest, stride.value);
        assert rest[stride.value..] == data[offset + stride.value..];
        OneSeen(seen, m, Visits(c, rest[stride.value..]).0);
      } else {
        VisitsCut(c, m, rest);
      }
    }
  }

  /** The walk as a loop over an offset that strictly grows. */
  method WalkMessages(c: Codec, data: seq<byte>) returns (visited: seq<Message>, ok: bool)
    ensures visited == Total(c, data, []) && ok == Walk(c, data).1
  {
    visited := [];
    if |data| == 0 {
      return visited, false;
    }
    var offset := 0;
    WalkStarts(c, data, []);
    while offset < |data|
      invariant 0 <= offset <= |data|
      invariant Resumes(c, data, [], offset, visited)
      decreases |data| - offset
    {
      WalkMoves(c, data, [], offset, visited);
      var m := Front(c, data[offset..]);
      if m.None? {
        return visited, false;
      }
      var stride := Stride(HEADER_LEN + |m.value.payload|, |data| - offset);
      visited := visited + [m.value];
      if stride.None? {
        return visited, false;
      }
      offset := offset + stride.value;
    }
    WalkEnds(c, data, [], visited);
    ok := true;
  }

  // ---------- Sequence numbers ----------

  /** The counter wraps at 32 bits and skips zero. */
  function NextSequence(s: uint32): uint32 {
    var next := (s + 1) % 0x1_0000_0000;
    if next == 0 then 1 else next
  }

  function Draw(s: uint32, k: nat): uint32 {
    if k == 0 then s else NextSequence(Draw(s, k - 1))
  }

  const PERIOD: nat := 0xFFFF_FFFF

  lemma {:induction false} NextOf(r: nat)
    requires r < PERIOD
    ensures NextSequence(1 + r) == if r == PERIOD - 1 then 1 else r + 2
  {
  }

  lemma {:induction false} DrawClosedForm(s: uint32, k: nat)
    requires k > 0
    ensures Draw(s, k) == 1 + (s + k - 1) % PERIOD
  {
    if k > 1 {
      DrawClosedForm(s, k - 1);
      var n := s + k - 2;
      ModSuccessor(n);
      NextOf(n % PERIOD);
    } else {
      assert Draw(s, 0) == s;
      assert s % PERIOD == if s == PERIOD then 0 else s;
    }
  }

  lemma {:induction false} ModSuccessor(n: nat)
    ensures (n + 1) % PERIOD == if n % PERIOD == PERIOD - 1 then 0 else n % PERIOD + 1
  {
    var q := n / PERIOD;
    assert n == q * PERIOD + n % PERIOD;
    if n % PERIOD == PERIOD - 1 {
      assert n + 1 == (q + 1) * PERIOD;
    } else {
      assert n + 1 == q * PERIOD + (n % PERIOD + 1);
    }
  }

  lemma {:induction false} ModShift(n: nat, d: nat)
    requires 0 < d < PERIOD
    ensures (n + d) % PERIOD != n % PERIOD
  {
    var q, r := n / PERIOD, n % PERIOD;
    assert n == q * PERIOD + r;
    if r + d < PERIOD {
      assert n + d == q * PERIOD + (r + d);
      assert (n + d) % PERIOD == r + d;
    } else {
      assert n + d == (q + 1) * PERIOD + (r + d - PERIOD);
      assert (n + d) % PERIOD == r + d - PERIOD;
    }
  }

  lemma {:induction false} Apart(x: nat, y: nat, n: nat, d: nat)
    requires 0 < d < PERIOD && x == 1 + n % PERIOD && y == 1 + (n + d) % PERIOD
    ensures x != 0 && x != y
  {
    ModShift(n, d);
  }

  /** Sequence numbers are never zero, and any 2^32 - 1 draws in a row are pairwise different. */
  lemma {:induction false} SequencesDistinct(s: uint32, i: nat, j: nat)
    requires 0 < i < j < i + PERIOD
    ensures Draw(s, i) != 0 && Draw(s, i) != Draw(s, j)
  {
    DrawClosedForm(s, i);
    DrawClosedForm(s, j);
    Apart(Draw(s, i), Draw(s, j), s + i - 1, j - i);
  }
}
