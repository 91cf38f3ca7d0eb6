/**
Destroying TCP sockets through the socket-diagnostics netlink family: one transport streams a dump, a second
one destroys every matching socket and waits for its acknowledgement while the dump is still
being walked.  What the kernel delivers is an arbitrary list of datagrams per transport.
 */
module SocketKill {
  import opened Wrappers
  import opened Bytes
  import opened Netlink

  const NOOP: uint16 := 1
  const ERROR: uint16 := 2
  const DONE: uint16 := 3
  const DIAG_BY_FAMILY: uint16 := 20
  const DESTROY: uint16 := 21
  const FLAG_REQUEST_ACK: uint16 := 0x5
  const FLAG_REQUEST_DUMP: uint16 := 0x301
  const AF_INET: byte := 2
  const AF_INET6: byte := 10
  const IPPROTO_TCP: byte := 6
  const ENOENT: nat := 2
  const CONNECTED_STATES: nat := 0x3B37
  const REQUEST_LEN: nat := 56
  const DIAG_MIN_LEN: nat := 72
  const RECEIVE_BUFFER: nat := 65536

  // ---------- Requests ----------

  datatype Socket = Socket(family: byte, id: seq<byte>)

  function Zeros(n: nat): (out: seq<byte>)
    ensures |out| == n
  {
    seq(n, _ => 0)
  }

  function DumpRequest(order: Order, family: byte, sequence: uint32): seq<byte> {
    Marshal(order, Message(DIAG_BY_FAMILY, FLAG_REQUEST_DUMP, sequence, 0,
      [family, IPPROTO_TCP, 0, 0] + Put(order, CONNECTED_STATES, 4) + Zeros(REQUEST_LEN - 8)))
  }

  function DestroyRequest(order: Order, s: Socket, sequence: uint32): seq<byte> {
    Marshal(order, Message(DESTROY, FLAG_REQUEST_ACK, sequence, 0, [s.family, IPPROTO_TCP, 0, 0, 0, 0, 0, 0] + s.id))
  }

  // ---------- Replies ----------

  /** Zero, or a negated error number in range; None for anything else. */
  function Errno(order: Order, status: seq<byte>): Option<nat>
    requires |status| == 4
  {
    var raw := Field(order, status, 0, 4);
    Powers();
    if raw == 0 then Some(0)
    else if raw < 0x8000_0000 || 0x1_0000_0000 - raw > 4095 then None
    else Some(0x1_0000_0000 - raw)
  }

  predicate ZeroDone(order: Order, payload: seq<byte>) {
    payload == [] || (|payload| >= 4 && Errno(order, payload[..4]) == Some(0))
  }

  /** The error number of an acknowledgement of the given request; None when it identifies another one or is malformed. */
  function AckErrno(order: Order, payload: seq<byte>, kind: uint16, sequence: uint32): Option<nat> {
    if |payload| < 4 + HEADER_LEN then None
    else
      var embedded := payload[4..];
      var length := Field(order, embedded, 0, 4);
      if length != HEADER_LEN + REQUEST_LEN || Field(order, embedded, 4, 2) != kind || Field(order, embedded, 8, 4) != sequence then None
      else Errno(order, payload[..4])
  }

  function Unmap(address: seq<byte>): seq<byte> {
    if |address| == 16 && address[..12] == [0, 0, 0, 0, 0, 0, 0, 0, 0, 0, 255, 255] then address[12..] else address
  }

  datatype Parsed = Malformed | NoMatch | Match(socket: Socket)

  /** A diagnostic record: matches when its source or destination, unmapped, is a target. */
  function ParseSocket(payload: seq<byte>, family: byte, targets: set<seq<byte>>): Parsed {
    if |payload| < DIAG_MIN_LEN || payload[0] != family || (family != AF_INET && family != AF_INET6) then Malformed
    else
      var width := if family == AF_INET then 4 else 16;
      var source := Unmap(payload[8..8 + width]);
      var destination := Unmap(payload[24..24 + width]);
      if source !in targets && destination !in targets then NoMatch
      else Match(Socket(family, payload[4..52]))
  }

  // ---------- What a dump means ----------

  datatype Query = Query(order: Order, port: uint32, sequence: uint32, family: byte, targets: set<seq<byte>>)

  /** What one message says to the reader of a dump. */
  datatype Reading = Bad | Filler | Plain | Hit(socket: Socket) | Finish

  predicate Interrupted(flags: uint16) {
    flags / 16 % 2 == 1
  }

  function Read(q: Query, m: Message): Reading {
    if m.pid != q.port || m.sequence != q.sequence || Interrupted(m.flags) then Bad
    else if m.kind == DIAG_BY_FAMILY then
      match ParseSocket(m.payload, q.family, q.targets)
      case Malformed => Bad
      case NoMatch => Plain
      case Match(socket) => Hit(socket)
    else if m.kind == DONE then
      if ZeroDone(q.order, m.payload) then Finish else Bad
    else if m.kind == NOOP then Filler
    else Bad
  }

  function Readings<T>(read: Message -> T, messages: seq<Message>): (out: seq<T>)
    ensures |out| == |messages|
  {
    seq(|messages|, i requires 0 <= i < |messages| => read(messages[i]))
  }

  lemma {:induction false} ReadingsConcat<T>(read: Message -> T, a: seq<Message>, b: seq<Message>)
    ensures Readings(read, a + b) == Readings(read, a) + Readings(read, b)
  {
  }

  /** Whether the dump is complete, and the sockets to destroy so far. */
  datatype Dump = Dump(complete: bool, sockets: seq<Socket>)

  /** One reading; None is an error. */
  function Digest(d: Dump, r: Reading): Option<Dump> {
    match r
    case Bad => None
    case Filler => Some(d)
    case Plain => if d.complete then None else Some(d)
    case Hit(socket) => if d.complete then None else Some(d.(sockets := d.sockets + [socket]))
    case Finish => if d.complete then None else Some(d.(complete := true))
  }

  function DigestAll(readings: seq<Reading>): Option<Dump> {
    if readings == [] then Some(Dump(false, []))
    else
      var n := |readings| - 1;
      var d := DigestAll(readings[..n]);
      if d.None? then None else Digest(d.value, readings[n])
  }

  /** The matching records, in order, once each. */
  function Hits(readings: seq<Reading>): seq<Socket> {
    if readings == [] then []
    else
      var n := |readings| - 1;
      Hits(readings[..n]) + (if readings[n].Hit? then [readings[n].socket] else [])
  }

  predicate Streaming(readings: seq<Reading>) {
    forall i :: 0 <= i < |readings| ==> !readings[i].Bad? && !readings[i].Finish?
  }

  /** Records and fillers, one successful completion, then fillers only. */
  ghost predicate Complete(readings: seq<Reading>) {
    exists k :: 0 <= k < |readings| && CompleteAt(readings, k)
  }

  ghost predicate CompleteAt(readings: seq<Reading>, k: nat)
    requires k < |readings|
  {
    && readings[k].Finish?
    && (forall i :: 0 <= i < k ==> !readings[i].Bad? && !readings[i].Finish?)
    && (forall i :: k < i < |readings| ==> readings[i].Filler?)
  }

  lemma {:induction false} CompleteFrom(readings: seq<Reading>, k: nat)
    requires k < |readings| && CompleteAt(readings, k)
    ensures var n := |readings| - 1;
      if k == n then readings[n].Finish? && Streaming(readings[..n]) else readings[n].Filler? && CompleteAt(readings[..n], k)
  {
  }

  lemma {:induction false} CompleteTo(readings: seq<Reading>, k: nat)
    requires readings != []
    requires var n := |readings| - 1;
      || (k == n && readings[n].Finish? && Streaming(readings[..n]))
      || (k < n && readings[n].Filler? && CompleteAt(readings[..n], k))
    ensures CompleteAt(readings, k)
  {
    var n := |readings| - 1;
    assert forall i :: 0 <= i < n ==> readings[i] == readings[..n][i];
  }

  lemma {:induction false} CompleteSnoc(readings: seq<Reading>)
    requires readings != []
    ensures var n := |readings| - 1;
      Complete(readings) <==> (Streaming(readings[..n]) && readings[n].Finish?) || (Complete(readings[..n]) && readings[n].Filler?)
  {
    var n := |readings| - 1;
    if Complete(readings) {
      var k :| 0 <= k < |readings| && CompleteAt(readings, k);
      CompleteFrom(readings, k);
    }
    if Streaming(readings[..n]) && readings[n].Finish? {
      CompleteTo(readings, n);
    }
    if Complete(readings[..n]) && readings[n].Filler? {
      var k :| 0 <= k < n && CompleteAt(readings[..n], k);
      CompleteTo(readings, k);
    }
  }

  lemma {:induction false} NotBoth(readings: seq<Reading>)
    ensures !(Streaming(readings) && Complete(readings))
  {
  }

  lemma {:induction false} StreamingSnoc(readings: seq<Reading>)
    requires readings != []
    ensures var n := |readings| - 1;
      Streaming(readings) <==> Streaming(readings[..n]) && !readings[n].Bad? && !readings[n].Finish?
  {
    var n := |readings| - 1;
    assert forall i :: 0 <= i < n ==> readings[i] == readings[..n][i];
  }

  /**
  A dump is accepted exactly while it is streaming or complete, complete means exactly one
  completion, and the sockets are those of the matching records.
   */
  lemma {:induction false} DigestMeaning(readings: seq<Reading>)
    ensures DigestAll(readings).Some? <==> Streaming(readings) || Complete(readings)
    ensures DigestAll(readings).Some? ==> DigestAll(readings).value == Dump(Complete(readings), Hits(readings))
    decreases |readings|
  {
    if readings != [] {
      var n := |readings| - 1;
      DigestMeaning(readings[..n]);
      NotBoth(readings[..n]);
      StreamingSnoc(readings);
      CompleteSnoc(readings);
    }
  }

  lemma {:induction false} DigestNext(readings: seq<Reading>, r: Reading)
    ensures Hits(readings + [r]) == Hits(readings) + if r.Hit? then [r.socket] else []
    ensures DigestAll(readings + [r]) == if DigestAll(readings).None? then None else Digest(DigestAll(readings).value, r)
  {
    assert (readings + [r])[..|readings|] == readings;
  }

  lemma {:induction false} DigestFails(a: seq<Reading>, b: seq<Reading>)
    requires DigestAll(a).None?
    ensures DigestAll(a + b).None?
    decreases |b|
  {
    if b == [] {
      assert a + b == a;
    } else {
      DigestFails(a, b[..|b| - 1]);
      assert (a + b)[..|a + b| - 1] == a + b[..|b| - 1];
    }
  }

  // ---------- Transports ----------

  datatype Datagram = Datagram(data: seq<byte>, senderPID: uint32, senderGroups: uint32)

  predicate FromKernel(d: Datagram) {
    d.senderPID == 0 && d.senderGroups == 0
  }

  /** A received datagram: how much of the transport's own buffer it fills, and its sender. */
  datatype Packet = Packet(length: nat, senderPID: uint32, senderGroups: uint32)

  class Transport {
    const port: uint32
    const buffer: array<byte>
    /** The system calls themselves never fail. */
    const reliable: bool
    var inbox: seq<Datagram>
    var sent: seq<seq<byte>>
    /** How many sends and receives have failed. */
    var failures: nat

    /** Only a missing datagram can make a call fail. */
    ghost predicate Calm()
      reads this
    {
      reliable && forall p :: p in inbox ==> 0 < |p.data| <= buffer.Length
    }

    constructor (port: uint32, reliable: bool, inbox: seq<Datagram>)
      ensures this.port == port && this.reliable == reliable && this.inbox == inbox && sent == [] && failures == 0
      ensures fresh(buffer) && buffer.Length == RECEIVE_BUFFER
    {
      this.reliable := reliable;
      this.port, this.inbox, this.sent, this.failures := port, inbox, [], 0;
      buffer := new byte[RECEIVE_BUFFER];
    }

    method Send(message: seq<byte>) returns (ok: bool)
      modifies this`sent, this`failures
      ensures sent == old(sent) + if ok then [message] else []
      ensures failures == old(failures) + if ok then 0 else 1
      ensures reliable ==> ok
    {
      ok := *;
      ok := ok || reliable;
      if ok {
        sent := sent + [message];
      } else {
        failures := failures + 1;
      }
    }

    /** Copies the next datagram over the buffer; any failure, truncation or empty datagram is an error. */
    method Receive() returns (packet: Option<Packet>)
      modifies this`inbox, this`failures, buffer
      ensures failures == old(failures) + if packet.Some? then 0 else 1
      ensures packet.Some? ==>
        && old(inbox) != [] && inbox == old(inbox)[1..]
        && var next := old(inbox)[0];
           packet.value.length == |next.data| && 0 < |next.data| <= buffer.Length && buffer[..|next.data|] == next.data
           && packet.value.senderPID == next.senderPID && packet.value.senderGroups == next.senderGroups
      ensures packet.None? ==> inbox == old(inbox) || (old(inbox) != [] && inbox == old(inbox)[1..])
      ensures old(Calm()) ==> Calm() && (packet.None? ==> old(inbox) == [])
    {
      var failed: bool := *;
      if inbox == [] || (failed && !reliable) {
        failures := failures + 1;
        return None;
      }
      var next := inbox[0];
      inbox := inbox[1..];
      var n := if |next.data| <= buffer.Length then |next.data| else buffer.Length;
      forall i | 0 <= i < n {
        buffer[i] := next.data[i];
      }
      if n < |next.data| || n == 0 {
        failures := failures + 1;
        return None;
      }
      packet := Some(Packet(n, next.senderPID, next.senderGroups));
    }
  }

  // ---------- Destroying one socket ----------

  datatype AckReading = BadAck | AckFiller | Ack(errno: nat)

  /** What one message says to whoever waits for the acknowledgement of request `sequence`. */
  function ReadAck(order: Order, port: uint32, sequence: uint32, m: Message): AckReading {
    if m.pid != port || m.sequence != sequence then BadAck
    else if m.kind == ERROR then
      var errno := AckErrno(order, m.payload, DESTROY, sequence);
      if errno.None? then BadAck else Ack(errno.value)
    else if m.kind == NOOP then AckFiller
    else BadAck
  }

  /** The exchange on the destroy transport: how requests are written and replies are read. */
  datatype Wire = Wire(codec: Codec, request: (Socket, uint32) -> seq<byte>, ack: (uint32, Message) -> AckReading)

  function DestroyWire(order: Order, port: uint32): Wire {
    Wire(Native(order), (s: Socket, n: uint32) => DestroyRequest(order, s, n),
         (n: uint32, m: Message) => ReadAck(order, port, n, m))
  }

  function AckReader(w: Wire, sequence: uint32): Message -> AckReading {
    (m: Message) => w.ack(sequence, m)
  }

  predicate OnlyFillers(readings: seq<AckReading>) {
    forall i :: 0 <= i < |readings| ==> readings[i].AckFiller?
  }

  /** Exactly one acknowledgement, with this error number, among fillers. */
  ghost predicate OneAck(readings: seq<AckReading>, errno: nat) {
    exists k :: 0 <= k < |readings| && OneAckAt(readings, k, errno)
  }

  ghost predicate OneAckAt(readings: seq<AckReading>, k: nat, errno: nat)
    requires k < |readings|
  {
    readings[k] == Ack(errno) && forall i :: 0 <= i < |readings| && i != k ==> readings[i].AckFiller?
  }

  /** The acknowledgement so far after one more message; None is an error. */
  function AckNext(acked: Option<nat>, r: AckReading): Option<Option<nat>> {
    match r
    case BadAck => None
    case AckFiller => Some(acked)
    case Ack(errno) => if acked.Some? then None else Some(Some(errno))
  }

  function AckAll(readings: seq<AckReading>): Option<Option<nat>> {
    if readings == [] then Some(None)
    else
      var n := |readings| - 1;
      var acked := AckAll(readings[..n]);
      if acked.None? then None else AckNext(acked.value, readings[n])
  }

  lemma {:induction false} OneAckFrom(readings: seq<AckReading>, k: nat, errno: nat)
    requires k < |readings| && OneAckAt(readings, k, errno)
    ensures var n := |readings| - 1;
      if k == n then readings[n] == Ack(errno) && OnlyFillers(readings[..n])
      else readings[n].AckFiller? && OneAckAt(readings[..n], k, errno)
  {
  }

  lemma {:induction false} OneAckTo(readings: seq<AckReading>, k: nat, errno: nat)
    requires readings != []
    requires var n := |readings| - 1;
      || (k == n && readings[n] == Ack(errno) && OnlyFillers(readings[..n]))
      || (k < n && readings[n].AckFiller? && OneAckAt(readings[..n], k, errno))
    ensures OneAckAt(readings, k, errno)
  {
    var n := |readings| - 1;
    assert forall i :: 0 <= i < n ==> readings[i] == readings[..n][i];
  }

  lemma {:induction false} OneAckSnoc(readings: seq<AckReading>, errno: nat)
    requires readings != []
    ensures var n := |readings| - 1;
      OneAck(readings, errno)
      <==> (OnlyFillers(readings[..n]) && readings[n] == Ack(errno)) || (OneAck(readings[..n], errno) && readings[n].AckFiller?)
  {
    var n := |readings| - 1;
    if OneAck(readings, errno) {
      var k :| 0 <= k < |readings| && OneAckAt(readings, k, errno);
      OneAckFrom(readings, k, errno);
    }
    if OnlyFillers(readings[..n]) && readings[n] == Ack(errno) {
      OneAckTo(readings, n, errno);
    }
    if OneAck(readings[..n], errno) && readings[n].AckFiller? {
      var k :| 0 <= k < n && OneAckAt(readings[..n], k, errno);
      OneAckTo(readings, k, errno);
    }
  }

  lemma {:induction false} OnlyFillersSnoc(readings: seq<AckReading>)
    requires readings != []
    ensures OnlyFillers(readings) <==> OnlyFillers(readings[..|readings| - 1]) && readings[|readings| - 1].AckFiller?
  {
    var n := |readings| - 1;
    assert forall i :: 0 <= i < n ==> readings[i] == readings[..n][i];
  }

  /** A datagram is accepted exactly when it holds fillers and at most one acknowledgement, which is then the answer. */
  lemma {:induction false} AckMeaning(readings: seq<AckReading>, errno: nat)
    ensures AckAll(readings) == Some(None) <==> OnlyFillers(readings)
    ensures AckAll(readings) == Some(Some(errno)) <==> OneAck(readings, errno)
    decreases |readings|
  {
    if readings != [] {
      var n := |readings| - 1;
      AckMeaning(readings[..n], errno);
      OnlyFillersSnoc(readings);
      OneAckSnoc(readings, errno);
    }
  }

  lemma {:induction false} AckFails(a: seq<AckReading>, b: seq<AckReading>)
    requires AckAll(a).None?
    ensures AckAll(a + b).None?
    decreases |b|
  {
    if b == [] {
      assert a + b == a;
    } else {
      AckFails(a, b[..|b| - 1]);
      assert (a + b)[..|a + b| - 1] == a + b[..|b| - 1];
    }
  }

  /** A datagram from the kernel, well formed to its end. */
  predicate Sound(c: Codec, p: Datagram) {
    FromKernel(p) && Walk(c, p.data).1
  }

  function Acks(w: Wire, sequence: uint32, p: Datagram): seq<AckReading> {
    Readings(AckReader(w, sequence), Total(w.codec, p.data, []))
  }

  /** Fillers in any number of datagrams, then one datagram with the acknowledgement: success or no such socket. */
  ghost predicate Acknowledges(w: Wire, sequence: uint32, packets: seq<Datagram>) {
    && packets != []
    && (forall p :: p in packets ==> Sound(w.codec, p))
    && (forall p :: p in packets[..|packets| - 1] ==> OnlyFillers(Acks(w, sequence, p)))
    && (var last := Acks(w, sequence, packets[|packets| - 1]); OneAck(last, 0) || OneAck(last, ENOENT))
  }

  lemma {:induction false} AckNextReading(read: Message -> AckReading, seen: seq<Message>, m: Message)
    ensures var acked := AckAll(Readings(read, seen));
      AckAll(Readings(read, seen + [m])) == if acked.None? then None else AckNext(acked.value, read(m))
  {
    ReadingsConcat(read, seen, [m]);
    assert Readings(read, seen + [m])[..|seen|] == Readings(read, seen);
  }

  lemma {:induction false} AckFailsEarly(read: Message -> AckReading, seen: seq<Message>, total: seq<Message>)
    requires seen <= total && AckAll(Readings(read, seen)).None?
    ensures AckAll(Readings(read, total)).None?
  {
    var rest := total[|seen|..];
    assert total == seen + rest;
    ReadingsConcat(read, seen, rest);
    AckFails(Readings(read, seen), Readings(read, rest));
  }

  /** Walks the acknowledgement datagram in the first bytes of the buffer. */
  method WalkAck(c: Codec, read: Message -> AckReading, buffer: array<byte>, n: nat) returns (result: Option<Option<nat>>)
    requires 0 < n <= buffer.Length
    ensures result == if Walk(c, buffer[..n]).1 then AckAll(Readings(read, Total(c, buffer[..n], []))) else None
  {
    ghost var data := buffer[..n];
    ghost var visited := [];
    var acked := None;
    var offset := 0;
    WalkStarts(c, data, []);
    while offset < n
      invariant 0 <= offset <= n && Reads(c, read, data, offset, visited, acked)
      decreases n - offset
    {
      assert buffer[offset..n] == data[offset..];
      WalkMoves(c, data, [], offset, visited);
      var m := Front(c, buffer[offset..n]);
      if m.None? {
        return None;
      }
      var next := AckNext(acked, read(m.value));
      AckStep(c, read, data, offset, visited, acked, m.value);
      if next.None? {
        return None;
      }
      visited, acked := visited + [m.value], next.value;
      var stride := Stride(HEADER_LEN + |m.value.payload|, n - offset);
      if stride.None? {
        return None;
      }
      offset := offset + stride.value;
    }
    WalkEnds(c, data, [], visited);
    result := Some(acked);
  }

  /** Where the walk of a reply stands, and the acknowledgement so far. */
  ghost predicate Reads(c: Codec, read: Message -> AckReading, data: seq<byte>, offset: nat, visited: seq<Message>, acked: Option<nat>) {
    Resumes(c, data, [], offset, visited) && AckAll(Readings(read, visited)) == Some(acked)
  }

  lemma {:induction false} AckStep(c: Codec, read: Message -> AckReading, data: seq<byte>, offset: nat, visited: seq<Message>,
                                   acked: Option<nat>, m: Message)
    requires Reads(c, read, data, offset, visited, acked) && visited + [m] <= Total(c, data, [])
    ensures AckAll(Readings(read, visited + [m])) == AckNext(acked, read(m))
    ensures AckNext(acked, read(m)).None? ==> AckAll(Readings(read, Total(c, data, []))).None?
  {
    AckNextReading(read, visited, m);
    if AckNext(acked, read(m)).None? {
      AckFailsEarly(read, visited + [m], Total(c, data, []));
    }
  }

  /** What the reader makes of one datagram: None is an error, Some(None) means keep waiting. */
  function Outcome(w: Wire, sequence: uint32, p: Datagram): Option<Option<nat>> {
    if Sound(w.codec, p) then AckAll(Acks(w, sequence, p)) else None
  }

  lemma {:induction false} OutcomeMeaning(w: Wire, sequence: uint32, earlier: seq<Datagram>, p: Datagram)
    requires forall e :: e in earlier ==> Outcome(w, sequence, e) == Some(None)
    ensures Acknowledges(w, sequence, earlier + [p]) <==> Outcome(w, sequence, p) == Some(Some(0)) || Outcome(w, sequence, p) == Some(Some(ENOENT))
  {
    var packets := earlier + [p];
    assert packets[..|packets| - 1] == earlier && packets[|packets| - 1] == p && p in packets;
    AckMeaning(Acks(w, sequence, p), 0);
    AckMeaning(Acks(w, sequence, p), ENOENT);
    forall e | e in earlier ensures Sound(w.codec, e) && OnlyFillers(Acks(w, sequence, e)) {
      AckMeaning(Acks(w, sequence, e), 0);
    }
  }

  /** Nothing but fillers so far. */
  predicate Unanswered(w: Wire, sequence: uint32, replies: seq<Datagram>) {
    forall p :: p in replies ==> Outcome(w, sequence, p) == Some(None)
  }

  /** The request was answered, by an error or by something that is no answer to it. */
  predicate Refuses(w: Wire, sequence: uint32, replies: seq<Datagram>) {
    && replies != [] && Unanswered(w, sequence, replies[..|replies| - 1])
    && Outcome(w, sequence, replies[|replies| - 1]) !in {Some(None), Some(Some(0)), Some(Some(ENOENT))}
  }

  /** Why a request fails on a calm transport: the kernel refused it, or sends nothing more. */
  predicate Fails(w: Wire, sequence: uint32, replies: seq<Datagram>, inbox: seq<Datagram>) {
    Refuses(w, sequence, replies) || (Unanswered(w, sequence, replies) && inbox == [])
  }

  /** Receives one datagram and reads it in place. */
  method AwaitAck(transport: Transport, w: Wire, sequence: uint32) returns (received: bool, outcome: Option<Option<nat>>)
    modifies transport`inbox, transport`failures, transport.buffer
    ensures transport.failures == old(transport.failures) + if received then 0 else 1
    ensures received ==> old(transport.inbox) != [] && outcome == Outcome(w, sequence, old(transport.inbox)[0])
    ensures transport.inbox == old(transport.inbox) || (old(transport.inbox) != [] && transport.inbox == old(transport.inbox)[1..])
    ensures received ==> transport.inbox == old(transport.inbox)[1..]
    ensures old(transport.Calm()) ==> transport.Calm() && (!received ==> old(transport.inbox) == [])
  {
    var packet := transport.Receive();
    if packet.None? {
      return false, None;
    }
    if packet.value.senderPID != 0 || packet.value.senderGroups != 0 {
      return true, None;
    }
    outcome := WalkAck(w.codec, AckReader(w, sequence), transport.buffer, packet.value.length);
    received := true;
  }

  /** Reads datagrams until one settles the request or a receive fails; `replies` are those consumed. */
  method AwaitAll(transport: Transport, w: Wire, sequence: uint32) returns (received: bool, errno: Option<nat>, ghost replies: seq<Datagram>)
    modifies transport`inbox, transport`failures, transport.buffer
    ensures old(transport.inbox) == replies + transport.inbox
    ensures transport.failures == old(transport.failures) + if received then 0 else 1
    ensures received ==> (Acknowledges(w, sequence, replies) <==> errno == Some(0) || errno == Some(ENOENT))
    ensures received && errno != Some(0) && errno != Some(ENOENT) ==> Refuses(w, sequence, replies)
    ensures old(transport.Calm()) ==> transport.Calm() && (!received ==> Unanswered(w, sequence, replies) && transport.inbox == [])
  {
    replies := [];
    while true
      invariant old(transport.inbox) == replies + transport.inbox
      invariant Unanswered(w, sequence, replies) && (old(transport.Calm()) ==> transport.Calm())
      invariant transport.failures == old(transport.failures)
      decreases |transport.inbox|
    {
      ghost var before := transport.inbox;
      var outcome;
      received, outcome := AwaitAck(transport, w, sequence);
      ghost var earlier := replies;
      if transport.inbox != before {
        replies := replies + [before[0]];
      }
      if !received {
        return false, None, replies;
      }
      OutcomeMeaning(w, sequence, earlier, before[0]);
      if outcome.None? {
        return true, None, replies;
      }
      if outcome.value.Some? {
        return true, outcome.value, replies;
      }
    }
  }

  /** Sends the request and waits for its acknowledgement. */
  method DestroySocket(transport: Transport, w: Wire, socket: Socket, counter: uint32)
    returns (ok: bool, after: uint32, ghost requested: bool, ghost replies: seq<Datagram>)
    modifies transport, transport.buffer
    ensures after == NextSequence(counter)
    ensures transport.sent == old(transport.sent) + if requested then [w.request(socket, after)] else []
    ensures old(transport.inbox) == replies + transport.inbox
    ensures old(transport.failures) <= transport.failures && (!requested ==> old(transport.failures) < transport.failures)
    ensures ok <==> transport.failures == old(transport.failures) && Acknowledges(w, after, replies)
    ensures old(transport.Calm()) ==> transport.Calm() && requested && (!ok ==> Fails(w, after, replies, transport.inbox))
  {
    after := NextSequence(counter);
    var delivered := transport.Send(w.request(socket, after));
    replies, requested := [], delivered;
    if !delivered {
      return false, after, requested, replies;
    }
    var received, errno;
    received, errno, replies := AwaitAll(transport, w, after);
    ok := received && (errno == Some(0) || errno == Some(ENOENT));
  }

  // ---------- Streaming a dump ----------

  /** One destroy request per socket, numbered from the draw after `counter`. */
  function Requests(w: Wire, sockets: seq<Socket>, counter: uint32): (out: seq<seq<byte>>)
    ensures |out| == |sockets|
  {
    if sockets == [] then []
    else
      var n := |sockets| - 1;
      Requests(w, sockets[..n], counter) + [w.request(sockets[n], Draw(counter, n + 1))]
  }

  /** What the destroy transport was asked to do and the replies it got, numbered from `start`. */
  datatype Ledger = Ledger(start: uint32, sockets: seq<Socket>, replies: seq<seq<Datagram>>)

  function Concat<T>(parts: seq<seq<T>>): seq<T> {
    if parts == [] then [] else Concat(parts[..|parts| - 1]) + parts[|parts| - 1]
  }

  /** Of what was sent after `sent` and consumed from `inbox`, the ledger is a full account. */
  predicate Booked(l: Ledger, w: Wire, sent: seq<seq<byte>>, sentNow: seq<seq<byte>>,
                         inbox: seq<Datagram>, inboxNow: seq<Datagram>)
  {
    sentNow == sent + Requests(w, l.sockets, l.start) && inbox == Concat(l.replies) + inboxNow
  }

  ghost predicate AllAcked(l: Ledger, w: Wire) {
    && |l.replies| == |l.sockets|
    && forall i :: 0 <= i < |l.replies| ==> Acknowledges(w, Draw(l.start, i + 1), l.replies[i])
  }

  lemma {:induction false} Associative<T>(a: seq<T>, b: seq<T>, c: seq<T>)
    ensures a + b + c == a + (b + c)
  {
  }

  lemma {:induction false} RequestsNext(w: Wire, sockets: seq<Socket>, start: uint32, s: Socket)
    ensures Requests(w, sockets + [s], start)
         == Requests(w, sockets, start) + [w.request(s, Draw(start, |sockets| + 1))]
  {
    assert (sockets + [s])[..|sockets|] == sockets;
  }

  lemma {:induction false} ConcatNext<T>(parts: seq<seq<T>>, part: seq<T>)
    ensures Concat(parts + [part]) == Concat(parts) + part
  {
    assert (parts + [part])[..|parts|] == parts;
  }

  function Book(l: Ledger, socket: Socket, requested: bool, replies: seq<Datagram>): Ledger {
    Ledger(l.start, if requested then l.sockets + [socket] else l.sockets, l.replies + [replies])
  }

  lemma {:induction false} BookNext(l: Ledger, w: Wire, socket: Socket, requested: bool, replies: seq<Datagram>,
                 sent: seq<seq<byte>>, sentNow: seq<seq<byte>>, inbox: seq<Datagram>, inboxNext: seq<Datagram>)
    requires Booked(l, w, sent, sentNow, inbox, replies + inboxNext)
    ensures Booked(Book(l, socket, requested, replies), w, sent, sentNow + Asked(w, l, socket, requested), inbox, inboxNext)
  {
    ConcatNext(l.replies, replies);
    Associative(Concat(l.replies), replies, inboxNext);
    if requested {
      RequestsNext(w, l.sockets, l.start, socket);
      Associative(sent, Requests(w, l.sockets, l.start), Asked(w, l, socket, requested));
    } else {
      assert sentNow + [] == sentNow;
    }
  }

  lemma {:induction false} AckedNext(l: Ledger, w: Wire, socket: Socket, replies: seq<Datagram>)
    requires AllAcked(l, w)
    ensures AllAcked(Book(l, socket, true, replies), w) <==> Acknowledges(w, Draw(l.start, |l.sockets| + 1), replies)
  {
    var next := Book(l, socket, true, replies);
    var n := |l.replies|;
    assert next.replies[n] == replies && |next.sockets| == n + 1 && next.start == l.start;
    if Acknowledges(w, Draw(l.start, n + 1), replies) {
      forall i | 0 <= i < n + 1 ensures Acknowledges(w, Draw(next.start, i + 1), next.replies[i]) {
        assert i < n ==> next.replies[i] == l.replies[i];
      }
    }
  }

  /** Every request but the last was acknowledged, and that one failed. */
  ghost predicate LastFails(l: Ledger, w: Wire, inbox: seq<Datagram>) {
    && l.replies != [] && |l.sockets| == |l.replies|
    && var n := |l.replies| - 1;
       AllAcked(Ledger(l.start, l.sockets[..n], l.replies[..n]), w) && Fails(w, Draw(l.start, n + 1), l.replies[n], inbox)
  }

  lemma {:induction false} LastFailsNext(l: Ledger, w: Wire, socket: Socket, replies: seq<Datagram>, inbox: seq<Datagram>)
    requires AllAcked(l, w) && Fails(w, Draw(l.start, |l.sockets| + 1), replies, inbox)
    ensures LastFails(Book(l, socket, true, replies), w, inbox)
  {
    var next := Book(l, socket, true, replies);
    assert next.sockets[..|l.replies|] == l.sockets && next.replies[..|l.replies|] == l.replies;
  }

  /** An account of the destroy transport: the ledger explains what it has sent and what is left in its inbox. */
  type Books = (Ledger, seq<seq<byte>>, seq<Datagram>) -> bool

  function Asked(w: Wire, l: Ledger, socket: Socket, requested: bool): seq<seq<byte>> {
    if requested then [w.request(socket, Draw(l.start, |l.sockets| + 1))] else []
  }

  /** Every destroy exchange keeps the account, once it is booked. */
  ghost predicate Keeps(w: Wire, books: Books) {
    forall l, socket, requested, replies, sent, inbox ::
      books(l, sent, replies + inbox) ==>
      books(Book(l, socket, requested, replies), sent + Asked(w, l, socket, requested), inbox)
  }

  lemma {:induction false} Keep(w: Wire, books: Books, l: Ledger, socket: Socket, requested: bool, replies: seq<Datagram>,
             sent: seq<seq<byte>>, inbox: seq<Datagram>)
    requires Keeps(w, books) && books(l, sent, replies + inbox)
    ensures books(Book(l, socket, requested, replies), sent + Asked(w, l, socket, requested), inbox)
  {
  }

  /** The full account since the transport had sent `sent` and held `inbox`. */
  function FullAccount(w: Wire, sent: seq<seq<byte>>, inbox: seq<Datagram>): Books {
    (l: Ledger, sentNow: seq<seq<byte>>, inboxNow: seq<Datagram>) => Booked(l, w, sent, sentNow, inbox, inboxNow)
  }

  lemma {:induction false} FullAccountKeeps(w: Wire, sent: seq<seq<byte>>, inbox: seq<Datagram>)
    ensures Keeps(w, FullAccount(w, sent, inbox))
  {
    var books := FullAccount(w, sent, inbox);
    forall l, socket, requested, replies, sentNow, inboxNext | books(l, sentNow, replies + inboxNext)
      ensures books(Book(l, socket, requested, replies), sentNow + Asked(w, l, socket, requested), inboxNext)
    {
      BookNext(l, w, socket, requested, replies, sent, sentNow, inbox, inboxNext);
    }
  }

  /** Destroys one matching socket and books it. */
  method DestroyHit(destroy: Transport, w: Wire, socket: Socket, counter: uint32,
                    ghost l: Ledger, ghost books: Books)
    returns (ok: bool, after: uint32, ghost booked: Ledger)
    requires books(l, destroy.sent, destroy.inbox)
    requires AllAcked(l, w) && counter == Draw(l.start, |l.sockets|)
    requires Keeps(w, books)
    modifies destroy, destroy.buffer
    ensures books(booked, destroy.sent, destroy.inbox) && booked.start == l.start
    ensures booked.sockets == l.sockets || booked.sockets == l.sockets + [socket]
    ensures ok ==> booked.sockets == l.sockets + [socket] && after == Draw(l.start, |booked.sockets|)
    ensures old(destroy.failures) <= destroy.failures
    ensures ok <==> destroy.failures == old(destroy.failures) && AllAcked(booked, w)
    ensures old(destroy.Calm()) ==> destroy.Calm() && (!ok ==> LastFails(booked, w, destroy.inbox))
  {
    ghost var sentNow := destroy.sent;
    ghost var requested, replies;
    ok, after, requested, replies := DestroySocket(destroy, w, socket, counter);
    booked := Book(l, socket, requested, replies);
    Keep(w, books, l, socket, requested, replies, sentNow, destroy.inbox);
    if requested {
      AckedNext(l, w, socket, replies);
      if Fails(w, after, replies, destroy.inbox) {
        LastFailsNext(l, w, socket, replies, destroy.inbox);
      }
    }
  }

  /** What a walk has done: the messages seen, the dump they amount to, and the ledger of destroy requests. */
  datatype Trace = Trace(seen: seq<Message>, ledger: Ledger)

  /** Every socket of this dump seen so far has been destroyed, after those of earlier dumps. */
  ghost predicate Caught(read: Message -> Reading, t: Trace, prior: seq<Socket>, complete: bool) {
    var readings := Readings(read, t.seen);
    DigestAll(readings) == Some(Dump(complete, Hits(readings))) && t.ledger.sockets == prior + Hits(readings)
  }

  /** At no point was anything but a matching record of this dump asked to be destroyed. */
  ghost predicate Within(read: Message -> Reading, t: Trace, prior: seq<Socket>) {
    t.ledger.sockets <= prior + Hits(Readings(read, t.seen))
  }

  lemma {:induction false} CaughtNext(read: Message -> Reading, t: Trace, prior: seq<Socket>, complete: bool, m: Message, next: Trace)
    requires Caught(read, t, prior, complete) && next.seen == t.seen + [m]
    requires next.ledger.sockets == t.ledger.sockets
      || (read(m).Hit? && next.ledger.sockets == t.ledger.sockets + [read(m).socket])
    ensures Within(read, next, prior)
    ensures var d := Digest(Dump(complete, Hits(Readings(read, t.seen))), read(m));
      && DigestAll(Readings(read, next.seen)) == d
      && (d.Some? && (read(m).Hit? ==> |next.ledger.sockets| > |t.ledger.sockets|) ==> Caught(read, next, prior, d.value.complete))
  {
    var readings := Readings(read, t.seen);
    ReadingsConcat(read, t.seen, [m]);
    assert Readings(read, [m]) == [read(m)];
    DigestNext(readings, read(m));
    if read(m).Hit? {
      Associative(prior, Hits(readings), [read(m).socket]);
    } else {
      assert Hits(readings) + [] == Hits(readings);
    }
  }

  /** The visitor: one message of the dump, with the nested destroy exchange for a match. */
  method Visit(read: Message -> Reading, m: Message, complete: bool, destroy: Transport, w: Wire, counter: uint32,
               ghost t: Trace, ghost prior: seq<Socket>, ghost books: Books)
    returns (ok: bool, completeNow: bool, after: uint32, ghost next: Trace)
    requires Caught(read, t, prior, complete)
    requires books(t.ledger, destroy.sent, destroy.inbox)
    requires AllAcked(t.ledger, w) && counter == Draw(t.ledger.start, |t.ledger.sockets|)
    requires Keeps(w, books)
    modifies destroy, destroy.buffer
    ensures next.seen == t.seen + [m] && next.ledger.start == t.ledger.start
    ensures books(next.ledger, destroy.sent, destroy.inbox) && Within(read, next, prior)
    ensures old(destroy.failures) <= destroy.failures
    ensures ok <==> destroy.failures == old(destroy.failures) && AllAcked(next.ledger, w) && DigestAll(Readings(read, next.seen)).Some?
    ensures ok ==> Caught(read, next, prior, completeNow) && AllAcked(next.ledger, w)
    ensures old(destroy.Calm()) ==>
      destroy.Calm() && (!ok ==> LastFails(next.ledger, w, destroy.inbox) || DigestAll(Readings(read, next.seen)).None?)
    ensures ok ==> after == Draw(next.ledger.start, |next.ledger.sockets|)
  {
    next := Trace(t.seen + [m], t.ledger);
    completeNow, after := complete, counter;
    var r := read(m);
    match r {
      case Hit(socket) =>
        if complete {
          ok := false;
        } else {
          ghost var booked;
          ok, after, booked := DestroyHit(destroy, w, socket, counter, t.ledger, books);
          next := Trace(t.seen + [m], booked);
        }
      case Finish =>
        ok, completeNow := !complete, true;
      case Plain =>
        ok := !complete;
      case Filler =>
        ok := true;
      case Bad =>
        ok := false;
    }
    CaughtNext(read, t, prior, complete, m, next);
  }

  lemma {:induction false} FailsEarly(read: Message -> Reading, seen: seq<Message>, total: seq<Message>)
    requires seen <= total && DigestAll(Readings(read, seen)).None?
    ensures DigestAll(Readings(read, total)).None?
  {
    var rest := total[|seen|..];
    assert total == seen + rest;
    ReadingsConcat(read, seen, rest);
    DigestFails(Readings(read, seen), Readings(read, rest));
  }

  /** Where the walk of a datagram stands, and what it has done so far. */
  ghost predicate Going(c: Codec, read: Message -> Reading, w: Wire, data: seq<byte>, before: seq<Message>, prior: seq<Socket>,
                        offset: nat, complete: bool, counter: uint32, t: Trace)
  {
    && Resumes(c, data, before, offset, t.seen)
    && Caught(read, t, prior, complete)
    && AllAcked(t.ledger, w) && counter == Draw(t.ledger.start, |t.ledger.sockets|)
  }

  /** Reads the message at the offset, visits it and moves on. */
  method Step(c: Codec, read: Message -> Reading, buffer: array<byte>, n: nat, offset: nat, complete: bool,
              destroy: Transport, w: Wire, counter: uint32,
              ghost data: seq<byte>, ghost before: seq<Message>, ghost t: Trace, ghost prior: seq<Socket>, ghost books: Books)
    returns (ok: bool, moved: nat, completeNow: bool, after: uint32, ghost next: Trace)
    requires offset < n <= buffer.Length && buffer != destroy.buffer && data == buffer[..n]
    requires Going(c, read, w, data, before, prior, offset, complete, counter, t)
    requires books(t.ledger, destroy.sent, destroy.inbox)
    requires Keeps(w, books)
    modifies destroy, destroy.buffer
    ensures data == buffer[..n]
    ensures next.ledger.start == t.ledger.start && Within(read, next, prior)
    ensures books(next.ledger, destroy.sent, destroy.inbox)
    ensures next.seen <= Total(c, data, before)
    ensures old(destroy.failures) <= destroy.failures
    ensures ok ==>
      destroy.failures == old(destroy.failures) && offset < moved <= n
      && Going(c, read, w, data, before, prior, moved, completeNow, after, next)
    ensures !ok ==>
      destroy.failures > old(destroy.failures) || !AllAcked(next.ledger, w) || !Walk(c, data).1 || DigestAll(Readings(read, Total(c, data, before))).None?
    ensures old(destroy.Calm()) ==>
      destroy.Calm()
      && (!ok ==> LastFails(next.ledger, w, destroy.inbox) || !Walk(c, data).1 || DigestAll(Readings(read, Total(c, data, before))).None?)
  {
    next, moved, completeNow, after := t, offset, complete, counter;
    assert buffer[offset..n] == data[offset..];
    WalkMoves(c, data, before, offset, t.seen);
    var m := Front(c, buffer[offset..n]);
    if m.None? {
      return false, moved, completeNow, after, next;
    }
    ok, completeNow, after, next := Visit(read, m.value, complete, destroy, w, counter, t, prior, books);
    if !ok {
      if DigestAll(Readings(read, next.seen)).None? {
        FailsEarly(read, next.seen, Total(c, data, before));
      }
      return ok, moved, completeNow, after, next;
    }
    var stride := Stride(HEADER_LEN + |m.value.payload|, n - offset);
    if stride.None? {
      return false, moved, completeNow, after, next;
    }
    moved := offset + stride.value;
  }

  /**
  Walks one dump datagram where it lies in the buffer, through every nested destroy exchange.  The
  other transport has its own buffer, so what is still to be read stays as it was received.
   */
  method WalkDump(c: Codec, read: Message -> Reading, buffer: array<byte>, n: nat, destroy: Transport, w: Wire, counter: uint32,
                  ghost t: Trace, ghost prior: seq<Socket>, ghost books: Books)
    returns (ok: bool, complete: bool, after: uint32, ghost next: Trace)
    requires 0 < n <= buffer.Length && buffer != destroy.buffer
    requires Caught(read, t, prior, false)
    requires books(t.ledger, destroy.sent, destroy.inbox)
    requires AllAcked(t.ledger, w) && counter == Draw(t.ledger.start, |t.ledger.sockets|)
    requires Keeps(w, books)
    modifies destroy, destroy.buffer
    ensures next.ledger.start == t.ledger.start && Within(read, next, prior)
    ensures books(next.ledger, destroy.sent, destroy.inbox)
    ensures next.seen <= Total(c, buffer[..n], t.seen)
    ensures old(destroy.failures) <= destroy.failures
    ensures ok <==>
      && destroy.failures == old(destroy.failures) && AllAcked(next.ledger, w)
      && Walk(c, buffer[..n]).1 && DigestAll(Readings(read, Total(c, buffer[..n], t.seen))).Some?
    ensures old(destroy.Calm()) ==>
      destroy.Calm()
      && (!ok ==> LastFails(next.ledger, w, destroy.inbox) || !Walk(c, buffer[..n]).1 || DigestAll(Readings(read, Total(c, buffer[..n], t.seen))).None?)
    ensures ok ==> next.seen == Total(c, buffer[..n], t.seen) && Caught(read, next, prior, complete)
    ensures ok ==> AllAcked(next.ledger, w) && after == Draw(next.ledger.start, |next.ledger.sockets|)
  {
    next, complete, after, ok := t, false, counter, true;
    var offset := 0;
    WalkStarts(c, buffer[..n], t.seen);
    while ok && offset < n
      invariant buffer[..n] == old(buffer[..n])
      invariant next.ledger.start == t.ledger.start && Within(read, next, prior)
      invariant books(next.ledger, destroy.sent, destroy.inbox)
      invariant next.seen <= Total(c, buffer[..n], t.seen)
      invariant old(destroy.failures) <= destroy.failures
      invariant ok ==> destroy.failures == old(destroy.failures) && 0 <= offset <= n && Going(c, read, w, buffer[..n], t.seen, prior, offset, complete, after, next)
      invariant !ok ==>
        destroy.failures > old(destroy.failures) || !AllAcked(next.ledger, w) || !Walk(c, buffer[..n]).1 || DigestAll(Readings(read, Total(c, buffer[..n], t.seen))).None?
      invariant old(destroy.Calm()) ==>
        destroy.Calm()
        && (!ok ==> LastFails(next.ledger, w, destroy.inbox) || !Walk(c, buffer[..n]).1 || DigestAll(Readings(read, Total(c, buffer[..n], t.seen))).None?)
      decreases ok, n - offset
    {
      ok, offset, complete, after, next :=
        Step(c, read, buffer, n, offset, complete, destroy, w, after, old(buffer[..n]), t.seen, next, prior, books);
    }
    if ok {
      WalkEnds(c, buffer[..n], t.seen, next.seen);
    }
  }

  /** The messages of some datagrams, one datagram after another. */
  function AllVisits(c: Codec, packets: seq<Datagram>): seq<Message> {
    if packets == [] then []
    else Total(c, packets[|packets| - 1].data, AllVisits(c, packets[..|packets| - 1]))
  }

  lemma {:induction false} AllVisitsNext(c: Codec, packets: seq<Datagram>, p: Datagram)
    ensures AllVisits(c, packets + [p]) == Total(c, p.data, AllVisits(c, packets))
  {
    assert (packets + [p])[..|packets|] == packets;
  }

  /** Receives the next dump datagram and walks it. */
  method TakeDatagram(dump: Transport, c: Codec, read: Message -> Reading, destroy: Transport, w: Wire, counter: uint32,
                      ghost t: Trace, ghost prior: seq<Socket>, ghost books: Books)
    returns (received: bool, ok: bool, complete: bool, after: uint32, ghost next: Trace)
    requires dump != destroy && dump.buffer != destroy.buffer
    requires Caught(read, t, prior, false) && books(t.ledger, destroy.sent, destroy.inbox)
    requires AllAcked(t.ledger, w) && counter == Draw(t.ledger.start, |t.ledger.sockets|)
    requires Keeps(w, books)
    modifies dump`inbox, dump`failures, dump.buffer, destroy, destroy.buffer
    ensures next.ledger.start == t.ledger.start && Within(read, next, prior)
    ensures books(next.ledger, destroy.sent, destroy.inbox)
    ensures dump.inbox == old(dump.inbox) || (old(dump.inbox) != [] && dump.inbox == old(dump.inbox)[1..])
    ensures dump.failures == old(dump.failures) + if received then 0 else 1
    ensures old(destroy.failures) <= destroy.failures
    ensures !received ==> !ok && next == t
    ensures old(dump.Calm()) ==> dump.Calm() && (!received ==> old(dump.inbox) == [])
    ensures received ==>
      old(dump.inbox) != [] && dump.inbox == old(dump.inbox)[1..]
      && var p := old(dump.inbox)[0];
         next.seen <= Total(c, p.data, t.seen)
         && (ok <==>
               && destroy.failures == old(destroy.failures) && AllAcked(next.ledger, w)
               && Sound(c, p) && DigestAll(Readings(read, Total(c, p.data, t.seen))).Some?)
         && (ok ==> next.seen == Total(c, p.data, t.seen) && Caught(read, next, prior, complete) && AllAcked(next.ledger, w)
                    && after == Draw(next.ledger.start, |next.ledger.sockets|))
    ensures old(destroy.Calm()) ==>
      destroy.Calm()
      && (received && !ok ==>
            var p := old(dump.inbox)[0];
            LastFails(next.ledger, w, destroy.inbox) || !Sound(c, p) || DigestAll(Readings(read, Total(c, p.data, t.seen))).None?)
  {
    next, complete, after := t, false, counter;
    var packet := dump.Receive();
    if packet.None? {
      return false, false, complete, after, next;
    }
    if packet.value.senderPID != 0 || packet.value.senderGroups != 0 {
      return true, false, complete, after, next;
    }
    received := true;
    ok, complete, after, next :=
      WalkDump(c, read, dump.buffer, packet.value.length, destroy, w, counter, t, prior, books);
  }

  /** The datagrams taken are sound and everything in them is caught. */
  ghost predicate Streamed(c: Codec, read: Message -> Reading, w: Wire, taken: seq<Datagram>, prior: seq<Socket>,
                           complete: bool, counter: uint32, t: Trace)
  {
    && t.seen == AllVisits(c, taken) && (forall p :: p in taken ==> Sound(c, p))
    && Caught(read, t, prior, complete)
    && AllAcked(t.ledger, w) && counter == Draw(t.ledger.start, |t.ledger.sockets|)
  }

  /** Sound datagrams that make up a complete dump. */
  ghost predicate Whole(c: Codec, read: Message -> Reading, taken: seq<Datagram>) {
    (forall p :: p in taken ==> Sound(c, p)) && Complete(Readings(read, AllVisits(c, taken)))
  }

  ghost predicate Spoilt(c: Codec, read: Message -> Reading, taken: seq<Datagram>) {
    (exists p :: p in taken && !Sound(c, p)) || DigestAll(Readings(read, AllVisits(c, taken))).None?
  }

  /** Why a dump fails on calm transports: it is not one, or the kernel sends no more of it, or a destroy failed. */
  ghost predicate Stopped(c: Codec, read: Message -> Reading, w: Wire, taken: seq<Datagram>, inbox: seq<Datagram>,
                          l: Ledger, destroyInbox: seq<Datagram>)
  {
    || Spoilt(c, read, taken) || LastFails(l, w, destroyInbox)
    || (inbox == [] && Streaming(Readings(read, AllVisits(c, taken))))
  }

  lemma {:induction false} DryDump(c: Codec, read: Message -> Reading, w: Wire, taken: seq<Datagram>, prior: seq<Socket>,
                                   counter: uint32, t: Trace)
    requires Streamed(c, read, w, taken, prior, false, counter, t)
    ensures Streaming(Readings(read, AllVisits(c, taken)))
  {
    DigestMeaning(Readings(read, AllVisits(c, taken)));
  }

  /** Takes one more datagram, if it can. */
  method TakeNext(dump: Transport, c: Codec, read: Message -> Reading, destroy: Transport, w: Wire, counter: uint32,
                  ghost taken: seq<Datagram>, ghost t: Trace, ghost prior: seq<Socket>, ghost books: Books)
    returns (ok: bool, complete: bool, after: uint32, ghost now: seq<Datagram>, ghost next: Trace)
    requires dump != destroy && dump.buffer != destroy.buffer
    requires Streamed(c, read, w, taken, prior, false, counter, t) && books(t.ledger, destroy.sent, destroy.inbox)
    requires Keeps(w, books)
    modifies dump`inbox, dump`failures, dump.buffer, destroy, destroy.buffer
    ensures now + dump.inbox == taken + old(dump.inbox) && next.seen <= AllVisits(c, now)
    ensures next.ledger.start == t.ledger.start && Within(read, next, prior)
    ensures books(next.ledger, destroy.sent, destroy.inbox)
    ensures old(dump.failures) <= dump.failures && old(destroy.failures) <= destroy.failures
    ensures ok ==>
      dump.failures == old(dump.failures) && destroy.failures == old(destroy.failures)
      && |dump.inbox| < old(|dump.inbox|) && Streamed(c, read, w, now, prior, complete, after, next)
    ensures !ok ==>
      || dump.failures > old(dump.failures) || destroy.failures > old(destroy.failures)
      || !AllAcked(next.ledger, w) || Spoilt(c, read, now)
    ensures old(dump.Calm()) && old(destroy.Calm()) ==>
      dump.Calm() && destroy.Calm() && (!ok ==> Stopped(c, read, w, now, dump.inbox, next.ledger, destroy.inbox))
  {
    ghost var ahead := dump.inbox;
    var received;
    received, ok, complete, after, next := TakeDatagram(dump, c, read, destroy, w, counter, t, prior, books);
    now := if dump.inbox != ahead then taken + [ahead[0]] else taken;
    assert now + dump.inbox == taken + ahead;
    if !received {
      DryDump(c, read, w, taken, prior, counter, t);
      SeenGrows(c, taken, now);
    } else {
      AllVisitsNext(c, taken, ahead[0]);
      if ok {
        StreamedNext(c, read, w, taken, ahead[0], prior, complete, after, next);
      } else {
        SpoiltNext(c, read, taken, ahead[0]);
      }
    }
  }

  lemma {:induction false} SeenGrows(c: Codec, taken: seq<Datagram>, now: seq<Datagram>)
    requires now == taken || (|now| == |taken| + 1 && taken <= now)
    ensures AllVisits(c, taken) <= AllVisits(c, now)
  {
    if now != taken {
      assert now == taken + [now[|taken|]];
      AllVisitsNext(c, taken, now[|taken|]);
    }
  }

  lemma {:induction false} StreamedNext(c: Codec, read: Message -> Reading, w: Wire, taken: seq<Datagram>, p: Datagram, prior: seq<Socket>,
                                        complete: bool, after: uint32, next: Trace)
    requires (forall q :: q in taken ==> Sound(c, q)) && Sound(c, p)
    requires next.seen == AllVisits(c, taken + [p]) && Caught(read, next, prior, complete)
    requires AllAcked(next.ledger, w) && after == Draw(next.ledger.start, |next.ledger.sockets|)
    ensures Streamed(c, read, w, taken + [p], prior, complete, after, next)
  {
  }

  lemma {:induction false} SpoiltNext(c: Codec, read: Message -> Reading, taken: seq<Datagram>, p: Datagram)
    ensures !Sound(c, p) || DigestAll(Readings(read, Total(c, p.data, AllVisits(c, taken)))).None? ==> Spoilt(c, read, taken + [p])
  {
    AllVisitsNext(c, taken, p);
    assert p in taken + [p];
  }

  /**
  Streams one dump to its completion; `taken` are the dump datagrams consumed.
   */
  method ConsumeDump(dump: Transport, c: Codec, read: Message -> Reading, destroy: Transport, w: Wire, counter: uint32,
                     ghost l: Ledger, ghost books: Books)
    returns (ok: bool, after: uint32, ghost taken: seq<Datagram>, ghost t: Trace)
    requires dump != destroy && dump.buffer != destroy.buffer
    requires books(l, destroy.sent, destroy.inbox)
    requires AllAcked(l, w) && counter == Draw(l.start, |l.sockets|)
    requires Keeps(w, books)
    modifies dump`inbox, dump`failures, dump.buffer, destroy, destroy.buffer
    ensures old(dump.inbox) == taken + dump.inbox && t.seen <= AllVisits(c, taken)
    ensures books(t.ledger, destroy.sent, destroy.inbox) && t.ledger.start == l.start
    ensures Within(read, t, l.sockets)
    ensures old(dump.failures) <= dump.failures && old(destroy.failures) <= destroy.failures
    ensures ok <==>
      && dump.failures == old(dump.failures) && destroy.failures == old(destroy.failures) && AllAcked(t.ledger, w)
      && Whole(c, read, taken)
    ensures old(dump.Calm()) && old(destroy.Calm()) ==>
      dump.Calm() && destroy.Calm() && (!ok ==> Stopped(c, read, w, taken, dump.inbox, t.ledger, destroy.inbox))
    ensures ok ==> t.seen == AllVisits(c, taken) && t.ledger.sockets == l.sockets + Hits(Readings(read, AllVisits(c, taken)))
    ensures ok ==> AllAcked(t.ledger, w) && after == Draw(l.start, |t.ledger.sockets|)
  {
    t, taken, after := Trace([], l), [], counter;
    var complete := false;
    ok := true;
    assert l.sockets + [] == l.sockets;
    assert Streamed(c, read, w, taken, l.sockets, complete, after, t);
    while ok && !complete
      invariant old(dump.inbox) == taken + dump.inbox && t.seen <= AllVisits(c, taken)
      invariant t.ledger.start == l.start && Within(read, t, l.sockets)
      invariant books(t.ledger, destroy.sent, destroy.inbox)
      invariant old(dump.failures) <= dump.failures && old(destroy.failures) <= destroy.failures
      invariant ok ==>
        dump.failures == old(dump.failures) && destroy.failures == old(destroy.failures)
        && Streamed(c, read, w, taken, l.sockets, complete, after, t)
      invariant !ok ==>
        || dump.failures > old(dump.failures) || destroy.failures > old(destroy.failures)
        || !AllAcked(t.ledger, w) || Spoilt(c, read, taken)
      invariant old(dump.Calm()) && old(destroy.Calm()) ==>
        dump.Calm() && destroy.Calm() && (!ok ==> Stopped(c, read, w, taken, dump.inbox, t.ledger, destroy.inbox))
      decreases ok, |dump.inbox|
    {
      ok, complete, after, taken, t :=
        TakeNext(dump, c, read, destroy, w, after, taken, t, l.sockets, books);
    }
    DigestMeaning(Readings(read, AllVisits(c, taken)));
  }

  // ---------- Both families ----------

  /** The exchange on the dump transport: one dump per family, numbered in order. */
  datatype DumpWire = DumpWire(families: seq<byte>, codec: Codec,
                               request: (byte, uint32) -> seq<byte>, read: (byte, uint32, Message) -> Reading)

  /** IPv6 first, so that a mapped endpoint goes before its native peer can close it. */
  function NativeDump(order: Order, port: uint32, targets: set<seq<byte>>): DumpWire {
    DumpWire([AF_INET6, AF_INET], Native(order), (family: byte, n: uint32) => DumpRequest(order, family, n),
             (family: byte, n: uint32, m: Message) => Read(Query(order, port, n, family, targets), m))
  }

  /** The reader of dump number k, counted from zero. */
  function DumpReader(d: DumpWire, k: nat): Message -> Reading
    requires k < |d.families|
  {
    (m: Message) => d.read(d.families[k], Draw(0, k + 1), m)
  }

  function DumpReadings(d: DumpWire, k: nat, taken: seq<Datagram>): seq<Reading>
    requires k < |d.families|
  {
    Readings(DumpReader(d, k), AllVisits(d.codec, taken))
  }

  function DumpRequests(d: DumpWire, n: nat): (out: seq<seq<byte>>)
    requires n <= |d.families|
    ensures |out| == n
  {
    seq(n, k requires 0 <= k < n => d.request(d.families[k], Draw(0, k + 1)))
  }

  /** The matching records of all dumps, in order. */
  function AllHits(d: DumpWire, taken: seq<seq<Datagram>>): seq<Socket>
    requires |taken| <= |d.families|
  {
    if taken == [] then []
    else
      var n := |taken| - 1;
      AllHits(d, taken[..n]) + Hits(DumpReadings(d, n, taken[n]))
  }

  ghost predicate Finished(d: DumpWire, k: nat, taken: seq<Datagram>)
    requires k < |d.families|
  {
    Whole(d.codec, DumpReader(d, k), taken)
  }

  lemma {:induction false} HitsPrefix(a: seq<Reading>, b: seq<Reading>)
    ensures Hits(a) <= Hits(a + b)
    decreases |b|
  {
    if b == [] {
      assert a + b == a;
    } else {
      HitsPrefix(a, b[..|b| - 1]);
      assert (a + b)[..|a + b| - 1] == a + b[..|b| - 1];
    }
  }

  lemma {:induction false} HitsWithin(read: Message -> Reading, seen: seq<Message>, all: seq<Message>)
    requires seen <= all
    ensures Hits(Readings(read, seen)) <= Hits(Readings(read, all))
  {
    var rest := all[|seen|..];
    assert all == seen + rest;
    ReadingsConcat(read, seen, rest);
    HitsPrefix(Readings(read, seen), Readings(read, rest));
  }

  lemma {:induction false} AllHitsNext(d: DumpWire, taken: seq<seq<Datagram>>, dump: seq<Datagram>)
    requires |taken| < |d.families|
    ensures AllHits(d, taken + [dump]) == AllHits(d, taken) + Hits(DumpReadings(d, |taken|, dump))
  {
    assert (taken + [dump])[..|taken|] == taken;
  }

  /** Every dump so far was finished and its matching records destroyed, each acknowledged. */
  ghost predicate Settled(d: DumpWire, w: Wire, taken: seq<seq<Datagram>>, l: Ledger, counter: uint32) {
    && |taken| <= |d.families|
    && (forall k :: 0 <= k < |taken| ==> Finished(d, k, taken[k]))
    && l.sockets == AllHits(d, taken) && AllAcked(l, w) && counter == Draw(l.start, |l.sockets|)
  }

  lemma {:induction false} SettledNext(d: DumpWire, w: Wire, taken: seq<seq<Datagram>>, l: Ledger, counter: uint32,
                    part: seq<Datagram>, t: Trace, after: uint32)
    requires Settled(d, w, taken, l, counter) && |taken| < |d.families| && t.ledger.start == l.start
    requires Finished(d, |taken|, part) && AllAcked(t.ledger, w) && after == Draw(l.start, |t.ledger.sockets|)
    requires t.ledger.sockets == l.sockets + Hits(DumpReadings(d, |taken|, part))
    ensures Settled(d, w, taken + [part], t.ledger, after)
  {
    AllHitsNext(d, taken, part);
    var now := taken + [part];
    forall k | 0 <= k < |now| ensures Finished(d, k, now[k]) {
      assert k < |taken| ==> now[k] == taken[k];
    }
  }

  /** The datagrams of one more dump, and what was asked to be destroyed for them. */
  lemma {:induction false} FamilyTaken(d: DumpWire, taken: seq<seq<Datagram>>, part: seq<Datagram>, t: Trace, l: Ledger, inbox: seq<Datagram>)
    requires |taken| < |d.families| && l.sockets == AllHits(d, taken)
    requires Within(DumpReader(d, |taken|), t, l.sockets) && t.seen <= AllVisits(d.codec, part)
    ensures Concat(taken + [part]) + inbox == Concat(taken) + (part + inbox)
    ensures t.ledger.sockets <= AllHits(d, taken + [part])
  {
    HitsWithin(DumpReader(d, |taken|), t.seen, AllVisits(d.codec, part));
    AllHitsNext(d, taken, part);
    ConcatNext(taken, part);
    Associative(Concat(taken), part, inbox);
  }

  /** Asks for one dump and streams it to completion. */
  method RequestDump(dump: Transport, request: seq<byte>, c: Codec, read: Message -> Reading, destroy: Transport, w: Wire, counter: uint32,
                     ghost l: Ledger, ghost books: Books)
    returns (ok: bool, after: uint32, ghost part: seq<Datagram>, ghost t: Trace)
    requires dump != destroy && dump.buffer != destroy.buffer
    requires books(l, destroy.sent, destroy.inbox)
    requires AllAcked(l, w) && counter == Draw(l.start, |l.sockets|)
    requires Keeps(w, books)
    modifies dump, dump.buffer, destroy, destroy.buffer
    ensures old(dump.inbox) == part + dump.inbox && t.seen <= AllVisits(c, part)
    ensures books(t.ledger, destroy.sent, destroy.inbox) && t.ledger.start == l.start
    ensures Within(read, t, l.sockets)
    ensures old(dump.failures) <= dump.failures && old(destroy.failures) <= destroy.failures
    ensures ok <==>
      dump.failures == old(dump.failures) && destroy.failures == old(destroy.failures) && AllAcked(t.ledger, w) && Whole(c, read, part)
    ensures ok ==> dump.sent == old(dump.sent) + [request]
    ensures ok ==> t.ledger.sockets == l.sockets + Hits(Readings(read, AllVisits(c, part))) && after == Draw(l.start, |t.ledger.sockets|)
    ensures old(dump.Calm()) && old(destroy.Calm()) ==>
      dump.Calm() && destroy.Calm() && (!ok ==> Stopped(c, read, w, part, dump.inbox, t.ledger, destroy.inbox))
  {
    part, t, after := [], Trace([], l), counter;
    assert Readings(read, []) == [] && l.sockets + [] == l.sockets;
    ok := dump.Send(request);
    if ok {
      ok, after, part, t := ConsumeDump(dump, c, read, destroy, w, counter, l, books);
    }
  }

  /** Some dump that was begun did not come to a sound and complete end. */
  ghost predicate Unfinished(d: DumpWire, taken: seq<seq<Datagram>>) {
    exists k :: 0 <= k < |taken| && k < |d.families| && !Finished(d, k, taken[k])
  }

  /** Some call failed, or a request was not acknowledged, or a dump did not come to its end. */
  ghost predicate Faulted(failed: bool, d: DumpWire, w: Wire, taken: seq<seq<Datagram>>, l: Ledger) {
    failed || !AllAcked(l, w) || Unfinished(d, taken)
  }

  lemma {:induction false} FaultedNext(failed: bool, d: DumpWire, w: Wire, taken: seq<seq<Datagram>>, part: seq<Datagram>, l: Ledger)
    requires |taken| < |d.families|
    requires failed || !AllAcked(l, w) || !Finished(d, |taken|, part)
    ensures Faulted(failed, d, w, taken + [part], l)
  {
    assert (taken + [part])[|taken|] == part;
  }

  /** The last dump begun was stopped by what the kernel sent or did not send. */
  ghost predicate LastStopped(d: DumpWire, w: Wire, taken: seq<seq<Datagram>>, inbox: seq<Datagram>, l: Ledger, destroyInbox: seq<Datagram>) {
    && 0 < |taken| <= |d.families|
    && var k := |taken| - 1;
       Stopped(d.codec, DumpReader(d, k), w, taken[k], inbox, l, destroyInbox)
  }

  /** One family: its dump, streamed to completion after the dumps already taken. */
  method KillFamily(dump: Transport, d: DumpWire, i: nat, dumpSequence: uint32, destroy: Transport, w: Wire, counter: uint32,
                    ghost taken: seq<seq<Datagram>>, ghost l: Ledger, ghost books: Books)
    returns (ok: bool, after: uint32, ghost now: seq<seq<Datagram>>, ghost booked: Ledger)
    requires dump != destroy && dump.buffer != destroy.buffer && |taken| == i < |d.families| && dumpSequence == Draw(0, i + 1)
    requires Settled(d, w, taken, l, counter) && books(l, destroy.sent, destroy.inbox)
    requires Keeps(w, books)
    modifies dump, dump.buffer, destroy, destroy.buffer
    ensures |now| == i + 1 && Concat(now) + dump.inbox == Concat(taken) + old(dump.inbox)
    ensures booked.start == l.start && booked.sockets <= AllHits(d, now)
    ensures books(booked, destroy.sent, destroy.inbox)
    ensures old(dump.failures) <= dump.failures && old(destroy.failures) <= destroy.failures
    ensures ok ==>
      && dump.failures == old(dump.failures) && destroy.failures == old(destroy.failures)
      && dump.sent == old(dump.sent) + [d.request(d.families[i], Draw(0, i + 1))] && Settled(d, w, now, booked, after)
    ensures !ok ==> Faulted(dump.failures > old(dump.failures) || destroy.failures > old(destroy.failures), d, w, now, booked)
    ensures old(dump.Calm()) && old(destroy.Calm()) ==>
      dump.Calm() && destroy.Calm() && (!ok ==> LastStopped(d, w, now, dump.inbox, booked, destroy.inbox))
  {
    ghost var part, t;
    ok, after, part, t :=
      RequestDump(dump, d.request(d.families[i], dumpSequence), d.codec, DumpReader(d, i), destroy, w, counter, l, books);
    now, booked := taken + [part], t.ledger;
    FamilyTaken(d, taken, part, t, l, dump.inbox);
    if ok {
      SettledNext(d, w, taken, l, counter, part, t, after);
    } else {
      FaultedNext(dump.failures > old(dump.failures) || destroy.failures > old(destroy.failures), d, w, taken, part, booked);
    }
  }

  lemma {:induction false} DumpRequestsNext(sent: seq<seq<byte>>, d: DumpWire, i: nat)
    requires i < |d.families|
    ensures sent + DumpRequests(d, i) + [d.request(d.families[i], Draw(0, i + 1))] == sent + DumpRequests(d, i + 1)
    ensures NextSequence(Draw(0, i)) == Draw(0, i + 1)
  {
    var request := d.request(d.families[i], Draw(0, i + 1));
    assert DumpRequests(d, i + 1) == DumpRequests(d, i) + [request];
    Associative(sent, DumpRequests(d, i), [request]);
  }

  /** Everything settled so far, or the reason why not. */
  ghost predicate Standing(ok: bool, failed: bool, calm: bool, d: DumpWire, w: Wire, taken: seq<seq<Datagram>>, l: Ledger,
                           counter: uint32, inbox: seq<Datagram>, destroyInbox: seq<Datagram>) {
    if ok then !failed && Settled(d, w, taken, l, counter)
    else Faulted(failed, d, w, taken, l) && (calm ==> LastStopped(d, w, taken, inbox, l, destroyInbox))
  }

  /** One dump per family, whatever account is kept of the destroy transport. */
  method KillEach(dump: Transport, d: DumpWire, destroy: Transport, w: Wire, ghost books: Books)
    returns (ok: bool, ghost taken: seq<seq<Datagram>>, ghost l: Ledger)
    requires dump != destroy && dump.buffer != destroy.buffer
    requires Keeps(w, books) && books(Ledger(0, [], []), destroy.sent, destroy.inbox)
    modifies dump, dump.buffer, destroy, destroy.buffer
    ensures |taken| <= |d.families| && Concat(taken) + dump.inbox == old(dump.inbox)
    ensures l.start == 0 && l.sockets <= AllHits(d, taken) && books(l, destroy.sent, destroy.inbox)
    ensures ok ==>
      && dump.failures == old(dump.failures) && destroy.failures == old(destroy.failures)
      && |taken| == |d.families| && dump.sent == old(dump.sent) + DumpRequests(d, |d.families|)
      && Settled(d, w, taken, l, Draw(0, |l.sockets|))
    ensures !ok ==> Faulted(dump.failures > old(dump.failures) || destroy.failures > old(destroy.failures), d, w, taken, l)
    ensures old(dump.Calm()) && old(destroy.Calm()) && !ok ==> LastStopped(d, w, taken, dump.inbox, l, destroy.inbox)
  {
    l, taken, ok := Ledger(0, [], []), [], true;
    var dumpSequence: uint32, destroySequence: uint32 := 0, 0;
    var i := 0;
    while ok && i < |d.families|
      invariant 0 <= i <= |d.families| && |taken| == i
      invariant Concat(taken) + dump.inbox == old(dump.inbox)
      invariant l.start == 0 && l.sockets <= AllHits(d, taken) && books(l, destroy.sent, destroy.inbox)
      invariant old(dump.failures) <= dump.failures && old(destroy.failures) <= destroy.failures
      invariant old(dump.Calm()) && old(destroy.Calm()) ==> dump.Calm() && destroy.Calm()
      invariant Standing(ok, dump.failures > old(dump.failures) || destroy.failures > old(destroy.failures),
                         old(dump.Calm()) && old(destroy.Calm()), d, w, taken, l, destroySequence, dump.inbox, destroy.inbox)
      invariant ok ==> dumpSequence == Draw(0, i) && dump.sent == old(dump.sent) + DumpRequests(d, i)
    {
      DumpRequestsNext(old(dump.sent), d, i);
      dumpSequence := NextSequence(dumpSequence);
      ok, destroySequence, taken, l := KillFamily(dump, d, i, dumpSequence, destroy, w, destroySequence, taken, l, books);
      i := i + 1;
    }
  }

  /** One dump per family; `taken` are the datagrams of each dump begun. */
  method KillByFamilies(dump: Transport, d: DumpWire, destroy: Transport, w: Wire)
    returns (ok: bool, ghost taken: seq<seq<Datagram>>, ghost l: Ledger)
    requires dump != destroy && dump.buffer != destroy.buffer
    modifies dump, dump.buffer, destroy, destroy.buffer
    ensures |taken| <= |d.families| && Concat(taken) + dump.inbox == old(dump.inbox)
    ensures l.start == 0 && l.sockets <= AllHits(d, taken)
    ensures Booked(l, w, old(destroy.sent), destroy.sent, old(destroy.inbox), destroy.inbox)
    ensures ok <==>
      && dump.failures == old(dump.failures) && destroy.failures == old(destroy.failures)
      && AllAcked(l, w) && !Unfinished(d, taken)
    // on calm transports only the kernel makes it fail
    ensures old(dump.Calm()) && old(destroy.Calm()) && !ok ==> LastStopped(d, w, taken, dump.inbox, l, destroy.inbox)
    ensures ok ==>
      && |taken| == |d.families| && dump.sent == old(dump.sent) + DumpRequests(d, |d.families|)
      && l.sockets == AllHits(d, taken)
  {
    FullAccountKeeps(w, destroy.sent, destroy.inbox);
    ok, taken, l := KillEach(dump, d, destroy, w, FullAccount(w, destroy.sent, destroy.inbox));
  }

  /** Destroys every connected socket of either family that touches a target, over two open transports. */
  method KillSocketsByTargets(order: Order, dump: Transport, destroy: Transport, targets: set<seq<byte>>)
    returns (ok: bool, ghost taken: seq<seq<Datagram>>, ghost l: Ledger)
    requires dump != destroy && dump.buffer != destroy.buffer
    modifies dump, dump.buffer, destroy, destroy.buffer
    ensures |taken| <= 2 && Concat(taken) + dump.inbox == old(dump.inbox)
    ensures l.start == 0 && l.sockets <= AllHits(NativeDump(order, dump.port, targets), taken)
    ensures Booked(l, DestroyWire(order, destroy.port), old(destroy.sent), destroy.sent, old(destroy.inbox), destroy.inbox)
    ensures ok <==>
      && dump.failures == old(dump.failures) && destroy.failures == old(destroy.failures)
      && AllAcked(l, DestroyWire(order, destroy.port)) && !Unfinished(NativeDump(order, dump.port, targets), taken)
    ensures old(dump.Calm()) && old(destroy.Calm()) && !ok ==>
      LastStopped(NativeDump(order, dump.port, targets), DestroyWire(order, destroy.port), taken, dump.inbox, l, destroy.inbox)
    ensures ok ==>
      var d := NativeDump(order, dump.port, targets);
      |taken| == 2 && dump.sent == old(dump.sent) + DumpRequests(d, 2) && l.sockets == AllHits(d, taken)
  {
    ok, taken, l := KillByFamilies(dump, NativeDump(order, dump.port, targets), destroy, DestroyWire(order, destroy.port));
  }

  /** A record that names a target at either end matches it, also where the target is written as a mapped IPv6 address. */
  lemma {:induction false} MappedTargetMatches(payload: seq<byte>, targets: set<seq<byte>>, target: seq<byte>, at: nat)
    requires |payload| >= DIAG_MIN_LEN && payload[0] == AF_INET6 && |target| == 4 && target in targets && (at == 8 || at == 24)
    requires payload[at..at + 16] == [0, 0, 0, 0, 0, 0, 0, 0, 0, 0, 255, 255] + target
    ensures ParseSocket(payload, AF_INET6, targets) == Match(Socket(AF_INET6, payload[4..52]))
  {
    var mapped := payload[at..at + 16];
    assert mapped[..12] == [0, 0, 0, 0, 0, 0, 0, 0, 0, 0, 255, 255] && mapped[12..] == target;
  }

  /** The kernel reads back from a destroy request the socket that was matched. */
  lemma {:induction false} DestroyRequestNamesSocket(order: Order, s: Socket, sequence: uint32)
    requires |s.id| == 48
    ensures var m := FirstMessage(order, DestroyRequest(order, s, sequence));
      && m.Some? && m.value.kind == DESTROY && m.value.flags == FLAG_REQUEST_ACK && m.value.sequence == sequence && m.value.pid == 0
      && |m.value.payload| == REQUEST_LEN && m.value.payload[0] == s.family && m.value.payload[8..] == s.id
  {
    var payload := [s.family, IPPROTO_TCP, 0, 0, 0, 0, 0, 0] + s.id;
    var m := Message(DESTROY, FLAG_REQUEST_ACK, sequence, 0, payload);
    DecodesMarshalled(order, m, []);
    assert Marshal(order, m) + [] == Marshal(order, m);
    assert payload[8..] == s.id;
  }
}
