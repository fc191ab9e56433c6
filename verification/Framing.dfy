/** The TLV2 wire format, over byte streams that move in arbitrary short pieces. */
module Framing {
  import opened Basics
  import opened SessionSpec

  const TLV_MAGIC: int := 0x544C5632
  const TLV_VERSION: int := 2
  const HEADER_SIZE: int := 36
  const MAX_PACKET_PAYLOAD: int := 65536

  type Word = x: int | 0 <= x < 0x1_0000_0000

  datatype Packet = Packet(kind: Word, status: Word, session: SessionId, payload: Bytes)

  /** Four bytes, the most significant one first. */
  function NetU32(value: Word): (bytes: Bytes)
    ensures |bytes| == 4
  {
    var upper := value / 256;
    var top := upper / 256;
    [top / 256, top % 256, upper % 256, value % 256]
  }

  function ReadNetU32(bytes: Bytes): Word
    requires |bytes| >= 4
  {
    ((bytes[0] as int * 256 + bytes[1]) * 256 + bytes[2]) * 256 + bytes[3]
  }

  lemma U32RoundTrip(value: Word, rest: Bytes)
    ensures ReadNetU32(NetU32(value) + rest) == value
  {
    var bytes := NetU32(value) + rest;
    assert bytes[0] == value / 256 / 256 / 256 && bytes[1] == value / 256 / 256 % 256;
    assert bytes[2] == value / 256 % 256 && bytes[3] == value % 256;
  }

  /** `encode_wire_header` */
  function EncodeHeader(kind: Word, status: Word, length: Word, session: SessionId): (bytes: Bytes)
    ensures |bytes| == HEADER_SIZE
  {
    NetU32(TLV_MAGIC) + NetU32(TLV_VERSION) + NetU32(kind) + NetU32(status) + NetU32(length) + session
  }

  function Encode(p: Packet): Bytes
    requires |p.payload| <= MAX_PACKET_PAYLOAD
  {
    EncodeHeader(p.kind, p.status, |p.payload|, p.session) + p.payload
  }

  datatype Parsed = Got(packet: Packet, rest: Bytes) | Incomplete | Malformed

  /** What `protocol_recv_packet` finds at the head of a stream. */
  function Decode(stream: Bytes): Parsed {
    if |stream| < HEADER_SIZE then Incomplete
    else if ReadNetU32(stream) != TLV_MAGIC || ReadNetU32(stream[4..]) != TLV_VERSION then Malformed
    else
      var length := ReadNetU32(stream[16..]);
      if length > MAX_PACKET_PAYLOAD then Malformed
      else if |stream| < HEADER_SIZE + length then Incomplete
      else Got(Packet(ReadNetU32(stream[8..]), ReadNetU32(stream[12..]), stream[20..36],
                      stream[HEADER_SIZE..HEADER_SIZE + length]),
               stream[HEADER_SIZE + length..])
  }

  predicate AllFit(ps: seq<Packet>) {
    forall i :: 0 <= i < |ps| ==> |ps[i].payload| <= MAX_PACKET_PAYLOAD
  }

  function EncodeAll(ps: seq<Packet>): Bytes
    requires AllFit(ps)
  {
    if ps == [] then [] else Encode(ps[0]) + EncodeAll(ps[1..])
  }

  /** The packets a receiver takes off a stream, one after the other. */
  function DecodeAll(stream: Bytes): seq<Packet>
    decreases |stream|
  {
    match Decode(stream)
    case Got(p, rest) => [p] + DecodeAll(rest)
    case _ => []
  }

  lemma HeaderFields(kind: Word, status: Word, length: Word, session: SessionId, rest: Bytes)
    ensures var stream := EncodeHeader(kind, status, length, session) + rest;
      && ReadNetU32(stream) == TLV_MAGIC && ReadNetU32(stream[4..]) == TLV_VERSION
      && ReadNetU32(stream[8..]) == kind && ReadNetU32(stream[12..]) == status
      && ReadNetU32(stream[16..]) == length && stream[20..36] == session && stream[36..] == rest
  {
    hide NetU32, ReadNetU32;
    var stream := EncodeHeader(kind, status, length, session) + rest;
    var tail := session + rest;
    FieldAt([], TLV_MAGIC, NetU32(TLV_VERSION) + NetU32(kind) + NetU32(status) + NetU32(length) + tail, stream);
    FieldAt(NetU32(TLV_MAGIC), TLV_VERSION, NetU32(kind) + NetU32(status) + NetU32(length) + tail, stream);
    FieldAt(NetU32(TLV_MAGIC) + NetU32(TLV_VERSION), kind, NetU32(status) + NetU32(length) + tail, stream);
    FieldAt(NetU32(TLV_MAGIC) + NetU32(TLV_VERSION) + NetU32(kind), status, NetU32(length) + tail, stream);
    FieldAt(NetU32(TLV_MAGIC) + NetU32(TLV_VERSION) + NetU32(kind) + NetU32(status), length, tail, stream);
  }

  lemma FieldAt(before: Bytes, value: Word, after: Bytes, stream: Bytes)
    requires stream == before + NetU32(value) + after
    ensures |stream| >= |before| + 4 && ReadNetU32(stream[|before|..]) == value
  {
    U32RoundTrip(value, after);
    assert stream[|before|..] == NetU32(value) + after;
  }

  /** Receiving undoes sending, whatever follows on the stream. */
  lemma RoundTrip(p: Packet, rest: Bytes)
    requires |p.payload| <= MAX_PACKET_PAYLOAD
    ensures Decode(Encode(p) + rest) == Got(p, rest)
  {
    var header := EncodeHeader(p.kind, p.status, |p.payload|, p.session);
    HeaderFields(p.kind, p.status, |p.payload|, p.session, p.payload + rest);
    var stream := Encode(p) + rest;
    assert stream == header + (p.payload + rest);
    assert stream[36..36 + |p.payload|] == p.payload;
    assert stream[36 + |p.payload|..] == rest;
  }

  /** The number that four bytes are, the most significant one first. */
  function BigEndian(a: Byte, b: Byte, c: Byte, d: Byte): int {
    a * 0x100_0000 + b * 0x1_0000 + c * 0x100 + d
  }

  lemma BigEndianIsRead(bytes: Bytes)
    requires |bytes| >= 4
    ensures ReadNetU32(bytes) == BigEndian(bytes[0], bytes[1], bytes[2], bytes[3])
    ensures NetU32(ReadNetU32(bytes)) == bytes[..4]
  {
    var value := ReadNetU32(bytes);
    var a: int, b: int, c: int := bytes[0], bytes[1], bytes[2];
    assert value % 256 == bytes[3] && value / 256 == (a * 256 + b) * 256 + c;
    assert value / 256 / 256 == a * 256 + b;
    assert NetU32(value) == [bytes[0], bytes[1], bytes[2], bytes[3]];
  }

  lemma MagicBytes()
    ensures NetU32(TLV_MAGIC) == [0x54, 0x4C, 0x56, 0x32] && NetU32(TLV_VERSION) == [0, 0, 0, 2]
  {
  }

  /** The bytes of a packet: "TLV2", the version, then type, status and length in network order,
      the session id and the payload. */
  lemma WireLayout(p: Packet)
    requires |p.payload| <= MAX_PACKET_PAYLOAD
    ensures var b := Encode(p);
      && |b| == 36 + |p.payload| && b[..8] == [0x54, 0x4C, 0x56, 0x32, 0, 0, 0, 2]
      && BigEndian(b[8], b[9], b[10], b[11]) == p.kind && BigEndian(b[12], b[13], b[14], b[15]) == p.status
      && BigEndian(b[16], b[17], b[18], b[19]) == |p.payload| && b[20..36] == p.session && b[36..] == p.payload
  {
    hide NetU32, ReadNetU32, BigEndian;
    var b := Encode(p);
    HeaderFields(p.kind, p.status, |p.payload|, p.session, p.payload);
    MagicBytes();
    assert b[..8] == NetU32(TLV_MAGIC) + NetU32(TLV_VERSION);
    BigEndianIsRead(b[8..]);
    BigEndianIsRead(b[12..]);
    BigEndianIsRead(b[16..]);
  }

  /** Only an encoded packet is received: what is at the head of the stream is its encoding, byte
      for byte. */
  lemma ReceivedIsEncoded(stream: Bytes)
    requires Decode(stream).Got?
    ensures var p := Decode(stream).packet;
      |p.payload| <= MAX_PACKET_PAYLOAD && stream == Encode(p) + Decode(stream).rest
  {
    hide NetU32, ReadNetU32;
    var p, rest := Decode(stream).packet, Decode(stream).rest;
    BigEndianIsRead(stream);
    BigEndianIsRead(stream[4..]);
    BigEndianIsRead(stream[8..]);
    BigEndianIsRead(stream[12..]);
    BigEndianIsRead(stream[16..]);
    var header := EncodeHeader(p.kind, p.status, |p.payload|, p.session);
    assert header == stream[..4] + stream[4..][..4] + stream[8..][..4] + stream[12..][..4] + stream[16..][..4]
      + stream[20..36];
    Pieces(stream);
    assert stream == stream[..36] + stream[36..];
    assert stream[36..] == p.payload + rest;
  }

  lemma Pieces(stream: Bytes)
    requires |stream| >= 36
    ensures stream[..4] + stream[4..][..4] + stream[8..][..4] + stream[12..][..4] + stream[16..][..4] + stream[20..36]
      == stream[..36]
  {
    assert stream[..4] + stream[4..][..4] == stream[..8];
    assert stream[..8] + stream[8..][..4] == stream[..12];
    assert stream[..12] + stream[12..][..4] == stream[..16];
    assert stream[..16] + stream[16..][..4] == stream[..20];
    assert stream[..20] + stream[20..36] == stream[..36];
  }

  lemma {:induction false} RoundTripAll(ps: seq<Packet>)
    requires AllFit(ps)
    ensures DecodeAll(EncodeAll(ps)) == ps
  {
    if ps != [] {
      RoundTrip(ps[0], EncodeAll(ps[1..]));
      RoundTripAll(ps[1..]);
    }
  }

  /** A packet that is cut short is never taken for another one. */
  lemma PrefixIsIncomplete(p: Packet, n: nat)
    requires |p.payload| <= MAX_PACKET_PAYLOAD && n < |Encode(p)|
    ensures Decode(Encode(p)[..n]) == Incomplete
  {
    var part := Encode(p)[..n];
    if n >= HEADER_SIZE {
      var header := EncodeHeader(p.kind, p.status, |p.payload|, p.session);
      HeaderFields(p.kind, p.status, |p.payload|, p.session, part[36..]);
      assert part == header + part[36..];
    }
  }

  lemma NothingYet()
    ensures DecodeAll([]) == []
  {
  }

  /** However far a stream of packets has come, what can be received from it is what was
      sent first, in order, and not all of it before the stream is complete. */
  lemma {:induction false} PrefixDecodesToPrefix(ps: seq<Packet>, n: nat)
    requires AllFit(ps) && n <= |EncodeAll(ps)|
    ensures DecodeAll(EncodeAll(ps)[..n]) <= ps
    ensures n < |EncodeAll(ps)| ==> DecodeAll(EncodeAll(ps)[..n]) != ps
  {
    hide Decode, Encode;
    if ps == [] {
      NothingYet();
    } else {
      var first, others := Encode(ps[0]), EncodeAll(ps[1..]);
      if n < |first| {
        PrefixIsIncomplete(ps[0], n);
        assert EncodeAll(ps)[..n] == first[..n];
      } else {
        assert EncodeAll(ps)[..n] == first + others[..n - |first|];
        RoundTrip(ps[0], others[..n - |first|]);
        PrefixDecodesToPrefix(ps[1..], n - |first|);
      }
    }
  }

  /** The outcome of one `send` or `recv`: some bytes moved, a signal, or an error. */
  datatype Io = Moved(count: Positive) | Interrupted | Broken

  /** How many bytes a schedule lets through before it breaks or ends. */
  function Capacity(schedule: seq<Io>): nat {
    if schedule == [] || schedule[0].Broken? then 0
    else (if schedule[0].Moved? then schedule[0].count else 0) + Capacity(schedule[1..])
  }

  function Min(a: int, b: int): int {
    if a < b then a else b
  }

  /** What is left of a schedule once `n` bytes have been moved, if it lets them through. A
      call never moves more than is asked for, so what the last one could have moved in
      addition is lost. */
  function Left(schedule: seq<Io>, n: nat): Option<seq<Io>>
    decreases |schedule|
  {
    if n == 0 then Some(schedule)
    else if schedule == [] || schedule[0].Broken? then None
    else Left(schedule[1..], n - if schedule[0].Moved? then Min(schedule[0].count, n) else 0)
  }

  lemma {:induction false} LeftIff(schedule: seq<Io>, n: nat)
    ensures Left(schedule, n).Some? <==> n <= Capacity(schedule)
    decreases |schedule|
  {
    if n > 0 && schedule != [] && !schedule[0].Broken? {
      LeftIff(schedule[1..], n - if schedule[0].Moved? then Min(schedule[0].count, n) else 0);
    }
  }

  /** `send_n` */
  method SendN(data: Bytes, schedule: seq<Io>) returns (ok: bool, sent: Bytes, later: seq<Io>)
    ensures sent == data[..Min(|data|, Capacity(schedule))]
    ensures ok <==> sent == data
    ensures if ok then Left(schedule, |data|) == Some(later) else Left(schedule, |data|).None?
  {
    LeftIff(schedule, |data|);
    var total := 0;
    later := schedule;
    while total < |data|
      invariant 0 <= total <= |data|
      invariant Min(|data|, Capacity(schedule)) == Min(|data|, total + Capacity(later))
      invariant Left(schedule, |data|) == Left(later, |data| - total)
      decreases |later|
    {
      if later == [] || later[0].Broken? {
        return false, data[..total], later;
      }
      if later[0].Moved? {
        total := total + Min(later[0].count, |data| - total);
      }
      later := later[1..];
    }
    ok, sent := true, data[..total];
  }

  /** `recv_n`; a stream that has run out counts as closed by the peer. */
  method RecvN(stream: Bytes, length: nat, schedule: seq<Io>)
    returns (ok: bool, data: Bytes, rest: Bytes, later: seq<Io>)
    ensures ok <==> length <= |stream| && Left(schedule, length).Some?
    ensures ok ==> data == stream[..length] && rest == stream[length..] && Left(schedule, length) == Some(later)
  {
    var total := 0;
    later := schedule;
    while total < length
      invariant 0 <= total <= length && total <= |stream|
      invariant length <= |stream| ==> Left(schedule, length) == Left(later, length - total)
      decreases |later|
    {
      if later == [] || later[0].Broken? || total == |stream| {
        return false, stream[..total], stream[total..], later;
      }
      if later[0].Moved? {
        total := total + Min(later[0].count, Min(length - total, |stream| - total));
      }
      later := later[1..];
    }
    ok, data, rest := true, stream[..total], stream[total..];
  }

  /** What is left of a schedule after a packet with `length` bytes of payload: its header and
      its payload are moved by separate calls. */
  function LeftAfter(schedule: seq<Io>, length: nat): Option<seq<Io>> {
    match Left(schedule, HEADER_SIZE)
    case None => None
    case Some(later) => Left(later, length)
  }

  /** `protocol_send_packet` */
  method SendPacket(p: Packet, schedule: seq<Io>) returns (ok: bool, wire: Bytes, later: seq<Io>)
    ensures |p.payload| > MAX_PACKET_PAYLOAD ==> !ok && wire == []
    ensures |p.payload| <= MAX_PACKET_PAYLOAD ==> wire <= Encode(p) && (ok <==> wire == Encode(p))
    ensures |p.payload| <= MAX_PACKET_PAYLOAD ==> (ok <==> LeftAfter(schedule, |p.payload|).Some?)
    ensures ok ==> LeftAfter(schedule, |p.payload|) == Some(later)
  {
    if |p.payload| > MAX_PACKET_PAYLOAD {
      return false, [], schedule;
    }
    ok, wire, later := SendN(EncodeHeader(p.kind, p.status, |p.payload|, p.session), schedule);
    if ok && p.payload != [] {
      var payload;
      ok, payload, later := SendN(p.payload, later);
      wire := wire + payload;
    }
  }

  /** `protocol_recv_packet`; `memory` says whether a payload can be allocated. */
  method RecvPacket(stream: Bytes, schedule: seq<Io>, memory: bool)
    returns (packet: Option<Packet>, rest: Bytes, later: seq<Io>)
    ensures packet.Some? ==>
      Decode(stream) == Got(packet.value, rest) && LeftAfter(schedule, |packet.value.payload|) == Some(later)
    ensures packet.Some? <==>
      && Decode(stream).Got? && (memory || Decode(stream).packet.payload == [])
      && LeftAfter(schedule, |Decode(stream).packet.payload|).Some?
  {
    var ok, header;
    ok, header, rest, later := RecvN(stream, HEADER_SIZE, schedule);
    if !ok {
      return None, rest, later;
    }
    if ReadNetU32(header) != TLV_MAGIC || ReadNetU32(header[4..]) != TLV_VERSION {
      return None, rest, later;
    }
    var length := ReadNetU32(header[16..]);
    if length > MAX_PACKET_PAYLOAD {
      return None, rest, later;
    }
    var payload: Bytes := [];
    if length > 0 {
      if !memory {
        return None, rest, later;
      }
      ok, payload, rest, later := RecvN(rest, length, later);
      if !ok {
        return None, rest, later;
      }
    }
    assert payload == stream[HEADER_SIZE..HEADER_SIZE + length] && rest == stream[HEADER_SIZE + length..];
    assert header[20..36] == stream[20..36];
    packet := Some(Packet(ReadNetU32(header[8..]), ReadNetU32(header[12..]), header[20..36], payload));
  }

  /** What is left of a schedule after a sequence of packets. */
  function LeftAfterAll(schedule: seq<Io>, ps: seq<Packet>): Option<seq<Io>>
    decreases |ps|
  {
    if ps == [] then Some(schedule)
    else match LeftAfter(schedule, |ps[0].payload|)
      case None => None
      case Some(later) => LeftAfterAll(later, ps[1..])
  }

  /** One packet after the other, until a send fails: a prefix of the encoded sequence gets on
      the wire, and all of it exactly if the schedule lasts. */
  method SendAll(ps: seq<Packet>, schedule: seq<Io>) returns (ok: bool, wire: Bytes)
    requires AllFit(ps)
    ensures wire <= EncodeAll(ps) && (ok <==> wire == EncodeAll(ps))
    ensures ok <==> LeftAfterAll(schedule, ps).Some?
  {
    hide Encode, LeftAfter;
    var i, later := 0, schedule;
    ok, wire := true, [];
    assert ps[0..] == ps;
    while i < |ps|
      invariant 0 <= i <= |ps| && ok && wire + EncodeAll(ps[i..]) == EncodeAll(ps)
      invariant LeftAfterAll(schedule, ps) == LeftAfterAll(later, ps[i..])
    {
      var sent;
      assert ps[i..][1..] == ps[i + 1..] && ps[i..][0] == ps[i];
      ok, sent, later := SendPacket(ps[i], later);
      wire := wire + sent;
      if !ok {
        assert Encode(ps[i]) != sent;
        return;
      }
      i := i + 1;
    }
    assert ps[i..] == [];
  }

  /** One packet after the other, until nothing more can be received. */
  method RecvAll(stream: Bytes, schedule: seq<Io>) returns (got: seq<Packet>)
    ensures got <= DecodeAll(stream)
    ensures got == DecodeAll(stream) <==> LeftAfterAll(schedule, DecodeAll(stream)).Some?
  {
    hide Decode, LeftAfter;
    var rest, later := stream, schedule;
    got := [];
    while true
      invariant got + DecodeAll(rest) == DecodeAll(stream)
      invariant LeftAfterAll(schedule, DecodeAll(stream)) == LeftAfterAll(later, DecodeAll(rest))
      decreases |rest|
    {
      var packet, next, more := RecvPacket(rest, later, true);
      if packet.None? {
        return;
      }
      GotShrinks(rest);
      assert DecodeAll(rest) == [packet.value] + DecodeAll(next);
      assert DecodeAll(rest)[1..] == DecodeAll(next);
      got, rest, later := got + [packet.value], next, more;
    }
  }

  lemma GotShrinks(stream: Bytes)
    requires Decode(stream).Got?
    ensures |Decode(stream).rest| < |stream|
  {
  }

  /** From one end to the other. For every sequence of packets and every way in which sending
      and receiving cut it into pieces, what arrives is what was sent first, in order; it is
      all of it exactly if both schedules last. */
  method Exchange(ps: seq<Packet>, sends: seq<Io>, receives: seq<Io>) returns (got: seq<Packet>)
    requires AllFit(ps)
    ensures got <= ps
    ensures got == ps <==> LeftAfterAll(sends, ps).Some? && LeftAfterAll(receives, ps).Some?
    ensures Moves(sends) >= |EncodeAll(ps)| && Moves(receives) >= |EncodeAll(ps)| ==> got == ps
  {
    hide EncodeAll, DecodeAll, LeftAfterAll;
    var ok, wire := SendAll(ps, sends);
    got := RecvAll(wire, receives);
    PrefixDecodesToPrefix(ps, |wire|);
    assert wire == EncodeAll(ps)[..|wire|];
    RoundTripAll(ps);
    MovesSuffice(sends, ps);
    MovesSuffice(receives, ps);
  }

  /** How many calls of a schedule move something before it breaks or ends. */
  function Moves(schedule: seq<Io>): nat {
    if schedule == [] || schedule[0].Broken? then 0
    else (if schedule[0].Moved? then 1 else 0) + Moves(schedule[1..])
  }

  lemma {:induction false} MovesLeft(schedule: seq<Io>, n: nat)
    requires n <= Moves(schedule)
    ensures Left(schedule, n).Some? && Moves(schedule) <= n + Moves(Left(schedule, n).value)
    decreases |schedule|
  {
    if n > 0 {
      MovesLeft(schedule[1..], n - if schedule[0].Moved? then Min(schedule[0].count, n) else 0);
    }
  }

  /** A schedule without a break suffices if it has as many moves as there are bytes. */
  lemma {:induction false} MovesSuffice(schedule: seq<Io>, ps: seq<Packet>)
    requires AllFit(ps)
    ensures Moves(schedule) >= |EncodeAll(ps)| ==> LeftAfterAll(schedule, ps).Some?
    decreases |ps|
  {
    if ps != [] && Moves(schedule) >= |EncodeAll(ps)| {
      MovesLeft(schedule, HEADER_SIZE);
      var later := Left(schedule, HEADER_SIZE).value;
      MovesLeft(later, |ps[0].payload|);
      MovesSuffice(Left(later, |ps[0].payload|).value, ps[1..]);
    }
  }
}
