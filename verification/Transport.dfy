/**
 Framing over a byte stream: packets survive any chunking, any restarted
 interrupts and any partial writes; a stream cut inside a packet is refused.
 */
module Transport {
  import opened SemTypes
  import opened Wire
  import opened Protocol
  import opened Messages

  const TRANSPORT_EOF := 1

  // ---------------------------------------------------------------- what a stream of bytes means

  function EncodePacket(p: Packet): bytes {
    EncodeHeader(p.header) + p.payload
  }

  predicate Sendable(p: Packet) {
    HeaderStatus(p.header) == 0 && Sized(p)
  }

  datatype Received = EndOfStream | BadStream(code: int) | Got(packet: Packet, rest: bytes)

  /** What receiving once from a stream that ends after these bytes gives. */
  function Receive(stream: bytes): (r: Received)
    ensures r.Got? ==> |r.rest| < |stream|
  {
    if stream == [] then EndOfStream
    else if |stream| < HEADER_SIZE then BadStream(-EPROTO)
    else match DecodeHeader(stream[..HEADER_SIZE])
      case Err(code) => BadStream(code)
      case Ok(h) =>
        if |stream| - HEADER_SIZE < h.payloadLength then BadStream(-EPROTO)
        else
          var n := HEADER_SIZE + h.payloadLength;
          Got(Packet(h, stream[HEADER_SIZE..n]), stream[n..])
  }

  /** A packet is received exactly when its encoding is what the stream begins with. */
  lemma ReceiveIff(stream: bytes, p: Packet, rest: bytes)
    ensures Receive(stream) == Got(p, rest) <==> Sendable(p) && stream == EncodePacket(p) + rest
  {
    hide EncodeHeader, DecodeHeader, HeaderStatus;
    if |stream| >= HEADER_SIZE {
      HeaderCodec(stream[..HEADER_SIZE], p.header);
    }
    if Sendable(p) && stream == EncodePacket(p) + rest {
      assert stream[..HEADER_SIZE] == EncodeHeader(p.header);
      var n := HEADER_SIZE + |p.payload|;
      assert stream[HEADER_SIZE..n] == p.payload && stream[n..] == rest;
    }
    if Receive(stream) == Got(p, rest) {
      StatusBound(p.header);
      assert stream == stream[..HEADER_SIZE] + p.payload + rest;
    }
  }

  lemma StatusBound(h: Header)
    ensures HeaderStatus(h) <= 0 && (HeaderStatus(h) == 0 ==> h.payloadLength <= MAX_PAYLOAD)
  {
  }

  /** Everything received until the stream ends or breaks. */
  function ReceiveAll(stream: bytes): (r: (seq<Packet>, Received))
    ensures !r.1.Got?
    decreases |stream|
  {
    match Receive(stream)
    case Got(p, rest) =>
      var (more, end) := ReceiveAll(rest);
      ([p] + more, end)
    case end => ([], end)
  }

  function EncodeAll(packets: seq<Packet>): bytes {
    if packets == [] then [] else EncodePacket(packets[0]) + EncodeAll(packets[1..])
  }

  lemma ReceiveAllStep(p: Packet, rest: bytes)
    requires Sendable(p)
    ensures ReceiveAll(EncodePacket(p) + rest) == ([p] + ReceiveAll(rest).0, ReceiveAll(rest).1)
  {
    hide Receive, EncodePacket, Sendable;
    ReceiveIff(EncodePacket(p) + rest, p, rest);
  }

  lemma ReceiveAllStops(stream: bytes)
    ensures !Receive(stream).Got? ==> ReceiveAll(stream) == ([], Receive(stream))
  {
  }

  lemma ReceiveAllUnfolds(stream: bytes)
    ensures Receive(stream).Got? ==>
              ReceiveAll(stream) ==
                  ([Receive(stream).packet] + ReceiveAll(Receive(stream).rest).0, ReceiveAll(Receive(stream).rest).1)
  {
    hide Receive;
  }

  /** The result a receiver reports for the end of a stream. */
  function EndCode(end: Received): int
    requires !end.Got?
  {
    if end.EndOfStream? then TRANSPORT_EOF else end.code
  }

  /** Whatever follows the encodings of some packets is what is left after receiving exactly those packets. */
  lemma {:induction false} ReceiveAllAppend(packets: seq<Packet>, tail: bytes)
    requires forall i :: 0 <= i < |packets| ==> Sendable(packets[i])
    ensures ReceiveAll(EncodeAll(packets) + tail) == (packets + ReceiveAll(tail).0, ReceiveAll(tail).1)
    decreases |packets|
  {
    hide Receive, EncodePacket, Sendable, ReceiveAll;
    var all := ReceiveAll(tail);
    if packets == [] {
      assert EncodeAll(packets) + tail == tail;
      assert packets + all.0 == all.0;
    } else {
      var p, rest := packets[0], EncodeAll(packets[1..]) + tail;
      assert EncodeAll(packets) + tail == EncodePacket(p) + rest;
      ReceiveAllStep(p, rest);
      ReceiveAllAppend(packets[1..], tail);
      assert [p] + (packets[1..] + all.0) == packets + all.0;
    }
  }

  /** Packets written back to back are received as exactly those packets, then a clean end. */
  lemma FramingRoundTrip(packets: seq<Packet>)
    requires forall i :: 0 <= i < |packets| ==> Sendable(packets[i])
    ensures ReceiveAll(EncodeAll(packets)) == (packets, EndOfStream)
  {
    hide ReceiveAll, EncodeAll, Sendable;
    ReceiveAllAppend(packets, []);
    assert EncodeAll(packets) + [] == EncodeAll(packets);
    ReceiveAllStops([]);
    assert packets + [] == packets;
  }

  lemma CutPacket(p: Packet, n: nat)
    requires Sendable(p) && 0 < n < |EncodePacket(p)|
    ensures Receive(EncodePacket(p)[..n]) == BadStream(-EPROTO)
  {
    hide EncodeHeader, DecodeHeader, HeaderStatus;
    var stream := EncodePacket(p)[..n];
    if n >= HEADER_SIZE {
      assert stream[..HEADER_SIZE] == EncodeHeader(p.header);
      HeaderCodec(stream[..HEADER_SIZE], p.header);
    }
  }

  /** A stream cut inside a packet yields the whole packets before it and then a protocol error. */
  lemma CutStream(packets: seq<Packet>, p: Packet, n: nat)
    requires forall i :: 0 <= i < |packets| ==> Sendable(packets[i])
    requires Sendable(p) && 0 < n < |EncodePacket(p)|
    ensures ReceiveAll(EncodeAll(packets) + EncodePacket(p)[..n]) == (packets, BadStream(-EPROTO))
  {
    hide Receive, EncodePacket, Sendable, ReceiveAll, EncodeAll;
    CutPacket(p, n);
    ReceiveAllStops(EncodePacket(p)[..n]);
    ReceiveAllAppend(packets, EncodePacket(p)[..n]);
    assert packets + [] == packets;
  }

  // ---------------------------------------------------------------- the socket

  /** One answer of the kernel: at most `limit` bytes moved, none moved, an interrupted call, or an error. */
  datatype Event = Chunk(limit: nat) | Nothing | Interrupted | Failed(errno: Errno)

  type Errno = e: int | 1 < e < 0x1000 witness EPIPE

  /** No error is delivered, and interrupts are delivered only where they are restarted. */
  predicate Smooth(events: seq<Event>, restart: bool) {
    forall i :: 0 <= i < |events| ==> events[i].Chunk? || (events[i].Interrupted? && restart)
  }

  function Min(a: nat, b: nat): nat { if a < b then a else b }

  /** How many bytes one call moves: at least one when any are wanted and available. */
  function Moved(event: Event, wanted: nat, available: nat): nat {
    var limit := if event.Chunk? && event.limit > 0 then event.limit else 1;
    Min(limit, Min(wanted, available))
  }

  /** A packet in memory: a header record and a fixed payload area. */
  class PacketBuffer {
    var header: Header
    const payload: array<u8>

    ghost predicate Valid()
      reads this
    {
      payload.Length == MAX_PAYLOAD
    }

    predicate Full()
      reads this
    {
      payload.Length == MAX_PAYLOAD && header.payloadLength <= MAX_PAYLOAD
    }

    function View(): (p: Packet)
      requires Full()
      reads this, payload
      ensures Sized(p)
    {
      Packet(header, payload[..header.payloadLength])
    }

    constructor ()
      ensures Full() && fresh(payload)
    {
      header := Header(0, 0, 0, 0, 0, 0);
      payload := new u8[MAX_PAYLOAD](_ => 0);
    }
  }

  class Socket {
    var incoming: bytes
    var outgoing: bytes
    var events: seq<Event>

    constructor (incoming: bytes, events: seq<Event>)
      ensures this.incoming == incoming && this.outgoing == [] && this.events == events
    {
      this.incoming, this.outgoing, this.events := incoming, [], events;
    }

    /** The kernel's next answer; a socket whose script has run out moves everything asked for. */
    method NextEvent(most: nat) returns (event: Event)
      modifies `events
      ensures event == if old(events) == [] then Chunk(most) else old(events)[0]
      ensures events == if old(events) == [] then [] else old(events)[1..]
    {
      if events == [] {
        event := Chunk(most);
      } else {
        event, events := events[0], events[1..];
      }
    }

    /** Reads exactly `length` bytes into `output`; `length` bytes are consumed on success and never a byte more. */
    method ReceiveExact(output: array<u8>, length: nat, cleanEof: bool, restart: bool) returns (result: int)
      requires length <= output.Length
      modifies `incoming, `events, output
      ensures result == 0 ==> && length <= |old(incoming)|
                              && output[..length] == old(incoming)[..length] && incoming == old(incoming)[length..]
      ensures output[length..] == old(output[length..])
      ensures result <= 0 || result == TRANSPORT_EOF
      ensures Smooth(old(events), restart) ==>
                && Smooth(events, restart)
                && (result == 0 <==> length <= |old(incoming)|)
                && (result != 0 ==> result == if cleanEof && old(incoming) == [] then TRANSPORT_EOF else -EPROTO)
    {
      var offset := 0;
      ghost var stream := incoming;
      while offset < length
        invariant offset <= length && offset <= |stream| && incoming == stream[offset..]
        invariant output[..offset] == stream[..offset] && output[length..] == old(output[length..])
        invariant Smooth(old(events), restart) ==> Smooth(events, restart)
        decreases |events| + length - offset
      {
        var event := NextEvent(length - offset);
        match event {
          case Chunk(_) =>
            var n := Moved(event, length - offset, |incoming|);
            if n == 0 {
              return if cleanEof && offset == 0 then TRANSPORT_EOF else -EPROTO;
            }
            Store(output, offset, incoming[..n], length);
            assert stream[..offset + n] == stream[..offset] + stream[offset..][..n];
            incoming := incoming[n..];
            offset := offset + n;
          case Nothing => return if cleanEof && offset == 0 then TRANSPORT_EOF else -EPROTO;
          case Interrupted => if !restart { return -EINTR; }
          case Failed(errno) => return -(errno as int);
        }
      }
      result := 0;
    }

    method Store(output: array<u8>, at: nat, data: bytes, length: nat)
      requires at + |data| <= length <= output.Length
      modifies output
      ensures output[..at + |data|] == old(output[..at]) + data
      ensures output[length..] == old(output[length..])
    {
      for i := 0 to |data|
        invariant forall k :: 0 <= k < i ==> output[at + k] == data[k]
        invariant forall k :: 0 <= k < at || at + |data| <= k < output.Length ==> output[k] == old(output[k])
      {
        output[at + i] := data[i];
      }
      assert output[..at] == old(output[..at]) && output[at..at + |data|] == data;
      assert output[..at + |data|] == output[..at] + output[at..at + |data|];
    }

    /** Receives one packet: header, check, payload. The kernel's chunking does not show in the result. */
    method ReceivePacket(packet: PacketBuffer, restart: bool) returns (result: int)
      requires packet.Valid()
      modifies `incoming, `events, packet, packet.payload
      ensures packet.Valid() && (result <= 0 || result == TRANSPORT_EOF)
      ensures result == 0 ==> packet.Full() && Receive(old(incoming)) == Got(packet.View(), incoming)
      ensures Smooth(old(events), restart) ==>
                && Smooth(events, restart)
                && match Receive(old(incoming))
                   case EndOfStream => result == TRANSPORT_EOF
                   case BadStream(code) => result == code && result < 0
                   case Got(_, _) => result == 0
    {
      hide DecodeHeader, HeaderStatus;
      ghost var stream := incoming;
      var wire := new u8[HEADER_SIZE](_ => 0);
      result := ReceiveExact(wire, HEADER_SIZE, true, restart);
      if result != 0 {
        return;
      }
      assert wire[..] == stream[..HEADER_SIZE];
      var header := DecodeHeader(wire[..]);
      DecodeStatus(wire[..]);
      if header.Err? {
        return header.errno;
      }
      packet.header := header.value;
      ghost var rest := incoming;
      result := ReceiveExact(packet.payload, packet.header.payloadLength, false, restart);
      var n := HEADER_SIZE + packet.header.payloadLength as int;
      assert result == 0 ==> rest[..packet.header.payloadLength] == stream[HEADER_SIZE..n] && incoming == stream[n..];
    }

    static lemma OneMore(packets: seq<Packet>, p: Packet, rest: seq<Packet>)
      ensures packets + ([p] + rest) == packets + [p] + rest
    {
    }

    /** Receives until the stream ends or breaks: whatever the chunking, exactly the packets and the end of the
        stream. */
    method ReceiveUntilEnd(restart: bool) returns (packets: seq<Packet>, result: int)
      modifies `incoming, `events
      ensures result != 0
      ensures Smooth(old(events), restart) ==>
                && packets == ReceiveAll(old(incoming)).0
                && result == EndCode(ReceiveAll(old(incoming)).1)
    {
      hide Receive, ReceiveAll, Smooth;
      packets := [];
      var buffer := new PacketBuffer();
      ghost var all := ReceiveAll(incoming);
      assert [] + all.0 == all.0;
      while true
        invariant buffer.Valid() && fresh(buffer) && fresh(buffer.payload)
        invariant Smooth(old(events), restart) ==>
                    && Smooth(events, restart)
                    && all == (packets + ReceiveAll(incoming).0, ReceiveAll(incoming).1)
        decreases |incoming|
      {
        ReceiveAllStops(incoming);
        ghost var stream := incoming;
        result := ReceivePacket(buffer, restart);
        if result != 0 { return; }
        ReceiveAllUnfolds(stream);
        OneMore(packets, buffer.View(), ReceiveAll(incoming).0);
        packets := packets + [buffer.View()];
      }
    }

    /** Writes all of `data`, however the kernel splits it. */
    method SendExact(data: array<u8>, length: nat) returns (result: int)
      requires length <= data.Length
      modifies `outgoing, `events
      ensures result <= 0 && (result == 0 ==> outgoing == old(outgoing) + data[..length])
      ensures exists n :: 0 <= n <= length && outgoing == old(outgoing) + data[..n]
      ensures Smooth(old(events), true) ==> result == 0
      ensures forall restart :: Smooth(old(events), restart) ==> Smooth(events, restart)
    {
      var offset := 0;
      while offset < length
        invariant offset <= length && outgoing == old(outgoing) + data[..offset]
        invariant forall restart :: Smooth(old(events), restart) ==> Smooth(events, restart)
        decreases |events| + length - offset
      {
        var event := NextEvent(length - offset);
        match event {
          case Chunk(_) =>
            var n := Moved(event, length - offset, length - offset);
            outgoing := outgoing + data[offset..offset + n];
            offset := offset + n;
            assert data[..offset] == data[..offset - n] + data[offset - n..offset];
          case Nothing => return -EPIPE;
          case Interrupted =>
          case Failed(errno) => return -(errno as int);
        }
      }
      result := 0;
    }

    method SendPacket(packet: PacketBuffer) returns (result: int)
      requires packet.Full()
      modifies `outgoing, `events
      ensures result <= 0
      ensures result == 0 ==> Sendable(packet.View()) && outgoing == old(outgoing) + EncodePacket(packet.View())
      ensures Smooth(old(events), true) ==> (result == 0 <==> Sendable(packet.View()))
      ensures forall restart :: Smooth(old(events), restart) ==> Smooth(events, restart)
    {
      hide EncodeHeader, HeaderStatus;
      StatusBound(packet.header);
      var wire := new u8[HEADER_SIZE + MAX_PAYLOAD](_ => 0);
      result := EncodeHeaderInto(wire, packet.header);
      if result != 0 {
        return;
      }
      ghost var head := EncodeHeader(packet.header);
      assert wire[..HEADER_SIZE] == head;
      var n: nat := packet.header.payloadLength;
      Store(wire, HEADER_SIZE, packet.payload[..n], HEADER_SIZE + MAX_PAYLOAD);
      assert wire[..HEADER_SIZE + n] == EncodePacket(packet.View());
      result := SendExact(wire, HEADER_SIZE + n);
    }
  }

  /** Any list of packets, delivered in any chunks with any number of restarted interrupts, arrives as that list and
      then a clean end; cut inside a further packet, as that list and then a protocol error. */
  method Deliver(packets: seq<Packet>, more: Packet, cut: nat, events: seq<Event>, restart: bool)
    returns (received: seq<Packet>, result: int)
    requires forall i :: 0 <= i < |packets| ==> Sendable(packets[i])
    requires Sendable(more) && cut < |EncodePacket(more)| && Smooth(events, restart)
    ensures received == packets && result == if cut == 0 then TRANSPORT_EOF else -EPROTO
  {
    hide ReceiveAll, EncodeAll, EncodePacket, Sendable;
    var stream := EncodeAll(packets) + EncodePacket(more)[..cut];
    if cut == 0 {
      FramingRoundTrip(packets);
      assert stream == EncodeAll(packets);
    } else {
      CutStream(packets, more, cut);
    }
    var socket := new Socket(stream, events);
    received, result := socket.ReceiveUntilEnd(restart);
  }

  lemma DecodeStatus(b: bytes)
    requires |b| == HEADER_SIZE
    ensures DecodeHeader(b).Err? ==> DecodeHeader(b).errno < 0
    ensures DecodeHeader(b).Ok? ==> DecodeHeader(b).value.payloadLength <= MAX_PAYLOAD
  {
  }
}
