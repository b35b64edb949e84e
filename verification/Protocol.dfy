/** The version 1 packet header and its codec. */
module Protocol {
  import opened SemTypes
  import opened Wire

  const MAGIC := 0x43534754
  const VERSION := 1
  const HEADER_SIZE := 24
  const MAX_PAYLOAD := 8192
  const REQUEST := 1
  const RESPONSE := 2

  const PING := 1
  const SEMGET := 2
  const REMOVE := 3
  const GETVAL := 4
  const SETVAL := 5
  const GETPID := 6
  const GETALL := 7
  const SETALL := 8
  const SEMOP := 9
  const GETNCNT := 10
  const GETZCNT := 11
  const STAT := 12
  const SETMETA := 13
  const SEMTIMEDOP := 14
  const INFO := 15
  const STAT_INDEX := 16

  datatype Header = Header(version: u16, kind: u16, opcode: u16, requestId: u32, payloadLength: u32, result: i32)

  /** 0 for a header the protocol allows, otherwise the negated error number. */
  function HeaderStatus(h: Header): int {
    if h.version != VERSION then -EPROTO
    else if h.kind != REQUEST && h.kind != RESPONSE then -EPROTO
    else if h.opcode < PING || h.opcode > STAT_INDEX then -EPROTO
    else if h.payloadLength > MAX_PAYLOAD then -EMSGSIZE
    else if h.kind == REQUEST && h.result != 0 then -EPROTO
    else 0
  }

  function EncodeHeader(h: Header): (r: bytes)
    ensures |r| == HEADER_SIZE
  {
    U32(MAGIC) + U16(h.version) + U16(h.kind) + U16(h.opcode) + U16(0)
    + U32(h.requestId) + U32(h.payloadLength) + I32(h.result)
  }

  function ReadHeader(b: bytes): Header
    requires |b| == HEADER_SIZE
  {
    Header(GetU16(b, 4), GetU16(b, 6), GetU16(b, 8), GetU32(b, 12), GetU32(b, 16), GetI32(b, 20))
  }

  function DecodeHeader(b: bytes): Result<Header>
    requires |b| == HEADER_SIZE
  {
    if GetU32(b, 0) != MAGIC || GetU16(b, 10) != 0 then Err(-EPROTO)
    else
      var h := ReadHeader(b);
      if HeaderStatus(h) != 0 then Err(HeaderStatus(h)) else Ok(h)
  }

  /** Bytes are the encoding of a header exactly when magic, padding and every field read back. */
  lemma HeaderBytes(b: bytes, h: Header)
    requires |b| == HEADER_SIZE
    ensures b == EncodeHeader(h) <==> GetU32(b, 0) == MAGIC && GetU16(b, 10) == 0 && ReadHeader(b) == h
  {
    U32At(b, 0, MAGIC);
    U16At(b, 4, h.version);
    U16At(b, 6, h.kind);
    U16At(b, 8, h.opcode);
    U16At(b, 10, 0);
    U32At(b, 12, h.requestId);
    U32At(b, 16, h.payloadLength);
    I32At(b, 20, h.result);
    HeaderPieces(b, h);
  }

  lemma HeaderPieces(b: bytes, h: Header)
    requires |b| == HEADER_SIZE
    ensures b == EncodeHeader(h) <==>
            && b[0..4] == U32(MAGIC) && b[4..6] == U16(h.version) && b[6..8] == U16(h.kind)
            && b[8..10] == U16(h.opcode) && b[10..12] == U16(0) && b[12..16] == U32(h.requestId)
            && b[16..20] == U32(h.payloadLength) && b[20..24] == I32(h.result)
  {
    hide U16, U32, I32;
    var e := EncodeHeader(h);
    assert b == b[0..4] + b[4..6] + b[6..8] + b[8..10] + b[10..12] + b[12..16] + b[16..20] + b[20..24];
    assert && e[0..4] == U32(MAGIC) && e[4..6] == U16(h.version) && e[6..8] == U16(h.kind)
           && e[8..10] == U16(h.opcode) && e[10..12] == U16(0) && e[12..16] == U32(h.requestId)
           && e[16..20] == U32(h.payloadLength) && e[20..24] == I32(h.result);
  }

  /** Decoding accepts exactly the encodings of allowed headers, and gives the header back. */
  lemma HeaderCodec(b: bytes, h: Header)
    requires |b| == HEADER_SIZE
    ensures DecodeHeader(b) == Ok(h) <==> HeaderStatus(h) == 0 && b == EncodeHeader(h)
  {
    HeaderBytes(b, h);
  }

  method EncodeHeaderInto(output: array<u8>, h: Header) returns (result: int)
    requires output.Length >= HEADER_SIZE
    modifies output
    ensures result == HeaderStatus(h)
    ensures output[..] == if result == 0 then Splice(old(output[..]), 0, EncodeHeader(h)) else old(output[..])
  {
    hide U16, U32, I32, Splice, Begins;
    result := HeaderStatus(h);
    if result == 0 {
      ghost var orig, b, p: bytes := output[..], output[..], [];
      NothingYet(orig);
      PutU32(output, 0, MAGIC);
      Extends(b, orig, p, U32(MAGIC));
      b, p := output[..], p + U32(MAGIC);
      PutU16(output, 4, h.version);
      Extends(b, orig, p, U16(h.version));
      b, p := output[..], p + U16(h.version);
      PutU16(output, 6, h.kind);
      Extends(b, orig, p, U16(h.kind));
      b, p := output[..], p + U16(h.kind);
      PutU16(output, 8, h.opcode);
      Extends(b, orig, p, U16(h.opcode));
      b, p := output[..], p + U16(h.opcode);
      PutU16(output, 10, 0);
      Extends(b, orig, p, U16(0));
      b, p := output[..], p + U16(0);
      PutU32(output, 12, h.requestId);
      Extends(b, orig, p, U32(h.requestId));
      b, p := output[..], p + U32(h.requestId);
      PutU32(output, 16, h.payloadLength);
      Extends(b, orig, p, U32(h.payloadLength));
      b, p := output[..], p + U32(h.payloadLength);
      PutI32(output, 20, h.result);
      Extends(b, orig, p, I32(h.result));
      b, p := output[..], p + I32(h.result);
      Spliced(b, orig, p);
      assert p == EncodeHeader(h);
    }
  }
}
