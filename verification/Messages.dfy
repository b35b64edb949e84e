/**
 What packets mean: the requests a client builds, the store call the dispatcher
 reads out of a request, and the response it writes. The main law is that the
 dispatcher reads back exactly what the client was asked to do.
 */
module Messages {
  import opened SemTypes
  import opened Wire
  import opened Protocol
  import opened StoreModel

  datatype Packet = Packet(header: Header, payload: bytes)

  /** The payload has the announced length. */
  predicate Sized(p: Packet) {
    |p.payload| == p.header.payloadLength <= MAX_PAYLOAD
  }

  datatype Actor = Actor(pid: i32, identity: Identity)

  // ---------------------------------------------------------------- arrays of records

  function OpBytes(op: SemOp): (r: bytes)
    ensures |r| == 8
  {
    U16(op.semNum) + I16(op.op) + U16(op.flg) + U16(0)
  }

  function OpsBytes(ops: seq<SemOp>, n: nat): (r: bytes)
    requires n <= |ops|
    ensures |r| == 8 * n
  {
    if n == 0 then [] else OpsBytes(ops, n - 1) + OpBytes(ops[n - 1])
  }

  function ReadOp(b: bytes, at: nat): SemOp
    requires at + 8 <= |b|
  {
    SemOp(GetU16(b, at), GetI16(b, at + 2), GetU16(b, at + 4))
  }

  function ReadOps(b: bytes, at: nat, n: nat): (r: seq<SemOp>)
    requires at + 8 * n <= |b|
    ensures |r| == n
  {
    seq(n, i requires 0 <= i < n => ReadOp(b, at + 8 * i))
  }

  predicate ReservedClear(b: bytes, at: nat, n: nat)
    requires at + 8 * n <= |b|
  {
    forall i :: 0 <= i < n ==> GetU16(b, at + 8 * i + 6) == 0
  }

  predicate Words(values: seq<int>) {
    forall i :: 0 <= i < |values| ==> 0 <= values[i] < 0x1_0000
  }

  function WordsBytes(values: seq<int>, n: nat): (r: bytes)
    requires n <= |values| && Words(values)
    ensures |r| == 2 * n
  {
    if n == 0 then [] else WordsBytes(values, n - 1) + U16(values[n - 1])
  }

  function ReadWords(b: bytes, at: nat, n: nat): (r: seq<u16>)
    requires at + 2 * n <= |b|
    ensures |r| == n
  {
    seq(n, i requires 0 <= i < n => GetU16(b, at + 2 * i))
  }

  predicate Ints(values: seq<int>) {
    forall i :: 0 <= i < |values| ==> -0x8000_0000 <= values[i] < 0x8000_0000
  }

  function IntsBytes(values: seq<int>, n: nat): (r: bytes)
    requires n <= |values| && Ints(values)
    ensures |r| == 4 * n
  {
    if n == 0 then [] else IntsBytes(values, n - 1) + I32(values[n - 1])
  }

  function ReadInts(b: bytes, at: nat, n: nat): (r: seq<i32>)
    requires at + 4 * n <= |b|
    ensures |r| == n
  {
    seq(n, i requires 0 <= i < n => GetI32(b, at + 4 * i))
  }

  // ---------------------------------------------------------------- reading requests

  datatype Parsed = Rejected(errno: int) | Pinged | Accepted(call: Call)

  function OpsPrefix(opcode: u16): nat {
    if opcode == SEMTIMEDOP then 16 else 8
  }

  /** The operation count, when the payload is exactly as long as that count says. */
  function OpsCount(p: Packet): Option<nat>
    requires Sized(p)
  {
    var prefix := OpsPrefix(p.header.opcode);
    if |p.payload| < prefix then None
    else
      var count := GetU32(p.payload, 4);
      if count == 0 || count > MAX_PER_SET || |p.payload| != prefix + 8 * count then None else Some(count)
  }

  function ParseOps(p: Packet, pid: i32): Parsed
    requires Sized(p)
  {
    var prefix := OpsPrefix(p.header.opcode);
    var count := OpsCount(p);
    if count.None? then Rejected(EMSGSIZE)
    else if p.header.opcode == SEMTIMEDOP && GetI64(p.payload, 8) < 0 then Rejected(EINVAL)
    else if !ReservedClear(p.payload, prefix, count.value) then Rejected(EPROTO)
    else Accepted(TryOpCall(GetI32(p.payload, 0), ReadOps(p.payload, prefix, count.value), pid))
  }

  /** No bit outside IPC_CREAT, IPC_EXCL and the nine mode bits. */
  predicate GetFlags(flags: int) {
    0 <= flags < 0x800
  }

  /** The store call a request asks for, or why it is refused. */
  function Parse(p: Packet, actor: Actor, noMemory: bool): Parsed
    requires Sized(p)
  {
    var b, n, opcode := p.payload, |p.payload|, p.header.opcode;
    if opcode == PING then if n == 0 then Pinged else Rejected(EMSGSIZE)
    else if opcode == SEMGET then
      if n != 12 then Rejected(EMSGSIZE)
      else if !GetFlags(GetU32(b, 8)) then Rejected(EINVAL)
      else Accepted(GetCall(GetI32(b, 0), GetI32(b, 4), GetU32(b, 8), actor.identity, noMemory))
    else if opcode == REMOVE then
      if n != 4 then Rejected(EMSGSIZE) else Accepted(RemoveCall(GetI32(b, 0)))
    else if opcode == GETVAL || opcode == GETPID || opcode == GETNCNT || opcode == GETZCNT then
      if n != 8 then Rejected(EMSGSIZE)
      else if opcode == GETVAL then Accepted(GetValCall(GetI32(b, 0), GetU32(b, 4)))
      else if opcode == GETPID then Accepted(GetPidCall(GetI32(b, 0), GetU32(b, 4)))
      else Accepted(WaitCountCall(GetI32(b, 0), GetU32(b, 4), opcode == GETZCNT))
    else if opcode == SETVAL then
      if n != 12 then Rejected(EMSGSIZE)
      else Accepted(SetValCall(GetI32(b, 0), GetU32(b, 4), GetU32(b, 8), actor.pid))
    else if opcode == GETALL then
      if n != 8 then Rejected(EMSGSIZE)
      else if GetU32(b, 4) == 0 || GetU32(b, 4) > MAX_PER_SET then Rejected(EINVAL)
      else Accepted(GetAllCall(GetI32(b, 0), GetU32(b, 4)))
    else if opcode == SETALL then
      if n < 8 || GetU32(b, 4) == 0 || GetU32(b, 4) > MAX_PER_SET || n != 8 + 2 * GetU32(b, 4) as int then
        Rejected(EMSGSIZE)
      else Accepted(SetAllCall(GetI32(b, 0), ReadWords(b, 8, GetU32(b, 4)), actor.pid))
    else if opcode == SEMOP || opcode == SEMTIMEDOP then ParseOps(p, actor.pid)
    else if opcode == STAT then
      if n != 4 then Rejected(EMSGSIZE) else Accepted(StatCall(GetI32(b, 0)))
    else if opcode == STAT_INDEX then
      if n != 4 then Rejected(EMSGSIZE) else Accepted(StatIndexCall(GetU32(b, 0)))
    else if opcode == SETMETA then
      if n != 16 then Rejected(EMSGSIZE)
      else Accepted(SetMetaCall(GetI32(b, 0), GetU32(b, 4), GetU32(b, 8), GetU32(b, 12), actor.identity))
    else if opcode == INFO then
      if n != 4 then Rejected(EMSGSIZE)
      else if GetU32(b, 0) > 1 then Rejected(EINVAL)
      else Accepted(InfoCall(GetU32(b, 0) == 1))
    else Rejected(ENOSYS)
  }

  /** The broker's own scan for SEM_UNDO, done before the dispatcher reads the packet. */
  predicate UsesUndo(p: Packet)
    requires Sized(p)
  {
    && (p.header.opcode == SEMOP || p.header.opcode == SEMTIMEDOP)
    && OpsCount(p).Some?
    && exists i :: 0 <= i < OpsCount(p).value
         && HasFlag(GetU16(p.payload, OpsPrefix(p.header.opcode) + 8 * i + 4), SEM_UNDO)
  }

  /** The scan and the dispatcher agree: a batch that reaches the store uses SEM_UNDO exactly when the scan says so. */
  lemma UsesUndoAgrees(p: Packet, actor: Actor, noMemory: bool)
    requires Sized(p) && Parse(p, actor, noMemory).Accepted? && Parse(p, actor, noMemory).call.TryOpCall?
    ensures var ops := Parse(p, actor, noMemory).call.ops;
            UsesUndo(p) <==> exists i :: 0 <= i < |ops| && ops[i].Undo()
  {
    var prefix := OpsPrefix(p.header.opcode);
    assert Parse(p, actor, noMemory) == ParseOps(p, actor.pid);
    var n := OpsCount(p).value;
    var ops := ReadOps(p.payload, prefix, n);
    assert forall i :: 0 <= i < n ==> ops[i].flg == GetU16(p.payload, prefix + 8 * i + 4);
    if i :| 0 <= i < |ops| && ops[i].Undo() {
      assert HasFlag(GetU16(p.payload, prefix + 8 * i + 4), SEM_UNDO);
    }
    if UsesUndo(p) {
      var i :| 0 <= i < n && HasFlag(GetU16(p.payload, prefix + 8 * i + 4), SEM_UNDO);
      assert ops[i].Undo();
    }
  }

  // ---------------------------------------------------------------- writing responses

  /** The values an effect may carry onto the wire. */
  predicate Encodable(code: int, answer: Answer) {
    && -0x8000_0000 <= code < 0x8000_0000
    && match answer
       case NoData => true
       case Values(values) => |values| <= MAX_PER_SET && Words(values)
       case Metadata(_, nsems, generation, _) => nsems < 0x1_0000_0000 && generation < 0x1_0000_0000
       case Limits(fields) => |fields| == 10 && Ints(fields)
       case Waits(_) => true
  }

  function MetadataBytes(key: i32, nsems: u32, generation: u32, m: Meta): (r: bytes)
    ensures |r| == 56
  {
    I32(key) + U32(m.uid) + U32(m.gid) + U32(m.cuid) + U32(m.cgid) + U32(m.mode) + U32(nsems) + U32(0)
    + I64(m.otime) + I64(m.ctime) + U32(generation) + U32(0)
  }

  /** A negative result never carries data. */
  function ReplyPayload(code: int, answer: Answer): (r: bytes)
    requires Encodable(code, answer)
    ensures |r| <= MAX_PAYLOAD
  {
    if code < 0 then []
    else match answer
      case NoData => []
      case Values(values) => U32(|values|) + WordsBytes(values, |values|)
      case Metadata(key, nsems, generation, meta) => MetadataBytes(key, nsems, generation, meta)
      case Limits(fields) => IntsBytes(fields, |fields|)
      case Waits(reason) => U16(reason.semNum) + U16(if reason.forZero then 1 else 0) + U32(0)
  }

  function Respond(request: Packet, code: int, answer: Answer): (r: Packet)
    requires Encodable(code, answer)
    ensures Sized(r)
  {
    var payload := ReplyPayload(code, answer);
    Packet(Header(VERSION, RESPONSE, request.header.opcode, request.header.requestId, |payload|, code), payload)
  }

  // ---------------------------------------------------------------- record arrays round trip

  lemma OpRoundTrip(b: bytes, at: nat, op: SemOp)
    requires at + 8 <= |b| && b[at..at + 8] == OpBytes(op)
    ensures ReadOp(b, at) == op && GetU16(b, at + 6) == 0
  {
    hide U16, I16, GetU16, GetI16;
    var e := OpBytes(op);
    assert e[0..2] == U16(op.semNum) && e[2..4] == I16(op.op) && e[4..6] == U16(op.flg) && e[6..8] == U16(0);
    Within(b, at, e, 0, 2);
    Within(b, at, e, 2, 4);
    Within(b, at, e, 4, 6);
    Within(b, at, e, 6, 8);
    U16At(b, at, op.semNum);
    I16At(b, at + 2, op.op);
    U16At(b, at + 4, op.flg);
    U16At(b, at + 6, 0);
  }

  lemma {:induction false} OpsBytesAt(ops: seq<SemOp>, n: nat, i: nat)
    requires i < n <= |ops|
    ensures OpsBytes(ops, n)[8 * i..8 * i + 8] == OpBytes(ops[i])
  {
    if i < n - 1 {
      OpsBytesAt(ops, n - 1, i);
      assert OpsBytes(ops, n)[8 * i..8 * i + 8] == OpsBytes(ops, n - 1)[8 * i..8 * i + 8];
    }
  }

  lemma OpsRoundTrip(b: bytes, at: nat, ops: seq<SemOp>)
    requires |b| == at + 8 * |ops| && b[at..] == OpsBytes(ops, |ops|)
    ensures ReadOps(b, at, |ops|) == ops && ReservedClear(b, at, |ops|)
  {
    hide OpBytes, OpsBytes, ReadOp, GetU16;
    forall i | 0 <= i < |ops|
      ensures ReadOp(b, at + 8 * i) == ops[i] && GetU16(b, at + 8 * i + 6) == 0
    {
      OpsBytesAt(ops, |ops|, i);
      Within(b, at, OpsBytes(ops, |ops|), 8 * i, 8 * i + 8);
      OpRoundTrip(b, at + 8 * i, ops[i]);
    }
  }

  lemma {:induction false} WordsBytesAt(values: seq<int>, n: nat, i: nat)
    requires i < n <= |values| && Words(values)
    ensures WordsBytes(values, n)[2 * i..2 * i + 2] == U16(values[i])
  {
    if i < n - 1 {
      WordsBytesAt(values, n - 1, i);
      assert WordsBytes(values, n)[2 * i..2 * i + 2] == WordsBytes(values, n - 1)[2 * i..2 * i + 2];
    }
  }

  lemma WordsRoundTrip(b: bytes, at: nat, values: seq<int>)
    requires Words(values) && |b| == at + 2 * |values| && b[at..] == WordsBytes(values, |values|)
    ensures ReadWords(b, at, |values|) == values
  {
    hide U16, WordsBytes, GetU16;
    forall i | 0 <= i < |values|
      ensures GetU16(b, at + 2 * i) == values[i]
    {
      WordsBytesAt(values, |values|, i);
      Within(b, at, WordsBytes(values, |values|), 2 * i, 2 * i + 2);
      U16At(b, at + 2 * i, values[i]);
    }
  }

  lemma {:induction false} IntsBytesAt(values: seq<int>, n: nat, i: nat)
    requires i < n <= |values| && Ints(values)
    ensures IntsBytes(values, n)[4 * i..4 * i + 4] == I32(values[i])
  {
    if i < n - 1 {
      IntsBytesAt(values, n - 1, i);
      assert IntsBytes(values, n)[4 * i..4 * i + 4] == IntsBytes(values, n - 1)[4 * i..4 * i + 4];
    }
  }

  lemma IntsRoundTrip(b: bytes, at: nat, values: seq<int>)
    requires Ints(values) && |b| == at + 4 * |values| && b[at..] == IntsBytes(values, |values|)
    ensures ReadInts(b, at, |values|) == values
  {
    hide I32, IntsBytes, GetI32;
    forall i | 0 <= i < |values|
      ensures GetI32(b, at + 4 * i) == values[i]
    {
      IntsBytesAt(values, |values|, i);
      Within(b, at, IntsBytes(values, |values|), 4 * i, 4 * i + 4);
      I32At(b, at + 4 * i, values[i]);
    }
  }
}
