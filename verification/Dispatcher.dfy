/** The request dispatcher as the broker runs it: it reads the request buffer, calls the store and fills the response
    buffer. */
module Dispatcher {
  import opened SemTypes
  import opened Wire
  import opened Protocol
  import opened StoreModel
  import StoreValid
  import opened Messages
  import opened Remote
  import opened SemStore
  import opened Transport

  // ---------------------------------------------------------------- reading arrays out of a payload

  method DecodeOps(payload: array<u8>, at: nat, count: nat, length: nat) returns (r: Option<seq<SemOp>>)
    requires at + 8 * count <= length <= payload.Length
    ensures r == (if ReservedClear(payload[..length], at, count) then Some(ReadOps(payload[..length], at, count))
                  else None)
  {
    var b := payload[..length];
    var ops: seq<SemOp> := [];
    for i := 0 to count
      invariant |ops| == i && forall j :: 0 <= j < i ==> ops[j] == ReadOp(b, at + 8 * j)
      invariant forall j :: 0 <= j < i ==> GetU16(b, at + 8 * j + 6) == 0
    {
      var wire := at + 8 * i;
      if GetU16(b, wire + 6) != 0 {
        return None;
      }
      ops := ops + [SemOp(GetU16(b, wire), GetI16(b, wire + 2), GetU16(b, wire + 4))];
    }
    assert ops == ReadOps(b, at, count);
    r := Some(ops);
  }

  method DecodeWords(payload: array<u8>, at: nat, count: nat, length: nat) returns (r: seq<u16>)
    requires at + 2 * count <= length <= payload.Length
    ensures r == ReadWords(payload[..length], at, count)
  {
    var b := payload[..length];
    r := [];
    for i := 0 to count
      invariant |r| == i && forall j :: 0 <= j < i ==> r[j] == GetU16(b, at + 2 * j)
    {
      r := r + [GetU16(b, at + 2 * i)];
    }
  }

  // ---------------------------------------------------------------- filling a payload

  method EncodeValues(output: array<u8>, values: seq<int>)
    requires output.Length == MAX_PAYLOAD && |values| <= MAX_PER_SET && Words(values)
    modifies output
    ensures output[..4 + 2 * |values|] == U32(|values|) + WordsBytes(values, |values|)
  {
    hide U32, U16, Splice, Begins;
    ghost var orig, b, p: bytes := output[..], output[..], [];
    NothingYet(orig);
    PutU32(output, 0, |values|);
    Extends(b, orig, p, U32(|values|));
    b, p := output[..], p + U32(|values|);
    for i := 0 to |values|
      invariant b == output[..] && Begins(b, orig, p) && p == U32(|values|) + WordsBytes(values, i)
    {
      PutU16(output, 4 + 2 * i, values[i]);
      Extends(b, orig, p, U16(values[i]));
      b, p := output[..], p + U16(values[i]);
      assert p == U32(|values|) + (WordsBytes(values, i) + U16(values[i]));
    }
    BeginsWith(b, orig, p);
  }

  lemma BeginsWith(b: bytes, orig: bytes, prefix: bytes)
    requires Begins(b, orig, prefix)
    ensures |prefix| <= |b| && b[..|prefix|] == prefix
  {
  }

  method EncodeLimits(output: array<u8>, fields: seq<int>)
    requires output.Length == MAX_PAYLOAD && |fields| <= 10 && Ints(fields)
    modifies output
    ensures output[..4 * |fields|] == IntsBytes(fields, |fields|)
  {
    hide I32, Splice, Begins;
    ghost var orig, b, p: bytes := output[..], output[..], [];
    NothingYet(orig);
    for i := 0 to |fields|
      invariant b == output[..] && Begins(b, orig, p) && p == IntsBytes(fields, i)
    {
      PutI32(output, 4 * i, fields[i]);
      Extends(b, orig, p, I32(fields[i]));
      b, p := output[..], p + I32(fields[i]);
    }
    BeginsWith(b, orig, p);
  }

  method EncodeMetadata(output: array<u8>, key: i32, nsems: u32, generation: u32, m: Meta)
    requires output.Length == MAX_PAYLOAD
    modifies output
    ensures output[..56] == MetadataBytes(key, nsems, generation, m)
  {
    hide U32, I32, I64, Splice, Begins;
    ghost var orig, b, p: bytes := output[..], output[..], [];
    NothingYet(orig);
    PutI32(output, 0, key);
    Extends(b, orig, p, I32(key));
    b, p := output[..], p + I32(key);
    PutU32(output, 4, m.uid);
    Extends(b, orig, p, U32(m.uid));
    b, p := output[..], p + U32(m.uid);
    PutU32(output, 8, m.gid);
    Extends(b, orig, p, U32(m.gid));
    b, p := output[..], p + U32(m.gid);
    PutU32(output, 12, m.cuid);
    Extends(b, orig, p, U32(m.cuid));
    b, p := output[..], p + U32(m.cuid);
    PutU32(output, 16, m.cgid);
    Extends(b, orig, p, U32(m.cgid));
    b, p := output[..], p + U32(m.cgid);
    PutU32(output, 20, m.mode);
    Extends(b, orig, p, U32(m.mode));
    b, p := output[..], p + U32(m.mode);
    PutU32(output, 24, nsems);
    Extends(b, orig, p, U32(nsems));
    b, p := output[..], p + U32(nsems);
    PutU32(output, 28, 0);
    Extends(b, orig, p, U32(0));
    b, p := output[..], p + U32(0);
    PutI64(output, 32, m.otime);
    Extends(b, orig, p, I64(m.otime));
    b, p := output[..], p + I64(m.otime);
    PutI64(output, 40, m.ctime);
    Extends(b, orig, p, I64(m.ctime));
    b, p := output[..], p + I64(m.ctime);
    PutU32(output, 48, generation);
    Extends(b, orig, p, U32(generation));
    b, p := output[..], p + U32(generation);
    PutU32(output, 52, 0);
    Extends(b, orig, p, U32(0));
    b, p := output[..], p + U32(0);
    BeginsWith(b, orig, p);
    assert p == MetadataBytes(key, nsems, generation, m);
  }

  method EncodeReason(output: array<u8>, reason: WaitReason)
    requires output.Length == MAX_PAYLOAD
    modifies output
    ensures output[..8] == U16(reason.semNum) + U16(if reason.forZero then 1 else 0) + U32(0)
  {
    PutU16(output, 0, reason.semNum);
    PutU16(output, 2, if reason.forZero then 1 else 0);
    PutU32(output, 4, 0);
  }

  /** Writes the data of an answer; a negative result carries none. */
  method EncodeAnswer(output: array<u8>, code: int, answer: Answer) returns (length: nat)
    requires output.Length == MAX_PAYLOAD && Encodable(code, answer)
    modifies output
    ensures length == |ReplyPayload(code, answer)| && output[..length] == ReplyPayload(code, answer)
  {
    hide U32, U16, WordsBytes, IntsBytes, MetadataBytes;
    length := 0;
    if code >= 0 {
      match answer
      case NoData =>
      case Values(values) =>
        EncodeValues(output, values);
        length := 4 + 2 * |values|;
      case Metadata(key, nsems, generation, meta) =>
        EncodeMetadata(output, key, nsems, generation, meta);
        length := 56;
      case Limits(fields) =>
        EncodeLimits(output, fields);
        length := 4 * |fields|;
      case Waits(reason) =>
        EncodeReason(output, reason);
        length := 8;
    }
  }

  // ---------------------------------------------------------------- parsing in place

  /** Reads the request buffer field by field. */
  method ParseRequest(request: PacketBuffer, actor: Actor, noMemory: bool) returns (r: Parsed)
    requires request.Full()
    ensures r == Parse(request.View(), actor, noMemory)
  {
    hide ReadOps, ReadWords, GetU32, GetU16, GetI64, ParseOps;
    var n: nat := request.header.payloadLength;
    var b := request.payload[..n];
    var opcode := request.header.opcode;
    if opcode == PING {
      r := if n == 0 then Pinged else Rejected(EMSGSIZE);
    } else if opcode == SEMGET {
      if n != 12 { return Rejected(EMSGSIZE); }
      var flags := GetU32(b, 8);
      if !GetFlags(flags) { return Rejected(EINVAL); }
      r := Accepted(GetCall(GetI32(b, 0), GetI32(b, 4), flags, actor.identity, noMemory));
    } else if opcode == GETVAL || opcode == GETPID || opcode == GETNCNT || opcode == GETZCNT {
      r := ParseSemNum(request, b);
    } else if opcode == SETVAL {
      if n != 12 { return Rejected(EMSGSIZE); }
      r := Accepted(SetValCall(GetI32(b, 0), GetU32(b, 4), GetU32(b, 8), actor.pid));
    } else if opcode == GETALL {
      if n != 8 { return Rejected(EMSGSIZE); }
      var count := GetU32(b, 4);
      if count == 0 || count > MAX_PER_SET { return Rejected(EINVAL); }
      r := Accepted(GetAllCall(GetI32(b, 0), count));
    } else if opcode == SETALL {
      if n < 8 { return Rejected(EMSGSIZE); }
      var count: nat := GetU32(b, 4);
      if count == 0 || count > MAX_PER_SET || n != 8 + 2 * count { return Rejected(EMSGSIZE); }
      var values := DecodeWords(request.payload, 8, count, n);
      r := Accepted(SetAllCall(GetI32(b, 0), values, actor.pid));
    } else if opcode == SEMOP || opcode == SEMTIMEDOP {
      r := ParseOpsRequest(request, actor.pid);
    } else if opcode == SETMETA {
      if n != 16 { return Rejected(EMSGSIZE); }
      r := Accepted(SetMetaCall(GetI32(b, 0), GetU32(b, 4), GetU32(b, 8), GetU32(b, 12), actor.identity));
    } else if opcode == INFO {
      if n != 4 { return Rejected(EMSGSIZE); }
      var dynamic := GetU32(b, 0);
      r := if dynamic > 1 then Rejected(EINVAL) else Accepted(InfoCall(dynamic == 1));
    } else if opcode == REMOVE || opcode == STAT || opcode == STAT_INDEX {
      if n != 4 { return Rejected(EMSGSIZE); }
      r := if opcode == REMOVE then Accepted(RemoveCall(GetI32(b, 0)))
           else if opcode == STAT then Accepted(StatCall(GetI32(b, 0)))
           else Accepted(StatIndexCall(GetU32(b, 0)));
    } else {
      r := Rejected(ENOSYS);
    }
  }

  /** The four requests that read one number of one semaphore. */
  method ParseSemNum(request: PacketBuffer, b: bytes) returns (r: Parsed)
    requires request.Full() && b == request.View().payload
    requires var opcode := request.header.opcode;
             opcode == GETVAL || opcode == GETPID || opcode == GETNCNT || opcode == GETZCNT
    ensures forall actor, noMemory :: r == Parse(request.View(), actor, noMemory)
  {
    hide ReadOps, ReadWords, GetU32, GetU16, GetI64, ParseOps;
    if |b| != 8 { return Rejected(EMSGSIZE); }
    var semid, semNum := GetI32(b, 0), GetU32(b, 4);
    var opcode := request.header.opcode;
    r := if opcode == GETVAL then Accepted(GetValCall(semid, semNum))
         else if opcode == GETPID then Accepted(GetPidCall(semid, semNum))
         else Accepted(WaitCountCall(semid, semNum, opcode == GETZCNT));
  }

  method ParseOpsRequest(request: PacketBuffer, pid: i32) returns (r: Parsed)
    requires request.Full()
    ensures r == ParseOps(request.View(), pid)
  {
    hide ReadOps, ReservedClear, GetU32, GetU16, GetI64;
    var n: nat := request.header.payloadLength;
    var b := request.payload[..n];
    var timed := request.header.opcode == SEMTIMEDOP;
    var prefix := if timed then 16 else 8;
    if n < prefix { return Rejected(EMSGSIZE); }
    var count: nat := GetU32(b, 4);
    if count == 0 || count > MAX_PER_SET || n != prefix + 8 * count { return Rejected(EMSGSIZE); }
    if timed && GetI64(b, 8) < 0 { return Rejected(EINVAL); }
    var ops := DecodeOps(request.payload, prefix, count, n);
    r := if ops.None? then Rejected(EPROTO) else Accepted(TryOpCall(GetI32(b, 0), ops.value, pid));
  }

  /** The broker's scan for SEM_UNDO in a request it has not dispatched yet. */
  method ScanUndo(request: Packet) returns (r: bool)
    requires Sized(request)
    ensures r == UsesUndo(request)
  {
    var opcode := request.header.opcode;
    if opcode != SEMOP && opcode != SEMTIMEDOP { return false; }
    var b := request.payload;
    var prefix := if opcode == SEMTIMEDOP then 16 else 8;
    if |b| < prefix { return false; }
    var count: nat := GetU32(b, 4);
    if count == 0 || count > MAX_PER_SET || |b| != prefix + 8 * count { return false; }
    for i := 0 to count
      invariant forall j :: 0 <= j < i ==> !HasFlag(GetU16(b, prefix + 8 * j + 4), SEM_UNDO)
    {
      if HasFlag(GetU16(b, prefix + 8 * i + 4), SEM_UNDO) { return true; }
    }
    r := false;
  }

  // ---------------------------------------------------------------- running the call

  lemma ScalarAnswer(st: Store, call: Call, now: i64)
    requires Shape(st)
    ensures !(call.GetAllCall? || call.StatCall? || call.StatIndexCall? || call.InfoCall? || call.TryOpCall?) ==>
              Apply(st, call, now).answer == NoData
  {
    hide TryOp, Info, Stat, StatIndex, GetAll, ClearUndo, ExitTo, FindSet, FindKey, FindSlot, FreshSet, HasFlag,
         WithCounter;
  }

  /** Runs one call on the store in place. */
  method Execute(store: SemStore, call: Call, now: i64) returns (code: int, answer: Answer)
    requires store.Valid()
    modifies store.sets, store.undo
    ensures store.Valid()
    ensures Effect(store.State(), code, answer) == Apply(old(store.State()), call, now)
  {
    hide StoreValid.Valid, TryOp, Info, Stat, StatIndex, ClearUndo, ExitTo, FindSet, Get, Remove, SetVal, SetAll,
         SetMeta, AdjustWait, ProcessExit;
    StoreValid.ShapeOf(store.State());
    ScalarAnswer(store.State(), call, now);
    answer := NoData;
    match call
    case GetCall(key, nsems, flags, who, noMemory) => code := store.Get(key, nsems, flags, who, now, noMemory);
    case RemoveCall(semid) => code := store.Remove(semid);
    case GetValCall(semid, semNum) => code := store.GetVal(semid, semNum);
    case GetPidCall(semid, semNum) => code := store.GetPid(semid, semNum);
    case SetValCall(semid, semNum, value, pid) => code := store.SetVal(semid, semNum, value, pid, now);
    case GetAllCall(semid, count) =>
      var values;
      code, values := store.GetAll(semid, count);
      if code == 0 { answer := Values(values); }
    case SetAllCall(semid, values, pid) => code := store.SetAll(semid, values, pid, now);
    case StatCall(semid) => code, answer := store.Stat(semid);
    case StatIndexCall(index) => code, answer := store.StatIndex(index);
    case SetMetaCall(semid, uid, gid, mode, who) => code := store.SetMeta(semid, uid, gid, mode, who, now);
    case WaitCountCall(semid, semNum, forZero) => code := store.WaitCount(semid, semNum, forZero);
    case AdjustWaitCall(semid, semNum, forZero, up) => code := store.AdjustWait(semid, semNum, forZero, up);
    case InfoCall(dynamic) => code, answer := store.Info(dynamic);
    case TryOpCall(semid, ops, pid) => code, answer := store.TryOp(semid, ops, pid, now);
    case ExitCall(pid) => code := store.ProcessExit(pid, now);
  }

  method PerformRequest(store: SemStore, parsed: Parsed, now: i64) returns (code: int, answer: Answer)
    requires store.Valid()
    modifies store.sets, store.undo
    ensures store.Valid()
    ensures Effect(store.State(), code, answer) == Perform(old(store.State()), parsed, now)
  {
    hide Apply;
    match parsed
    case Rejected(errno) => code, answer := -errno, NoData;
    case Pinged => code, answer := 0, NoData;
    case Accepted(call) => code, answer := Execute(store, call, now);
  }

  /** Dispatches one framed request and fills the response. */
  method DispatchRequest(store: SemStore, request: PacketBuffer, actor: Actor, now: i64, noMemory: bool,
                         response: PacketBuffer)
    returns (result: int)
    requires store.Valid() && request.Full() && response.Valid()
    requires request != response && request.payload != response.payload
    modifies store.sets, store.undo, response, response.payload
    ensures store.Valid() && request.Full() && request.View() == old(request.View()) && response.Valid()
    ensures match Dispatch(old(store.State()), request.View(), actor, now, noMemory)
            case Dropped(code) => result == code != 0 && store.State() == old(store.State())
            case Replied(st, p) => result == 0 && store.State() == st && response.Full() && response.View() == p
  {
    hide Parse, Perform, StoreValid.Valid, Encodable, ReplyPayload;
    if actor.pid <= 0 { return -EINVAL; }
    if !GoodRequest(request.header) { return -EPROTO; }
    var parsed := ParseRequest(request, actor, noMemory);
    ParseErrno(request.View(), actor, noMemory);
    PerformEncodable(store.State(), parsed, now);
    var code, answer := PerformRequest(store, parsed, now);
    var length := EncodeAnswer(response.payload, code, answer);
    CodeIsI32(code, answer);
    response.header := Header(VERSION, RESPONSE, request.header.opcode, request.header.requestId, length, code);
    result := 0;
  }

  lemma CodeIsI32(code: int, answer: Answer)
    requires Encodable(code, answer)
    ensures -0x8000_0000 <= code < 0x8000_0000
  {
  }
}
