/**
 Remote calls mean what local calls mean: for every client call, the request
 the client builds is read back by the dispatcher as that very call, and the
 response the dispatcher writes is read back by the client as the store's answer.
 */
module Remote {
  import opened SemTypes
  import opened Wire
  import opened Protocol
  import opened StoreModel
  import opened StoreValid
  import opened Messages

  // ---------------------------------------------------------------- the dispatcher

  function Perform(st: Store, parsed: Parsed, now: i64): Effect
    requires Shape(st)
  {
    match parsed
    case Rejected(errno) => Fails(st, errno)
    case Pinged => Effect(st, 0, NoData)
    case Accepted(call) => Apply(st, call, now)
  }

  datatype Dispatched = Dropped(code: int) | Replied(store: Store, response: Packet)

  predicate GoodRequest(h: Header) {
    h.version == VERSION && h.kind == REQUEST && h.result == 0 && h.payloadLength <= MAX_PAYLOAD
  }

  /** One framed request: either the connection is dropped or the request is performed and answered. */
  ghost function Dispatch(st: Store, request: Packet, actor: Actor, now: i64, noMemory: bool): Dispatched
    requires Valid(st) && Sized(request)
  {
    if actor.pid <= 0 then Dropped(-EINVAL)
    else if !GoodRequest(request.header) then Dropped(-EPROTO)
    else
      var r := Perform(st, Parse(request, actor, noMemory), now);
      PerformEncodable(st, Parse(request, actor, noMemory), now);
      Replied(r.store, Respond(request, r.code, r.answer))
  }

  // ---------------------------------------------------------------- what may be encoded

  /** An error number a refusal may carry. */
  predicate SmallErrno(parsed: Parsed) {
    parsed.Rejected? ==> 0 < parsed.errno < 0x1000
  }

  lemma ParseErrno(p: Packet, actor: Actor, noMemory: bool)
    requires Sized(p)
    ensures SmallErrno(Parse(p, actor, noMemory))
  {
  }

  lemma {:induction false} CensusBound(sets: seq<SemSet>, n: nat)
    requires n <= |sets| && forall i :: 0 <= i < |sets| ==> |sets[i].values| <= MAX_PER_SET
    ensures var (highest, active, total) := Census(sets, n);
            (n > 0 ==> highest < n) && highest <= n && active <= n && total <= n * MAX_PER_SET
  {
    if n > 0 { CensusBound(sets, n - 1); }
  }

  lemma IdEncodable(st: Store, i: nat)
    requires Valid(st) && i < MAX_SETS && st.sets[i].active
    ensures 0 <= MakeId(i, st.sets[i].generation) <= INT_MAX
  {
  }

  lemma ApplyEncodable(st: Store, call: Call, now: i64)
    requires Valid(st)
    ensures var r := Apply(st, call, now); Encodable(r.code, r.answer)
  {
    match call
    case GetCall(key, nsems, flags, who, noMemory) => GetEncodable(st, key, nsems, flags, who, now, noMemory);
    case InfoCall(dynamic) => CensusBound(st.sets, MAX_SETS);
    case StatCall(semid) =>
      hide TryOp, ProcessExit, Census;
      assert FindSet(st, semid).Some? ==> ValidSet(st.sets[FindSet(st, semid).value]);
    case _ =>
      hide TryOp, ProcessExit, Census;
      ReadEncodable(st, call, now);
  }

  lemma GetEncodable(st: Store, key: i32, nsems: i32, flags: int, who: Identity, now: i64, noMemory: bool)
    requires Valid(st)
    ensures var r := Get(st, key, nsems, flags, who, now, noMemory); Encodable(r.code, r.answer)
  {
    var found, slot := FindKey(st.sets, key), FindSlot(st.sets);
    if found < MAX_SETS { IdEncodable(st, found); }
  }

  lemma ReadEncodable(st: Store, call: Call, now: i64)
    requires Valid(st) && !call.GetCall? && !call.InfoCall?
    ensures var r := Apply(st, call, now); Encodable(r.code, r.answer)
  {
    hide ClearUndo, EvalTo, CommitTo, DeltasTo, ReserveTo, ExitTo, ExitChanged, StampTo, PartialCommit, Get, Census,
         DecodeId, EntryOk, UniqueKeys, Unique, CountFree;
    assert forall i :: 0 <= i < MAX_SETS ==> ValidSet(st.sets[i]);
  }

  lemma PerformEncodable(st: Store, parsed: Parsed, now: i64)
    requires Valid(st) && SmallErrno(parsed)
    ensures var r := Perform(st, parsed, now); Encodable(r.code, r.answer)
  {
    if parsed.Accepted? { ApplyEncodable(st, parsed.call, now); }
  }

  // ---------------------------------------------------------------- the client

  datatype ClientCall =
    | Ping
    | SemGet(key: i32, nsems: i32, flags: i32)
    | RemoveSet(semid: i32)
    | ReadVal(semid: i32, semNum: nat)
    | ReadPid(semid: i32, semNum: nat)
    | ReadWaiters(semid: i32, semNum: nat, forZero: bool)
    | WriteVal(semid: i32, semNum: nat, value: u32)
    | ReadAll(semid: i32, count: nat)
    | WriteAll(semid: i32, values: seq<u16>)
    | Operate(semid: i32, ops: seq<SemOp>, timeout: Option<i64>)
    | Describe(semid: i32)
    | DescribeIndex(index: nat)
    | Reassign(semid: i32, uid: u32, gid: u32, mode: u32)
    | ReadLimits(dynamic: bool)

  function Request(opcode: u16, payload: bytes): (p: Packet)
    requires |payload| <= MAX_PAYLOAD
    ensures Sized(p)
  {
    Packet(Header(VERSION, REQUEST, opcode, 0, |payload|, 0), payload)
  }

  function OperatePayload(semid: i32, ops: seq<SemOp>, timeout: Option<i64>): (r: bytes)
    requires |ops| <= MAX_PER_SET
    ensures |r| == (if timeout.Some? then 16 else 8) + 8 * |ops| <= MAX_PAYLOAD
  {
    I32(semid) + U32(|ops|) + (if timeout.Some? then I64(timeout.value) else []) + OpsBytes(ops, |ops|)
  }

  /** The request a client call sends, before it is numbered; an error is returned without sending. */
  function Build(c: ClientCall): (r: Result<Packet>)
    ensures r.Ok? ==> Sized(r.value)
  {
    match c
    case Ping => Ok(Request(PING, []))
    case SemGet(key, nsems, flags) => Ok(Request(SEMGET, I32(key) + I32(nsems) + I32(flags)))
    case RemoveSet(semid) => Ok(Request(REMOVE, I32(semid)))
    case ReadVal(semid, semNum) => BuildSemNum(GETVAL, semid, semNum)
    case ReadPid(semid, semNum) => BuildSemNum(GETPID, semid, semNum)
    case ReadWaiters(semid, semNum, forZero) => BuildSemNum(if forZero then GETZCNT else GETNCNT, semid, semNum)
    case WriteVal(semid, semNum, value) =>
      if semNum > UINT32_MAX then Err(-EINVAL) else Ok(Request(SETVAL, I32(semid) + U32(semNum) + U32(value)))
    case ReadAll(semid, count) =>
      if count == 0 || count > MAX_PER_SET then Err(-EINVAL) else Ok(Request(GETALL, I32(semid) + U32(count)))
    case WriteAll(semid, values) =>
      if |values| == 0 || |values| > MAX_PER_SET then Err(-EINVAL)
      else Ok(Request(SETALL, I32(semid) + U32(|values|) + WordsBytes(values, |values|)))
    case Operate(semid, ops, timeout) =>
      if ops == [] || |ops| > MAX_PER_SET || (timeout.Some? && timeout.value < 0) then Err(-EINVAL)
      else Ok(Request(if timeout.Some? then SEMTIMEDOP else SEMOP, OperatePayload(semid, ops, timeout)))
    case Describe(semid) => Ok(Request(STAT, I32(semid)))
    case DescribeIndex(index) => if index > UINT32_MAX then Err(-EINVAL) else Ok(Request(STAT_INDEX, U32(index)))
    case Reassign(semid, uid, gid, mode) => Ok(Request(SETMETA, I32(semid) + U32(uid) + U32(gid) + U32(mode)))
    case ReadLimits(dynamic) => Ok(Request(INFO, U32(if dynamic then 1 else 0)))
  }

  function BuildSemNum(opcode: u16, semid: i32, semNum: nat): (r: Result<Packet>)
    ensures r.Ok? ==> Sized(r.value)
  {
    if semNum > UINT32_MAX then Err(-EINVAL) else Ok(Request(opcode, I32(semid) + U32(semNum)))
  }

  /** What the caller asked for, as a direct call on the store. */
  function Asked(c: ClientCall, actor: Actor, noMemory: bool): Parsed {
    match c
    case Ping => Pinged
    case SemGet(key, nsems, flags) =>
      if GetFlags(flags) then Accepted(GetCall(key, nsems, flags, actor.identity, noMemory)) else Rejected(EINVAL)
    case RemoveSet(semid) => Accepted(RemoveCall(semid))
    case ReadVal(semid, semNum) => Accepted(GetValCall(semid, semNum))
    case ReadPid(semid, semNum) => Accepted(GetPidCall(semid, semNum))
    case ReadWaiters(semid, semNum, forZero) => Accepted(WaitCountCall(semid, semNum, forZero))
    case WriteVal(semid, semNum, value) => Accepted(SetValCall(semid, semNum, value, actor.pid))
    case ReadAll(semid, count) => Accepted(GetAllCall(semid, count))
    case WriteAll(semid, values) => Accepted(SetAllCall(semid, values, actor.pid))
    case Operate(semid, ops, _) => Accepted(TryOpCall(semid, ops, actor.pid))
    case Describe(semid) => Accepted(StatCall(semid))
    case DescribeIndex(index) => Accepted(StatIndexCall(index))
    case Reassign(semid, uid, gid, mode) => Accepted(SetMetaCall(semid, uid, gid, mode, actor.identity))
    case ReadLimits(dynamic) => Accepted(InfoCall(dynamic))
  }

  // ---------------------------------------------------------------- fixed fields at the start of a payload

  lemma Field(w: u32, rest: bytes)
    ensures GetU32(U32(w) + rest, 0) == w && (U32(w) + rest)[4..] == rest
  {
    hide U32, GetU32;
    assert (U32(w) + rest)[0..4] == U32(w);
    U32At(U32(w) + rest, 0, w);
  }

  /** Reading past the first four bytes is reading the rest. */
  lemma Later(b: bytes, at: nat)
    requires at + 4 <= |b| - 4
    ensures GetU32(b, at + 4) == GetU32(b[4..], at)
  {
  }

  lemma Two(a: u32, b: u32, rest: bytes)
    ensures var p := U32(a) + U32(b) + rest;
            GetU32(p, 0) == a && GetU32(p, 4) == b && p[8..] == rest
  {
    hide U32, GetU32;
    var p := U32(a) + U32(b) + rest;
    assert p == U32(a) + (U32(b) + rest);
    Field(a, U32(b) + rest);
    Field(b, rest);
    Later(p, 0);
  }

  lemma Three(a: u32, b: u32, c: u32)
    ensures var p := U32(a) + U32(b) + U32(c);
            GetU32(p, 0) == a && GetU32(p, 4) == b && GetU32(p, 8) == c
  {
    hide U32, GetU32;
    var p := U32(a) + U32(b) + U32(c);
    assert p == U32(a) + (U32(b) + U32(c));
    Field(a, U32(b) + U32(c));
    Two(b, c, []);
    assert U32(b) + U32(c) + [] == U32(b) + U32(c);
    Later(p, 0);
    Later(p, 4);
  }

  lemma Four(a: u32, b: u32, c: u32, d: u32)
    ensures var p := U32(a) + U32(b) + U32(c) + U32(d);
            GetU32(p, 0) == a && GetU32(p, 4) == b && GetU32(p, 8) == c && GetU32(p, 12) == d
  {
    hide U32, GetU32;
    var p := U32(a) + U32(b) + U32(c) + U32(d);
    assert p == U32(a) + (U32(b) + U32(c) + U32(d));
    Field(a, U32(b) + U32(c) + U32(d));
    Three(b, c, d);
    Later(p, 0);
    Later(p, 4);
    Later(p, 8);
  }

  // ---------------------------------------------------------------- requests read back

  lemma OperateParses(semid: i32, ops: seq<SemOp>, timeout: Option<i64>, id: u32, pid: i32)
    requires ops != [] && |ops| <= MAX_PER_SET && (timeout.Some? ==> timeout.value >= 0)
    ensures var p := Numbered(Build(Operate(semid, ops, timeout)).value, id);
            && ParseOps(p, pid) == Accepted(TryOpCall(semid, ops, pid))
            && (timeout.Some? ==> GetI64(p.payload, 8) == timeout.value)
  {
    hide U32, GetU32, I64, GetI64, ReadOps, OpsBytes, ReservedClear;
    var p := Numbered(Build(Operate(semid, ops, timeout)).value, id);
    var body := OpsBytes(ops, |ops|);
    var tail := (if timeout.Some? then I64(timeout.value) else []) + body;
    assert p.payload == U32(Unsigned32(semid)) + U32(|ops|) + tail;
    Two(Unsigned32(semid), |ops|, tail);
    var prefix := OpsPrefix(p.header.opcode);
    if timeout.Some? {
      assert p.payload[8..16] == tail[0..8] == I64(timeout.value);
      I64At(p.payload, 8, timeout.value);
      assert p.payload[16..] == tail[8..] == body;
    } else {
      assert tail == body;
    }
    OpsRoundTrip(p.payload, prefix, ops);
  }

  function Numbered(p: Packet, id: u32): Packet {
    p.(header := p.header.(requestId := id))
  }

  lemma WriteAllParses(semid: i32, values: seq<u16>, id: u32, actor: Actor, noMemory: bool)
    requires 0 < |values| <= MAX_PER_SET
    ensures Parse(Numbered(Build(WriteAll(semid, values)).value, id), actor, noMemory) ==
            Asked(WriteAll(semid, values), actor, noMemory)
  {
    hide U32, GetU32, ReadWords, WordsBytes;
    var body := WordsBytes(values, |values|);
    var payload := U32(Unsigned32(semid)) + U32(|values|) + body;
    Two(Unsigned32(semid), |values|, body);
    assert payload == Build(WriteAll(semid, values)).value.payload;
    WordsRoundTrip(payload, 8, values);
  }

  lemma SemNumParses(c: ClientCall, id: u32, actor: Actor, noMemory: bool)
    requires Build(c).Ok? && (c.ReadVal? || c.ReadPid? || c.ReadWaiters? || c.ReadAll?)
    ensures Parse(Numbered(Build(c).value, id), actor, noMemory) == Asked(c, actor, noMemory)
  {
    hide U32, GetU32, ParseOps, ReadWords;
    Pair(Unsigned32(c.semid), if c.ReadAll? then c.count else c.semNum);
  }

  lemma FieldsParse(c: ClientCall, id: u32, actor: Actor, noMemory: bool)
    requires Build(c).Ok? && (c.SemGet? || c.WriteVal? || c.Reassign?)
    ensures Parse(Numbered(Build(c).value, id), actor, noMemory) == Asked(c, actor, noMemory)
  {
    hide U32, GetU32, ParseOps, ReadWords;
    match c
    case SemGet(key, nsems, flags) => Three(Unsigned32(key), Unsigned32(nsems), Unsigned32(flags));
    case WriteVal(semid, semNum, value) => Three(Unsigned32(semid), semNum, value);
    case Reassign(semid, uid, gid, mode) => Four(Unsigned32(semid), uid, gid, mode);
  }

  lemma SingleParses(c: ClientCall, id: u32, actor: Actor, noMemory: bool)
    requires Build(c).Ok? && (c.Ping? || c.RemoveSet? || c.Describe? || c.DescribeIndex? || c.ReadLimits?)
    ensures Parse(Numbered(Build(c).value, id), actor, noMemory) == Asked(c, actor, noMemory)
  {
    hide U32, GetU32, ParseOps, ReadWords;
    match c
    case Ping =>
    case RemoveSet(semid) => Single(Unsigned32(semid));
    case Describe(semid) => Single(Unsigned32(semid));
    case DescribeIndex(index) => Single(index);
    case ReadLimits(dynamic) => Single(if dynamic then 1 else 0);
  }

  /** The dispatcher reads every request the client builds as the call the client was asked to make. */
  lemma BuildParses(c: ClientCall, id: u32, actor: Actor, noMemory: bool)
    requires Build(c).Ok?
    ensures Parse(Numbered(Build(c).value, id), actor, noMemory) == Asked(c, actor, noMemory)
  {
    hide U32, GetU32, ParseOps, ReadWords, OperatePayload, WordsBytes;
    if c.ReadVal? || c.ReadPid? || c.ReadWaiters? || c.ReadAll? {
      SemNumParses(c, id, actor, noMemory);
    } else if c.SemGet? || c.WriteVal? || c.Reassign? {
      FieldsParse(c, id, actor, noMemory);
    } else if c.WriteAll? {
      WriteAllParses(c.semid, c.values, id, actor, noMemory);
    } else if c.Operate? {
      OperateParses(c.semid, c.ops, c.timeout, id, actor.pid);
    } else {
      SingleParses(c, id, actor, noMemory);
    }
  }

  lemma Single(a: u32)
    ensures GetU32(U32(a), 0) == a
  {
    U32At(U32(a), 0, a);
  }

  lemma Pair(a: u32, b: u32)
    ensures GetU32(U32(a) + U32(b), 0) == a && GetU32(U32(a) + U32(b), 4) == b
  {
    Two(a, b, []);
    assert U32(a) + U32(b) + [] == U32(a) + U32(b);
  }

  // ---------------------------------------------------------------- responses read back

  datatype ClientReply = ClientReply(code: int, answer: Answer)

  const BAD_REPLY := ClientReply(-EPROTO, NoData)

  function ScalarReply(p: Packet): ClientReply {
    if p.payload != [] then BAD_REPLY else ClientReply(p.header.result, NoData)
  }

  function MetadataReply(p: Packet): ClientReply {
    var b := p.payload;
    if p.header.result < 0 then ClientReply(p.header.result, NoData)
    else if |b| != 56 || GetU32(b, 28) != 0 || GetU32(b, 52) != 0 then BAD_REPLY
    else ClientReply(p.header.result, ReadMetadata(b))
  }

  function ReadMetadata(b: bytes): Answer
    requires |b| == 56
  {
    Metadata(GetI32(b, 0), GetU32(b, 24), GetU32(b, 48),
             Meta(GetU32(b, 4), GetU32(b, 8), GetU32(b, 12), GetU32(b, 16), GetU32(b, 20), GetI64(b, 32),
                 GetI64(b, 40)))
  }

  /** What the client returns to its caller for a response. */
  function Interpret(c: ClientCall, p: Packet): ClientReply {
    match c
    case ReadAll(_, count) =>
      if p.header.result != 0 then ClientReply(p.header.result, NoData)
      else if |p.payload| != 4 + 2 * count || GetU32(p.payload, 0) != count then BAD_REPLY
      else ClientReply(0, Values(ReadWords(p.payload, 4, count)))
    case Describe(_) =>
      var r := MetadataReply(p);
      if r.code < 0 then r else r.(code := 0)
    case DescribeIndex(_) => MetadataReply(p)
    case ReadLimits(_) =>
      if p.header.result < 0 then ClientReply(p.header.result, NoData)
      else if |p.payload| != 40 then BAD_REPLY
      else ClientReply(p.header.result, Limits(ReadInts(p.payload, 0, 10)))
    case Operate(_, _, _) =>
      var r := ScalarReply(p);
      if r.code == OP_BLOCKED then BAD_REPLY else r
    case _ => ScalarReply(p)
  }

  /** The checks every exchange makes before a response is believed. */
  predicate Correlated(request: Packet, response: Packet) {
    && response.header.version == VERSION
    && response.header.kind == RESPONSE
    && response.header.opcode == request.header.opcode
    && response.header.requestId == request.header.requestId
    && (response.header.result < 0 ==> response.header.payloadLength == 0)
  }

  lemma MetadataRoundTrip(key: i32, nsems: u32, generation: u32, m: Meta)
    ensures var b := MetadataBytes(key, nsems, generation, m);
            GetU32(b, 28) == 0 && GetU32(b, 52) == 0 && ReadMetadata(b) == Metadata(key, nsems, generation, m)
  {
    hide U32, I32, I64, GetU32, GetI32, GetI64;
    var b := MetadataBytes(key, nsems, generation, m);
    assert b[0..4] == I32(key) && b[4..8] == U32(m.uid) && b[8..12] == U32(m.gid) && b[12..16] == U32(m.cuid);
    assert b[16..20] == U32(m.cgid) && b[20..24] == U32(m.mode) && b[24..28] == U32(nsems) && b[28..32] == U32(0);
    assert b[32..40] == I64(m.otime) && b[40..48] == I64(m.ctime) && b[48..52] == U32(generation)
           && b[52..56] == U32(0);
    I32At(b, 0, key);
    U32At(b, 4, m.uid);
    U32At(b, 8, m.gid);
    U32At(b, 12, m.cuid);
    U32At(b, 16, m.cgid);
    U32At(b, 20, m.mode);
    U32At(b, 24, nsems);
    U32At(b, 28, 0);
    I64At(b, 32, m.otime);
    I64At(b, 40, m.ctime);
    U32At(b, 48, generation);
    U32At(b, 52, 0);
  }

  /** The shape of data each call may return. */
  predicate Expected(c: ClientCall, code: int, answer: Answer) {
    code < 0 ||
    match c
    case ReadAll(_, count) => code == 0 && answer.Values? && |answer.values| == count
    case Describe(_) => code == 0 && answer.Metadata?
    case DescribeIndex(_) => answer.Metadata?
    case ReadLimits(_) => answer.Limits?
    case Operate(_, _, _) => answer.NoData? || (code == OP_BLOCKED && answer.Waits?)
    case _ => answer.NoData?
  }

  lemma TryOpExpected(st: Store, semid: i32, ops: seq<SemOp>, pid: i32, now: i64)
    requires Shape(st)
    ensures var r := TryOp(st, semid, ops, pid, now);
            r.code <= 0 || r.code == OP_BLOCKED
    ensures var r := TryOp(st, semid, ops, pid, now);
            if r.code == OP_BLOCKED then r.answer.Waits? else r.code < 0 || r.answer.NoData?
  {
  }

  lemma PerformExpected(st: Store, c: ClientCall, actor: Actor, noMemory: bool, now: i64)
    requires Shape(st)
    ensures var r := Perform(st, Asked(c, actor, noMemory), now); Expected(c, r.code, r.answer)
  {
    hide TryOp, ProcessExit, Census, FindSet, ClearUndo, FindKey, FindSlot, FreshSet, HasFlag, WithCounter, GetFlags;
    if c.Operate? { TryOpExpected(st, c.semid, c.ops, actor.pid, now); }
  }

  function Bare(code: int, answer: Answer): Answer {
    if code < 0 then NoData else answer
  }

  /** The client reads back the store's own result and data, except that a blocked batch is not a reply to it. */
  lemma ReplyReadsBack(c: ClientCall, request: Packet, code: int, answer: Answer)
    requires Encodable(code, answer) && Expected(c, code, answer)
    ensures Interpret(c, Respond(request, code, answer)) ==
            if c.Operate? && code == OP_BLOCKED then BAD_REPLY else ClientReply(code, Bare(code, answer))
  {
    hide U32, GetU32, ReadWords, WordsBytes, ReadInts, IntsBytes, MetadataBytes, ReadMetadata;
    var p := Respond(request, code, answer);
    if code >= 0 {
      match c
      case ReadAll(_, count) =>
        Field(|answer.values|, WordsBytes(answer.values, |answer.values|));
        WordsRoundTrip(p.payload, 4, answer.values);
      case Describe(_) => MetadataRoundTrip(answer.key, answer.nsems, answer.generation, answer.meta);
      case DescribeIndex(_) => MetadataRoundTrip(answer.key, answer.nsems, answer.generation, answer.meta);
      case ReadLimits(_) => IntsRoundTrip(p.payload, 0, answer.fields);
      case _ =>
    }
  }

  /** A remote call leaves the store a direct call leaves, and returns what it returns. */
  lemma RemoteRefinesLocal(st: Store, c: ClientCall, id: u32, actor: Actor, noMemory: bool, now: i64)
    requires Valid(st) && Build(c).Ok? && actor.pid > 0
    ensures var request := Numbered(Build(c).value, id);
            var local := Perform(st, Asked(c, actor, noMemory), now);
            var d := Dispatch(st, request, actor, now, noMemory);
            && d.Replied? && d.store == local.store && Correlated(request, d.response)
            && Interpret(c, d.response) ==
               if c.Operate? && local.code == OP_BLOCKED then BAD_REPLY
               else ClientReply(local.code, Bare(local.code, local.answer))
  {
    hide Perform, Parse, Interpret, Encodable, Asked, ReplyPayload;
    BuildParses(c, id, actor, noMemory);
    PerformExpected(st, c, actor, noMemory, now);
    var request := Numbered(Build(c).value, id);
    BuiltIsGood(c, id);
    ParseErrno(request, actor, noMemory);
    PerformEncodable(st, Parse(request, actor, noMemory), now);
    var local := Perform(st, Asked(c, actor, noMemory), now);
    ReplyReadsBack(c, request, local.code, local.answer);
    NegativeIsBare(local.code, local.answer);
  }

  lemma BuiltIsGood(c: ClientCall, id: u32)
    requires Build(c).Ok?
    ensures GoodRequest(Numbered(Build(c).value, id).header) && HeaderStatus(Numbered(Build(c).value, id).header) == 0
  {
  }

  lemma NegativeIsBare(code: int, answer: Answer)
    requires Encodable(code, answer)
    ensures code < 0 ==> ReplyPayload(code, answer) == []
  {
  }
}
