/**
 The wire format from outside: which calls a client sends and byte by byte what
 it sends, which packets the dispatcher takes and as what, which it refuses and
 with which error, and which responses a client believes.
 */
module WireLaws {
  import opened SemTypes
  import opened Wire
  import opened Protocol
  import opened StoreModel
  import opened Messages
  import opened Remote
  import opened Transport

  // ---------------------------------------------------------------- numbers

  /** Four bytes are read as base 256 digits, least significant first, and as a signed number by the top bit. */
  lemma ThirtyTwoBits(b: bytes, at: nat)
    requires at + 4 <= |b|
    ensures var low, high := b[at] as int + 0x100 * b[at + 1] as int, b[at + 2] as int + 0x100 * b[at + 3] as int;
            var n := low + 0x1_0000 * high;
            GetU32(b, at) == n && GetI32(b, at) == if b[at + 3] >= 0x80 then n - 0x1_0000_0000 else n
  {
  }

  // ---------------------------------------------------------------- which calls are sent

  /** Arguments a client sends; any other call is refused before anything is sent. */
  predicate Acceptable(c: ClientCall) {
    match c
    case ReadVal(_, semNum) => semNum < 0x1_0000_0000
    case ReadPid(_, semNum) => semNum < 0x1_0000_0000
    case ReadWaiters(_, semNum, _) => semNum < 0x1_0000_0000
    case WriteVal(_, semNum, _) => semNum < 0x1_0000_0000
    case ReadAll(_, count) => 1 <= count <= 512
    case WriteAll(_, values) => 1 <= |values| <= 512
    case Operate(_, ops, timeout) => 1 <= |ops| <= 512 && (timeout.Some? ==> timeout.value >= 0)
    case DescribeIndex(index) => index < 0x1_0000_0000
    case _ => true
  }

  /** A client sends a request exactly for such arguments, and otherwise returns -EINVAL. */
  lemma BuildIff(c: ClientCall)
    ensures Build(c).Ok? <==> Acceptable(c)
    ensures Build(c).Err? ==> Build(c).errno == -22
  {
    hide I32, U32, OperatePayload, WordsBytes;
  }

  // ---------------------------------------------------------------- what is sent

  /** The operation code of each call. */
  function Code(c: ClientCall): u16 {
    match c
    case Ping => 1
    case SemGet(_, _, _) => 2
    case RemoveSet(_) => 3
    case ReadVal(_, _) => 4
    case WriteVal(_, _, _) => 5
    case ReadPid(_, _) => 6
    case ReadAll(_, _) => 7
    case WriteAll(_, _) => 8
    case Operate(_, _, timeout) => if timeout.Some? then 14 else 9
    case ReadWaiters(_, _, forZero) => if forZero then 11 else 10
    case Describe(_) => 12
    case Reassign(_, _, _, _) => 13
    case ReadLimits(_) => 15
    case DescribeIndex(_) => 16
  }

  lemma RequestHeader(c: ClientCall, id: u32)
    requires Build(c).Ok?
    ensures var p := Numbered(Build(c).value, id);
            p.header == Header(1, 1, Code(c), id, |p.payload|, 0)
  {
    hide I32, U32, OperatePayload, WordsBytes;
  }

  /** The fields of a request, each at its place. */
  ghost predicate Laid(c: ClientCall, b: bytes) {
    match c
    case Ping => b == []
    case SemGet(key, nsems, flags) => |b| == 12 && GetI32(b, 0) == key && GetI32(b, 4) == nsems && GetI32(b, 8) == flags
    case RemoveSet(semid) => |b| == 4 && GetI32(b, 0) == semid
    case ReadVal(semid, semNum) => |b| == 8 && GetI32(b, 0) == semid && GetU32(b, 4) == semNum
    case ReadPid(semid, semNum) => |b| == 8 && GetI32(b, 0) == semid && GetU32(b, 4) == semNum
    case ReadWaiters(semid, semNum, _) => |b| == 8 && GetI32(b, 0) == semid && GetU32(b, 4) == semNum
    case WriteVal(semid, semNum, value) =>
      |b| == 12 && GetI32(b, 0) == semid && GetU32(b, 4) == semNum && GetU32(b, 8) == value
    case ReadAll(semid, count) => |b| == 8 && GetI32(b, 0) == semid && GetU32(b, 4) == count
    case WriteAll(semid, values) =>
      && |b| == 8 + 2 * |values| && GetI32(b, 0) == semid && GetU32(b, 4) == |values|
      && forall i :: 0 <= i < |values| ==> GetU16(b, 8 + 2 * i) == values[i]
    case Operate(semid, ops, timeout) =>
      var at := if timeout.Some? then 16 else 8;
      && |b| == at + 8 * |ops| && GetI32(b, 0) == semid && GetU32(b, 4) == |ops|
      && (timeout.Some? ==> GetI64(b, 8) == timeout.value)
      && forall i :: 0 <= i < |ops| ==> LaidOp(b, at + 8 * i, ops[i])
    case Describe(semid) => |b| == 4 && GetI32(b, 0) == semid
    case DescribeIndex(index) => |b| == 4 && GetU32(b, 0) == index
    case Reassign(semid, uid, gid, mode) =>
      |b| == 16 && GetI32(b, 0) == semid && GetU32(b, 4) == uid && GetU32(b, 8) == gid && GetU32(b, 12) == mode
    case ReadLimits(dynamic) => |b| == 4 && GetU32(b, 0) == if dynamic then 1 else 0
  }

  predicate LaidOp(b: bytes, at: nat, op: SemOp)
    requires at + 8 <= |b|
  {
    GetU16(b, at) == op.semNum && GetI16(b, at + 2) == op.op && GetU16(b, at + 4) == op.flg && GetU16(b, at + 6) == 0
  }

  lemma FixedLayout(c: ClientCall)
    requires Build(c).Ok? && !c.WriteAll? && !c.Operate?
    ensures Laid(c, Build(c).value.payload)
  {
    hide U32, GetU32;
    match c
    case Ping =>
    case SemGet(key, nsems, flags) => Three(Unsigned32(key), Unsigned32(nsems), Unsigned32(flags));
    case RemoveSet(semid) => Single(Unsigned32(semid));
    case ReadVal(semid, semNum) => Pair(Unsigned32(semid), semNum);
    case ReadPid(semid, semNum) => Pair(Unsigned32(semid), semNum);
    case ReadWaiters(semid, semNum, _) => Pair(Unsigned32(semid), semNum);
    case WriteVal(semid, semNum, value) => Three(Unsigned32(semid), semNum, value);
    case ReadAll(semid, count) => Pair(Unsigned32(semid), count);
    case Describe(semid) => Single(Unsigned32(semid));
    case DescribeIndex(index) => Single(index);
    case Reassign(semid, uid, gid, mode) => Four(Unsigned32(semid), uid, gid, mode);
    case ReadLimits(dynamic) => Single(if dynamic then 1 else 0);
  }

  lemma WriteAllLayout(c: ClientCall)
    requires Build(c).Ok? && c.WriteAll?
    ensures Laid(c, Build(c).value.payload)
  {
    hide U32, GetU32, WordsBytes, GetU16;
    var body := WordsBytes(c.values, |c.values|);
    var b := U32(Unsigned32(c.semid)) + U32(|c.values|) + body;
    Two(Unsigned32(c.semid), |c.values|, body);
    WordsRoundTrip(b, 8, c.values);
    assert ReadWords(b, 8, |c.values|) == c.values;
    forall i | 0 <= i < |c.values| ensures GetU16(b, 8 + 2 * i) == c.values[i] {
      assert ReadWords(b, 8, |c.values|)[i] == c.values[i];
    }
  }

  lemma OperateLayout(c: ClientCall)
    requires Build(c).Ok? && c.Operate?
    ensures Laid(c, Build(c).value.payload)
  {
    hide U32, GetU32, I64, GetI64, OpsBytes, ReadOp, ReservedClear, GetU16, GetI16;
    OperateParses(c.semid, c.ops, c.timeout, 0, 1);
    var b := Build(c).value.payload;
    var at := if c.timeout.Some? then 16 else 8;
    assert ReadOps(b, at, |c.ops|) == c.ops && ReservedClear(b, at, |c.ops|);
    forall i | 0 <= i < |c.ops| ensures LaidOp(b, at + 8 * i, c.ops[i]) {
      assert ReadOps(b, at, |c.ops|)[i] == ReadOp(b, at + 8 * i);
      OpLaid(b, at, |c.ops|, i);
    }
  }

  lemma OpLaid(b: bytes, at: nat, n: nat, i: nat)
    requires at + 8 * n <= |b| && i < n && ReservedClear(b, at, n)
    ensures LaidOp(b, at + 8 * i, ReadOp(b, at + 8 * i))
  {
  }

  /** Every request a client sends, byte by byte. */
  lemma RequestLayout(c: ClientCall, id: u32)
    requires Build(c).Ok?
    ensures var p := Numbered(Build(c).value, id);
            p.header == Header(1, 1, Code(c), id, |p.payload|, 0) && Laid(c, p.payload)
  {
    hide Build, Laid;
    RequestHeader(c, id);
    if c.WriteAll? {
      WriteAllLayout(c);
    } else if c.Operate? {
      OperateLayout(c);
    } else {
      FixedLayout(c);
    }
  }

  // ---------------------------------------------------------------- which packets are taken, and as what

  lemma {:induction false} WordsAre(b: bytes, at: nat, values: seq<u16>, n: nat)
    requires n <= |values| && at + 2 * n <= |b| && forall i :: 0 <= i < n ==> GetU16(b, at + 2 * i) == values[i]
    ensures b[at..at + 2 * n] == WordsBytes(values, n)
  {
    hide GetU16, U16;
    if n > 0 {
      WordsAre(b, at, values, n - 1);
      U16At(b, at + 2 * (n - 1), values[n - 1]);
      assert b[at..at + 2 * n] == b[at..at + 2 * (n - 1)] + b[at + 2 * (n - 1)..at + 2 * n];
    }
  }

  lemma OpIs(b: bytes, at: nat, op: SemOp)
    requires at + 8 <= |b| && LaidOp(b, at, op)
    ensures b[at..at + 8] == OpBytes(op)
  {
    hide GetU16, GetI16, U16, I16;
    U16At(b, at, op.semNum);
    I16At(b, at + 2, op.op);
    U16At(b, at + 4, op.flg);
    U16At(b, at + 6, 0);
    assert b[at..at + 8] == b[at..at + 2] + b[at + 2..at + 4] + b[at + 4..at + 6] + b[at + 6..at + 8];
  }

  lemma {:induction false} OpsAre(b: bytes, at: nat, ops: seq<SemOp>, n: nat)
    requires n <= |ops| && at + 8 * n <= |b| && forall i :: 0 <= i < n ==> LaidOp(b, at + 8 * i, ops[i])
    ensures b[at..at + 8 * n] == OpsBytes(ops, n)
  {
    hide LaidOp, OpBytes;
    if n > 0 {
      OpsAre(b, at, ops, n - 1);
      OpIs(b, at + 8 * (n - 1), ops[n - 1]);
      assert b[at..at + 8 * n] == b[at..at + 8 * (n - 1)] + b[at + 8 * (n - 1)..at + 8 * n];
    }
  }

  /** The fields leave no freedom: bytes laid out as a call are the bytes the client sends for it. */
  lemma LaidIsBuilt(c: ClientCall, b: bytes)
    requires Acceptable(c) && Laid(c, b)
    ensures Build(c).Ok? && Build(c).value.payload == b
  {
    hide Laid, Build;
    BuildIff(c);
    if c.WriteAll? {
      WriteAllIs(c, b);
    } else if c.Operate? {
      OperateIs(c, b);
    } else {
      FixedIs(c, b);
    }
  }

  lemma FixedIs(c: ClientCall, b: bytes)
    requires Build(c).Ok? && Laid(c, b) && !c.WriteAll? && !c.Operate?
    ensures Build(c).value.payload == b
  {
    hide U32, GetU32;
    if |b| >= 4 { U32At(b, 0, GetU32(b, 0)); }
    if |b| >= 8 { U32At(b, 4, GetU32(b, 4)); }
    if |b| >= 12 { U32At(b, 8, GetU32(b, 8)); }
    if |b| >= 16 { U32At(b, 12, GetU32(b, 12)); }
    Pieces(b);
  }

  lemma Pieces(b: bytes)
    ensures |b| == 4 ==> b == b[0..4]
    ensures |b| == 8 ==> b == b[0..4] + b[4..8]
    ensures |b| == 12 ==> b == b[0..4] + b[4..8] + b[8..12]
    ensures |b| == 16 ==> b == b[0..4] + b[4..8] + b[8..12] + b[12..16]
  {
  }

  lemma WriteAllIs(c: ClientCall, b: bytes)
    requires Build(c).Ok? && Laid(c, b) && c.WriteAll?
    ensures Build(c).value.payload == b
  {
    hide U32, GetU32, GetU16, WordsBytes;
    U32At(b, 0, GetU32(b, 0));
    U32At(b, 4, GetU32(b, 4));
    WordsAre(b, 8, c.values, |c.values|);
    assert b == b[0..4] + b[4..8] + b[8..8 + 2 * |c.values|];
  }

  lemma OperateIs(c: ClientCall, b: bytes)
    requires Build(c).Ok? && Laid(c, b) && c.Operate?
    ensures Build(c).value.payload == b
  {
    hide U32, GetU32, I64, GetI64, OpsBytes, LaidOp;
    U32At(b, 0, GetU32(b, 0));
    U32At(b, 4, GetU32(b, 4));
    var at := if c.timeout.Some? then 16 else 8;
    OpsAre(b, at, c.ops, |c.ops|);
    if c.timeout.Some? {
      I64At(b, 8, c.timeout.value);
      assert b == b[0..4] + b[4..8] + b[8..16] + b[16..16 + 8 * |c.ops|];
    } else {
      assert b == b[0..4] + b[4..8] + b[8..8 + 8 * |c.ops|];
      assert b[0..4] + b[4..8] + [] == b[0..4] + b[4..8];
    }
  }

  /** The call whose request this is, if the dispatcher does not refuse it. */
  function CallOf(p: Packet): ClientCall
    requires Sized(p) && !Parse(p, Actor(0, Identity(0, 0)), false).Rejected?
  {
    var b := p.payload;
    match p.header.opcode
    case 1 => Ping
    case 2 => SemGet(GetI32(b, 0), GetI32(b, 4), GetI32(b, 8))
    case 3 => RemoveSet(GetI32(b, 0))
    case 4 => ReadVal(GetI32(b, 0), GetU32(b, 4))
    case 5 => WriteVal(GetI32(b, 0), GetU32(b, 4), GetU32(b, 8))
    case 6 => ReadPid(GetI32(b, 0), GetU32(b, 4))
    case 7 => ReadAll(GetI32(b, 0), GetU32(b, 4))
    case 8 => WriteAll(GetI32(b, 0), ReadWords(b, 8, GetU32(b, 4)))
    case 9 => Operate(GetI32(b, 0), ReadOps(b, 8, GetU32(b, 4)), None)
    case 10 => ReadWaiters(GetI32(b, 0), GetU32(b, 4), false)
    case 11 => ReadWaiters(GetI32(b, 0), GetU32(b, 4), true)
    case 12 => Describe(GetI32(b, 0))
    case 13 => Reassign(GetI32(b, 0), GetU32(b, 4), GetU32(b, 8), GetU32(b, 12))
    case 14 => Operate(GetI32(b, 0), ReadOps(b, 16, GetU32(b, 4)), Some(GetI64(b, 8)))
    case 15 => ReadLimits(GetU32(b, 0) == 1)
    case _ => DescribeIndex(GetU32(b, 0))
  }

  lemma CallIsLaid(p: Packet)
    requires Sized(p) && !Parse(p, Actor(0, Identity(0, 0)), false).Rejected?
    ensures var c := CallOf(p);
            && Acceptable(c) && Code(c) == p.header.opcode && Laid(c, p.payload)
            && (c.SemGet? ==> 0 <= c.flags < 0x800)
  {
    hide U32, GetU16, GetI16, GetU64;
  }

  /** The dispatcher takes exactly the packets that some client call sends, except a semget with unknown flags, and it
      takes each as that very call. */
  lemma TakenIff(p: Packet, actor: Actor, noMemory: bool)
    requires Sized(p) && GoodRequest(p.header)
    ensures !Parse(p, actor, noMemory).Rejected? <==>
            exists c :: Build(c).Ok? && Numbered(Build(c).value, p.header.requestId) == p &&
                        (c.SemGet? ==> 0 <= c.flags < 0x800)
    ensures forall c :: Build(c).Ok? && Numbered(Build(c).value, p.header.requestId) == p ==>
              Parse(p, actor, noMemory) == Asked(c, actor, noMemory)
  {
    hide Parse, Build, Laid, GoodRequest;
    if !Parse(p, actor, noMemory).Rejected? {
      SameRefusal(p, actor, noMemory);
      var c := CallOf(p);
      CallIsLaid(p);
      LaidIsBuilt(c, p.payload);
      RequestHeader(c, p.header.requestId);
      GoodHeader(p);
      assert Numbered(Build(c).value, p.header.requestId) == p;
    }
    forall c | Build(c).Ok? && Numbered(Build(c).value, p.header.requestId) == p
      ensures Parse(p, actor, noMemory) == Asked(c, actor, noMemory)
    {
      BuildParses(c, p.header.requestId, actor, noMemory);
    }
  }

  lemma GoodHeader(p: Packet)
    requires Sized(p) && GoodRequest(p.header)
    ensures p.header == Header(1, 1, p.header.opcode, p.header.requestId, |p.payload|, 0)
  {
  }

  /** Who asks and how much memory there is do not decide whether a request is refused, nor why. */
  lemma SameRefusal(p: Packet, actor: Actor, noMemory: bool)
    requires Sized(p)
    ensures var r, r' := Parse(p, actor, noMemory), Parse(p, Actor(0, Identity(0, 0)), false);
            (r.Rejected? <==> r'.Rejected?) && (r.Rejected? ==> r == r')
  {
    hide GetU32, GetU16, GetI32, GetI64, ReadOps, ReadWords;
  }

  // ---------------------------------------------------------------- why others are refused

  /** The length a request of this code must have; counts give the length of arrays. */
  predicate RightLength(p: Packet)
    requires Sized(p)
  {
    var b, n := p.payload, |p.payload|;
    match p.header.opcode
    case 1 => n == 0
    case 2 => n == 12
    case 5 => n == 12
    case 13 => n == 16
    case 4 => n == 8
    case 6 => n == 8
    case 7 => n == 8
    case 10 => n == 8
    case 11 => n == 8
    case 8 => n >= 8 && 1 <= GetU32(b, 4) <= 512 && n == 8 + 2 * GetU32(b, 4) as int
    case 9 => n >= 8 && 1 <= GetU32(b, 4) <= 512 && n == 8 + 8 * GetU32(b, 4) as int
    case 14 => n >= 16 && 1 <= GetU32(b, 4) <= 512 && n == 16 + 8 * GetU32(b, 4) as int
    case _ => n == 4
  }

  /** A field out of range. */
  predicate BadField(p: Packet)
    requires Sized(p) && RightLength(p)
  {
    var b := p.payload;
    match p.header.opcode
    case 2 => GetU32(b, 8) >= 0x800
    case 7 => GetU32(b, 4) == 0 || GetU32(b, 4) > 512
    case 14 => GetI64(b, 8) < 0
    case 15 => GetU32(b, 0) > 1
    case _ => false
  }

  /** Every refusal has its reason: an unknown code, then the length, then a field, then a reserved field. */
  lemma RefusedWhy(p: Packet, actor: Actor, noMemory: bool)
    requires Sized(p)
    ensures var code := p.header.opcode;
            var r := Parse(p, actor, noMemory);
            if code < 1 || code > 16 then r == Rejected(38)
            else if !RightLength(p) then r == Rejected(90)
            else if BadField(p) then r == Rejected(22)
            else if code == 9 || code == 14 then
              var at := if code == 9 then 8 else 16;
              if exists i :: 0 <= i < GetU32(p.payload, 4) && GetU16(p.payload, at + 8 * i + 6) != 0 then
                r == Rejected(71)
              else !r.Rejected?
            else !r.Rejected?
  {
    hide U32, GetU32, GetU16, GetI32, GetI64, ReadOps, ReadWords;
  }

  // ---------------------------------------------------------------- responses

  /** The data of a response, each field at its place; a refusal carries none. */
  ghost predicate Answers(code: int, answer: Answer, b: bytes) {
    if code < 0 then b == []
    else match answer
      case NoData => b == []
      case Values(values) =>
        && |b| == 4 + 2 * |values| && GetU32(b, 0) == |values|
        && forall i :: 0 <= i < |values| ==> GetU16(b, 4 + 2 * i) == values[i]
      case Metadata(key, nsems, generation, m) =>
        && |b| == 56 && GetI32(b, 0) == key && GetU32(b, 4) == m.uid && GetU32(b, 8) == m.gid && GetU32(b, 12) == m.cuid
        && GetU32(b, 16) == m.cgid && GetU32(b, 20) == m.mode && GetU32(b, 24) == nsems && GetU32(b, 28) == 0
        && GetI64(b, 32) == m.otime && GetI64(b, 40) == m.ctime && GetU32(b, 48) == generation && GetU32(b, 52) == 0
      case Limits(fields) =>
        |b| == 4 * |fields| && forall i :: 0 <= i < |fields| ==> GetI32(b, 4 * i) == fields[i]
      case Waits(reason) =>
        && |b| == 8 && GetU16(b, 0) == reason.semNum && GetU16(b, 2) == (if reason.forZero then 1 else 0)
        && GetU32(b, 4) == 0
  }

  /** Every response the dispatcher writes, byte by byte. */
  lemma ResponseLayout(request: Packet, code: int, answer: Answer)
    requires Encodable(code, answer)
    ensures var p := Respond(request, code, answer);
            && p.header == Header(1, 2, request.header.opcode, request.header.requestId, |p.payload|, code)
            && Answers(code, answer, p.payload)
  {
    hide U16, U32, I32, I64, GetU16, GetU32, GetI32, GetI64, WordsBytes, IntsBytes, MetadataBytes, Words, Ints;
    var b := Respond(request, code, answer).payload;
    if code >= 0 {
      match answer
      case NoData =>
      case Values(values) =>
        Field(|values|, WordsBytes(values, |values|));
        WordsRoundTrip(b, 4, values);
        forall i | 0 <= i < |values| ensures GetU16(b, 4 + 2 * i) == values[i] {
          assert ReadWords(b, 4, |values|)[i] == values[i];
        }
      case Metadata(key, nsems, generation, m) => MetadataRoundTrip(key, nsems, generation, m);
      case Limits(fields) =>
        IntsRoundTrip(b, 0, fields);
        forall i | 0 <= i < |fields| ensures GetI32(b, 4 * i) == fields[i] {
          assert ReadInts(b, 0, |fields|)[i] == fields[i];
        }
      case Waits(reason) => ReasonLaid(reason);
    }
  }

  lemma ReasonLaid(reason: WaitReason)
    ensures var b := U16(reason.semNum) + U16(if reason.forZero then 1 else 0) + U32(0);
            GetU16(b, 0) == reason.semNum && GetU16(b, 2) == (if reason.forZero then 1 else 0) && GetU32(b, 4) == 0
  {
    hide U16, U32, GetU16, GetU32;
    var zero: u16 := if reason.forZero then 1 else 0;
    var b := U16(reason.semNum) + U16(zero) + U32(0);
    assert b[0..2] == U16(reason.semNum) && b[2..4] == U16(zero) && b[4..8] == U32(0);
    U16At(b, 0, reason.semNum);
    U16At(b, 2, zero);
    U32At(b, 4, 0);
  }

  /** A response is believed for a request exactly when it was written for one with the same code and number. */
  lemma BelievedIff(request: Packet, other: Packet, code: int, answer: Answer)
    requires Encodable(code, answer)
    ensures Correlated(request, Respond(other, code, answer)) <==>
            other.header.opcode == request.header.opcode && other.header.requestId == request.header.requestId
  {
    hide ReplyPayload;
    NegativeIsBare(code, answer);
  }

  /** And any other packet is not believed: not a version 1 response, or for another request, or an error with data. */
  lemma DoubtedIff(request: Packet, p: Packet)
    requires Sized(p)
    ensures !Correlated(request, p) <==>
            || p.header.version != 1 || p.header.kind != 2 || p.header.opcode != request.header.opcode
            || p.header.requestId != request.header.requestId || (p.header.result < 0 && p.payload != [])
  {
  }

  /** What the client takes as the data of a response is laid out in it; anything else is a protocol error. An error is
      handed on as it is, and so is an odd positive result of GETALL; BLOCKED is no result for a caller. */
  lemma InterpretStrict(c: ClientCall, p: Packet)
    requires Sized(p)
    ensures var r := Interpret(c, p);
            var result := p.header.result;
            if r == ClientReply(-71, NoData) then true
            else if result < 0 || (c.ReadAll? && result > 0) then r == ClientReply(result, NoData)
            else
              && r.code == (if c.Describe? then 0 else result) && Answers(result, r.answer, p.payload)
              && (c.Operate? ==> result != 1)
              && (c.ReadAll? ==> r.answer.Values? && |r.answer.values| == c.count)
              && (c.Describe? || c.DescribeIndex? ==> r.answer.Metadata?)
              && (c.ReadLimits? ==> r.answer.Limits? && |r.answer.fields| == 10)
              && (!c.ReadAll? && !c.Describe? && !c.DescribeIndex? && !c.ReadLimits? ==> r.answer == NoData)
  {
    hide GetU16, GetU32, GetI32, GetI64;
  }

  // ---------------------------------------------------------------- headers and streams

  /** Which headers the protocol allows, and what is wrong with the others. */
  lemma AllowedIff(h: Header)
    ensures var plain := h.version == 1 && 1 <= h.kind <= 2 && 1 <= h.opcode <= 16;
            HeaderStatus(h) == if plain && h.payloadLength > 8192 then -90
                               else if plain && (h.kind == 1 ==> h.result == 0) then 0
                               else -71
  {
  }

  /** The 24 bytes of a header, field by field. */
  lemma HeaderLayout(h: Header)
    ensures var b := EncodeHeader(h);
            && |b| == 24 && GetU32(b, 0) == 0x4353_4754 && GetU16(b, 4) == h.version && GetU16(b, 6) == h.kind
            && GetU16(b, 8) == h.opcode && GetU16(b, 10) == 0 && GetU32(b, 12) == h.requestId
            && GetU32(b, 16) == h.payloadLength && GetI32(b, 20) == h.result
  {
    hide GetU16, GetU32, GetI32, EncodeHeader;
    HeaderBytes(EncodeHeader(h), h);
  }

  /** A stream that gives no packet has ended, or announces too much, or is malformed or cut. */
  lemma BrokenStream(stream: bytes)
    ensures Receive(stream).EndOfStream? <==> stream == []
    ensures Receive(stream).BadStream? ==>
              Receive(stream).code == if |stream| >= 24 && TooLong(stream[..24]) then -90 else -71
    ensures !Receive(stream).Got? && stream != [] ==> Receive(stream).BadStream?
  {
    hide GetU16, GetU32, GetI32;
    if |stream| >= 24 { AllowedIff(ReadHeader(stream[..24])); }
  }

  /** A header that is in order but for a payload length above 8192. */
  predicate TooLong(b: bytes)
    requires |b| == 24
  {
    && GetU32(b, 0) == 0x4353_4754 && GetU16(b, 10) == 0 && GetU16(b, 4) == 1 && 1 <= GetU16(b, 6) <= 2
    && 1 <= GetU16(b, 8) <= 16 && GetU32(b, 16) > 8192
  }
}
