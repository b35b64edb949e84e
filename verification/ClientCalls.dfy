/**
 The client library as it runs: one record with a socket, the process that
 opened it and a request counter, and packet buffers filled in place.
 */
module ClientCalls {
  import opened SemTypes
  import opened Wire
  import opened Protocol
  import opened StoreModel
  import StoreValid
  import opened Messages
  import opened Remote
  import opened Transport
  import Connections
  import Dispatcher

  /** A semop request written into a packet buffer, operation by operation. */
  method BuildSemop(request: PacketBuffer, semid: i32, ops: seq<SemOp>, timeout: Option<i64>)
    requires request.Full() && 0 < |ops| <= MAX_PER_SET && (timeout.Some? ==> timeout.value >= 0)
    modifies request, request.payload
    ensures request.Full() && Build(Operate(semid, ops, timeout)) == Ok(request.View())
  {
    hide I32, U32, I64, OpsBytes, Splice, Begins;
    var output := request.payload;
    var prefix := if timeout.Some? then 16 else 8;
    request.header := Header(VERSION, REQUEST, if timeout.Some? then SEMTIMEDOP else SEMOP, 0, prefix + 8 * |ops|, 0);
    ghost var orig, b, p: bytes := output[..], output[..], [];
    NothingYet(orig);
    PutI32(output, 0, semid);
    Extends(b, orig, p, I32(semid));
    b, p := output[..], p + I32(semid);
    PutU32(output, 4, |ops|);
    Extends(b, orig, p, U32(|ops|));
    b, p := output[..], p + U32(|ops|);
    if timeout.Some? {
      PutI64(output, 8, timeout.value);
      Extends(b, orig, p, I64(timeout.value));
      b, p := output[..], p + I64(timeout.value);
    }
    PutOps(output, prefix, ops);
    Extends(b, orig, p, OpsBytes(ops, |ops|));
    b, p := output[..], p + OpsBytes(ops, |ops|);
    Dispatcher.BeginsWith(b, orig, p);
    assert p == OperatePayload(semid, ops, timeout);
  }

  method PutOps(output: array<u8>, at: nat, ops: seq<SemOp>)
    requires at + 8 * |ops| <= output.Length
    modifies output
    ensures output[..] == Splice(old(output[..]), at, OpsBytes(ops, |ops|))
  {
    hide OpBytes, Splice;
    ghost var orig := output[..];
    SpliceNothing(orig, at);
    for i := 0 to |ops|
      invariant output[..] == Splice(orig, at, OpsBytes(ops, i))
    {
      PutOp(output, at + 8 * i, ops[i]);
      SpliceOn(orig, at, OpsBytes(ops, i), OpBytes(ops[i]));
    }
  }

  lemma SpliceNothing(b: bytes, at: nat)
    requires at <= |b|
    ensures Splice(b, at, []) == b
  {
  }

  lemma SpliceOn(b: bytes, at: nat, p: bytes, q: bytes)
    requires at + |p| + |q| <= |b|
    ensures Splice(Splice(b, at, p), at + |p|, q) == Splice(b, at, p + q)
  {
  }

  method PutOp(output: array<u8>, at: nat, op: SemOp)
    requires at + 8 <= output.Length
    modifies output
    ensures output[..] == Splice(old(output[..]), at, OpBytes(op))
  {
    hide U16, I16, Splice;
    ghost var orig := output[..];
    ghost var one, two, three := U16(op.semNum), U16(op.semNum) + I16(op.op), U16(op.semNum) + I16(op.op) + U16(op.flg);
    PutU16(output, at, op.semNum);
    PutI16(output, at + 2, op.op);
    SpliceOn(orig, at, one, I16(op.op));
    PutU16(output, at + 4, op.flg);
    SpliceOn(orig, at, two, U16(op.flg));
    PutU16(output, at + 6, 0);
    SpliceOn(orig, at, three, U16(0));
  }

  class Client {
    var socket: Socket?
    var connectionPid: i32
    var nextRequestId: u32

    constructor ()
      ensures socket == null && connectionPid == 0 && nextRequestId == 0
    {
      socket, connectionPid, nextRequestId := null, 0, 0;
    }

    /** The record as the connection model has it. */
    function View(): Connections.Record
      reads this
    {
      Connections.Record(socket != null, connectionPid, nextRequestId)
    }

    predicate Owns(pid: i32)
      reads this
    {
      socket != null && connectionPid == pid
    }

    method Close()
      modifies this
      ensures socket == null && connectionPid == 0 && nextRequestId == old(nextRequestId)
    {
      socket, connectionPid := null, 0;
    }

    /** Keeps a socket the calling process opened; drops any other and connects afresh. */
    method EnsureConnection(pid: i32, connection: Socket?, failure: int) returns (result: int)
      requires failure < 0
      modifies this
      ensures nextRequestId == old(nextRequestId)
      ensures old(Owns(pid)) ==> result == 0 && socket == old(socket) && connectionPid == old(connectionPid)
      ensures !old(Owns(pid)) && connection == null ==> result == failure && socket == null && connectionPid == 0
      ensures !old(Owns(pid)) && connection != null ==> result == 0 && socket == connection && connectionPid == pid
    {
      if socket != null && connectionPid == pid { return 0; }
      Close();
      if connection == null { return failure; }
      socket, connectionPid := connection, pid;
      result := 0;
    }

    /** One request and its response. Anything but a response to this very request closes the connection. */
    method Exchange(request: PacketBuffer, response: PacketBuffer, interruptible: bool) returns (result: int)
      requires socket != null && request.Full() && response.Valid() && request != response
               && request.payload != response.payload
      modifies this, socket, request, response, response.payload
      ensures request.Full() && response.Valid() && nextRequestId == Connections.NextId(old(nextRequestId))
      ensures request.View() == Numbered(old(request.View()), nextRequestId)
      ensures result == 0 ==>
                && socket == old(socket) && connectionPid == old(connectionPid)
                && response.Full() && Correlated(request.View(), response.View())
                && Receive(old(socket.incoming)) == Got(response.View(), socket.incoming)
                && socket.outgoing == old(socket.outgoing) + EncodePacket(request.View())
      ensures result != 0 ==> result < 0 && socket == null && connectionPid == 0
      ensures Smooth(old(socket.events), !interruptible) && Sendable(request.View())
              && Receive(old(socket.incoming)).Got? ==>
                (result == 0 <==> Correlated(request.View(), Receive(old(socket.incoming)).packet))
    {
      hide EncodeHeader, HeaderStatus, Receive;
      nextRequestId := Connections.NextId(nextRequestId);
      request.header := request.header.(requestId := nextRequestId);
      var used := socket;
      result := used.SendPacket(request);
      if result == 0 {
        result := used.ReceivePacket(response, !interruptible);
      }
      if result != 0 {
        Close();
        result := if result == TRANSPORT_EOF then -ECONNRESET else result;
        return;
      }
      if !Correlated(request.View(), response.View()) {
        Close();
        return -EPROTO;
      }
    }
  
    /** A call whose response carries no data. */
    method ScalarCall(request: PacketBuffer, interruptible: bool) returns (code: int)
      requires socket != null && request.Full()
      modifies this, socket, request
      ensures nextRequestId == Connections.NextId(old(nextRequestId))
      ensures var sent := Numbered(old(request.View()), nextRequestId);
              var reply := Receive(old(socket.incoming));
              Smooth(old(socket.events), !interruptible) && Sendable(sent) && reply.Got?
                  && Correlated(sent, reply.packet) ==>
                && code == ScalarReply(reply.packet).code
                && old(socket).outgoing == old(socket.outgoing) + EncodePacket(sent)
                && old(socket).incoming == reply.rest
      ensures socket == null ==> connectionPid == 0 && code < 0
      ensures socket != null ==>
                && socket == old(socket) && connectionPid == old(connectionPid)
                && var sent := Numbered(old(request.View()), nextRequestId);
                   var reply := Receive(old(socket.incoming));
                   && reply.Got? && Correlated(sent, reply.packet) && reply.packet.payload == []
                   && code == reply.packet.header.result && socket.incoming == reply.rest
                   && socket.outgoing == old(socket.outgoing) + EncodePacket(sent)
    {
      hide Receive, EncodePacket, Sendable;
      var used := socket;
      var response := new PacketBuffer();
      var result := Exchange(request, response, interruptible);
      if result != 0 { return result; }
      if response.header.payloadLength != 0 {
        Close();
        return -EPROTO;
      }
      code := response.header.result;
    }

    /** The socket a call by `pid` uses: its own, or a new one. */
    function Used(pid: i32, connection: Socket?): Socket?
      reads this
    {
      if Owns(pid) then socket else connection
    }

    /** semop and semtimedop: refuse bad arguments unsent; otherwise connect if need be, send the batch and return the
        store's result. Whatever goes wrong on the way, an interrupt included, the call fails and the connection is
        closed; while it stays open, the result is that of the response to this very request. */
    method Semop(pid: i32, connection: Socket?, failure: int, semid: i32, ops: seq<SemOp>, timeout: Option<i64>)
      returns (code: int)
      requires failure < 0
      modifies this, socket, connection
      ensures var c := Operate(semid, ops, timeout);
              Build(c).Err? ==> code == Build(c).errno && View() == old(View()) && socket == old(socket)
      ensures var c := Operate(semid, ops, timeout);
              Build(c).Ok? ==> View() == Connections.AfterCall(old(View()), pid, connection != null, socket != null)
      ensures var c := Operate(semid, ops, timeout);
              Build(c).Ok? && old(Used(pid, connection)) == null ==> code == failure
      ensures var c := Operate(semid, ops, timeout);
              Build(c).Ok? && socket == null ==> code < 0
      ensures var c := Operate(semid, ops, timeout);
              var used := old(Used(pid, connection));
              Build(c).Ok? && used != null ==>
                var sent := Numbered(Build(c).value, Connections.NextId(old(nextRequestId)));
                var reply := Receive(old(if used != null then used.incoming else []));
                var before := old(if used != null then used.outgoing else []);
                && (socket != null ==>
                      && socket == used && reply.Got? && Correlated(sent, reply.packet)
                      && code == Interpret(c, reply.packet).code && used.outgoing == before + EncodePacket(sent))
                && (Smooth(old(if used != null then used.events else []), false) && reply.Got?
                      && Correlated(sent, reply.packet) ==>
                      code == Interpret(c, reply.packet).code && used.outgoing == before + EncodePacket(sent))
    {
      hide Receive, EncodePacket, Correlated, HeaderStatus, Smooth, OperatePayload, MetadataReply, ReadWords,
           BuildSemNum, WordsBytes;
      if ops == [] || |ops| > MAX_PER_SET || (timeout.Some? && timeout.value < 0) { return -EINVAL; }
      var request := new PacketBuffer();
      BuildSemop(request, semid, ops, timeout);
      var result := EnsureConnection(pid, connection, failure);
      if result != 0 { return result; }
      BuiltIsGood(Operate(semid, ops, timeout), Connections.NextId(nextRequestId));
      result := ScalarCall(request, true);
      code := if result == OP_BLOCKED then -EPROTO else result;
    }
  }

  // ---------------------------------------------------------------- the whole path

  /** A call built by the client, framed, received, dispatched, answered, framed and received again: the dispatcher gets
      the packet the client sent, the client gets the packet the dispatcher made, whatever else is on either stream, and
      the caller gets what a direct call on the store would have returned. */
  lemma CallOverTheWire(st: Store, c: ClientCall, id: u32, actor: Actor, noMemory: bool, now: i64, after: bytes,
                        after': bytes)
    requires StoreValid.Valid(st) && Build(c).Ok? && actor.pid > 0
    ensures var request := Numbered(Build(c).value, id);
            var local := Perform(st, Asked(c, actor, noMemory), now);
            var d := Dispatch(st, request, actor, now, noMemory);
            && Receive(EncodePacket(request) + after) == Got(request, after)
            && d.Replied? && d.store == local.store
            && Receive(EncodePacket(d.response) + after') == Got(d.response, after')
            && Correlated(request, d.response)
            && Interpret(c, d.response) ==
               if c.Operate? && local.code == OP_BLOCKED then BAD_REPLY
               else ClientReply(local.code, Bare(local.code, local.answer))
  {
    hide Receive, EncodePacket, Perform, Parse, Asked, Interpret, Encodable, ReplyPayload;
    var request := Numbered(Build(c).value, id);
    BuiltIsGood(c, id);
    ReceiveIff(EncodePacket(request) + after, request, after);
    RemoteRefinesLocal(st, c, id, actor, noMemory, now);
    var response := Dispatch(st, request, actor, now, noMemory).response;
    ReplySendable(st, request, actor, noMemory, now);
    ReceiveIff(EncodePacket(response) + after', response, after');
  }

  lemma ReplySendable(st: Store, request: Packet, actor: Actor, noMemory: bool, now: i64)
    requires StoreValid.Valid(st) && Sized(request) && HeaderStatus(request.header) == 0
    requires Dispatch(st, request, actor, now, noMemory).Replied?
    ensures Sendable(Dispatch(st, request, actor, now, noMemory).response)
  {
    hide Perform, Parse, ReplyPayload;
    ParseErrno(request, actor, noMemory);
    PerformEncodable(st, Parse(request, actor, noMemory), now);
  }
}
