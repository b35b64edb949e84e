/**
 The whole path from a client call to its answer through a running broker: an
 answer is the result and data of the direct call on the store of that very step,
 unless it is a timeout, a refusal to watch the process, or goes to a closed peer.
 */
module BrokerAnswers {
  import opened SemTypes
  import opened Protocol
  import opened StoreModel
  import opened StoreValid
  import opened Messages
  import opened Remote
  import opened BrokerModel
  import opened BrokerSafety
  import opened BrokerShape
  import opened BrokerSteps
  import opened BrokerRuns

  /** The packet a client sends for a call. */
  function Sent(c: ClientCall, id: u32): (p: Packet)
    requires Build(c).Ok?
    ensures Sized(p)
  {
    Numbered(Build(c).value, id)
  }

  /** What the direct call on the store returns to its caller. */
  function Direct(st: Store, c: ClientCall, actor: Actor, noMemory: bool, now: i64): ClientReply
    requires Shape(st)
  {
    var r := Perform(st, Asked(c, actor, noMemory), now);
    ClientReply(r.code, Bare(r.code, r.answer))
  }

  /** The answer tells the client what the direct call on `st` returns. */
  predicate Tells(st: Store, c: ClientCall, id: u32, actor: Actor, world: World, reply: Reply)
    requires Shape(st) && Build(c).Ok?
  {
    && reply.Answered? && Correlated(Sent(c, id), reply.response)
    && Interpret(c, reply.response) == Direct(st, c, actor, world.noMemory, world.realNow)
  }

  /** A request that needs its process watched, and cannot have it. */
  predicate RefusedWatch(b: Broker, request: Packet, actor: Actor, world: World)
    requires Sized(request)
  {
    UsesUndo(request) && Watch(b, actor.pid, world.pidLookup).1 != 0
  }

  /** Any dispatch of a client's packet that is not left blocked tells the client the direct result. */
  lemma DispatchTells(st: Store, c: ClientCall, id: u32, actor: Actor, world: World)
    requires Valid(st) && Shape(st) && Build(c).Ok? && actor.pid > 0
    ensures var d := Dispatch(st, Sent(c, id), actor, world.realNow, world.noMemory);
            && d.Replied? && d.store == Perform(st, Asked(c, actor, world.noMemory), world.realNow).store
            && (!(IsSemop(Sent(c, id)) && d.response.header.result == OP_BLOCKED) ==>
                  Tells(st, c, id, actor, world, Answered(d.response)))
  {
    hide Valid, Dispatch, Perform, Asked, Interpret, Correlated;
    RemoteRefinesLocal(st, c, id, actor, world.noMemory, world.realNow);
    SemopIsOperate(c, id);
    if c.Operate? { BlockedIsBlocked(st, c, id, actor, world); }
  }

  lemma SemopIsOperate(c: ClientCall, id: u32)
    requires Build(c).Ok?
    ensures IsSemop(Sent(c, id)) <==> c.Operate?
  {
  }

  /** The response to a batch says BLOCKED exactly when the direct call does. */
  lemma BlockedIsBlocked(st: Store, c: ClientCall, id: u32, actor: Actor, world: World)
    requires Valid(st) && Shape(st) && Build(c).Ok? && c.Operate? && actor.pid > 0
    ensures var d := Dispatch(st, Sent(c, id), actor, world.realNow, world.noMemory);
            d.Replied? && d.response.header.result == Perform(st, Asked(c, actor, world.noMemory), world.realNow).code
  {
    hide Valid, Perform, Parse, Asked, Encodable, ReplyPayload;
    BuildParses(c, id, actor, world.noMemory);
    BuiltIsGood(c, id);
    var local := Perform(st, Asked(c, actor, world.noMemory), world.realNow);
    ParseErrno(Sent(c, id), actor, world.noMemory);
    PerformEncodable(st, Parse(Sent(c, id), actor, world.noMemory), world.realNow);
    RespondHeader(Sent(c, id), local.code, local.answer);
  }

  // ---------------------------------------------------------------- a request as it arrives

  /** A waiter that would block again is not answered, unless its peer is gone. */
  lemma BlockedSettles(b: Broker, i: nat, world: World)
    requires Sound(b) && i < |b.queue| && Shape(b.store) && WaiterOk(b.queue[i]) && Blocked(b.store, b.queue[i])
    ensures var o := Settle(b, i, world);
            && (o.reply.Answered? ==> world.peerClosed && o.fate == PeerGone)
            && (!world.peerClosed && world.sleepFailure == 0 ==> o.fate == Asleep)
  {
    hide Valid, Dispatch, Depart, ParseOps, TryOp, WouldBlock, Encodable, Respond, ReadReason, IsFirst, WatchersOk,
         QueueOk;
    var w := b.queue[i];
    WaiterDispatch(b.store, w, world.realNow, world.noMemory);
    BlocksIff(b.store, w.semid, OpsOf(w), w.actor.pid, world.realNow);
    RespondHeader(w.request, OP_BLOCKED, TryOp(b.store, w.semid, OpsOf(w), w.actor.pid, world.realNow).answer);
  }

  /** The wait counter the response names can be raised. */
  predicate Counts(st: Store, request: Packet, response: Packet)
    requires Shape(st)
  {
    AdjustWait(st, GetI32Of(request), ReasonOf(response).semNum, ReasonOf(response).forZero, true).code == 0
  }

  lemma UntimedStarts(request: Packet, world: World)
    requires Sized(request) && request.header.opcode == SEMOP
    ensures StartDeadline(request, world) == Ok(None)
  {
  }

  lemma BlockedIsNotAnswered(b: Broker, request: Packet, actor: Actor, id: nat, world: World)
    requires Safe(b) && Sized(request) && IsSemop(request) && forall i :: 0 <= i < |b.queue| ==> b.queue[i].id < id
    requires var d := Dispatch(b.store, request, actor, world.realNow, world.noMemory);
             d.Replied? && d.response.header.result == OP_BLOCKED
    ensures var response := Dispatch(b.store, request, actor, world.realNow, world.noMemory).response;
            var o := SubmitBlocked(b, request, actor, id, world, response);
            && (o.reply.Answered? ==> world.peerClosed && o.fate == PeerGone)
            && (o.fate != Immediate && !world.peerClosed && world.sleepFailure == 0 ==> o.fate == Asleep)
            && (o.fate == Immediate ==> o.reply.Hangup?)
            && Shape(b.store) && (request.header.opcode == SEMOP && Counts(b.store, request, response) ==>
                 o.fate != Immediate)
  {
    hide Safe, AdjustWait, ParseOps, WouldBlock, Settle, Dispatch, StartDeadline, ReadReason, Valid, TryOp;
    SafeParts(b);
    BlockedResponse(b.store, request, actor, world.realNow, world.noMemory);
    ParseOpsKind(request, actor.pid);
    var response := Dispatch(b.store, request, actor, world.realNow, world.noMemory).response;
    var reason := ReasonOf(response);
    var semid := GetI32Of(request);
    var deadline := StartDeadline(request, world);
    if request.header.opcode == SEMOP { UntimedStarts(request, world); }
    var counted := AdjustWait(b.store, semid, reason.semNum, reason.forZero, true);
    if deadline.Ok? && counted.code == 0 {
      AdjustWaitValid(b.store, semid, reason.semNum, reason.forZero, true);
      AdjustSame(b.store, semid, reason.semNum, reason.forZero, true);
      var w := Waiter(id, request, actor, semid, reason, reason, deadline.value, false);
      QuietSafe(b, counted.store);
      var b' := b.(store := counted.store);
      AppendRests(b', w);
      var b'' := b.(store := counted.store, queue := b.queue + [w]);
      assert b'.(queue := b'.queue + [w]) == b'';
      SameValuesBlock(b.store, counted.store, semid, OpsOf(w));
      ShapeOf(counted.store);
      BlockedSettles(b'', |b.queue|, world);
      SettleFate(b'', |b.queue|, world);
    }
  }

  lemma SubmitWatchedTells(b: Broker, c: ClientCall, packetId: u32, actor: Actor, id: nat, world: World)
    requires Safe(b) && Valid(b.store) && Shape(b.store) && Build(c).Ok? && actor.pid > 0
    requires forall i :: 0 <= i < |b.queue| ==> b.queue[i].id < id
    ensures var o := SubmitWatched(b, Sent(c, packetId), actor, id, world);
            o.reply.Answered? ==>
              || (world.peerClosed && o.fate == PeerGone)
              || (o.fate == Immediate && Tells(b.store, c, packetId, actor, world, o.reply)
                  && o.broker.store == Perform(b.store, Asked(c, actor, world.noMemory), world.realNow).store)
  {
    hide Safe, Valid, Dispatch, SubmitBlocked, Tells, Perform, Asked, ChangedState, IsSemop, Build, Broadcast;
    var request := Sent(c, packetId);
    DispatchTells(b.store, c, packetId, actor, world);
    var d := Dispatch(b.store, request, actor, world.realNow, world.noMemory);
    if IsSemop(request) && d.response.header.result == OP_BLOCKED {
      BlockedIsNotAnswered(b, request, actor, id, world);
    } else {
      BroadcastValid(b.(store := d.store));
    }
  }

  /** Whatever the run so far, a client call that is answered as it arrives gets the result and data of the direct call
      on the broker's store, which is left as that call leaves it; the only other answers are the refusal to watch its
      process and the one to a closed peer. */
  lemma ArrivalTells(steps: seq<Step>, c: ClientCall, id: u32, actor: Actor, world: World)
    requires BrokerRuns.Run(steps).Some? && Build(c).Ok? && actor.pid > 0
    ensures var s := BrokerRuns.Run(steps).value;
            var o := Act(s, SubmitStep(Sent(c, id), actor, world));
            && Shape(s.broker.store)
            && (o.reply.Answered? && !RefusedWatch(s.broker, Sent(c, id), actor, world) ==>
                  || (world.peerClosed && o.fate == PeerGone)
                  || (o.fate == Immediate && Tells(s.broker.store, c, id, actor, world, o.reply)
                      && o.broker.store ==
                           Perform(s.broker.store, Asked(c, actor, world.noMemory), world.realNow).store))
  {
    hide BrokerRuns.Run, Tells, Perform, Asked, SubmitWatched, UsesUndo, Watch, Build, Good, Safe;
    var s := BrokerRuns.Run(steps).value;
    GoodSafe(s);
    GoodParts(s);
    SafeParts(s.broker);
    if UsesUndo(Sent(c, id)) {
      WatchSafe(s.broker, actor.pid, world.pidLookup);
      var b' := Watch(s.broker, actor.pid, world.pidLookup).0;
      SubmitWatchedTells(b', c, id, actor, s.history.nextId, world);
    } else {
      SubmitWatchedTells(s.broker, c, id, actor, s.history.nextId, world);
    }
  }

  // ---------------------------------------------------------------- a request that waited

  /** The answer tells the client that its time is up: -EAGAIN and no data. */
  predicate TellsTimeUp(c: ClientCall, id: u32, reply: Reply)
    requires Build(c).Ok?
  {
    && reply.Answered? && Correlated(Sent(c, id), reply.response)
    && Interpret(c, reply.response) == ClientReply(-11, NoData)
  }

  /** If the waiter that wakes is answered, it is with the result and data of the direct call on the store as it is,
      or with -EAGAIN when it timed out, unless its peer has closed. */
  ghost predicate WakeTold(s: System, at: nat, c: ClientCall, id: u32, world: World)
    requires Safe(s.broker) && Shape(s.broker.store) && at < |s.broker.queue| && Build(c).Ok?
  {
    var o := Act(s, WakeStep(at, world));
    o.reply.Answered? ==>
      || (o.fate == TimedOut && TellsTimeUp(c, id, o.reply))
      || (world.peerClosed && o.fate == PeerGone)
      || (o.fate.Retried? && Tells(s.broker.store, c, id, s.broker.queue[at].actor, world, o.reply))
  }

  /** And a client call that waited gets the result and data of the direct call on the store of the step that answers
      it, or -EAGAIN if its time is up; the only other answer is the one to a closed peer. */
  lemma RetryTells(steps: seq<Step>, at: nat, c: ClientCall, id: u32, world: World)
    requires BrokerRuns.Run(steps).Some? && at < |BrokerRuns.Run(steps).value.broker.queue| && Build(c).Ok?
    requires BrokerRuns.Run(steps).value.broker.queue[at].request == Sent(c, id)
    ensures var s := BrokerRuns.Run(steps).value;
            Shape(s.broker.store) && WakeTold(s, at, c, id, world)
  {
    hide BrokerRuns.Run, Tells, Wake, Build, Good, Safe, ParseOps;
    var s := BrokerRuns.Run(steps).value;
    GoodSafe(s);
    SafeParts(s.broker);
    WaiterAt(s.broker, at);
    WakeTells(s.broker, at, c, id, world);
  }

  lemma WakeTells(b: Broker, at: nat, c: ClientCall, id: u32, world: World)
    requires Valid(b.store) && Shape(b.store) && at < |b.queue| && Build(c).Ok?
    requires b.queue[at].request == Sent(c, id) && b.queue[at].actor.pid > 0
    ensures var o := Wake(b, at, world);
            o.reply.Answered? ==>
              || (o.fate == TimedOut && TellsTimeUp(c, id, o.reply))
              || (world.peerClosed && o.fate == PeerGone)
              || (o.fate.Retried? && Tells(b.store, c, id, b.queue[at].actor, world, o.reply))
  {
    hide Valid, Dispatch, Depart, Tells, Build, ReadReason, IsFirst, Perform, Asked;
    SemopIsOperate(c, id);
    DispatchTells(b.store, c, id, b.queue[at].actor, world);
  }
}
