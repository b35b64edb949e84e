/**
 What becomes of a client call that arrives, over every run: who is watched and
 who is refused, which calls are answered at once, and which are queued, how
 they are counted and until when.
 */
module BrokerArrivals {
  import opened SemTypes
  import opened Wire
  import opened Protocol
  import opened StoreModel
  import opened StoreValid
  import opened StoreLaws
  import opened ReadLaws
  import opened Timeouts
  import opened Messages
  import opened Remote
  import opened BrokerModel
  import opened BrokerSafety
  import opened BrokerShape
  import opened BrokerHistory
  import opened BrokerSteps
  import opened BrokerRuns
  import opened BrokerAnswers
  import opened BrokerWakes

  // ---------------------------------------------------------------- watching

  predicate Awake(queue: seq<Waiter>, queue': seq<Waiter>) {
    |queue'| == |queue| && forall j :: 0 <= j < |queue| ==> queue'[j] == queue[j].(signalled := true)
  }

  predicate Notified(monitor: Monitor, monitor': Monitor) {
    monitor' == if monitor.Waiting? then monitor.(signalled := true) else monitor
  }

  /** Registering a process: nothing to do if it is watched; refused if every slot is taken or the process cannot be
      found; otherwise the first free slot watches it and everyone is woken. */
  ghost predicate Registered(b: Broker, pid: i32, lookup: int, b': Broker, result: int) {
    var watched := exists i :: 0 <= i < |b.watchers| && b.watchers[i].active && b.watchers[i].pid == pid;
    var full := forall i :: 0 <= i < |b.watchers| ==> b.watchers[i].active;
    if watched then b' == b && result == 0
    else if full then b' == b && result == -28
    else if lookup != 0 then b' == b && result == -lookup
    else
      && result == 0 && b'.store == b.store && Awake(b.queue, b'.queue) && Notified(b.monitor, b'.monitor)
      && exists i :: && 0 <= i < |b.watchers| && !b.watchers[i].active
                     && (forall j :: 0 <= j < i ==> b.watchers[j].active)
                     && b'.watchers == b.watchers[i := Watcher(true, pid)]
  }

  lemma WatchIs(b: Broker, pid: i32, lookup: Fault)
    ensures var (b', result) := Watch(b, pid, lookup); Registered(b, pid, lookup, b', result)
  {
    var slot := FindIdle(b.watchers);
    var found := FindWatcher(b.watchers, pid);
    if found == |b.watchers| && slot < |b.watchers| && lookup == 0 {
      assert Watch(b, pid, lookup).0.watchers == b.watchers[slot := Watcher(true, pid)];
    }
  }

  // ---------------------------------------------------------------- calls

  /** Some operation of the call asks for SEM_UNDO. */
  predicate AsksUndo(c: ClientCall) {
    c.Operate? && exists j :: 0 <= j < |c.ops| && HasFlag(c.ops[j].flg, 0x1000)
  }

  lemma UndoIsAsked(c: ClientCall, id: u32, actor: Actor)
    requires Build(c).Ok?
    ensures UsesUndo(Sent(c, id)) <==> AsksUndo(c)
  {
    hide Build, UsesUndo, Parse, Asked;
    SemopIsOperate(c, id);
    if c.Operate? {
      BuildParses(c, id, actor, false);
      AskedBatch(c, actor);
      UsesUndoAgrees(Sent(c, id), actor, false);
      assert AsksUndo(c) <==> exists i :: 0 <= i < |c.ops| && c.ops[i].Undo();
    } else {
      NoScan(Sent(c, id));
    }
  }

  lemma AskedBatch(c: ClientCall, actor: Actor)
    requires c.Operate?
    ensures Asked(c, actor, false) == Accepted(TryOpCall(c.semid, c.ops, actor.pid))
  {
  }

  lemma NoScan(p: Packet)
    requires Sized(p) && !IsSemop(p)
    ensures !UsesUndo(p)
  {
  }

  /** The call changes what others may be waiting for, if it succeeds. */
  predicate Changes(c: ClientCall) {
    c.RemoveSet? || c.WriteVal? || c.WriteAll? || c.Operate?
  }

  /** The waiter a batch becomes that blocks for `reason`. */
  function NewWaiter(c: ClientCall, id: u32, actor: Actor, n: nat, reason: WaitReason, now: Time): Waiter
    requires Build(c).Ok? && c.Operate?
  {
    BuildTimeout(c);
    Waiter(n, Sent(c, id), actor, c.semid, reason, reason,
           if c.timeout.Some? then Some(Deadline(now, c.timeout.value)) else None, false)
  }

  lemma BuildTimeout(c: ClientCall)
    requires Build(c).Ok? && c.Operate?
    ensures c.timeout.Some? ==> c.timeout.value >= 0
  {
  }

  /** A call by a process that is watched if it has to be. */
  ghost predicate Taken(b: Broker, n: nat, c: ClientCall, id: u32, actor: Actor, world: World, o: Outcome)
    requires Shape(b.store) && Build(c).Ok?
  {
    var r := Perform(b.store, Asked(c, actor, world.noMemory), world.realNow);
    if !c.Operate? || r.code != 1 then
      && o.fate == Immediate && Tells(b.store, c, id, actor, world, o.reply)
      && o.broker.store == r.store && o.broker.watchers == b.watchers
      && if Changes(c) && r.code == 0 then Awake(b.queue, o.broker.queue) && Notified(b.monitor, o.broker.monitor)
         else o.broker.queue == b.queue && o.broker.monitor == b.monitor
    else if c.timeout.Some? && world.clockFailure != 0 then
      o == Outcome(b, Hangup(-(world.clockFailure as int)), Immediate)
    else
      && r.answer.Waits?
      && var reason := r.answer.reason;
         var counted := AdjustWait(b.store, c.semid, reason.semNum, reason.forZero, true);
         if counted.code != 0 then o == Outcome(b, Hangup(counted.code), Immediate)
         else
           var w := NewWaiter(c, id, actor, n, reason, world.now);
           && Shape(counted.store) && WaiterOk(w) && OpsOf(w) == c.ops
           && Passed(b.(store := counted.store, queue := b.queue + [w]), |b.queue|, world, o)
  }

  lemma AnsweredAtOnce(b: Broker, n: nat, c: ClientCall, id: u32, actor: Actor, world: World)
    requires Valid(b.store) && Shape(b.store) && Build(c).Ok? && actor.pid > 0
    requires !c.Operate? || Perform(b.store, Asked(c, actor, world.noMemory), world.realNow).code != 1
    ensures Taken(b, n, c, id, actor, world, SubmitWatched(b, Sent(c, id), actor, n, world))
  {
    hide Valid, Dispatch, Perform, Asked, Tells, Build, SubmitBlocked;
    SemopIsOperate(c, id);
    DispatchTells(b.store, c, id, actor, world);
    if c.Operate? { BlockedIsBlocked(b.store, c, id, actor, world); }
    DispatchCode(b.store, c, id, actor, world);
    ChangesIff(c, id);
  }

  /** The response carries the direct call's code. */
  lemma DispatchCode(st: Store, c: ClientCall, id: u32, actor: Actor, world: World)
    requires Valid(st) && Shape(st) && Build(c).Ok? && actor.pid > 0
    ensures var d := Dispatch(st, Sent(c, id), actor, world.realNow, world.noMemory);
            d.Replied? && d.response.header.result == Perform(st, Asked(c, actor, world.noMemory), world.realNow).code
  {
    hide Valid, Perform, Parse, Asked, Encodable, ReplyPayload;
    BuildParses(c, id, actor, world.noMemory);
    BuiltIsGood(c, id);
    var local := Perform(st, Asked(c, actor, world.noMemory), world.realNow);
    ParseErrno(Sent(c, id), actor, world.noMemory);
    PerformEncodable(st, Parse(Sent(c, id), actor, world.noMemory), world.realNow);
    RespondHeader(Sent(c, id), local.code, local.answer);
  }

  lemma ChangesIff(c: ClientCall, id: u32)
    requires Build(c).Ok?
    ensures var opcode := Sent(c, id).header.opcode;
            Changes(c) <==> opcode == REMOVE || opcode == SETVAL || opcode == SETALL || IsSemop(Sent(c, id))
  {
  }

  // ---------------------------------------------------------------- batches that block

  lemma BatchReads(c: ClientCall, id: u32, actor: Actor)
    requires Build(c).Ok? && c.Operate?
    ensures var p := Sent(c, id);
            && |p.payload| >= 8 && GetI32(p.payload, 0) == c.semid && IsSemop(p)
            && (c.timeout.Some? <==> p.header.opcode == SEMTIMEDOP)
            && (c.timeout.Some? ==> |p.payload| >= 16 && GetI64(p.payload, 8) == c.timeout.value)
            && GoodRequest(p.header) && ParseOps(p, actor.pid) == Accepted(TryOpCall(c.semid, c.ops, actor.pid))
  {
    hide I32, I64, U32, GetU32, GetI32, GetI64, OpsBytes, ReadOps, ReservedClear, HeaderStatus;
    OperateParses(c.semid, c.ops, c.timeout, id, actor.pid);
    BuiltIsGood(c, id);
  }

  lemma DeadlineStarts(c: ClientCall, id: u32, actor: Actor, world: World)
    requires Build(c).Ok? && c.Operate? && !(c.timeout.Some? && world.clockFailure != 0)
    ensures c.timeout.Some? ==> |Sent(c, id).payload| >= 16 && c.timeout.value >= 0
    ensures StartDeadline(Sent(c, id), world) ==
            Ok(if c.timeout.Some? then Some(Deadline(world.now, c.timeout.value)) else None)
  {
    hide Build, ParseOps, Deadline, GetI32, GetI64;
    BatchReads(c, id, actor);
    BuildTimeout(c);
  }

  lemma QueuedIfBlocked(b: Broker, n: nat, c: ClientCall, id: u32, actor: Actor, world: World)
    requires Valid(b.store) && Shape(b.store) && Build(c).Ok? && actor.pid > 0
    requires c.Operate? && Perform(b.store, Asked(c, actor, world.noMemory), world.realNow).code == 1
    ensures Taken(b, n, c, id, actor, world, SubmitWatched(b, Sent(c, id), actor, n, world))
  {
    hide Valid, Build, ParseOps, Deadline, GetI32, GetI64, Dispatch, TryOp, AdjustWait, Respond, Encodable, ReadReason,
         StartDeadline, Settle, Passed, Sent, WaiterOk;
    var request := Sent(c, id);
    BatchReads(c, id, actor);
    var r := TryOp(b.store, c.semid, c.ops, actor.pid, world.realNow);
    BlocksIff(b.store, c.semid, c.ops, actor.pid, world.realNow);
    BlockedReply(b.store, c, id, actor, world);
    var reason := r.answer.reason;
    ReasonReadsBack(request, reason);
    if c.timeout.Some? && world.clockFailure != 0 {
      ClockFails(c, id, actor, world);
    } else {
      DeadlineStarts(c, id, actor, world);
      var counted := AdjustWait(b.store, c.semid, reason.semNum, reason.forZero, true);
      if counted.code == 0 {
        AdjustWaitValid(b.store, c.semid, reason.semNum, reason.forZero, true);
        ShapeOf(counted.store);
        var w := NewWaiter(c, id, actor, n, reason, world.now);
        NewIsOk(c, id, actor, n, reason, world.now);
        var b' := b.(store := counted.store, queue := b.queue + [w]);
        SettlePasses(b', |b.queue|, world);
      }
    }
  }

  lemma NewIsOk(c: ClientCall, id: u32, actor: Actor, n: nat, reason: WaitReason, now: Time)
    requires Build(c).Ok? && c.Operate? && actor.pid > 0
    ensures var w := NewWaiter(c, id, actor, n, reason, now); WaiterOk(w) && OpsOf(w) == c.ops
  {
    hide Build, ParseOps, Deadline, GetI32, GetI64;
    BatchReads(c, id, actor);
  }

  lemma ClockFails(c: ClientCall, id: u32, actor: Actor, world: World)
    requires Build(c).Ok? && c.Operate? && c.timeout.Some? && world.clockFailure != 0
    ensures |Sent(c, id).payload| >= 16 && StartDeadline(Sent(c, id), world) == Err(-(world.clockFailure as int))
  {
    hide Build, ParseOps, Deadline, GetI32, GetI64;
    BatchReads(c, id, actor);
    BuildTimeout(c);
  }

  lemma BlockedReply(st: Store, c: ClientCall, id: u32, actor: Actor, world: World)
    requires Valid(st) && Shape(st) && Build(c).Ok? && c.Operate? && actor.pid > 0
    ensures var r := TryOp(st, c.semid, c.ops, actor.pid, world.realNow);
            && Encodable(r.code, r.answer)
            && Dispatch(st, Sent(c, id), actor, world.realNow, world.noMemory) ==
               Replied(r.store, Respond(Sent(c, id), r.code, r.answer))
            && Respond(Sent(c, id), r.code, r.answer).header.result == r.code
  {
    hide Valid, Build, ParseOps, TryOp, Respond, Encodable, Deadline;
    var w := NewWaiter(c, id, actor, 0, WaitReason(0, false), Time(0, 0));
    NewIsOk(c, id, actor, 0, WaitReason(0, false), Time(0, 0));
    WaiterDispatch(st, w, world.realNow, world.noMemory);
    var r := TryOp(st, c.semid, c.ops, actor.pid, world.realNow);
    RespondHeader(Sent(c, id), r.code, r.answer);
  }

  // ---------------------------------------------------------------- every arrival

  /** The answer to a call whose process cannot be watched. */
  predicate Refused(b: Broker, c: ClientCall, id: u32, result: int, o: Outcome)
    requires Build(c).Ok?
  {
    && o.broker == b && o.fate == Immediate && o.reply.Answered? && Correlated(Sent(c, id), o.reply.response)
    && Interpret(c, o.reply.response) == ClientReply(result, NoData)
  }

  /** Over every run, a client call that arrives has its process registered first if it asks for SEM_UNDO, and is
      refused if that fails. Otherwise it is answered at once with the result of the direct call on the store, unless
      it is a batch that blocks; that is counted under the semaphore it waits for, queued last with its deadline, and
      passed once through the retry loop. */
  lemma ArrivalMeans(steps: seq<Step>, c: ClientCall, id: u32, actor: Actor, world: World)
    requires BrokerRuns.Run(steps).Some? && Build(c).Ok? && actor.pid > 0
    ensures var s := BrokerRuns.Run(steps).value;
            var o := Act(s, SubmitStep(Sent(c, id), actor, world));
            && Shape(s.broker.store)
            && if !AsksUndo(c) then Taken(s.broker, s.history.nextId, c, id, actor, world, o)
               else exists b', result ::
                      && Registered(s.broker, actor.pid, world.pidLookup, b', result)
                      && if result != 0 then Refused(s.broker, c, id, result, o)
                         else b'.store == s.broker.store && Taken(b', s.history.nextId, c, id, actor, world, o)
  {
    hide BrokerRuns.Run, Good, Safe, Taken, Build, UsesUndo, SubmitWatched, Watch, Registered, Sent, Interpret,
         Correlated;
    var s := BrokerRuns.Run(steps).value;
    GoodSafe(s);
    SafeParts(s.broker);
    UndoIsAsked(c, id, actor);
    if AsksUndo(c) {
      var (b', result) := Watch(s.broker, actor.pid, world.pidLookup);
      WatchIs(s.broker, actor.pid, world.pidLookup);
      WatchResult(s.broker, actor.pid, world.pidLookup);
      if result == 0 {
        SubmitTaken(b', s.history.nextId, c, id, actor, world);
      } else {
        ErrorReads(c, id, result);
      }
    } else {
      SubmitTaken(s.broker, s.history.nextId, c, id, actor, world);
    }
  }

  lemma SubmitTaken(b: Broker, n: nat, c: ClientCall, id: u32, actor: Actor, world: World)
    requires Valid(b.store) && Shape(b.store) && Build(c).Ok? && actor.pid > 0
    ensures Taken(b, n, c, id, actor, world, SubmitWatched(b, Sent(c, id), actor, n, world))
  {
    hide Valid, Taken, Build, SubmitWatched, Perform, Asked;
    if c.Operate? && Perform(b.store, Asked(c, actor, world.noMemory), world.realNow).code == 1 {
      QueuedIfBlocked(b, n, c, id, actor, world);
    } else {
      AnsweredAtOnce(b, n, c, id, actor, world);
    }
  }

  lemma ErrorReads(c: ClientCall, id: u32, result: i32)
    requires Build(c).Ok? && result < 0
    ensures Correlated(Sent(c, id), ErrorResponse(Sent(c, id), result))
    ensures Interpret(c, ErrorResponse(Sent(c, id), result)) == ClientReply(result, NoData)
  {
    hide Build;
  }

  // ---------------------------------------------------------------- packets that are no client's

  /** A packet that is no plain version 1 request is dropped; one the dispatcher refuses is answered with that error and
      no data; in either case nothing changes but, if it looks like a SEM_UNDO batch, the watchers. */
  ghost predicate TurnedAway(b: Broker, request: Packet, actor: Actor, world: World, o: Outcome)
    requires Sized(request)
  {
    && o.fate == Immediate && o.broker.store == b.store && Cores(o.broker.queue) == Cores(b.queue)
    && (!UsesUndo(request) ==> o.broker == b)
    && var parsed := Parse(request, actor, world.noMemory);
       if !PlainRequest(request.header) then o.reply == Hangup(-71) || RefusedFor(b, request, actor, world, o)
       else parsed.Rejected? && (Says(request, -parsed.errno, o.reply) || RefusedFor(b, request, actor, world, o))
  }

  predicate PlainRequest(h: Header) {
    h.version == 1 && h.kind == 1 && h.result == 0 && h.payloadLength <= 8192
  }

  predicate Says(request: Packet, result: int, reply: Reply) {
    && reply.Answered? && Correlated(request, reply.response)
    && reply.response.header.result == result && reply.response.payload == []
  }

  /** Its process could not be registered. */
  ghost predicate RefusedFor(b: Broker, request: Packet, actor: Actor, world: World, o: Outcome)
    requires Sized(request)
  {
    && UsesUndo(request) && o.broker == b
    && exists result :: result != 0 && Registered(b, actor.pid, world.pidLookup, b, result)
         && Says(request, result, o.reply)
  }

  lemma RefusedDispatch(b: Broker, request: Packet, actor: Actor, id: nat, world: World)
    requires Valid(b.store) && Sized(request) && actor.pid > 0
    requires !PlainRequest(request.header) || Parse(request, actor, world.noMemory).Rejected?
    ensures var o := SubmitWatched(b, request, actor, id, world);
            && o.fate == Immediate && o.broker == b
            && if !PlainRequest(request.header) then o.reply == Hangup(-71)
               else Says(request, -Parse(request, actor, world.noMemory).errno, o.reply)
  {
    hide Valid, Parse;
    ParseErrno(request, actor, world.noMemory);
  }

  /** Over every run, so with every packet that the dispatcher would not take. */
  lemma RefusedArrival(steps: seq<Step>, request: Packet, actor: Actor, world: World)
    requires BrokerRuns.Run(steps).Some? && Sized(request) && actor.pid > 0
    requires !PlainRequest(request.header) || Parse(request, actor, world.noMemory).Rejected?
    ensures var s := BrokerRuns.Run(steps).value;
            TurnedAway(s.broker, request, actor, world, Act(s, SubmitStep(request, actor, world)))
  {
    hide BrokerRuns.Run, Good, Safe, Parse, UsesUndo, SubmitWatched, Watch, Registered, Says;
    var s := BrokerRuns.Run(steps).value;
    GoodSafe(s);
    SafeParts(s.broker);
    var id := s.history.nextId;
    if UsesUndo(request) {
      var (b', result) := Watch(s.broker, actor.pid, world.pidLookup);
      WatchIs(s.broker, actor.pid, world.pidLookup);
      WatchResult(s.broker, actor.pid, world.pidLookup);
      WatchScene(s.broker, actor.pid, world.pidLookup);
      if result == 0 {
        RefusedDispatch(b', request, actor, id, world);
      } else {
        ErrorSays(request, result);
        assert s.broker == b';
        assert RefusedFor(s.broker, request, actor, world, Act(s, SubmitStep(request, actor, world)));
      }
    } else {
      RefusedDispatch(s.broker, request, actor, id, world);
    }
  }

  lemma ErrorSays(request: Packet, result: i32)
    ensures Says(request, result, Answered(ErrorResponse(request, result)))
  {
  }

  // ---------------------------------------------------------------- how many wait

  /** The places in the queue of the batches that wait for this semaphore to rise, or to become zero. */
  function WaitersFor(queue: seq<Waiter>, id: i32, k: nat, forZero: bool, n: nat): set<nat>
    requires n <= |queue|
  {
    set j | 0 <= j < n && queue[j].semid == id && queue[j].reason.semNum == k && queue[j].reason.forZero == forZero
  }

  lemma {:induction false} CountIsSize(queue: seq<Waiter>, id: i32, k: nat, forZero: bool, n: nat)
    requires n <= |queue|
    ensures CountQueue(queue, id, k, forZero, n) == |WaitersFor(queue, id, k, forZero, n)|
  {
    hide WaitersFor;
    if n > 0 {
      CountIsSize(queue, id, k, forZero, n - 1);
      WaitersStep(queue, id, k, forZero, n - 1);
    } else {
      NoneYet(queue, id, k, forZero);
    }
  }

  lemma WaitersStep(queue: seq<Waiter>, id: i32, k: nat, forZero: bool, n: nat)
    requires n < |queue|
    ensures n !in WaitersFor(queue, id, k, forZero, n)
    ensures WaitersFor(queue, id, k, forZero, n + 1) ==
            WaitersFor(queue, id, k, forZero, n) + if CountedAs(queue[n], id, k, forZero) then {n} else {}
  {
  }

  lemma NoneYet(queue: seq<Waiter>, id: i32, k: nat, forZero: bool)
    ensures WaitersFor(queue, id, k, forZero, 0) == {}
  {
  }

  /** Over every run in which no waiter outlives 32767 removals of its slot, GETNCNT and GETZCNT return the number of
      queued batches that wait for that semaphore in that way, cut at INT_MAX. */
  lemma WaitersCounted(steps: seq<Step>, id: i32, k: nat, forZero: bool)
    requires BrokerRuns.Run(steps).Some? && BrokerRuns.Run(steps).value.history.current
    ensures var b := BrokerRuns.Run(steps).value.broker;
            && Shape(b.store)
            && (Live(b.store, id, k) ==>
                  var n := |WaitersFor(b.queue, id, k, forZero, |b.queue|)|;
                  WaitCount(b.store, id, k, forZero).code == if n > 0x7fff_ffff then 0x7fff_ffff else n)
  {
    hide BrokerRuns.Run, Good, Safe, WaitersFor, CountQueue, WaitCount, MakeId, DecodeId;
    var b := BrokerRuns.Run(steps).value.broker;
    GoodSafe(BrokerRuns.Run(steps).value);
    SafeParts(b);
    if Live(b.store, id, k) {
      var i := FindSet(b.store, id).value;
      CountersAgree(steps, i, k, forZero);
      FindSetIsId(b.store, id, i);
      CountIsSize(b.queue, id, k, forZero, |b.queue|);
      WaitCountLaw(b.store, id, k, forZero);
    }
  }
}
