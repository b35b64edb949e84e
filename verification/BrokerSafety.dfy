/**
 No wakeup is lost: in every state the broker can reach with its mutex free, a
 sleeper that is first for its set and has not been woken would still block.
 The proof does not use the quarter-second poll.
 */
module BrokerSafety {
  import opened SemTypes
  import opened Wire
  import opened Protocol
  import opened StoreModel
  import opened SemopAtomic
  import opened StoreValid
  import opened Messages
  import opened Remote
  import opened ExitReplay
  import opened BrokerModel

  // ---------------------------------------------------------------- blocking, as a condition on the store

  /** The batch would block now: its set is live, it is well formed, and its first failing operation may wait. */
  predicate WouldBlock(st: Store, semid: i32, ops: seq<SemOp>)
    requires |st.sets| == MAX_SETS
  {
    var i := FindSet(st, semid);
    && i.Some? && ops != [] && ValidBatch(ops, |st.sets[i.value].values|)
    && var r := EvalTo(st.sets[i.value].values, ops, |ops|);
       r.Blocks? && !ops[r.at].NoWait()
  }

  lemma BlocksIff(st: Store, semid: i32, ops: seq<SemOp>, pid: i32, now: i64)
    requires Shape(st)
    ensures TryOp(st, semid, ops, pid, now).code == OP_BLOCKED <==> WouldBlock(st, semid, ops)
    ensures WouldBlock(st, semid, ops) ==>
              TryOp(st, semid, ops, pid, now).store == st && TryOp(st, semid, ops, pid, now).answer.Waits?
  {
  }

  /** Every set that is live stays live under its identifier with its values. */
  ghost predicate SameValues(st: Store, st': Store) {
    && |st.sets| == |st'.sets| == MAX_SETS
    && forall i :: 0 <= i < MAX_SETS && st.sets[i].active ==>
         && st'.sets[i].active
         && st'.sets[i].generation == st.sets[i].generation
         && st'.sets[i].values == st.sets[i].values
  }

  lemma SameValuesBlock(st: Store, st': Store, semid: i32, ops: seq<SemOp>)
    requires SameValues(st, st') && WouldBlock(st, semid, ops)
    ensures WouldBlock(st', semid, ops)
  {
  }

  // ---------------------------------------------------------------- waiters and their requests

  /** A queued request parses as the batch it was queued for. */
  predicate WaiterOk(w: Waiter) {
    && Sized(w.request)
    && GoodRequest(w.request.header)
    && IsSemop(w.request)
    && w.actor.pid > 0
    && var parsed := ParseOps(w.request, w.actor.pid);
       parsed.Accepted? && parsed.call.TryOpCall? && parsed.call.semid == w.semid
  }

  function OpsOf(w: Waiter): seq<SemOp>
    requires WaiterOk(w)
  {
    ParseOps(w.request, w.actor.pid).call.ops
  }

  predicate Blocked(st: Store, w: Waiter)
    requires |st.sets| == MAX_SETS && WaiterOk(w)
  {
    WouldBlock(st, w.semid, OpsOf(w))
  }

  lemma ParseSemop(request: Packet, actor: Actor, noMemory: bool)
    requires Sized(request) && IsSemop(request)
    ensures Parse(request, actor, noMemory) == ParseOps(request, actor.pid)
  {
    hide ParseOps;
  }

  lemma ParseOpsKind(p: Packet, pid: i32)
    requires Sized(p)
    ensures var r := ParseOps(p, pid);
            r.Accepted? ==> && |p.payload| >= OpsPrefix(p.header.opcode)
                            && r.call == TryOpCall(GetI32(p.payload, 0), r.call.ops, pid)
                            && (p.header.opcode == SEMTIMEDOP ==> GetI64(p.payload, 8) >= 0)
  {
  }

  /** Dispatching a queued request is trying its batch. */
  lemma WaiterDispatch(st: Store, w: Waiter, now: i64, noMemory: bool)
    requires Valid(st) && WaiterOk(w)
    ensures var r := TryOp(st, w.semid, OpsOf(w), w.actor.pid, now);
            Encodable(r.code, r.answer) &&
            Dispatch(st, w.request, w.actor, now, noMemory) == Replied(r.store, Respond(w.request, r.code, r.answer))
  {
    hide Parse, TryOp, ParseOps, Encodable, Respond;
    ParseSemop(w.request, w.actor, noMemory);
    ParseOpsKind(w.request, w.actor.pid);
    ApplyEncodable(st, TryOpCall(w.semid, OpsOf(w), w.actor.pid), now);
  }

  lemma RespondHeader(request: Packet, code: int, answer: Answer)
    requires Encodable(code, answer)
    ensures Respond(request, code, answer).header.result == code
  {
  }

  lemma ReasonReadsBack(request: Packet, reason: WaitReason)
    ensures Encodable(OP_BLOCKED, Waits(reason))
    ensures ReadReason(Respond(request, OP_BLOCKED, Waits(reason))) == Some(reason)
  {
    hide U16, U32, GetU16, GetU32;
    var zero: u16 := if reason.forZero then 1 else 0;
    var b := U16(reason.semNum) + U16(zero) + U32(0);
    assert b[0..2] == U16(reason.semNum) && b[2..4] == U16(zero) && b[4..8] == U32(0);
    U16At(b, 0, reason.semNum);
    U16At(b, 2, zero);
    U32At(b, 4, 0);
  }

  /** What a blocked response tells: the store is untouched, the batch would block, and its reason reads back. */
  lemma BlockedResponse(st: Store, request: Packet, actor: Actor, now: i64, noMemory: bool)
    requires Valid(st) && Sized(request) && IsSemop(request)
    requires var d := Dispatch(st, request, actor, now, noMemory);
             d.Replied? && d.response.header.result == OP_BLOCKED
    ensures var d := Dispatch(st, request, actor, now, noMemory);
            var parsed := ParseOps(request, actor.pid);
            && parsed.Accepted? && parsed.call == TryOpCall(GetI32Of(request), parsed.call.ops, actor.pid)
            && d.store == st && WouldBlock(st, parsed.call.semid, parsed.call.ops)
            && TryOp(st, parsed.call.semid, parsed.call.ops, actor.pid, now).answer == Waits(ReasonOf(d.response))
            && ReadReason(d.response).Some?
            && actor.pid > 0 && GoodRequest(request.header)
  {
    hide TryOp, WouldBlock, Encodable, Respond, ParseOps, ReadReason, Parse;
    ParseSemop(request, actor, noMemory);
    ParseOpsKind(request, actor.pid);
    var parsed := ParseOps(request, actor.pid);
    var r := Perform(st, parsed, now);
    ParseErrno(request, actor, noMemory);
    PerformEncodable(st, parsed, now);
    RespondHeader(request, r.code, r.answer);
    BlocksIff(st, parsed.call.semid, parsed.call.ops, actor.pid, now);
    ReasonReadsBack(request, r.answer.reason);
  }

  function GetI32Of(p: Packet): i32 {
    if |p.payload| >= 4 then GetI32(p.payload, 0) else 0
  }

  function ReasonOf(response: Packet): WaitReason {
    if ReadReason(response).Some? then ReadReason(response).value else WaitReason(0, false)
  }

  // ---------------------------------------------------------------- the invariant

  ghost predicate QueueOk(queue: seq<Waiter>) {
    && (forall i :: 0 <= i < |queue| ==> WaiterOk(queue[i]))
    && (forall i, j :: 0 <= i < j < |queue| ==> queue[i].id < queue[j].id)
  }

  /** Sleeper `i`, if it is first for its set and not yet woken, would block again. */
  ghost predicate Rests(st: Store, queue: seq<Waiter>, i: nat)
    requires |st.sets| == MAX_SETS && i < |queue| && WaiterOk(queue[i])
  {
    !queue[i].signalled && IsFirst(queue, i) ==> Blocked(st, queue[i])
  }

  ghost predicate NoLostWakeup(b: Broker)
    requires |b.store.sets| == MAX_SETS && QueueOk(b.queue)
  {
    forall i :: 0 <= i < |b.queue| ==> Rests(b.store, b.queue, i)
  }

  ghost predicate WatchersOk(watchers: seq<Watcher>) {
    && |watchers| == MAX_WATCHERS
    && (forall i :: 0 <= i < |watchers| && watchers[i].active ==> watchers[i].pid > 0)
    && (forall i, j :: 0 <= i < j < |watchers| && watchers[i].active && watchers[j].active ==>
          watchers[i].pid != watchers[j].pid)
  }

  /** The monitor sleeps without a time limit only when there is nothing to watch, or it has been woken. */
  ghost predicate MonitorOk(b: Broker) {
    b.monitor.Waiting? && !b.monitor.timed && !b.monitor.signalled ==> !AnyWatcher(b.watchers)
  }

  ghost predicate Sound(b: Broker) {
    Valid(b.store) && QueueOk(b.queue) && WatchersOk(b.watchers)
  }

  ghost predicate Safe(b: Broker) {
    Sound(b) && NoLostWakeup(b) && MonitorOk(b)
  }

  // ---------------------------------------------------------------- what keeps it

  lemma BroadcastSafe(b: Broker)
    requires Sound(b)
    ensures Safe(Broadcast(b))
  {
    hide Valid, WatchersOk, ParseOps, Blocked;
    var r := Broadcast(b);
    ShapeOf(b.store);
    forall i | 0 <= i < |r.queue| ensures WaiterOk(r.queue[i]) {
      assert WaiterOk(b.queue[i]);
    }
  }

  lemma AdjustSame(st: Store, semid: i32, semNum: nat, forZero: bool, up: bool)
    requires Shape(st)
    ensures SameValues(st, AdjustWait(st, semid, semNum, forZero, up).store)
  {
  }

  lemma WithoutOk(queue: seq<Waiter>, i: nat)
    requires QueueOk(queue) && i < |queue|
    ensures QueueOk(Without(queue, i))
  {
    var r := Without(queue, i);
    assert forall j :: 0 <= j < |r| ==> r[j] == if j < i then queue[j] else queue[j + 1];
  }

  /** Every departure wakes everyone, so it cannot lose a wakeup. */
  lemma DepartSafe(b: Broker, i: nat)
    requires Sound(b) && i < |b.queue|
    ensures Safe(Depart(b, i))
  {
    hide Valid, QueueOk, WatchersOk, NoLostWakeup, MonitorOk, AdjustWait, Without, Broadcast;
    ShapeOf(b.store);
    var w := b.queue[i];
    AdjustWaitValid(b.store, w.semid, w.reason.semNum, w.reason.forZero, false);
    WithoutOk(b.queue, i);
    BroadcastSafe(b.(store := AdjustWait(b.store, w.semid, w.reason.semNum, w.reason.forZero, false).store,
                     queue := Without(b.queue, i)));
  }

  /** Everyone but sleeper `i` rests. */
  ghost predicate OthersRest(b: Broker, i: nat)
    requires |b.store.sets| == MAX_SETS && QueueOk(b.queue)
  {
    forall j :: 0 <= j < |b.queue| && j != i ==> Rests(b.store, b.queue, j)
  }

  /** Going back to sleep is safe when the sleeper is not first or has just been seen to block. */
  lemma SleepSafe(b: Broker, i: nat, world: World)
    requires Sound(b) && MonitorOk(b) && i < |b.queue| && OthersRest(b, i)
    requires IsFirst(b.queue, i) ==> Blocked(b.store, b.queue[i])
    ensures Safe(Sleep(b, i, world).broker)
  {
    hide Valid, WatchersOk, ParseOps, WouldBlock, AnyWatcher, Depart, GoodRequest, IsSemop;
    ShapeOf(b.store);
    if world.sleepFailure != 0 {
      DepartSafe(b, i);
    } else {
      var r := Sleep(b, i, world).broker;
      assert forall j :: 0 <= j < |r.queue| ==> r.queue[j].semid == b.queue[j].semid;
      forall j | 0 <= j < |r.queue|
        ensures WaiterOk(r.queue[j]) && Rests(r.store, r.queue, j)
      {
        assert WaiterOk(b.queue[j]);
        assert IsFirst(r.queue, j) <==> IsFirst(b.queue, j);
        assert j != i ==> Rests(b.store, b.queue, j);
      }
    }
  }

  /** Noting the latest reason changes nothing that matters here. */
  lemma NoteKeeps(b: Broker, i: nat, last: WaitReason)
    requires Sound(b) && MonitorOk(b) && i < |b.queue| && OthersRest(b, i)
    ensures var r := b.(queue := b.queue[i := b.queue[i].(last := last)]);
            && Sound(r) && MonitorOk(r) && OthersRest(r, i)
            && (Blocked(b.store, b.queue[i]) ==> Blocked(r.store, r.queue[i]))
            && (IsFirst(r.queue, i) <==> IsFirst(b.queue, i))
  {
    hide Valid, WatchersOk, ParseOps, WouldBlock, AnyWatcher;
    ShapeOf(b.store);
    var r := b.(queue := b.queue[i := b.queue[i].(last := last)]);
    assert forall j :: 0 <= j < |r.queue| ==> r.queue[j].semid == b.queue[j].semid;
    forall j | 0 <= j < |r.queue|
      ensures WaiterOk(r.queue[j]) && (j != i ==> Rests(r.store, r.queue, j))
      ensures IsFirst(r.queue, j) <==> IsFirst(b.queue, j)
    {
      assert WaiterOk(b.queue[j]);
      assert IsFirst(r.queue, j) <==> IsFirst(b.queue, j);
      assert j != i ==> Rests(b.store, b.queue, j);
    }
  }

  lemma SettleSafe(b: Broker, i: nat, world: World)
    requires Sound(b) && MonitorOk(b) && i < |b.queue| && OthersRest(b, i)
    ensures Safe(Settle(b, i, world).broker)
  {
    hide Valid, WatchersOk, TryOp, Blocked, OthersRest, MonitorOk, NoLostWakeup, Sleep, Depart, IsFirst, Dispatch,
         Encodable;
    var w := b.queue[i];
    if world.peerClosed {
      DepartSafe(b, i);
    } else if !IsFirst(b.queue, i) {
      SleepSafe(b, i, world);
    } else {
      ShapeOf(b.store);
      var ops := OpsOf(w);
      var r := TryOp(b.store, w.semid, ops, w.actor.pid, world.realNow);
      WaiterDispatch(b.store, w, world.realNow, world.noMemory);
      RespondHeader(w.request, r.code, r.answer);
      if r.code != OP_BLOCKED {
        TryOpValid(b.store, w.semid, ops, w.actor.pid, world.realNow);
        DepartSafe(b.(store := r.store), i);
      } else {
        BlockedIsSeen(b.store, w, world.realNow);
        var last := ReadReason(Respond(w.request, r.code, r.answer));
        var note := if last.Some? then last.value else w.last;
        NoteKeeps(b, i, note);
        SleepSafe(b.(queue := b.queue[i := w.(last := note)]), i, world);
      }
    }
  }

  lemma BlockedIsSeen(st: Store, w: Waiter, now: i64)
    requires Shape(st) && WaiterOk(w) && TryOp(st, w.semid, OpsOf(w), w.actor.pid, now).code == OP_BLOCKED
    ensures Blocked(st, w)
  {
    hide ParseOps;
    BlocksIff(st, w.semid, OpsOf(w), w.actor.pid, now);
  }

  lemma WakeSafe(b: Broker, i: nat, world: World)
    requires Safe(b) && i < |b.queue|
    ensures Safe(Wake(b, i, world).broker)
  {
    hide Valid, WatchersOk, MonitorOk, ParseOps, Rests, Depart, Settle;
    assert WaiterOk(b.queue[i]);
    DepartSafe(b, i);
    SettleSafe(b, i, world);
  }

  // ---------------------------------------------------------------- submitting

  lemma FailedChangesNothing(st: Store, call: Call, now: i64)
    requires Shape(st) && (call.RemoveCall? || call.SetValCall? || call.SetAllCall? || call.TryOpCall?)
    ensures Apply(st, call, now).code != 0 ==> Apply(st, call, now).store == st
  {
    if call.TryOpCall? { TryOpAtomic(st, call.semid, call.ops, call.pid, now); }
  }

  /** Calls that keep every live set's values. */
  lemma QuietCall(st: Store, call: Call, now: i64)
    requires Shape(st) && !call.RemoveCall? && !call.SetValCall? && !call.SetAllCall? && !call.TryOpCall?
             && !call.ExitCall?
    ensures SameValues(st, Apply(st, call, now).store)
  {
    hide TryOp, ProcessExit, Census, ClearUndo, FindSet, Remove, SetVal, SetAll;
    match call
    case AdjustWaitCall(semid, semNum, forZero, up) => AdjustSame(st, semid, semNum, forZero, up);
    case SetMetaCall(semid, uid, gid, mode, who) =>
    case _ =>
  }

  /** Which opcode asks for which kind of call. */
  lemma ParseKind(p: Packet, actor: Actor, noMemory: bool)
    requires Sized(p) && Parse(p, actor, noMemory).Accepted?
    ensures var call := Parse(p, actor, noMemory).call;
            && (call.RemoveCall? <==> p.header.opcode == REMOVE)
            && (call.SetValCall? <==> p.header.opcode == SETVAL)
            && (call.SetAllCall? <==> p.header.opcode == SETALL)
            && (call.TryOpCall? <==> IsSemop(p))
            && !call.ExitCall? && !call.AdjustWaitCall?
  {
    hide GetU32, GetU16, GetI64, ReadOps, ReadWords, ReservedClear, OpsCount;
  }

  /** A request that the broker does not announce leaves every live set's values alone. */
  lemma QuietDispatch(st: Store, request: Packet, actor: Actor, now: i64, noMemory: bool)
    requires Valid(st) && Sized(request)
    requires var d := Dispatch(st, request, actor, now, noMemory); d.Replied? && !ChangedState(request, d.response)
    ensures SameValues(st, Dispatch(st, request, actor, now, noMemory).store)
  {
    hide Parse, Apply, Respond, Encodable, SameValues;
    ShapeOf(st);
    SameSelf(st);
    var parsed := Parse(request, actor, noMemory);
    var r := Perform(st, parsed, now);
    ParseErrno(request, actor, noMemory);
    PerformEncodable(st, parsed, now);
    RespondHeader(request, r.code, r.answer);
    if parsed.Accepted? {
      ParseKind(request, actor, noMemory);
      var call := parsed.call;
      if call.RemoveCall? || call.SetValCall? || call.SetAllCall? || call.TryOpCall? {
        FailedChangesNothing(st, call, now);
      } else {
        QuietCall(st, call, now);
      }
    }
  }

  lemma SameSelf(st: Store)
    requires |st.sets| == MAX_SETS
    ensures SameValues(st, st)
  {
  }

  lemma QuietSafe(b: Broker, st: Store)
    requires Safe(b) && Valid(st) && SameValues(b.store, st)
    ensures Safe(b.(store := st))
  {
    hide Valid, WatchersOk, ParseOps, WouldBlock, AnyWatcher, SameValues;
    ShapeOf(b.store);
    ShapeOf(st);
    forall i | 0 <= i < |b.queue| ensures Rests(st, b.queue, i) {
      assert WaiterOk(b.queue[i]) && Rests(b.store, b.queue, i);
      if Blocked(b.store, b.queue[i]) { SameValuesBlock(b.store, st, b.queue[i].semid, OpsOf(b.queue[i])); }
    }
  }

  /** Appending a sleeper keeps everyone before it at rest. */
  lemma AppendRests(b: Broker, w: Waiter)
    requires Safe(b) && WaiterOk(w) && forall i :: 0 <= i < |b.queue| ==> b.queue[i].id < w.id
    ensures var r := b.(queue := b.queue + [w]); Sound(r) && MonitorOk(r) && OthersRest(r, |b.queue|)
  {
    hide Valid, WatchersOk, ParseOps, Blocked, AnyWatcher;
    ShapeOf(b.store);
    var q := b.queue + [w];
    assert forall i :: 0 <= i < |b.queue| ==> q[i] == b.queue[i];
    forall i | 0 <= i < |b.queue| ensures Rests(b.store, q, i) {
      assert WaiterOk(b.queue[i]) && Rests(b.store, b.queue, i);
      assert IsFirst(q, i) ==> IsFirst(b.queue, i);
    }
  }

  lemma SubmitBlockedSafe(b: Broker, request: Packet, actor: Actor, id: nat, world: World)
    requires Safe(b) && Sized(request) && IsSemop(request) && forall i :: 0 <= i < |b.queue| ==> b.queue[i].id < id
    requires var d := Dispatch(b.store, request, actor, world.realNow, world.noMemory);
             d.Replied? && d.response.header.result == OP_BLOCKED
    ensures Safe(SubmitBlocked(b, request, actor, id, world,
                               Dispatch(b.store, request, actor, world.realNow, world.noMemory).response).broker)
  {
    hide Safe, AdjustWait, ParseOps, WouldBlock, Settle, Dispatch, StartDeadline, ReadReason, Valid;
    SafeParts(b);
    BlockedResponse(b.store, request, actor, world.realNow, world.noMemory);
    ParseOpsKind(request, actor.pid);
    var response := Dispatch(b.store, request, actor, world.realNow, world.noMemory).response;
    var reason := ReasonOf(response);
    var semid := GetI32(request.payload, 0);
    var deadline := StartDeadline(request, world);
    var counted := AdjustWait(b.store, semid, reason.semNum, reason.forZero, true);
    if deadline.Ok? && counted.code == 0 {
      AdjustWaitValid(b.store, semid, reason.semNum, reason.forZero, true);
      AdjustSame(b.store, semid, reason.semNum, reason.forZero, true);
      var w := Waiter(id, request, actor, semid, reason, reason, deadline.value, false);
      QuietSafe(b, counted.store);
      var b' := b.(store := counted.store);
      AppendRests(b', w);
      assert b'.(queue := b'.queue + [w]) == b.(store := counted.store, queue := b.queue + [w]);
      SettleSafe(b'.(queue := b'.queue + [w]), |b.queue|, world);
    }
  }

  lemma SafeParts(b: Broker)
    requires Safe(b)
    ensures Sound(b) && Valid(b.store) && Shape(b.store)
  {
    ShapeOf(b.store);
  }

  lemma SubmitWatchedSafe(b: Broker, request: Packet, actor: Actor, id: nat, world: World)
    requires Safe(b) && Sized(request) && forall i :: 0 <= i < |b.queue| ==> b.queue[i].id < id
    ensures Safe(SubmitWatched(b, request, actor, id, world).broker)
  {
    hide Safe, Dispatch, SubmitBlocked, Broadcast, ChangedState, IsSemop, QueueOk, Valid, WatchersOk;
    SafeParts(b);
    var d := Dispatch(b.store, request, actor, world.realNow, world.noMemory);
    if d.Replied? {
      DispatchValid(b.store, request, actor, world.realNow, world.noMemory);
      if IsSemop(request) && d.response.header.result == OP_BLOCKED {
        SubmitBlockedSafe(b, request, actor, id, world);
      } else if ChangedState(request, d.response) {
        BroadcastSafe(b.(store := d.store));
      } else {
        QuietDispatch(b.store, request, actor, world.realNow, world.noMemory);
        QuietSafe(b, d.store);
      }
    }
  }

  lemma WatchSafe(b: Broker, pid: i32, lookup: Fault)
    requires Safe(b) && pid > 0
    ensures Safe(Watch(b, pid, lookup).0)
    ensures |Watch(b, pid, lookup).0.queue| == |b.queue|
    ensures forall i :: 0 <= i < |b.queue| ==> Watch(b, pid, lookup).0.queue[i].id == b.queue[i].id
    ensures Watch(b, pid, lookup).0.store == b.store
  {
    hide Valid, QueueOk, NoLostWakeup, AnyWatcher;
    if Watch(b, pid, lookup).0 != b {
      var slot := FindIdle(b.watchers);
      var watchers := b.watchers[slot := Watcher(true, pid)];
      assert WatchersOk(watchers);
      BroadcastSafe(b.(watchers := watchers));
    }
  }

  lemma SubmitSafe(b: Broker, request: Packet, actor: Actor, id: nat, world: World)
    requires Safe(b) && Sized(request) && actor.pid > 0 && forall i :: 0 <= i < |b.queue| ==> b.queue[i].id < id
    ensures Safe(Submit(b, request, actor, id, world).broker)
  {
    hide Safe, SubmitWatched, UsesUndo, Watch, Valid;
    SafeParts(b);
    if UsesUndo(request) {
      WatchSafe(b, actor.pid, world.pidLookup);
      SubmitWatchedSafe(Watch(b, actor.pid, world.pidLookup).0, request, actor, id, world);
    } else {
      SubmitWatchedSafe(b, request, actor, id, world);
    }
  }

  // ---------------------------------------------------------------- monitoring

  /** A process exit that changes nothing need not be announced. */
  lemma ExitQuiet(st: Store, pid: i32, now: i64)
    requires Valid(st) && pid > 0 && ProcessExit(st, pid, now).code <= 0
    ensures ProcessExit(st, pid, now).store == st
  {
    ExitChanges(st, pid, now, MAX_UNDO);
    ExitNothing(st, pid, now, MAX_UNDO);
  }

  lemma {:induction false} ExitNothing(st: Store, pid: i32, now: i64, n: nat)
    requires Shape(st) && n <= MAX_UNDO && forall j :: 0 <= j < MAX_UNDO && st.undo[j].active ==> st.undo[j].pid != pid
    ensures ExitTo(st, pid, now, n) == st
  {
    if n > 0 { ExitNothing(st, pid, now, n - 1); }
  }

  lemma ReapSafe(b: Broker, i: nat, exited: bool, now: i64)
    requires Safe(b) && i < |b.watchers|
    ensures Safe(Reap(b, i, exited, now))
  {
    hide Valid, QueueOk, NoLostWakeup, ProcessExit, Broadcast;
    SafeParts(b);
    var watcher := b.watchers[i];
    if watcher.active && exited {
      var r := ProcessExit(b.store, watcher.pid, now);
      var watchers := b.watchers[i := Watcher(false, 0)];
      assert WatchersOk(watchers) && (AnyWatcher(watchers) ==> AnyWatcher(b.watchers));
      ReapValid(b, i, exited, now);
      if r.code > 0 {
        BroadcastValid(b.(store := r.store, watchers := watchers));
        BroadcastSafe(b.(store := r.store, watchers := watchers));
      } else {
        ExitQuiet(b.store, watcher.pid, now);
        QuietSafeWatchers(b, watchers);
      }
    }
  }

  lemma BroadcastValid(b: Broker)
    ensures Broadcast(b).store == b.store
  {
  }

  lemma QuietSafeWatchers(b: Broker, watchers: seq<Watcher>)
    requires Safe(b) && WatchersOk(watchers) && (AnyWatcher(watchers) ==> AnyWatcher(b.watchers))
    ensures Safe(b.(watchers := watchers))
  {
    hide Valid, QueueOk, WatchersOk, AnyWatcher, Rests;
  }

  lemma {:induction false} ReapToSafe(b: Broker, exited: seq<bool>, now: i64, n: nat)
    requires Safe(b) && |exited| == |b.watchers| && n <= |b.watchers|
    ensures Safe(ReapTo(b, exited, now, n))
  {
    hide Safe, Reap, Valid;
    SafeParts(b);
    if n > 0 {
      ReapToSafe(b, exited, now, n - 1);
      ReapSafe(ReapTo(b, exited, now, n - 1), n - 1, exited[n - 1], now);
    }
  }

  lemma ScanSafe(b: Broker, exited: seq<bool>, world: World)
    requires Safe(b) && |exited| == |b.watchers| && b.monitor.Waiting?
    ensures Safe(Scan(b, exited, world))
  {
    hide Valid, QueueOk, WatchersOk, AnyWatcher, Rests, ReapTo;
    ReapToSafe(b, exited, world.realNow, |b.watchers|);
  }
}
