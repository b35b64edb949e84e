/**
 What each broker step does to the store, the queue and the watchers once
 wake-up flags are set aside: every step is a short chain of watching, calling,
 joining the queue, committing a retry and leaving the queue.
 */
module BrokerShape {
  import opened SemTypes
  import opened Wire
  import opened Protocol
  import opened StoreModel
  import opened StoreValid
  import opened Messages
  import opened Remote
  import opened BrokerModel
  import opened BrokerSafety

  /** A waiter without its wake-up state. */
  function Core(w: Waiter): Waiter {
    w.(signalled := false, last := w.reason)
  }

  function Cores(queue: seq<Waiter>): (r: seq<Waiter>)
    ensures |r| == |queue|
    ensures forall i :: 0 <= i < |queue| ==> r[i] == Core(queue[i])
  {
    seq(|queue|, i requires 0 <= i < |queue| => Core(queue[i]))
  }

  datatype Scene = Scene(store: Store, queue: seq<Waiter>, watchers: seq<Watcher>)

  function SceneOf(b: Broker): Scene {
    Scene(b.store, Cores(b.queue), b.watchers)
  }

  ghost predicate SceneOk(sc: Scene) {
    Valid(sc.store) && QueueOk(sc.queue) && WatchersOk(sc.watchers)
  }

  function Joined(sc: Scene, w: Waiter): Scene
    requires Shape(sc.store)
  {
    Scene(AdjustWait(sc.store, w.semid, w.reason.semNum, w.reason.forZero, true).store,
          sc.queue + [Core(w)], sc.watchers)
  }

  function Left(sc: Scene, i: nat): Scene
    requires Shape(sc.store) && i < |sc.queue|
  {
    var w := sc.queue[i];
    Scene(AdjustWait(sc.store, w.semid, w.reason.semNum, w.reason.forZero, false).store,
          Without(sc.queue, i), sc.watchers)
  }

  /** The batch of waiter `i`, tried now. */
  function Retry(sc: Scene, i: nat, now: i64): Effect
    requires Shape(sc.store) && i < |sc.queue| && WaiterOk(sc.queue[i])
  {
    TryOp(sc.store, sc.queue[i].semid, OpsOf(sc.queue[i]), sc.queue[i].actor.pid, now)
  }

  // ---------------------------------------------------------------- scenes of the steps

  lemma SceneIsOk(b: Broker)
    requires Sound(b)
    ensures SceneOk(SceneOf(b)) && Shape(b.store)
  {
    hide Valid, WatchersOk, ParseOps;
    ShapeOf(b.store);
    forall i | 0 <= i < |b.queue| ensures WaiterOk(Core(b.queue[i])) {
      assert WaiterOk(b.queue[i]);
    }
  }

  lemma BroadcastScene(b: Broker)
    ensures SceneOf(Broadcast(b)) == SceneOf(b)
  {
    assert Cores(Raise(b.queue)) == Cores(b.queue);
  }

  lemma DepartScene(b: Broker, i: nat)
    requires Shape(b.store) && i < |b.queue|
    ensures SceneOf(Depart(b, i)) == Left(SceneOf(b), i)
  {
    hide AdjustWait;
    var w := b.queue[i];
    var b' := b.(store := AdjustWait(b.store, w.semid, w.reason.semNum, w.reason.forZero, false).store,
                 queue := Without(b.queue, i));
    BroadcastScene(b');
    assert Cores(Without(b.queue, i)) == Without(Cores(b.queue), i);
  }

  lemma SleepScene(b: Broker, i: nat, world: World)
    requires Valid(b.store) && i < |b.queue|
    ensures var o := Sleep(b, i, world);
            SceneOf(o.broker) == if o.fate.Asleep? then SceneOf(b) else Left(SceneOf(b), i)
  {
    hide Valid;
    ShapeOf(b.store);
    if world.sleepFailure != 0 {
      DepartScene(b, i);
    } else {
      assert Cores(b.queue[i := b.queue[i].(signalled := false)]) == Cores(b.queue);
    }
  }

  lemma NoteScene(b: Broker, i: nat, last: WaitReason)
    requires i < |b.queue|
    ensures SceneOf(b.(queue := b.queue[i := b.queue[i].(last := last)])) == SceneOf(b)
  {
    assert Cores(b.queue[i := b.queue[i].(last := last)]) == Cores(b.queue);
  }

  /** What a pass of the retry loop did. */
  ghost predicate SettleShape(sc: Scene, i: nat, world: World, o: Outcome)
    requires Shape(sc.store) && i < |sc.queue| && WaiterOk(sc.queue[i])
  {
    match o.fate
    case Immediate => false
    case Asleep => SceneOf(o.broker) == sc
    case Retried(code) =>
      var r := Retry(sc, i, world.realNow);
      && !world.peerClosed && IsFirst(sc.queue, i) && r.code == code != OP_BLOCKED
      && Shape(r.store) && SceneOf(o.broker) == Left(sc.(store := r.store), i)
    case _ => SceneOf(o.broker) == Left(sc, i)
  }

  lemma SettleIsShape(b: Broker, i: nat, world: World)
    requires Sound(b) && i < |b.queue|
    ensures SceneOk(SceneOf(b))
    ensures SettleShape(SceneOf(b), i, world, Settle(b, i, world))
  {
    hide Valid, WatchersOk, ParseOps, TryOp, Sleep, Depart, Dispatch, Encodable, QueueOk, Left, Cores;
    SceneIsOk(b);
    WaiterAt(b, i);
    var w := b.queue[i];
    if world.peerClosed {
      DepartScene(b, i);
    } else if !IsFirst(b.queue, i) {
      SleepScene(b, i, world);
      SleepFate(b, i, world);
    } else {
      CoreFirst(b.queue, i);
      var r := TryOp(b.store, w.semid, OpsOf(w), w.actor.pid, world.realNow);
      WaiterDispatch(b.store, w, world.realNow, world.noMemory);
      RespondHeader(w.request, r.code, r.answer);
      if r.code != OP_BLOCKED {
        TryOpValid(b.store, w.semid, OpsOf(w), w.actor.pid, world.realNow);
        ShapeOf(r.store);
        DepartScene(b.(store := r.store), i);
      } else {
        var last := ReadReason(Respond(w.request, r.code, r.answer));
        var note := if last.Some? then last.value else w.last;
        NoteScene(b, i, note);
        SleepScene(b.(queue := b.queue[i := w.(last := note)]), i, world);
        SleepFate(b.(queue := b.queue[i := w.(last := note)]), i, world);
      }
    }
  }

  lemma WaiterAt(b: Broker, i: nat)
    requires QueueOk(b.queue) && i < |b.queue|
    ensures WaiterOk(b.queue[i]) && WaiterOk(Cores(b.queue)[i])
    ensures OpsOf(Cores(b.queue)[i]) == OpsOf(b.queue[i])
  {
    hide ParseOps;
  }

  lemma CoreFirst(queue: seq<Waiter>, i: nat)
    requires i < |queue|
    ensures IsFirst(Cores(queue), i) <==> IsFirst(queue, i)
  {
    var cores := Cores(queue);
    assert forall j :: 0 <= j < |queue| ==> cores[j].semid == queue[j].semid;
  }

  lemma SleepFate(b: Broker, i: nat, world: World)
    requires Valid(b.store) && i < |b.queue|
    ensures Sleep(b, i, world).fate == Asleep || Sleep(b, i, world).fate == Broken
  {
  }

  lemma WakeIsShape(b: Broker, i: nat, world: World)
    requires Sound(b) && i < |b.queue|
    ensures SceneOk(SceneOf(b)) && WaiterOk(b.queue[i])
    ensures SettleShape(SceneOf(b), i, world, Wake(b, i, world))
  {
    hide Valid, WatchersOk, ParseOps, Depart, Settle, QueueOk, Left, Retry;
    SceneIsOk(b);
    WaiterAt(b, i);
    DepartScene(b, i);
    SettleIsShape(b, i, world);
  }

  /** A request that joins the queue. */
  ghost predicate Joins(sc: Scene, request: Packet, actor: Actor, id: nat, world: World, w: Waiter) {
    && Shape(sc.store)
    && w.id == id && w.request == request && w.actor == actor && WaiterOk(w)
    && Blocked(sc.store, w)
    && TryOp(sc.store, w.semid, OpsOf(w), actor.pid, world.realNow).answer == Waits(w.reason)
    && AdjustWait(sc.store, w.semid, w.reason.semNum, w.reason.forZero, true).code == 0
    && Promised(w, world)
  }

  /** The waiter's deadline is the one its request asked for when it was submitted. */
  predicate Promised(w: Waiter, world: World) {
    && Sized(w.request) && (w.request.header.opcode == SEMTIMEDOP ==> |w.request.payload| >= 16)
    && StartDeadline(w.request, world) == Ok(w.deadline)
  }

  /** What submitting a request did after any watching. */
  ghost predicate SubmitShape(sc: Scene, request: Packet, actor: Actor, id: nat, world: World, o: Outcome)
    requires Valid(sc.store) && Sized(request)
  {
    || (o.fate == Immediate && SceneOf(o.broker) == sc)
    || (&& o.fate == Immediate
        && var d := Dispatch(sc.store, request, actor, world.realNow, world.noMemory);
           d.Replied? && SceneOf(o.broker) == sc.(store := d.store))
    || exists w :: JoinsThenSettles(sc, request, actor, id, world, o, w)
  }

  ghost predicate JoinsThenSettles(sc: Scene, request: Packet, actor: Actor, id: nat, world: World, o: Outcome,
                                   w: Waiter) {
    && Joins(sc, request, actor, id, world, w)
    && Shape(Joined(sc, w).store)
    && SettleShape(Joined(sc, w), |sc.queue|, world, o)
  }

  lemma JoinedScene(b: Broker, w: Waiter)
    requires Shape(b.store)
    ensures SceneOf(b.(store := AdjustWait(b.store, w.semid, w.reason.semNum, w.reason.forZero, true).store,
                       queue := b.queue + [w])) == Joined(SceneOf(b), w)
  {
    hide AdjustWait;
    assert Cores(b.queue + [w]) == Cores(b.queue) + [Core(w)];
  }

  lemma SubmitBlockedShape(b: Broker, request: Packet, actor: Actor, id: nat, world: World)
    requires Safe(b) && Sized(request) && IsSemop(request) && forall i :: 0 <= i < |b.queue| ==> b.queue[i].id < id
    requires var d := Dispatch(b.store, request, actor, world.realNow, world.noMemory);
             d.Replied? && d.response.header.result == OP_BLOCKED
    ensures SubmitShape(SceneOf(b), request, actor, id, world,
                        SubmitBlocked(b, request, actor, id, world,
                                      Dispatch(b.store, request, actor, world.realNow, world.noMemory).response))
  {
    hide Safe, AdjustWait, ParseOps, WouldBlock, Settle, Dispatch, StartDeadline, ReadReason, Valid, TryOp, SettleShape,
         Joined, SceneOf;
    SafeParts(b);
    BlockedResponse(b.store, request, actor, world.realNow, world.noMemory);
    ParseOpsKind(request, actor.pid);
    var response := Dispatch(b.store, request, actor, world.realNow, world.noMemory).response;
    var reason := ReasonOf(response);
    var semid := GetI32(request.payload, 0);
    var deadline := StartDeadline(request, world);
    var counted := AdjustWait(b.store, semid, reason.semNum, reason.forZero, true);
    if deadline.Ok? && counted.code == 0 {
      AdjustWaitValid(b.store, semid, reason.semNum, reason.forZero, true);
      AdjustSame(b.store, semid, reason.semNum, reason.forZero, true);
      var w := Waiter(id, request, actor, semid, reason, reason, deadline.value, false);
      QuietSafe(b, counted.store);
      var b' := b.(store := counted.store);
      AppendRests(b', w);
      var b'' := b.(store := counted.store, queue := b.queue + [w]);
      assert b'.(queue := b'.queue + [w]) == b'';
      SettleIsShape(b'', |b.queue|, world);
      JoinedScene(b, w);
      SceneStore(b);
      SceneStore(b'');
      assert JoinsThenSettles(SceneOf(b), request, actor, id, world,
                              SubmitBlocked(b, request, actor, id, world, response), w);
    }
  }

  lemma SceneStore(b: Broker)
    ensures SceneOf(b).store == b.store && |SceneOf(b).queue| == |b.queue| && SceneOf(b).watchers == b.watchers
    ensures Valid(b.store) ==> Shape(b.store)
  {
  }

  lemma SubmitWatchedShape(b: Broker, request: Packet, actor: Actor, id: nat, world: World)
    requires Safe(b) && Sized(request) && forall i :: 0 <= i < |b.queue| ==> b.queue[i].id < id
    ensures SubmitShape(SceneOf(b), request, actor, id, world, SubmitWatched(b, request, actor, id, world))
  {
    hide Safe, Dispatch, SubmitBlocked, Broadcast, ChangedState, IsSemop, QueueOk, Valid, WatchersOk, JoinsThenSettles;
    SafeParts(b);
    var d := Dispatch(b.store, request, actor, world.realNow, world.noMemory);
    if d.Replied? {
      if IsSemop(request) && d.response.header.result == OP_BLOCKED {
        SubmitBlockedShape(b, request, actor, id, world);
      } else {
        BroadcastScene(b.(store := d.store));
      }
    }
  }

  /** Registering a process changes nothing but the watchers, and leaves the process watched on success. */
  lemma WatchScene(b: Broker, pid: i32, lookup: Fault)
    ensures var (b', result) := Watch(b, pid, lookup);
            && SceneOf(b') == SceneOf(b).(watchers := b'.watchers)
            && (result != 0 ==> b' == b)
            && (result == 0 ==> FindWatcher(b'.watchers, pid) < |b'.watchers|)
            && (b'.watchers == b.watchers ||
                exists slot :: 0 <= slot < |b.watchers| && !b.watchers[slot].active
                    && b'.watchers == b.watchers[slot := Watcher(true, pid)])
  {
    var (b', result) := Watch(b, pid, lookup);
    if b' != b {
      var slot := FindIdle(b.watchers);
      BroadcastScene(b.(watchers := b.watchers[slot := Watcher(true, pid)]));
      assert b'.watchers[slot] == Watcher(true, pid);
    }
  }
}
