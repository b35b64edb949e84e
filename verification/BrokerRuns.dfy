/** Whole runs of the broker: any interleaving of requests, wake-ups and monitor scans, and what holds after each. */
module BrokerRuns {
  import opened SemTypes
  import opened Wire
  import opened Protocol
  import opened StoreModel
  import opened SemopAtomic
  import opened StoreValid
  import opened Messages
  import opened Remote
  import opened Timeouts
  import opened BrokerModel
  import opened BrokerSafety
  import opened BrokerShape
  import opened BrokerHistory
  import opened BrokerEpochs
  import opened BrokerCoverage
  import opened BrokerTidy
  import opened BrokerSteps

  /** The state after a run, or None if some step of it was not possible. */
  ghost function Run(steps: seq<Step>): (r: Option<System>)
    ensures r.Some? ==> Good(r.value)
  {
    if steps == [] then
      StartGood();
      Some(Start())
    else
      var last := |steps| - 1;
      var before := Run(steps[..last]);
      if before.None? || !Legal(before.value.broker, steps[last]) then None
      else
        NextGood(before.value, steps[last]);
        Some(Next(before.value, steps[last]))
  }

  // ---------------------------------------------------------------- no lost wake-up

  /** A sleeper behind no other waiter for its set that has not been woken would block again, whenever it were tried. */
  lemma NoLostWakeups(steps: seq<Step>, i: nat, now: i64)
    requires Run(steps).Some? && i < |Run(steps).value.broker.queue|
    ensures var b := Run(steps).value.broker;
            var w := b.queue[i];
            && Shape(b.store) && WaiterOk(w)
            && ((forall j :: 0 <= j < i ==> b.queue[j].semid != w.semid) && !w.signalled ==>
                  && TryOp(b.store, w.semid, OpsOf(w), w.actor.pid, now).code == OP_BLOCKED
                  && TryOp(b.store, w.semid, OpsOf(w), w.actor.pid, now).store == b.store)
  {
    hide Run, Tidy, Fresh, TryOp, ParseOps, Valid, WatchersOk, WouldBlock;
    var b := Run(steps).value.broker;
    var w := b.queue[i];
    ShapeOf(b.store);
    assert Rests(b.store, b.queue, i);
    BlocksIff(b.store, w.semid, OpsOf(w), w.actor.pid, now);
    TryOpAtomic(b.store, w.semid, OpsOf(w), w.actor.pid, now);
  }

  /** The monitor never sleeps without a time limit while a process is watched, nor, if peers close, while one owes. */
  lemma MonitorNeverMisses(steps: seq<Step>, pid: i32)
    requires Run(steps).Some?
    requires Run(steps).value.broker.monitor == Waiting(false, false)
    ensures var s := Run(steps).value;
            !Watched(s.broker.watchers, pid) && (s.history.closed ==> !Owing(s.broker.store.undo, pid))
  {
    hide Run, Fresh, Valid, WatchersOk, QueueOk, NoLostWakeup, SceneOk, FifoOk, EpochOk, DeadlinesOk, KnownOrphans,
         CountsOk, QueueCovered, Owing;
    var s := Run(steps).value;
    assert MonitorOk(s.broker);
    WatchedAny(s.broker.watchers, pid);
    SceneStore(s.broker);
  }

  lemma WatchedAny(watchers: seq<Watcher>, pid: i32)
    ensures Watched(watchers, pid) ==> AnyWatcher(watchers)
  {
  }

  // ---------------------------------------------------------------- wait counters

  /** Each live counter is the number of queued waiters recorded under it, slot reuse included. */
  lemma CountersAgree(steps: seq<Step>, i: nat, k: nat, forZero: bool)
    requires Run(steps).Some? && Run(steps).value.history.current && i < MAX_SETS
    ensures var b := Run(steps).value.broker;
            && Shape(b.store)
            && (b.store.sets[i].active && k < |b.store.sets[i].values| ==>
                  Counter(b.store.sets[i], forZero)[k] ==
                  CountQueue(b.queue, MakeId(i, b.store.sets[i].generation), k, forZero, |b.queue|))
  {
    hide Run, Fresh, Safe, FifoOk, EpochOk, DeadlinesOk, KnownOrphans, Covered, SceneOk, CountQueue, MakeId, AllPlaced;
    var b := Run(steps).value.broker;
    assert CountsSlot(SceneOf(b).store.sets, SceneOf(b).queue, i);
    CountCores(b.queue, MakeId(i, b.store.sets[i].generation), k, forZero, |b.queue|);
  }

  lemma {:induction false} CountCores(queue: seq<Waiter>, semid: int, k: int, forZero: bool, n: nat)
    requires n <= |queue|
    ensures CountQueue(Cores(queue), semid, k, forZero, n) == CountQueue(queue, semid, k, forZero, n)
  {
    if n > 0 { CountCores(queue, semid, k, forZero, n - 1); }
  }

  /** Taking back a waiter's count succeeds exactly when its set has not been removed. */
  lemma DecrementFailsOnlyIfRemoved(steps: seq<Step>, at: nat)
    requires Run(steps).Some? && Run(steps).value.history.current && at < |Run(steps).value.broker.queue|
    ensures var b := Run(steps).value.broker;
            var w := b.queue[at];
            && Shape(b.store)
            && (AdjustWait(b.store, w.semid, w.reason.semNum, w.reason.forZero, false).code == 0 <==>
                  FindSet(b.store, w.semid).Some?)
  {
    hide Run, Fresh, FifoOk, EpochOk, DeadlinesOk, KnownOrphans, Covered, CountOk, Valid, QueueOk, WatchersOk,
         NoLostWakeup, MonitorOk;
    var b := Run(steps).value.broker;
    ShapeOf(b.store);
    SceneStore(b);
    var sc := SceneOf(b);
    assert Placed(sc.store, sc.queue[at]);
    CountLeave(sc.store, sc.queue, at);
  }

  // ---------------------------------------------------------------- order of retries

  /** Batches committed on retry for one set commit in the order their requests were queued. */
  lemma RetriesInOrder(steps: seq<Step>, i: nat, j: nat)
    requires Run(steps).Some? && i < j < |Run(steps).value.history.log|
    requires Run(steps).value.history.log[i].semid == Run(steps).value.history.log[j].semid
    ensures Run(steps).value.history.log[i].id < Run(steps).value.history.log[j].id
  {
    hide Run, Fresh, Safe, EpochOk, DeadlinesOk, KnownOrphans, Covered, SceneOk, CountsOk;
    assert Good(Run(steps).value);
  }

  /** A sleeper that retries is the longest queued for its set, and its result is the store's own. */
  lemma RetryIsEarliest(steps: seq<Step>, at: nat, world: World)
    requires Run(steps).Some? && at < |Run(steps).value.broker.queue|
    requires Act(Run(steps).value, WakeStep(at, world)).fate.Retried?
    ensures var b := Run(steps).value.broker;
            var w := b.queue[at];
            && (forall j :: 0 <= j < |b.queue| && j != at && b.queue[j].semid == w.semid ==> w.id < b.queue[j].id)
            && Shape(b.store) && WaiterOk(w)
            && Act(Run(steps).value, WakeStep(at, world)).fate.code ==
               TryOp(b.store, w.semid, OpsOf(w), w.actor.pid, world.realNow).code != OP_BLOCKED
  {
    hide Run, Fresh, Tidy, Wake, WaiterOk, Valid, TryOp, NoLostWakeup, MonitorOk, WatchersOk, Left;
    var s := Run(steps).value;
    var b := s.broker;
    SafeParts(b);
    WaiterAt(b, at);
    WakeIsShape(b, at, world);
    SceneStore(b);
    CoreFirst(b.queue, at);
    assert IsFirst(b.queue, at);
    RetryOf(b, at, world.realNow);
  }

  lemma RetryOf(b: Broker, at: nat, now: i64)
    requires Shape(b.store) && at < |b.queue| && WaiterOk(b.queue[at]) && WaiterOk(SceneOf(b).queue[at])
    ensures Retry(SceneOf(b), at, now) ==
            TryOp(b.store, b.queue[at].semid, OpsOf(b.queue[at]), b.queue[at].actor.pid, now)
  {
    hide TryOp, ParseOps;
  }

  // ---------------------------------------------------------------- undo coverage

  /** If the connections of exited processes are seen closed, every process that owes has exactly one watcher. */
  lemma OwingIsWatchedOnce(steps: seq<Step>, pid: i32)
    requires Run(steps).Some? && Run(steps).value.history.closed
    requires Owing(Run(steps).value.broker.store.undo, pid)
    ensures var watchers := Run(steps).value.broker.watchers;
            exists i :: 0 <= i < |watchers| && watchers[i] == Watcher(true, pid) &&
                        forall j :: 0 <= j < |watchers| && watchers[j].active && watchers[j].pid == pid ==> j == i
  {
    hide Run, Fresh, Valid, QueueOk, NoLostWakeup, MonitorOk, FifoOk, EpochOk, DeadlinesOk, KnownOrphans, CountsOk,
         QueueCovered, Owing;
    var b := Run(steps).value.broker;
    SceneStore(b);
    assert Watched(b.watchers, pid);
    var i :| 0 <= i < |b.watchers| && b.watchers[i].active && b.watchers[i].pid == pid;
    assert b.watchers[i] == Watcher(true, pid);
    assert forall j :: 0 <= j < |b.watchers| && b.watchers[j].active && b.watchers[j].pid == pid ==> j == i;
  }

  // ---------------------------------------------------------------- deadlines and answers

  /** A timeout reply goes only to a timed request, and not before its timeout has passed since it was submitted. */
  lemma TimeoutNeverEarly(steps: seq<Step>, at: nat, world: World)
    requires Run(steps).Some? && at < |Run(steps).value.broker.queue|
    requires Act(Run(steps).value, WakeStep(at, world)).fate == TimedOut
    ensures var w := Run(steps).value.broker.queue[at];
            var starts := Run(steps).value.history.starts;
            && w.id in starts && w.request.header.opcode == SEMTIMEDOP && |w.request.payload| >= 16
            && var timeout := GetI64(w.request.payload, 8);
               var start := starts[w.id];
               && timeout >= 0 && Compare(world.now, Deadline(start, timeout)) >= 0
               && (Normal(world.now) && Normal(start) && start.sec + timeout / BILLION <= INT_MAX ==>
                     Nanos(world.now) >= Nanos(start) + timeout)
  {
    hide Run, Fresh, Safe, SceneOk, FifoOk, EpochOk, KnownOrphans, CountsOk, Covered, Deadline, Settle, Depart,
         WaiterOk;
    var s := Run(steps).value;
    SafeParts(s.broker);
    WaiterAt(s.broker, at);
    SettleFate(s.broker, at, world);
    assert DeadlineOk(SceneOf(s.broker).queue[at], s.history);
    var w := s.broker.queue[at];
    if Normal(world.now) && Normal(s.history.starts[w.id]) {
      DeadlineExact(s.history.starts[w.id], GetI64(w.request.payload, 8));
      CompareIsOrder(world.now, w.deadline.value);
    }
  }

  lemma SettleFate(b: Broker, i: nat, world: World)
    requires Sound(b) && i < |b.queue| && WaiterOk(b.queue[i])
    ensures Settle(b, i, world).fate != TimedOut && Settle(b, i, world).fate != Immediate
  {
    hide Dispatch, Depart, ParseOps, Valid, IsFirst;
  }

  /** A client whose connection is open never sees BLOCKED as the outcome of a semop. */
  lemma OpenNeverBlocked(steps: seq<Step>, step: Step)
    requires Run(steps).Some? && Legal(Run(steps).value.broker, step)
    requires var o := Act(Run(steps).value, step); o.reply.Answered? && o.reply.response.header.result == OP_BLOCKED
    ensures step.WakeStep? ==> step.world.peerClosed
    ensures step.SubmitStep? && IsSemop(step.request) ==> step.world.peerClosed
  {
    hide Run, Fresh, Tidy, Wake, Submit, ParseOps, Safe, Scan;
    var s := Run(steps).value;
    SafeParts(s.broker);
    match step
    case SubmitStep(request, actor, world) =>
      if IsSemop(request) { SubmitNotBlocked(s.broker, request, actor, s.history.nextId, world); }
    case WakeStep(at, world) => WaiterAt(s.broker, at); WakeNotBlocked(s.broker, at, world);
    case ScanStep(_, _) =>
  }

  predicate SaysBlocked(o: Outcome) {
    o.reply.Answered? && o.reply.response.header.result == OP_BLOCKED
  }

  lemma SettleNotBlocked(b: Broker, i: nat, world: World)
    requires Valid(b.store) && i < |b.queue| && Sized(b.queue[i].request)
    ensures SaysBlocked(Settle(b, i, world)) ==> world.peerClosed
  {
    hide Dispatch, Depart, Valid, IsFirst, ReadReason;
  }

  lemma WakeNotBlocked(b: Broker, i: nat, world: World)
    requires Valid(b.store) && i < |b.queue| && Sized(b.queue[i].request)
    ensures SaysBlocked(Wake(b, i, world)) ==> world.peerClosed
  {
    hide Settle, Depart, Valid;
    SettleNotBlocked(b, i, world);
  }

  lemma SubmitNotBlocked(b: Broker, request: Packet, actor: Actor, id: nat, world: World)
    requires Valid(b.store) && Sized(request) && IsSemop(request)
    ensures SaysBlocked(Submit(b, request, actor, id, world)) ==> world.peerClosed
  {
    hide Valid, UsesUndo, Watch, SubmitWatched;
    var (b', result) := Watch(b, actor.pid, world.pidLookup);
    WatchResult(b, actor.pid, world.pidLookup);
    SubmitWatchedNotBlocked(b, request, actor, id, world);
    SubmitWatchedNotBlocked(b', request, actor, id, world);
  }

  lemma WatchResult(b: Broker, pid: i32, lookup: Fault)
    ensures Watch(b, pid, lookup).1 <= 0 && Watch(b, pid, lookup).0.store == b.store
  {
  }

  lemma SubmitWatchedNotBlocked(b: Broker, request: Packet, actor: Actor, id: nat, world: World)
    requires Valid(b.store) && Sized(request) && IsSemop(request)
    ensures SaysBlocked(SubmitWatched(b, request, actor, id, world)) ==> world.peerClosed
  {
    hide Valid, Dispatch, Settle, AdjustWait, StartDeadline, ReadReason, Broadcast;
    ShapeOf(b.store);
    var d := Dispatch(b.store, request, actor, world.realNow, world.noMemory);
    if d.Replied? && d.response.header.result == OP_BLOCKED {
      var reason := ReadReason(d.response);
      if reason.Some? && |request.payload| >= 4 && (request.header.opcode == SEMTIMEDOP ==> |request.payload| >= 16) {
        var semid := GetI32(request.payload, 0);
        var counted := AdjustWait(b.store, semid, reason.value.semNum, reason.value.forZero, true);
        AdjustWaitValid(b.store, semid, reason.value.semNum, reason.value.forZero, true);
        var deadline := StartDeadline(request, world);
        if deadline.Ok? {
          var w := Waiter(id, request, actor, semid, reason.value, reason.value, deadline.value, false);
          SettleNotBlocked(b.(store := counted.store, queue := b.queue + [w]), |b.queue|, world);
        }
      }
    }
  }

  /** A request is answered exactly when it leaves the queue: a wake-up without an answer leaves the queue as it was. */
  lemma AnsweredOnce(steps: seq<Step>, at: nat, world: World)
    requires Run(steps).Some? && at < |Run(steps).value.broker.queue|
    ensures var b := Run(steps).value.broker;
            var o := Act(Run(steps).value, WakeStep(at, world));
            if o.reply == Nothing then Cores(o.broker.queue) == Cores(b.queue)
            else Cores(o.broker.queue) == Without(Cores(b.queue), at)
  {
    hide Run, Fresh, Tidy, Wake, ParseOps, Valid, NoLostWakeup, MonitorOk, WatchersOk, Retry, AdjustWait;
    var s := Run(steps).value;
    SafeParts(s.broker);
    WaiterAt(s.broker, at);
    WakeIsShape(s.broker, at, world);
    WakeReply(s.broker, at, world);
  }

  lemma WakeReply(b: Broker, at: nat, world: World)
    requires Valid(b.store) && at < |b.queue| && Sized(b.queue[at].request)
    ensures Wake(b, at, world).reply == Nothing <==> Wake(b, at, world).fate == Asleep
  {
    hide Dispatch, Depart, Valid, IsFirst, ReadReason;
  }
}
