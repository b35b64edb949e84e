/**
 The broker as a state machine. Every stretch of code that runs under the
 broker's mutex is one step; what the operating system answers (clocks, peer
 state, pidfds, wait results, memory) is a parameter of the step. The condition
 variable is a flag on each sleeper that a broadcast raises.
 */
module BrokerModel {
  import opened SemTypes
  import opened Wire
  import opened Protocol
  import opened StoreModel
  import opened StoreValid
  import opened Messages
  import opened Remote
  import opened Timeouts

  const MAX_WATCHERS := 1024

  /** A blocked semop: its request, the wait it is counted under, its deadline, and whether it has been woken. */
  datatype Waiter = Waiter(
    id: nat,
    request: Packet,
    actor: Actor,
    semid: i32,
    reason: WaitReason,
    last: WaitReason,
    deadline: Option<Time>,
    signalled: bool)

  datatype Watcher = Watcher(active: bool, pid: i32)

  /** The monitor thread between scans: waiting with or without a time limit, or gone. */
  datatype Monitor = Waiting(timed: bool, signalled: bool) | Stopped

  datatype Broker = Broker(store: Store, queue: seq<Waiter>, watchers: seq<Watcher>, monitor: Monitor)

  /** What the operating system answers during one step. */
  datatype World = World(
    now: Time,
    realNow: i64,
    peerClosed: bool,
    noMemory: bool,
    pidLookup: Fault,
    clockFailure: Fault,
    waitFailure: Fault,
    sleepFailure: Fault)

  /** 0, or the error number of a failed operating system call. */
  type Fault = f: int | 0 <= f < 0x1000

  /** Why a request left the broker, or that it sleeps. */
  datatype Fate = Immediate | Asleep | Retried(code: int) | PeerGone | TimedOut | Broken

  datatype Reply = Nothing | Hangup(code: int) | Answered(response: Packet)

  datatype Outcome = Outcome(broker: Broker, reply: Reply, fate: Fate)

  // ---------------------------------------------------------------- the condition variable

  function Raise(queue: seq<Waiter>): (r: seq<Waiter>)
    ensures |r| == |queue|
    ensures forall i :: 0 <= i < |queue| ==> r[i] == queue[i].(signalled := true)
  {
    seq(|queue|, i requires 0 <= i < |queue| => queue[i].(signalled := true))
  }

  function Broadcast(b: Broker): Broker {
    b.(queue := Raise(b.queue), monitor := if b.monitor.Waiting? then b.monitor.(signalled := true) else b.monitor)
  }

  // ---------------------------------------------------------------- the queue

  predicate IsFirst(queue: seq<Waiter>, i: nat)
    requires i < |queue|
  {
    forall j :: 0 <= j < i ==> queue[j].semid != queue[i].semid
  }

  function Without<T>(queue: seq<T>, i: nat): seq<T>
    requires i < |queue|
  {
    queue[..i] + queue[i + 1..]
  }

  /** Unlinks the waiter, takes back its count whatever that returns, and wakes everyone. */
  function Depart(b: Broker, i: nat): Broker
    requires Shape(b.store) && i < |b.queue|
  {
    var w := b.queue[i];
    Broadcast(b.(store := AdjustWait(b.store, w.semid, w.reason.semNum, w.reason.forZero, false).store,
                 queue := Without(b.queue, i)))
  }

  // ---------------------------------------------------------------- watchers

  function FindWatcher(watchers: seq<Watcher>, pid: i32, from: nat := 0): (i: nat)
    requires from <= |watchers|
    ensures from <= i <= |watchers|
    ensures i < |watchers| ==> watchers[i].active && watchers[i].pid == pid
    ensures forall j :: from <= j < i ==> !(watchers[j].active && watchers[j].pid == pid)
    decreases |watchers| - from
  {
    if from == |watchers| || (watchers[from].active && watchers[from].pid == pid) then from
    else FindWatcher(watchers, pid, from + 1)
  }

  function FindIdle(watchers: seq<Watcher>, from: nat := 0): (i: nat)
    requires from <= |watchers|
    ensures from <= i <= |watchers|
    ensures i < |watchers| ==> !watchers[i].active
    ensures forall j :: from <= j < i ==> watchers[j].active
    decreases |watchers| - from
  {
    if from == |watchers| || !watchers[from].active then from else FindIdle(watchers, from + 1)
  }

  /** Registers a process for exit monitoring; `lookup` is how finding the process went. */
  function Watch(b: Broker, pid: i32, lookup: Fault): (Broker, i32) {
    if FindWatcher(b.watchers, pid) < |b.watchers| then (b, 0)
    else
      var slot := FindIdle(b.watchers);
      if slot == |b.watchers| then (b, -ENOSPC)
      else if lookup != 0 then (b, -(lookup as int))
      else (Broadcast(b.(watchers := b.watchers[slot := Watcher(true, pid)])), 0)
  }

  // ---------------------------------------------------------------- requests

  predicate IsSemop(request: Packet) {
    request.header.opcode == SEMOP || request.header.opcode == SEMTIMEDOP
  }

  predicate ChangedState(request: Packet, response: Packet) {
    && response.header.result == 0
    && (request.header.opcode == REMOVE || request.header.opcode == SETVAL || request.header.opcode == SETALL
          || IsSemop(request))
  }

  function ErrorResponse(request: Packet, result: i32): Packet {
    Packet(Header(VERSION, RESPONSE, request.header.opcode, request.header.requestId, 0, result), [])
  }

  /** The reason a blocked response carries, if it is well formed. */
  function ReadReason(response: Packet): Option<WaitReason> {
    var b := response.payload;
    if |b| != 8 || GetU16(b, 2) > 1 || GetU32(b, 4) != 0 then None
    else Some(WaitReason(GetU16(b, 0), GetU16(b, 2) == 1))
  }

  function StartDeadline(request: Packet, world: World): Result<Option<Time>>
    requires Sized(request) && (request.header.opcode == SEMTIMEDOP ==> |request.payload| >= 16)
  {
    if request.header.opcode != SEMTIMEDOP then Ok(None)
    else if GetI64(request.payload, 8) < 0 then Err(-EINVAL)
    else if world.clockFailure != 0 then Err(-(world.clockFailure as int))
    else Ok(Some(Deadline(world.now, GetI64(request.payload, 8))))
  }

  /** A request whose process can be watched, or the refusal it gets. */
  ghost function Submit(b: Broker, request: Packet, actor: Actor, id: nat, world: World): Outcome
    requires Valid(b.store) && Sized(request)
  {
    if UsesUndo(request) then
      var (b', result) := Watch(b, actor.pid, world.pidLookup);
      if result != 0 then Outcome(b, Answered(ErrorResponse(request, result)), Immediate)
      else SubmitWatched(b', request, actor, id, world)
    else SubmitWatched(b, request, actor, id, world)
  }

  ghost function SubmitWatched(b: Broker, request: Packet, actor: Actor, id: nat, world: World): Outcome
    requires Valid(b.store) && Sized(request)
  {
    match Dispatch(b.store, request, actor, world.realNow, world.noMemory)
    case Dropped(code) => Outcome(b, Hangup(code), Immediate)
    case Replied(st, response) =>
      var b' := b.(store := st);
      if !IsSemop(request) || response.header.result != OP_BLOCKED then
        Outcome(if ChangedState(request, response) then Broadcast(b') else b', Answered(response), Immediate)
      else SubmitBlocked(b, request, actor, id, world, response)
  }

  /** A batch that blocked: count it, queue it, and go once round the retry loop before sleeping. */
  ghost function SubmitBlocked(b: Broker, request: Packet, actor: Actor, id: nat, world: World,
                               response: Packet): Outcome
    requires Valid(b.store) && Sized(request)
  {
    var reason := ReadReason(response);
    if reason.None? || |request.payload| < 4 || (request.header.opcode == SEMTIMEDOP && |request.payload| < 16) then
      Outcome(b, Hangup(-EPROTO), Immediate)
    else
      var deadline := StartDeadline(request, world);
      if deadline.Err? then Outcome(b, Hangup(deadline.errno), Immediate)
      else
        var semid := GetI32(request.payload, 0);
        var counted := AdjustWait(b.store, semid, reason.value.semNum, reason.value.forZero, true);
        if counted.code != 0 then Outcome(b, Hangup(counted.code), Immediate)
        else
          AdjustWaitValid(b.store, semid, reason.value.semNum, reason.value.forZero, true);
          var w := Waiter(id, request, actor, semid, reason.value, reason.value, deadline.value, false);
          Settle(b.(store := counted.store, queue := b.queue + [w]), |b.queue|, world)
  }

  /** One pass of the retry loop up to the next sleep. */
  ghost function Settle(b: Broker, i: nat, world: World): Outcome
    requires Valid(b.store) && i < |b.queue| && Sized(b.queue[i].request)
  {
    var w := b.queue[i];
    if world.peerClosed then Outcome(Depart(b, i), Answered(Respond(w.request, OP_BLOCKED, Waits(w.last))), PeerGone)
    else if !IsFirst(b.queue, i) then Sleep(b, i, world)
    else
      match Dispatch(b.store, w.request, w.actor, world.realNow, world.noMemory)
      case Dropped(code) => Outcome(Depart(b, i), Hangup(code), Broken)
      case Replied(st, response) =>
        if response.header.result != OP_BLOCKED then
          DispatchValid(b.store, w.request, w.actor, world.realNow, world.noMemory);
          Outcome(Depart(b.(store := st), i), Answered(response), Retried(response.header.result))
        else
          var last := ReadReason(response);
          Sleep(b.(queue := b.queue[i := w.(last := if last.Some? then last.value else w.last)]), i, world)
  }

  ghost function Sleep(b: Broker, i: nat, world: World): Outcome
    requires Valid(b.store) && i < |b.queue|
  {
    if world.sleepFailure != 0 then Outcome(Depart(b, i), Hangup(-(world.sleepFailure as int)), Broken)
    else Outcome(b.(queue := b.queue[i := b.queue[i].(signalled := false)]), Nothing, Asleep)
  }

  /** A sleeper wakes, for whatever reason. */
  ghost function Wake(b: Broker, i: nat, world: World): Outcome
    requires Valid(b.store) && i < |b.queue| && Sized(b.queue[i].request)
  {
    var w := b.queue[i];
    if world.waitFailure != 0 then Outcome(Depart(b, i), Hangup(-(world.waitFailure as int)), Broken)
    else if w.deadline.Some? && world.clockFailure != 0 then
      Outcome(Depart(b, i), Hangup(-(world.clockFailure as int)), Broken)
    else if w.deadline.Some? && Compare(world.now, w.deadline.value) >= 0 then
      Outcome(Depart(b, i), Answered(ErrorResponse(w.request, -EAGAIN)), TimedOut)
    else Settle(b, i, world)
  }

  ghost function StoreAfter(d: Dispatched, st: Store): Store {
    if d.Replied? then d.store else st
  }

  lemma DispatchValid(st: Store, request: Packet, actor: Actor, now: i64, noMemory: bool)
    requires Valid(st) && Sized(request)
    ensures Valid(StoreAfter(Dispatch(st, request, actor, now, noMemory), st))
  {
    hide Parse, Apply, Respond, Valid;
    var parsed := Parse(request, actor, noMemory);
    if parsed.Accepted? { ApplyValid(st, parsed.call, now); }
  }

  // ---------------------------------------------------------------- the monitor

  /** One watcher: a process that has exited is replayed and forgotten. */
  ghost function Reap(b: Broker, i: nat, exited: bool, now: i64): Broker
    requires Shape(b.store) && i < |b.watchers|
  {
    var watcher := b.watchers[i];
    if !watcher.active || !exited then b
    else
      var r := ProcessExit(b.store, watcher.pid, now);
      var b' := b.(store := r.store, watchers := b.watchers[i := Watcher(false, 0)]);
      if r.code > 0 then Broadcast(b') else b'
  }

  lemma ReapValid(b: Broker, i: nat, exited: bool, now: i64)
    requires Valid(b.store) && i < |b.watchers|
    ensures var r := Reap(b, i, exited, now); Valid(r.store) && |r.watchers| == |b.watchers|
  {
    hide Apply;
    ExitApplied(b.store, b.watchers[i].pid, now);
    ApplyValid(b.store, ExitCall(b.watchers[i].pid), now);
  }

  lemma ExitApplied(st: Store, pid: i32, now: i64)
    requires Shape(st)
    ensures Apply(st, ExitCall(pid), now) == ProcessExit(st, pid, now)
  {
  }

  /** The scan after its first `n` watchers. */
  ghost function ReapTo(b: Broker, exited: seq<bool>, now: i64, n: nat): (r: Broker)
    requires Valid(b.store) && |exited| == |b.watchers| && n <= |b.watchers|
    ensures Valid(r.store) && |r.watchers| == |b.watchers|
  {
    if n == 0 then b
    else
      var before := ReapTo(b, exited, now, n - 1);
      ReapValid(before, n - 1, exited[n - 1], now);
      Reap(before, n - 1, exited[n - 1], now)
  }

  predicate AnyWatcher(watchers: seq<Watcher>) {
    exists i :: 0 <= i < |watchers| && watchers[i].active
  }

  /** The monitor wakes and scans, ending in the wait that suits what is left to watch. A failed timed wait ends it. */
  ghost function Scan(b: Broker, exited: seq<bool>, world: World): Broker
    requires Valid(b.store) && |exited| == |b.watchers| && b.monitor.Waiting?
  {
    if b.monitor.timed && world.waitFailure != 0 then b.(monitor := Stopped)
    else
      var after := ReapTo(b, exited, world.realNow, |b.watchers|);
      after.(monitor := if !AnyWatcher(after.watchers) then Waiting(false, false)
                        else if world.clockFailure != 0 then Stopped
                        else Waiting(true, false))
  }
}
