/**
 Why coverage needs the connections of exited processes to be seen closed: a run,
 step by step, after which a process that no longer exists owes an adjustment
 and nobody watches it.
 */
module BrokerWitness {
  import opened SemTypes
  import opened Protocol
  import opened StoreModel
  import opened SemopMeaning
  import opened SemopAtomic
  import opened StoreValid
  import opened Timeouts
  import opened Messages
  import opened Remote
  import opened BrokerModel
  import opened BrokerSafety
  import opened BrokerShape
  import opened BrokerCoverage
  import opened BrokerTidy
  import opened BrokerSteps
  import opened BrokerRuns
  import opened BrokerAnswers

  // ---------------------------------------------------------------- steps of a run, one at a time

  lemma RunExtends(steps: seq<Step>, step: Step)
    requires BrokerRuns.Run(steps).Some? && Legal(BrokerRuns.Run(steps).value.broker, step)
    ensures BrokerRuns.Run(steps + [step]) == Some(Next(BrokerRuns.Run(steps).value, step))
  {
    hide Next, Good;
    assert (steps + [step])[..|steps + [step]| - 1] == steps;
  }

  lemma NextBroker(s: System, step: Step)
    requires Good(s) && Legal(s.broker, step)
    ensures Safe(s.broker) && Next(s, step).broker == Act(s, step).broker
  {
    hide Act, Note, Judge, Tidy;
  }

  /** A call that is no semop changes only the store, as the direct call does. */
  lemma PlainArrival(b: Broker, c: ClientCall, packetId: u32, actor: Actor, id: nat, world: World)
    requires Safe(b) && Valid(b.store) && Shape(b.store) && Build(c).Ok? && !c.Operate? && actor.pid > 0
    ensures var o := Submit(b, Sent(c, packetId), actor, id, world);
            && SceneOf(o.broker) ==
                 SceneOf(b).(store := Perform(b.store, Asked(c, actor, world.noMemory), world.realNow).store)
            && (o.broker.monitor.Waiting? <==> b.monitor.Waiting?)
            && (o.broker.monitor.Waiting? ==> o.broker.monitor.timed == b.monitor.timed)
  {
    hide Safe, Valid, Dispatch, Perform, Asked, ChangedState, Build, SceneOf, Tells;
    SemopIsOperate(c, packetId);
    QuietRequest(Sent(c, packetId));
    DispatchTells(b.store, c, packetId, actor, world);
    var d := Dispatch(b.store, Sent(c, packetId), actor, world.realNow, world.noMemory);
    BroadcastScene(b.(store := d.store));
    StoreScene(b, d.store);
  }

  lemma QuietRequest(request: Packet)
    requires Sized(request) && !IsSemop(request)
    ensures !UsesUndo(request)
  {
  }

  lemma StoreScene(b: Broker, st: Store)
    ensures SceneOf(b.(store := st)) == SceneOf(b).(store := st)
  {
  }

  /** The batch as the dispatcher reads it. */
  lemma ReadsBatch(c: ClientCall, packetId: u32, actor: Actor)
    requires c.Operate? && c.timeout.None? && Build(c).Ok?
    ensures var p := Sent(c, packetId);
            && IsSemop(p) && p.header.opcode == SEMOP
            && ParseOps(p, actor.pid) == Accepted(TryOpCall(c.semid, c.ops, actor.pid))
  {
    hide Parse, ParseOps, OperatePayload;
    BuildParses(c, packetId, actor, false);
    ParseSemop(Sent(c, packetId), actor, false);
  }

  /** Its one operation is on semaphore 0, whose wait counters can be raised. */
  predicate Room(st: Store, c: ClientCall)
    requires Shape(st) && c.Operate?
  {
    && |c.ops| == 1 && c.ops[0].semNum == 0
    && AdjustWait(st, c.semid, 0, false, true).code == 0 && AdjustWait(st, c.semid, 0, true, true).code == 0
  }

  lemma ReasonHere(st: Store, c: ClientCall, pid: i32, now: i64)
    requires Shape(st) && c.Operate? && Room(st, c) && WouldBlock(st, c.semid, c.ops)
    ensures var r := TryOp(st, c.semid, c.ops, pid, now);
            r.answer.Waits? && AdjustWait(st, c.semid, r.answer.reason.semNum, r.answer.reason.forZero, true).code == 0
  {
    hide AdjustWait;
  }

  lemma BlocksNow(b: Broker, c: ClientCall, packetId: u32, actor: Actor, world: World)
    requires Valid(b.store) && Shape(b.store) && actor.pid > 0
    requires c.Operate? && c.timeout.None? && Build(c).Ok? && WouldBlock(b.store, c.semid, c.ops) && Room(b.store, c)
    ensures var d := Dispatch(b.store, Sent(c, packetId), actor, world.realNow, world.noMemory);
            && d.Replied? && d.response.header.result == OP_BLOCKED && Counts(b.store, Sent(c, packetId), d.response)
  {
    hide Valid, Dispatch, ParseOps, WouldBlock, Build, AdjustWait, ReadReason, TryOp, IsSemop;
    var request := Sent(c, packetId);
    ReadsBatch(c, packetId, actor);
    BlocksIff(b.store, c.semid, c.ops, actor.pid, world.realNow);
    BlockedIsBlocked(b.store, c, packetId, actor, world);
    BlockedResponse(b.store, request, actor, world.realNow, world.noMemory);
    ReasonHere(b.store, c, actor.pid, world.realNow);
  }

  /** The waiter the batch becomes. */
  ghost predicate Queues(b: Broker, c: ClientCall, packetId: u32, actor: Actor, id: nat, world: World, o: Outcome,
                         w: Waiter)
    requires Build(c).Ok? && c.Operate?
  {
    && Joins(SceneOf(b), Sent(c, packetId), actor, id, world, w) && w.semid == c.semid && w.deadline.None?
    && OpsOf(w) == c.ops && SceneOf(o.broker) == Joined(SceneOf(b), w)
  }

  /** A batch that blocks, with nothing failing and its peer there, joins the queue and sleeps. */
  lemma BlockedArrival(b: Broker, c: ClientCall, packetId: u32, actor: Actor, id: nat, world: World)
    requires Safe(b) && Valid(b.store) && Shape(b.store) && actor.pid > 0
    requires forall i :: 0 <= i < |b.queue| ==> b.queue[i].id < id
    requires c.Operate? && c.timeout.None? && Build(c).Ok? && WouldBlock(b.store, c.semid, c.ops) && Room(b.store, c)
    requires !world.peerClosed && world.sleepFailure == 0
    ensures var o := SubmitWatched(b, Sent(c, packetId), actor, id, world);
            && o.broker.monitor == b.monitor && exists w :: Queues(b, c, packetId, actor, id, world, o, w)
  {
    hide Safe, Valid, Dispatch, ParseOps, WouldBlock, Build, AdjustWait, ReadReason, TryOp, SubmitBlocked, Room, Counts,
         SettleShape, Joined, SceneOf, SubmitShape, StartDeadline;
    var request := Sent(c, packetId);
    BlocksNow(b, c, packetId, actor, world);
    ReadsBatch(c, packetId, actor);
    BlockedIsNotAnswered(b, request, actor, id, world);
    SubmitBlockedShape(b, request, actor, id, world);
    var o := SubmitWatched(b, request, actor, id, world);
    SceneStore(b);
    SleepsInQueue(b, request, actor, id, world, o);
    var w :| Joins(SceneOf(b), request, actor, id, world, w) && SceneOf(o.broker) == Joined(SceneOf(b), w);
    UntimedStarts(request, world);
    assert Queues(b, c, packetId, actor, id, world, o, w);
    AsleepMonitor(b, request, actor, id, world);
  }

  lemma SleepsInQueue(b: Broker, request: Packet, actor: Actor, id: nat, world: World, o: Outcome)
    requires Valid(b.store) && Shape(b.store) && Sized(request) && o.fate == Asleep
    requires SceneOf(b).store == b.store && SubmitShape(SceneOf(b), request, actor, id, world, o)
    ensures exists w :: Joins(SceneOf(b), request, actor, id, world, w) && SceneOf(o.broker) == Joined(SceneOf(b), w)
  {
    hide Joins, Joined, SceneOf, Dispatch, Valid;
    var w :| JoinsThenSettles(SceneOf(b), request, actor, id, world, o, w);
  }

  lemma AsleepMonitor(b: Broker, request: Packet, actor: Actor, id: nat, world: World)
    requires Valid(b.store) && Sized(request) && SubmitWatched(b, request, actor, id, world).fate == Asleep
    ensures SubmitWatched(b, request, actor, id, world).broker.monitor == b.monitor
  {
    hide Valid, Dispatch, ReadReason, StartDeadline, AdjustWait, Depart, Broadcast;
  }

  // ---------------------------------------------------------------- a scan that finds one process gone

  /** Only the first watcher is active. */
  predicate OnlyFirst(watchers: seq<Watcher>, pid: i32) {
    && |watchers| == MAX_WATCHERS && watchers[0] == Watcher(true, pid)
    && forall i :: 0 < i < |watchers| ==> !watchers[i].active
  }

  predicate NoneActive(watchers: seq<Watcher>) {
    |watchers| == MAX_WATCHERS && forall i :: 0 <= i < |watchers| ==> !watchers[i].active
  }

  predicate NoDebts(undo: seq<UndoEntry>) {
    forall j :: 0 <= j < |undo| ==> !undo[j].active
  }

  lemma NobodyExits(st: Store, pid: i32, now: i64)
    requires Shape(st) && NoDebts(st.undo) && pid > 0
    ensures ProcessExit(st, pid, now).store == st && ProcessExit(st, pid, now).code <= 0
  {
    ExitNothing(st, pid, now, MAX_UNDO);
    NothingChanges(st, pid, now, MAX_UNDO);
  }

  lemma {:induction false} NothingChanges(st: Store, pid: i32, now: i64, n: nat)
    requires Shape(st) && NoDebts(st.undo) && n <= MAX_UNDO
    ensures !ExitChanged(st, pid, now, n)
  {
    if n > 0 {
      NothingChanges(st, pid, now, n - 1);
      ExitNothing(st, pid, now, n - 1);
    }
  }

  lemma {:induction false} ReapsFirst(b: Broker, exited: seq<bool>, now: i64, n: nat, pid: i32)
    requires Valid(b.store) && |exited| == |b.watchers| && 0 < n <= |b.watchers| && exited[0]
    requires OnlyFirst(b.watchers, pid) && NoDebts(b.store.undo) && pid > 0
    ensures ReapTo(b, exited, now, n) == b.(watchers := b.watchers[0 := Watcher(false, 0)])
  {
    hide Valid, ProcessExit, Broadcast;
    ShapeOf(b.store);
    NobodyExits(b.store, pid, now);
    if n > 1 { ReapsFirst(b, exited, now, n - 1, pid); } else { assert ReapTo(b, exited, now, 0) == b; }
  }

  /** The scan forgets the process and touches nothing else. */
  lemma ScanForgets(b: Broker, exited: seq<bool>, world: World, pid: i32)
    requires Valid(b.store) && |exited| == |b.watchers| == MAX_WATCHERS && exited[0] && pid > 0
    requires b.monitor.Waiting? && !b.monitor.timed && OnlyFirst(b.watchers, pid) && NoDebts(b.store.undo)
    ensures var r := Scan(b, exited, world);
            && r == b.(watchers := b.watchers[0 := Watcher(false, 0)], monitor := Waiting(false, false))
            && NoneActive(r.watchers)
  {
    hide Valid, ReapTo;
    ReapsFirst(b, exited, world.realNow, MAX_WATCHERS, pid);
  }

  // ---------------------------------------------------------------- the store on the way

  const GONE: i32 := 100
  const OTHER: i32 := 200
  const SEMID: i32 := 0x1_0001
  const QUIET := World(Time(0, 0), 0, false, false, 0, 0, 0, 0)

  function Who(pid: i32): Actor {
    Actor(pid, Identity(0, 0))
  }

  function Creates(): ClientCall {
    SemGet(IPC_PRIVATE, 1, 0)
  }

  /** One unit is taken with SEM_UNDO. */
  function Takes(): ClientCall {
    Operate(SEMID, [SemOp(0, -1, SEM_UNDO)], None)
  }

  function Raises(): ClientCall {
    WriteVal(SEMID, 0, 1)
  }

  /** One semaphore in slot 0, with this value, and nobody owing. */
  predicate Stage(st: Store, v: int) {
    && Shape(st) && FindSet(st, SEMID) == Some(0) && st.sets[0].values == [v] && NoDebts(st.undo)
    && |st.sets[0].negWaiters| == |st.sets[0].zeroWaiters| == 1
  }

  lemma CallsBuild()
    ensures Build(Creates()).Ok? && Build(Takes()).Ok? && Build(Raises()).Ok?
  {
  }

  lemma AfterCreate()
    ensures Shape(Init())
    ensures var st := Perform(Init(), Asked(Creates(), Who(OTHER), false), 0).store;
            Stage(st, 0) && st.sets[0].negWaiters[0] == 0 == st.sets[0].zeroWaiters[0]
  {
    hide Get, Stage;
    AfterGet();
  }

  lemma AfterGet()
    ensures var st := Get(Init(), IPC_PRIVATE, 1, 0, Who(OTHER).identity, 0, false).store;
            Stage(st, 0) && st.sets[0].negWaiters[0] == 0 == st.sets[0].zeroWaiters[0]
  {
    hide FindKey, HasFlag;
    assert FindSlot(Init().sets) == 0;
  }

  lemma AfterJoin(st: Store, w: Waiter)
    requires Stage(st, 0)
    ensures Stage(AdjustWait(st, w.semid, w.reason.semNum, w.reason.forZero, true).store, 0)
  {
  }

  lemma AfterSetVal(st: Store)
    requires Stage(st, 0)
    ensures Stage(SetVal(st, SEMID, 0, 1, OTHER, 0).store, 1)
  {
    hide Cleared, DecodeId;
    var st' := SetVal(st, SEMID, 0, 1, OTHER, 0).store;
    assert st'.sets[0].values == [0][0 := 1];
  }

  lemma AfterRaise(st: Store)
    requires Stage(st, 0)
    ensures Stage(Perform(st, Asked(Raises(), Who(OTHER), false), 0).store, 1)
  {
    hide SetVal, Stage;
    AfterSetVal(st);
  }

  lemma TakeBlocks(st: Store)
    requires Stage(st, 0) && st.sets[0].negWaiters[0] == 0 == st.sets[0].zeroWaiters[0]
    ensures WouldBlock(st, SEMID, Takes().ops) && Room(st, Takes())
  {
    var ops := Takes().ops;
    assert EvalTo(st.sets[0].values, ops, 0) == Ready([0]);
    assert EvalTo(st.sets[0].values, ops, 1) == Blocks(0);
  }

  lemma {:induction false} AllFree(undo: seq<UndoEntry>, n: nat)
    requires NoDebts(undo) && n <= |undo|
    ensures CountFree(undo, n) == n
  {
    if n > 0 { AllFree(undo, n - 1); }
  }

  lemma TakePasses()
    ensures var ops := Takes().ops; ValidBatch(ops, 1) && NamesOnly(ops, 1) && Passes([1], ops, 0) && !NoNetUndo(ops)
  {
    var ops := Takes().ops;
    assert ops[0].Undo() && !ops[0].NoWait();
    assert Part(ops, 0, 0, true) == 0 && Part(ops, 0, 0, false) == 0;
    assert Part(ops, ops[0].semNum, 1, true) == -1;
  }

  lemma TakeDeltas()
    ensures var ops := Takes().ops; NamesOnly(ops, 1) && DeltasTo(ops, 1, 1) == Some([1])
  {
    var ops := Takes().ops;
    assert ops[0].Undo();
    var zeros: seq<int> := seq(1, _ => 0);
    assert DeltasTo(ops, 1, 0) == Some(zeros);
    assert zeros[0 := 1] == [1];
  }

  lemma OneReserved(undo: seq<UndoEntry>)
    requires NoDebts(undo)
    ensures ReserveTo(undo, GONE, SEMID, [1], 1) == Some(1)
  {
    assert ReserveTo(undo, GONE, SEMID, [1], 0) == Some(0);
    assert FindUndo(undo, GONE, SEMID, 0) == |undo|;
  }

  lemma TakeRuns(st: Store)
    requires Stage(st, 1)
    ensures Runnable(st, SEMID, Takes().ops, GONE) && !NoNetUndo(Takes().ops)
  {
    hide Passes, DeltasTo, ReserveTo, CountFree, ValidBatch, NoNetUndo, FindSet;
    TakePasses();
    TakeDeltas();
    AllFree(st.undo, |st.undo|);
    OneReserved(st.undo);
  }

  // ---------------------------------------------------------------- the run

  /** The batch that takes a unit sleeps in the queue, alone. */
  ghost predicate Sleeping(b: Broker, w: Waiter, v: int) {
    && SceneOf(b).queue == [Core(w)] && Stage(b.store, v) && b.monitor.Waiting? && !b.monitor.timed
    && WaiterOk(w) && w.semid == SEMID && w.actor == Who(GONE) && w.deadline.None? && OpsOf(w) == Takes().ops
  }

  const FIRST := SubmitStep(Sent(Creates(), 1), Who(OTHER), QUIET)
  const SECOND := SubmitStep(Sent(Takes(), 2), Who(GONE), QUIET)
  const THIRD := ScanStep(seq(MAX_WATCHERS, i => i == 0), QUIET)
  const FOURTH := SubmitStep(Sent(Raises(), 3), Who(OTHER), QUIET)
  const FIFTH := WakeStep(0, QUIET)

  /** OTHER creates a set. */
  lemma Created(s: System)
    requires s == Start()
    ensures Good(s) && Legal(s.broker, FIRST)
    ensures var b := Next(s, FIRST).broker;
            && SceneOf(b).queue == [] && NoneActive(b.watchers) && b.monitor.Waiting? && !b.monitor.timed
            && Stage(b.store, 0) && b.store.sets[0].negWaiters[0] == 0 == b.store.sets[0].zeroWaiters[0]
  {
    StartGood();
    hide Stage, Perform, Asked, Good, Safe, Submit, Next, Legal, Sent, Build;
    CallsBuild();
    LegalSubmit(s.broker, Creates(), 1, OTHER);
    GoodSafe(s);
    SafeParts(s.broker);
    NextSubmit(s, Creates(), 1, Who(OTHER));
    PlainArrival(s.broker, Creates(), 1, Who(OTHER), s.history.nextId, QUIET);
    AfterCreate();
    SceneStore(Next(s, FIRST).broker);
  }

  lemma LegalSubmit(b: Broker, c: ClientCall, packetId: u32, pid: i32)
    requires Build(c).Ok? && pid > 0
    ensures Legal(b, SubmitStep(Sent(c, packetId), Who(pid), QUIET))
  {
    hide Build;
  }

  lemma NextSubmit(s: System, c: ClientCall, packetId: u32, actor: Actor)
    requires Good(s) && Build(c).Ok? && Legal(s.broker, SubmitStep(Sent(c, packetId), actor, QUIET))
    ensures Valid(s.broker.store)
    ensures Next(s, SubmitStep(Sent(c, packetId), actor, QUIET)).broker ==
            Submit(s.broker, Sent(c, packetId), actor, s.history.nextId, QUIET).broker
  {
    hide Good, Submit, Build, Safe, Next;
    GoodSafe(s);
    SafeParts(s.broker);
    NextBroker(s, SubmitStep(Sent(c, packetId), actor, QUIET));
  }

  /** GONE tries to take a unit: it is watched, blocks and sleeps. */
  lemma BlocksAndSleeps(s: System)
    requires Good(s) && SceneOf(s.broker).queue == [] && NoneActive(s.broker.watchers)
    requires s.broker.monitor.Waiting? && !s.broker.monitor.timed && Stage(s.broker.store, 0)
    requires s.broker.store.sets[0].negWaiters[0] == 0 == s.broker.store.sets[0].zeroWaiters[0]
    ensures Legal(s.broker, SECOND)
    ensures var b := Next(s, SECOND).broker; OnlyFirst(b.watchers, GONE) && exists w :: Sleeping(b, w, 0)
  {
    hide Good, Safe, Submit, Next, Legal, Sent, Build, SubmitWatched, Watch, WouldBlock, Room, Joins, AdjustWait,
         ParseOps, Joined, SceneOf;
    CallsBuild();
    LegalSubmit(s.broker, Takes(), 2, GONE);
    GoodSafe(s);
    SafeParts(s.broker);
    NextSubmit(s, Takes(), 2, Who(GONE));
    var b0, id := s.broker, s.history.nextId;
    SceneStore(b0);
    WatchesFirst(b0, GONE);
    WatchSafe(b0, GONE, 0);
    var b := Watch(b0, GONE, 0).0;
    TakeBlocks(b.store);
    BlockedArrival(b, Takes(), 2, Who(GONE), id, QUIET);
    UndoSubmit(b0, id);
    var o := SubmitWatched(b, Sent(Takes(), 2), Who(GONE), id, QUIET);
    var w :| Queues(b, Takes(), 2, Who(GONE), id, QUIET, o, w);
    QueuedAlone(b, id, o, w);
    assert Sleeping(o.broker, w, 0);
  }

  /** The request is announced as using SEM_UNDO, so its process is watched first. */
  lemma UndoSubmit(b: Broker, id: nat)
    requires Build(Takes()).Ok? && Valid(b.store) && Watch(b, GONE, 0).1 == 0 && Watch(b, GONE, 0).0.store == b.store
    ensures Submit(b, Sent(Takes(), 2), Who(GONE), id, QUIET) ==
            SubmitWatched(Watch(b, GONE, 0).0, Sent(Takes(), 2), Who(GONE), id, QUIET)
  {
    hide Valid, Watch, SubmitWatched, UsesUndo, Parse, Build;
    BuildParses(Takes(), 2, Who(GONE), false);
    UsesUndoAgrees(Sent(Takes(), 2), Who(GONE), false);
    assert Takes().ops[0].Undo();
  }

  lemma WatchesFirst(b: Broker, pid: i32)
    requires NoneActive(b.watchers)
    ensures var (b', result) := Watch(b, pid, 0);
            && result == 0 && b'.store == b.store && OnlyFirst(b'.watchers, pid) && |b'.queue| == |b.queue|
            && (b'.monitor.Waiting? <==> b.monitor.Waiting?)
            && (b'.monitor.Waiting? ==> b'.monitor.timed == b.monitor.timed)
  {
    assert FindIdle(b.watchers) == 0;
  }

  lemma QueuedAlone(b: Broker, id: nat, o: Outcome, w: Waiter)
    requires Build(Takes()).Ok? && Queues(b, Takes(), 2, Who(GONE), id, QUIET, o, w) && |b.queue| == 0
             && Stage(b.store, 0)
    ensures SceneOf(o.broker).queue == [Core(w)] && Stage(o.broker.store, 0) && o.broker.watchers == b.watchers
    ensures WaiterOk(w) && w.actor == Who(GONE)
  {
    hide Stage, AdjustWait, ParseOps, TryOp, WouldBlock, Build, Promised;
    AfterJoin(b.store, w);
    SceneStore(o.broker);
    SceneStore(b);
    assert SceneOf(b).queue == [];
  }

  /** GONE exits; the scan forgets it, though its batch is still queued. */
  lemma Forgotten(s: System, w: Waiter)
    requires Good(s) && OnlyFirst(s.broker.watchers, GONE) && Sleeping(s.broker, w, 0)
    ensures Legal(s.broker, THIRD)
    ensures var b := Next(s, THIRD).broker; NoneActive(b.watchers) && Sleeping(b, w, 0)
  {
    hide Good, Safe, Next, Scan, ParseOps, SceneOf, Valid, Submit, Wake, WaiterOk, Core;
    GoodSafe(s);
    SafeParts(s.broker);
    NextBroker(s, THIRD);
    ScanForgets(s.broker, THIRD.exited, QUIET, GONE);
    WatcherScene(s.broker, Next(s, THIRD).broker);
  }

  lemma WatcherScene(b: Broker, b': Broker)
    requires b' == b.(watchers := b'.watchers, monitor := b'.monitor)
    ensures SceneOf(b').queue == SceneOf(b).queue
  {
  }

  /** OTHER raises the semaphore to one. */
  lemma Raised(s: System, w: Waiter)
    requires Good(s) && NoneActive(s.broker.watchers) && Sleeping(s.broker, w, 0)
    ensures Legal(s.broker, FOURTH)
    ensures var b := Next(s, FOURTH).broker; NoneActive(b.watchers) && Sleeping(b, w, 1)
  {
    hide Stage, Perform, Asked, Good, Safe, Submit, Next, Legal, Sent, Build, ParseOps, SceneOf;
    CallsBuild();
    LegalSubmit(s.broker, Raises(), 3, OTHER);
    GoodSafe(s);
    SafeParts(s.broker);
    NextSubmit(s, Raises(), 3, Who(OTHER));
    PlainArrival(s.broker, Raises(), 3, Who(OTHER), s.history.nextId, QUIET);
    AfterRaise(s.broker.store);
    SceneStore(s.broker);
    SceneStore(Next(s, FOURTH).broker);
  }

  /** The sleeper wakes, finds its connection open, and commits. */
  lemma Commits(s: System, w: Waiter)
    requires Good(s) && NoneActive(s.broker.watchers) && Sleeping(s.broker, w, 1)
    ensures Legal(s.broker, FIFTH)
    ensures var b := Next(s, FIFTH).broker; Owing(b.store.undo, GONE) && !Watched(b.watchers, GONE)
  {
    hide Good, Safe, Next, Wake, ParseOps, Stage, TryOp, Owing, Runnable, NoNetUndo, Left, SceneOf, WaiterOk;
    GoodSafe(s);
    SafeParts(s.broker);
    var b := s.broker;
    SceneStore(b);
    QueueOfOne(b, w);
    NextBroker(s, FIFTH);
    WaiterAt(b, 0);
    TakeRuns(b.store);
    SucceedsIff(b.store, SEMID, Takes().ops, GONE, 0);
    StageOwes(b.store);
    OwesAfterIff(b.store, SEMID, Takes().ops, GONE, 0);
    WakeCommits(b, w);
  }

  lemma StageOwes(st: Store)
    requires Stage(st, 1)
    ensures !Owing(st.undo, GONE) && Shape(st)
  {
  }

  lemma QueueOfOne(b: Broker, w: Waiter)
    requires SceneOf(b).queue == [Core(w)] && WaiterOk(w)
    ensures |b.queue| == 1 && Core(b.queue[0]) == Core(w)
    ensures WaiterOk(b.queue[0]) && OpsOf(b.queue[0]) == OpsOf(w) && b.queue[0].semid == w.semid
    ensures b.queue[0].actor == w.actor && b.queue[0].deadline == w.deadline
  {
    hide ParseOps;
    assert SceneOf(b).queue[0] == Core(b.queue[0]);
  }

  lemma WakeCommits(b: Broker, w: Waiter)
    requires Sound(b) && Shape(b.store) && |b.queue| == 1 && WaiterOk(b.queue[0]) && b.queue[0].deadline.None?
    requires OpsOf(b.queue[0]) == Takes().ops && b.queue[0].semid == SEMID && b.queue[0].actor == Who(GONE)
    requires TryOp(b.store, SEMID, Takes().ops, GONE, 0).code == 0
    ensures var o := Wake(b, 0, QUIET);
            && o.broker.store.undo == TryOp(b.store, SEMID, Takes().ops, GONE, 0).store.undo
            && o.broker.watchers == b.watchers
  {
    hide Valid, Dispatch, ParseOps, TryOp, Encodable, Respond, ReadReason, WatchersOk, QueueOk, AdjustWait;
    var x := b.queue[0];
    var r := TryOp(b.store, SEMID, Takes().ops, GONE, 0);
    WaiterDispatch(b.store, x, 0, false);
    RespondHeader(x.request, r.code, r.answer);
    TryOpValid(b.store, SEMID, Takes().ops, GONE, 0);
    ShapeOf(r.store);
    AdjustUndo(r.store, x.semid, x.reason.semNum, x.reason.forZero);
  }

  lemma AdjustUndo(st: Store, semid: i32, semNum: nat, forZero: bool)
    requires Shape(st)
    ensures AdjustWait(st, semid, semNum, forZero, false).store.undo == st.undo
  {
  }

  /** A SEM_UNDO batch blocks, its process exits and is forgotten, the value is raised, and the batch commits on a
      connection that is still open: a process that is gone owes, and no watcher will ever replay it. */
  lemma DebtorUnwatched()
    ensures var run := BrokerRuns.Run([FIRST, SECOND, THIRD, FOURTH, FIFTH]);
            run.Some? && Owing(run.value.broker.store.undo, GONE) && !Watched(run.value.broker.watchers, GONE)
  {
    hide BrokerRuns.Run, Next, Legal, Good, Sleeping, Stage, Owing, Watched, SceneOf;
    StartRuns();
    var s0 := Start();
    Created(s0);
    RunExtends([], FIRST);
    assert [] + [FIRST] == [FIRST];
    var s1 := Next(s0, FIRST);
    BlocksAndSleeps(s1);
    RunExtends([FIRST], SECOND);
    assert [FIRST] + [SECOND] == [FIRST, SECOND];
    var s2 := Next(s1, SECOND);
    var w :| Sleeping(s2.broker, w, 0);
    Forgotten(s2, w);
    RunExtends([FIRST, SECOND], THIRD);
    assert [FIRST, SECOND] + [THIRD] == [FIRST, SECOND, THIRD];
    var s3 := Next(s2, THIRD);
    Raised(s3, w);
    RunExtends([FIRST, SECOND, THIRD], FOURTH);
    assert [FIRST, SECOND, THIRD] + [FOURTH] == [FIRST, SECOND, THIRD, FOURTH];
    var s4 := Next(s3, FOURTH);
    Commits(s4, w);
    RunExtends([FIRST, SECOND, THIRD, FOURTH], FIFTH);
    assert [FIRST, SECOND, THIRD, FOURTH] + [FIFTH] == [FIRST, SECOND, THIRD, FOURTH, FIFTH];
  }

  lemma StartRuns()
    ensures BrokerRuns.Run([]) == Some(Start())
  {
    hide Good;
  }
}
