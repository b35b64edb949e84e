/** The steps of the broker seen by an observer, each keeping the bookkeeping invariant. */
module BrokerSteps {
  import opened SemTypes
  import opened Wire
  import opened StoreModel
  import opened StoreValid
  import opened ExitReplay
  import opened Messages
  import opened Remote
  import opened StaleIds
  import opened BrokerModel
  import opened BrokerSafety
  import opened BrokerShape
  import opened BrokerHistory
  import opened BrokerEpochs
  import opened BrokerCoverage
  import opened BrokerTidy

  /** A request arrives, a sleeper wakes, or the monitor scans its watchers. */
  datatype Step =
    | SubmitStep(request: Packet, actor: Actor, world: World)
    | WakeStep(at: nat, world: World)
    | ScanStep(exited: seq<bool>, world: World)

  datatype System = System(broker: Broker, history: History)

  function Idle(): Watcher {
    Watcher(false, 0)
  }

  function Start(): System {
    System(Broker(Init(), [], seq(MAX_WATCHERS, _ => Idle()), Waiting(false, false)),
           History(0, [], seq(MAX_SETS, _ => 0), map[], map[], {}, true, true))
  }

  predicate Legal(b: Broker, step: Step) {
    match step
    case SubmitStep(request, actor, _) => Sized(request) && actor.pid > 0
    case WakeStep(at, _) => at < |b.queue|
    case ScanStep(exited, _) => b.monitor.Waiting? && |exited| == |b.watchers|
  }

  /** What the step does to the broker and what became of the request. */
  ghost function Act(s: System, step: Step): Outcome
    requires Safe(s.broker) && Legal(s.broker, step)
  {
    SafeParts(s.broker);
    var b := s.broker;
    match step
    case SubmitStep(request, actor, world) => Submit(b, request, actor, s.history.nextId, world)
    case WakeStep(at, world) => WaiterAt(b, at); Wake(b, at, world)
    case ScanStep(exited, world) => Outcome(Scan(b, exited, world), Nothing, Immediate)
  }

  /** Waiters whose process was watched before the scan and no longer is. */
  ghost function Lost(queue: seq<Waiter>, before: seq<Watcher>, after: seq<Watcher>): set<nat> {
    set j | 0 <= j < |queue| && Watched(before, queue[j].actor.pid) && !Watched(after, queue[j].actor.pid) ::
      queue[j].id
  }

  /** What the observer notes. */
  ghost function Note(h: History, b: Broker, step: Step, o: Outcome): History
    requires Legal(b, step) && |h.removals| == |b.store.sets| == |o.broker.store.sets| == MAX_SETS
  {
    match step
    case SubmitStep(request, _, world) =>
      var joined :=
        if o.fate == Immediate then h.(nextId := h.nextId + 1)
        else JoinHistory(h, h.nextId, GetI32Of(request), world.now);
      Logged(joined, o.fate, GetI32Of(request), h.nextId).(removals := Bumped(h.removals, b.store, o.broker.store))
    case WakeStep(at, world) =>
      var w := b.queue[at];
      Logged(h.(closed := h.closed && (w.id in h.orphans ==> world.peerClosed)), o.fate, w.semid, w.id)
    case ScanStep(_, _) =>
      h.(orphans := h.orphans + Lost(Cores(b.queue), b.watchers, o.broker.watchers))
  }

  ghost function Judge(h: History, queue: seq<Waiter>): History {
    h.(current := h.current && Fresh(queue, h))
  }

  ghost predicate Good(s: System) {
    && Safe(s.broker) && Tidy(SceneOf(s.broker), s.history)
    && (s.history.current ==> Fresh(SceneOf(s.broker).queue, s.history))
  }

  ghost function Next(s: System, step: Step): System
    requires Good(s) && Legal(s.broker, step)
  {
    GoodParts(s);
    var o := Act(s, step);
    ActSafe(s, step);
    var h := Note(s.history, s.broker, step, o);
    System(o.broker, Judge(h, SceneOf(o.broker).queue))
  }

  lemma GoodParts(s: System)
    requires Good(s)
    ensures |s.history.removals| == |s.broker.store.sets| == MAX_SETS
    ensures forall j :: 0 <= j < |s.broker.queue| ==> s.broker.queue[j].id < s.history.nextId
  {
    hide Safe, SceneOk, DeadlinesOk, KnownOrphans, Covered, CountsOk, Fresh, GenOk, EpochWaiter;
    var sc := SceneOf(s.broker);
    RemovalsLength(sc, s.history);
    assert forall j :: 0 <= j < |s.broker.queue| ==> sc.queue[j].id == s.broker.queue[j].id;
  }

  lemma ActSafe(s: System, step: Step)
    requires Good(s) && Legal(s.broker, step)
    ensures Safe(Act(s, step).broker) && |Act(s, step).broker.store.sets| == MAX_SETS
  {
    hide Good, Safe, Tidy, Submit, Wake, Scan, WaiterOk;
    GoodSafe(s);
    GoodParts(s);
    SafeParts(s.broker);
    match step {
      case SubmitStep(request, actor, world) => SubmitSafe(s.broker, request, actor, s.history.nextId, world);
      case WakeStep(at, world) => WakeSafe(s.broker, at, world);
      case ScanStep(exited, world) => ScanSafe(s.broker, exited, world);
    }
    SafeParts(Act(s, step).broker);
  }

  lemma GoodSafe(s: System)
    requires Good(s)
    ensures Safe(s.broker) && Tidy(SceneOf(s.broker), s.history)
    ensures s.history.current ==> Fresh(SceneOf(s.broker).queue, s.history)
  {
  }

  // ---------------------------------------------------------------- requests

  lemma DispatchTidy(sc: Scene, h: History, request: Packet, actor: Actor, world: World)
    requires Tidy(sc, h) && (h.current ==> Fresh(sc.queue, h)) && Shape(sc.store) && Valid(sc.store) && Sized(request)
    requires UsesUndo(request) ==> Watched(sc.watchers, actor.pid)
    requires Dispatch(sc.store, request, actor, world.realNow, world.noMemory).Replied?
    ensures var st := Dispatch(sc.store, request, actor, world.realNow, world.noMemory).store;
            && |h.removals| == |st.sets| == MAX_SETS
            && Tidy(sc.(store := st), h.(removals := Bumped(h.removals, sc.store, st)))
  {
    hide Parse, Apply, Respond, Encodable, UsesUndo, Watched, Valid, Covered, EpochOk, DeadlinesOk, QueueOk, WatchersOk,
         CountsOk, Fresh, Bumped, FifoOk;
    RemovalsLength(sc, h);
    var parsed := Parse(request, actor, world.noMemory);
    var st := Dispatch(sc.store, request, actor, world.realNow, world.noMemory).store;
    if h.closed { DispatchCovers(sc, h.orphans, request, actor, world.realNow, world.noMemory); }
    if parsed.Accepted? {
      ParseKind(request, actor, world.noMemory);
      CallTidy(sc, h, parsed.call, world.realNow, sc.watchers, h.orphans);
    } else {
      assert st == sc.store;
      BumpedSame(h.removals, sc.store, st);
    }
  }

  lemma SubmitWatchedTidy(b: Broker, h: History, request: Packet, actor: Actor, world: World)
    requires Good(System(b, h)) && Legal(b, SubmitStep(request, actor, world)) && Valid(b.store)
    requires UsesUndo(request) ==> Watched(b.watchers, actor.pid)
    ensures var o := SubmitWatched(b, request, actor, h.nextId, world);
            && |h.removals| == |b.store.sets| == |o.broker.store.sets| == MAX_SETS
            && Tidy(SceneOf(o.broker), Note(h, b, SubmitStep(request, actor, world), o))
  {
    hide Good, Safe, Tidy, SubmitWatched, UsesUndo, Watched, Valid, SceneOf, Dispatch, JoinsThenSettles, Fresh, Bumped,
         SlotOf;
    GoodSafe(System(b, h));
    GoodParts(System(b, h));
    SafeParts(b);
    SceneStore(b);
    var sc := SceneOf(b);
    var o := SubmitWatched(b, request, actor, h.nextId, world);
    SceneStore(o.broker);
    SubmitWatchedShape(b, request, actor, h.nextId, world);
    if exists w :: JoinsThenSettles(sc, request, actor, h.nextId, world, o, w) {
      var w :| JoinsThenSettles(sc, request, actor, h.nextId, world, o, w);
      JoinedParts(sc, h.nextId, w, request, actor, world, o);
      JoinedTidy(sc, h, w, world, o);
      BumpedSame(h.removals, b.store, o.broker.store);
    } else {
      if SceneOf(o.broker) == sc {
        BumpedSame(h.removals, b.store, o.broker.store);
        LaterTidy(sc, h);
      } else {
        DispatchTidy(sc, h, request, actor, world);
        var st := Dispatch(sc.store, request, actor, world.realNow, world.noMemory).store;
        LaterTidy(sc.(store := st), h.(removals := Bumped(h.removals, sc.store, st)));
      }
    }
  }

  lemma JoinedParts(sc: Scene, id: nat, w: Waiter, request: Packet, actor: Actor, world: World, o: Outcome)
    requires JoinsThenSettles(sc, request, actor, id, world, o, w)
    ensures w.id == id && w.request == request && w.actor == actor && GetI32Of(request) == w.semid
            && o.fate != Immediate
  {
    hide ParseOps, TryOp, AdjustWait, WouldBlock, GetI32, Left, Retry;
    ParseOpsKind(w.request, w.actor.pid);
  }

  lemma JoinedTidy(sc: Scene, h: History, w: Waiter, world: World, o: Outcome)
    requires Tidy(sc, h) && (h.current ==> Fresh(sc.queue, h)) && w.id == h.nextId
    requires JoinsThenSettles(sc, w.request, w.actor, w.id, world, o, w) && Shape(sc.store)
    requires UsesUndo(w.request) ==> Watched(sc.watchers, w.actor.pid)
    ensures SameActive(sc.store, o.broker.store) && |h.removals| == MAX_SETS
    ensures Tidy(SceneOf(o.broker), Logged(JoinHistory(h, w.id, w.semid, world.now), o.fate, w.semid, w.id))
  {
    hide Tidy, UsesUndo, Watched, SettleShape, Fresh, Joins, SceneOf, JoinHistory, AdjustWait, ParseOps;
    TidyIds(sc, h);
    JoinTidy(sc, h, w, world);
    var h' := JoinHistory(h, w.id, w.semid, world.now);
    JoinFlags(sc, h, w, world);
    if h.current { JoinFresh(sc, h, w, world); }
    JoinCore(sc, w, world);
    SettleTidy(Joined(sc, w), h', |sc.queue|, world, o);
    AdjustActive(sc.store, w.semid, w.reason.semNum, w.reason.forZero, true);
    ActiveChain(sc.store, Joined(sc, w).store, o.broker.store);
  }

  lemma TidyIds(sc: Scene, h: History)
    requires Tidy(sc, h)
    ensures forall j :: 0 <= j < |sc.queue| ==> sc.queue[j].id < h.nextId
  {
    hide SceneOk, EpochOk, DeadlinesOk, KnownOrphans, CountsOk, Covered;
    FifoFresh(sc.queue, h);
  }

  lemma JoinFlags(sc: Scene, h: History, w: Waiter, world: World)
    requires Tidy(sc, h) && |h.removals| == MAX_SETS && w.id == h.nextId
             && Joins(sc, w.request, w.actor, w.id, world, w)
    ensures var h' := JoinHistory(h, w.id, w.semid, world.now);
            h'.current == h.current && h'.closed == h.closed && h'.orphans == h.orphans && w.id !in h'.orphans
    ensures SlotOf(w.semid) < MAX_SETS
  {
    hide SceneOk, FifoOk, EpochOk, DeadlinesOk, CountsOk, Covered, ParseOps, TryOp, AdjustWait, MakeId;
    LiveWaiter(sc.store, w);
  }

  lemma JoinCore(sc: Scene, w: Waiter, world: World)
    requires Shape(sc.store) && Joins(sc, w.request, w.actor, w.id, world, w)
    ensures |Joined(sc, w).queue| == |sc.queue| + 1 && Joined(sc, w).queue[|sc.queue|] == Core(w)
    ensures WaiterOk(Core(w)) && Core(w).semid == w.semid && Core(w).id == w.id
    ensures Joined(sc, w).store == AdjustWait(sc.store, w.semid, w.reason.semNum, w.reason.forZero, true).store
  {
    hide AdjustWait, ParseOps, WouldBlock, TryOp;
  }

  lemma SubmitTidy(s: System, request: Packet, actor: Actor, world: World)
    requires Good(s) && Legal(s.broker, SubmitStep(request, actor, world)) && Valid(s.broker.store)
    ensures var o := Submit(s.broker, request, actor, s.history.nextId, world);
            && |s.history.removals| == |s.broker.store.sets| == |o.broker.store.sets| == MAX_SETS
            && Tidy(SceneOf(o.broker), Note(s.history, s.broker, SubmitStep(request, actor, world), o))
  {
    hide Good, Tidy, SubmitWatched, UsesUndo, Watched, Valid, Bumped, Watch, Safe, JoinHistory;
    GoodSafe(s);
    GoodParts(s);
    var b, h := s.broker, s.history;
    SceneStore(b);
    if UsesUndo(request) {
      WatchGood(s, actor.pid, world.pidLookup);
      var (b', result) := Watch(b, actor.pid, world.pidLookup);
      if result != 0 {
        BumpedSame(h.removals, b.store, b.store);
        LaterTidy(SceneOf(b), h);
      } else {
        SubmitWatchedTidy(b', h, request, actor, world);
      }
    } else {
      SubmitWatchedTidy(b, h, request, actor, world);
    }
  }

  lemma WatchGood(s: System, pid: i32, lookup: Fault)
    requires Good(s) && pid > 0
    ensures var (b', result) := Watch(s.broker, pid, lookup);
            Good(System(b', s.history)) && b'.store == s.broker.store && (result == 0 ==> Watched(b'.watchers, pid))
  {
    hide Tidy, Safe, Fresh, Broadcast, Watch, SceneOf;
    WatchSafe(s.broker, pid, lookup);
    WatchScene(s.broker, pid, lookup);
    WatchSlot(s.broker, pid, lookup);
    SceneStore(s.broker);
    var (b', result) := Watch(s.broker, pid, lookup);
    if b'.watchers != s.broker.watchers {
      var slot :| 0 <= slot < |s.broker.watchers| && !s.broker.watchers[slot].active
          && b'.watchers == s.broker.watchers[slot := Watcher(true, pid)];
      WatchTidy(SceneOf(s.broker), s.history, slot, pid);
    }
  }

  lemma WatchSlot(b: Broker, pid: i32, lookup: Fault)
    ensures var (b', result) := Watch(b, pid, lookup);
            b'.watchers != b.watchers ==>
              forall i :: 0 <= i < |b.watchers| && b.watchers[i].active ==> b.watchers[i].pid != pid
  {
  }

  // ---------------------------------------------------------------- wake-ups

  lemma WakeTidy(s: System, at: nat, world: World)
    requires Good(s) && at < |s.broker.queue| && Valid(s.broker.store) && WaiterOk(s.broker.queue[at])
    ensures var o := Wake(s.broker, at, world);
            && |s.history.removals| == |s.broker.store.sets| == |o.broker.store.sets| == MAX_SETS
            && Tidy(SceneOf(o.broker), Note(s.history, s.broker, WakeStep(at, world), o))
  {
    hide Good, Tidy, Valid, Safe, Wake, ParseOps, SettleShape, Fresh;
    GoodSafe(s);
    GoodParts(s);
    SafeParts(s.broker);
    var b, h := s.broker, s.history;
    SceneStore(b);
    WakeIsShape(b, at, world);
    WaiterAt(b, at);
    var h' := h.(closed := h.closed && (b.queue[at].id in h.orphans ==> world.peerClosed));
    FlagTidy(SceneOf(b), h, h');
    SettleTidy(SceneOf(b), h', at, world, Wake(b, at, world));
  }

  lemma FlagTidy(sc: Scene, h: History, h': History)
    requires Tidy(sc, h) && h' == h.(closed := h'.closed) && (h'.closed ==> h.closed)
    ensures Tidy(sc, h') && (Fresh(sc.queue, h) ==> Fresh(sc.queue, h'))
  {
    hide SceneOk, EpochOk, DeadlinesOk, CountsOk, Covered, SlotOf;
    SameEpochs(sc.store, sc.queue, h, h');
    SameDeadlines(sc.queue, h, h');
    if Fresh(sc.queue, h) {
      forall j | 0 <= j < |sc.queue| ensures FreshFor(h', sc.queue[j]) { assert FreshFor(h, sc.queue[j]); }
    }
  }

  // ---------------------------------------------------------------- scans

  /** Watchers that were watching before are the only ones left. */
  ghost predicate Fewer(after: seq<Watcher>, before: seq<Watcher>) {
    |after| == |before| && forall i :: 0 <= i < |after| ==> after[i] == before[i] || !after[i].active
  }

  lemma FewerWatched(after: seq<Watcher>, before: seq<Watcher>, pid: i32)
    requires Fewer(after, before) && Watched(after, pid)
    ensures Watched(before, pid)
  {
  }

  function Unwatch(watchers: seq<Watcher>, i: nat): seq<Watcher>
    requires i < |watchers|
  {
    watchers[i := Watcher(false, 0)]
  }

  lemma UnwatchOk(watchers: seq<Watcher>, i: nat, before: seq<Watcher>)
    requires WatchersOk(watchers) && i < |watchers| && watchers[i].active && Fewer(watchers, before)
    ensures WatchersOk(Unwatch(watchers, i)) && Fewer(Unwatch(watchers, i), before)
            && Fewer(Unwatch(watchers, i), watchers)
    ensures !Watched(Unwatch(watchers, i), watchers[i].pid) && Watched(watchers, watchers[i].pid)
  {
  }

  /** Losing one more watcher orphans the waiters of its process. */
  lemma LostMore(queue: seq<Waiter>, watchers: seq<Watcher>, i: nat, before: seq<Watcher>)
    requires WatchersOk(watchers) && i < |watchers| && watchers[i].active && Fewer(watchers, before)
    ensures Lost(queue, before, watchers) + OrphanIds(queue, watchers[i].pid) <=
            Lost(queue, before, Unwatch(watchers, i))
  {
    hide WatchersOk, Watched, Fewer, Unwatch;
    UnwatchOk(watchers, i, before);
    FewerWatched(watchers, before, watchers[i].pid);
    forall j | 0 <= j < |queue| && !Watched(watchers, queue[j].actor.pid)
      ensures !Watched(Unwatch(watchers, i), queue[j].actor.pid)
    {
      if Watched(Unwatch(watchers, i), queue[j].actor.pid) {
        FewerWatched(Unwatch(watchers, i), watchers, queue[j].actor.pid);
      }
    }
  }

  lemma MoreOrphans(sc: Scene, orphans: set<nat>, orphans': set<nat>)
    requires Covered(sc, orphans) && orphans <= orphans'
    ensures Covered(sc, orphans')
  {
    hide UsesUndo, Watched, Owing;
    forall j | 0 <= j < |sc.queue| ensures WaiterCovered(sc.queue[j], sc.watchers, orphans') {
      assert WaiterCovered(sc.queue[j], sc.watchers, orphans);
    }
  }

  function Orphaned(h: History, orphans: set<nat>): History {
    h.(orphans := h.orphans + orphans)
  }

  lemma LostKnown(sc: Scene, h: History, before: seq<Watcher>, after: seq<Watcher>)
    requires FifoOk(sc.queue, h) && KnownOrphans(h)
    ensures KnownOrphans(Orphaned(h, Lost(sc.queue, before, after)))
  {
    hide Watched;
  }

  lemma ReapMove(sc: Scene, h: History, i: nat, now: i64, before: seq<Watcher>)
    requires Tidy(sc, Orphaned(h, Lost(sc.queue, before, sc.watchers))) && KnownOrphans(h)
    requires (h.current ==> Fresh(sc.queue, h)) && Shape(sc.store)
    requires i < |sc.watchers| && sc.watchers[i].active && Fewer(sc.watchers, before)
    ensures Tidy(Scene(ProcessExit(sc.store, sc.watchers[i].pid, now).store, sc.queue, Unwatch(sc.watchers, i)),
                 Orphaned(h, Lost(sc.queue, before, Unwatch(sc.watchers, i))))
  {
    hide Valid, EpochOk, DeadlinesOk, FifoOk, QueueOk, CountsOk, Covered, ProcessExit, Lost, Unwatch, Fewer, WatchersOk,
         Fresh, KnownOrphans, Bumped;
    var pid := sc.watchers[i].pid;
    var h1 := Orphaned(h, Lost(sc.queue, before, sc.watchers));
    var watchers := Unwatch(sc.watchers, i);
    var orphans := h.orphans + Lost(sc.queue, before, watchers);
    var st := ProcessExit(sc.store, pid, now).store;
    UnwatchOk(sc.watchers, i, before);
    LostMore(sc.queue, sc.watchers, i, before);
    SameFifo(sc.queue, h1, h);
    LostKnown(sc, h, before, watchers);
    ExitApplied(sc.store, pid, now);
    if h.closed {
      ReapCovers(sc, h1.orphans, i, now);
      UnwatchIs(sc.watchers, i);
      MoreOrphans(Scene(st, sc.queue, watchers), h1.orphans + OrphanIds(sc.queue, pid), orphans);
    }
    SameFresh(sc.queue, h, h1);
    CallTidy(sc, h1, ExitCall(pid), now, watchers, orphans);
    ExitActive(sc.store, pid, now);
    BumpedSame(h.removals, sc.store, st);
  }

  lemma UnwatchIs(watchers: seq<Watcher>, i: nat)
    requires i < |watchers|
    ensures Unwatch(watchers, i) == watchers[i := Watcher(false, 0)]
  {
  }

  lemma SameFresh(queue: seq<Waiter>, h: History, h': History)
    requires h'.removals == h.removals && h'.epochs == h.epochs
    ensures Fresh(queue, h) <==> Fresh(queue, h')
  {
    hide SlotOf;
    forall j | 0 <= j < |queue| ensures FreshFor(h, queue[j]) <==> FreshFor(h', queue[j]) {}
  }

  lemma ExitActive(st: Store, pid: i32, now: i64)
    requires Valid(st)
    ensures SameActive(st, ProcessExit(st, pid, now).store)
  {
    if pid > 0 {
      ExitIsReplay(st, pid, now, MAX_UNDO);
    }
  }

  lemma ReapScene(b: Broker, i: nat, exited: bool, now: i64)
    requires Shape(b.store) && i < |b.watchers|
    ensures SceneOf(Reap(b, i, exited, now)) ==
            if b.watchers[i].active && exited then
              Scene(ProcessExit(b.store, b.watchers[i].pid, now).store, SceneOf(b).queue, Unwatch(b.watchers, i))
            else SceneOf(b)
  {
    hide ProcessExit, Broadcast;
    BroadcastScene(b.(store := ProcessExit(b.store, b.watchers[i].pid, now).store, watchers := Unwatch(b.watchers, i)));
  }

  lemma {:induction false} ReapToTidy(b: Broker, h: History, exited: seq<bool>, now: i64, n: nat)
    requires Good(System(b, h)) && Valid(b.store) && |exited| == |b.watchers| && n <= |b.watchers|
    ensures var r := ReapTo(b, exited, now, n);
            && SceneOf(r).queue == SceneOf(b).queue && Fewer(r.watchers, b.watchers)
            && Tidy(SceneOf(r), Orphaned(h, Lost(SceneOf(b).queue, b.watchers, r.watchers)))
  {
    hide Good, Tidy, Safe, Valid, Fresh, Reap, Lost, SceneOf, Unwatch, WatchersOk;
    GoodSafe(System(b, h));
    var r := ReapTo(b, exited, now, n);
    if n == 0 {
      LostNone(SceneOf(b).queue, b.watchers);
      assert Orphaned(h, {}) == h;
    } else {
      ReapToTidy(b, h, exited, now, n - 1);
      var prev := ReapTo(b, exited, now, n - 1);
      ReapToSafe(b, exited, now, n - 1);
      SafeParts(prev);
      SceneStore(prev);
      SceneStore(r);
      ReapScene(prev, n - 1, exited[n - 1], now);
      ReapValid(prev, n - 1, exited[n - 1], now);
      if prev.watchers[n - 1].active && exited[n - 1] {
        TidyOrphans(SceneOf(b), h);
        ReapMove(SceneOf(prev), h, n - 1, now, b.watchers);
        SoundWatchers(prev);
        UnwatchOk(prev.watchers, n - 1, b.watchers);
      }
    }
  }

  lemma SoundWatchers(b: Broker)
    requires Safe(b)
    ensures WatchersOk(b.watchers)
  {
  }

  lemma LostNone(queue: seq<Waiter>, watchers: seq<Watcher>)
    ensures Lost(queue, watchers, watchers) == {}
  {
  }

  lemma TidyOrphans(sc: Scene, h: History)
    requires Tidy(sc, h)
    ensures KnownOrphans(h)
  {
  }

  lemma ScanTidy(s: System, exited: seq<bool>, world: World)
    requires Good(s) && Legal(s.broker, ScanStep(exited, world)) && Valid(s.broker.store)
    ensures var o := Outcome(Scan(s.broker, exited, world), Nothing, Immediate);
            && |s.history.removals| == |s.broker.store.sets| == |o.broker.store.sets| == MAX_SETS
            && Tidy(SceneOf(o.broker), Note(s.history, s.broker, ScanStep(exited, world), o))
  {
    hide Good, Tidy, Valid, Lost, ReapTo, AnyWatcher;
    GoodParts(s);
    if s.broker.monitor.timed && world.waitFailure != 0 {
      GoodSafe(s);
      LostNone(Cores(s.broker.queue), s.broker.watchers);
      assert s.history.(orphans := s.history.orphans + {}) == s.history;
      return;
    }
    ReapToTidy(s.broker, s.history, exited, world.realNow, |s.broker.watchers|);
    var after := ReapTo(s.broker, exited, world.realNow, |s.broker.watchers|);
    SceneStore(after);
    assert SceneOf(Scan(s.broker, exited, world)) == SceneOf(after);
  }

  // ---------------------------------------------------------------- every step

  lemma NextGood(s: System, step: Step)
    requires Good(s) && Legal(s.broker, step)
    ensures Good(Next(s, step))
  {
    hide Tidy, Safe, Submit, Wake, Scan, Fresh, Note, SceneOf;
    GoodParts(s);
    SafeParts(s.broker);
    ActSafe(s, step);
    var o := Act(s, step);
    var h := Note(s.history, s.broker, step, o);
    match step {
      case SubmitStep(request, actor, world) => SubmitTidy(s, request, actor, world);
      case WakeStep(at, world) => WaiterAt(s.broker, at); WakeTidy(s, at, world);
      case ScanStep(exited, world) => ScanTidy(s, exited, world);
    }
    JudgeTidy(SceneOf(o.broker), h);
  }

  lemma JudgeTidy(sc: Scene, h: History)
    requires Tidy(sc, h)
    ensures Tidy(sc, Judge(h, sc.queue)) && (Judge(h, sc.queue).current ==> Fresh(sc.queue, Judge(h, sc.queue)))
  {
    hide SceneOk, EpochOk, DeadlinesOk, CountsOk, Covered, Fresh;
    var h' := Judge(h, sc.queue);
    SameEpochs(sc.store, sc.queue, h, h');
    SameDeadlines(sc.queue, h, h');
    SameFresh(sc.queue, h, h');
  }

  lemma StartGood()
    ensures Good(Start())
  {
    hide Valid, Advance;
    InitValid();
    var s := Start();
    assert forall i :: 0 <= i < MAX_SETS ==> !s.broker.store.sets[i].active && s.broker.store.sets[i].generation == 0;
    assert forall i :: 0 <= i < MAX_UNDO ==> !s.broker.store.undo[i].active;
  }
}
