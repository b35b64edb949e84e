/** The bookkeeping invariant of the broker, kept by every step. */
module BrokerTidy {
  import opened SemTypes
  import opened Wire
  import opened Protocol
  import opened StoreModel
  import opened StoreValid
  import opened Messages
  import opened Timeouts
  import opened BrokerModel
  import opened BrokerSafety
  import opened BrokerShape
  import opened BrokerHistory
  import opened BrokerEpochs
  import opened BrokerCoverage

  // ---------------------------------------------------------------- the invariant

  /** The waiter's deadline is its timeout after the moment it was submitted. */
  predicate DeadlineOk(w: Waiter, h: History) {
    && w.id in h.starts && Sized(w.request)
    && (w.request.header.opcode != SEMTIMEDOP ==> w.deadline == None)
    && (w.request.header.opcode == SEMTIMEDOP ==>
          && |w.request.payload| >= 16 && GetI64(w.request.payload, 8) >= 0
          && w.deadline == Some(Deadline(h.starts[w.id], GetI64(w.request.payload, 8))))
  }

  ghost predicate DeadlinesOk(queue: seq<Waiter>, h: History) {
    forall j :: 0 <= j < |queue| ==> DeadlineOk(queue[j], h)
  }

  ghost predicate KnownOrphans(h: History) {
    forall id :: id in h.orphans ==> id < h.nextId
  }

  /** If the waiter's identifier is live, the semaphore it waits on exists. */
  predicate Placed(st: Store, w: Waiter)
    requires |st.sets| == MAX_SETS
  {
    FindSet(st, w.semid).Some? ==> w.reason.semNum < |st.sets[FindSet(st, w.semid).value].values|
  }

  ghost predicate AllPlaced(st: Store, queue: seq<Waiter>)
    requires |st.sets| == MAX_SETS
  {
    forall j :: 0 <= j < |queue| ==> Placed(st, queue[j])
  }

  ghost predicate CountsOk(sc: Scene) {
    Shape(sc.store) && CountOk(sc.store, sc.queue) && AllPlaced(sc.store, sc.queue)
  }

  ghost predicate Tidy(sc: Scene, h: History) {
    && SceneOk(sc) && FifoOk(sc.queue, h) && EpochOk(sc.store, sc.queue, h) && DeadlinesOk(sc.queue, h)
    && KnownOrphans(h)
    && (h.current ==> CountsOk(sc))
    && (h.closed ==> Covered(sc, h.orphans))
  }

  /** Removals per slot after a step: a live set that is gone was removed. */
  function Bumped(removals: seq<nat>, st: Store, st': Store): (r: seq<nat>)
    requires |removals| == |st.sets| == |st'.sets| == MAX_SETS
    ensures |r| == MAX_SETS
  {
    seq(MAX_SETS, i requires 0 <= i < MAX_SETS =>
      removals[i] + if st.sets[i].active && !st'.sets[i].active then 1 else 0)
  }

  ghost predicate SameActive(st: Store, st': Store) {
    |st.sets| == |st'.sets| == MAX_SETS && forall i :: 0 <= i < MAX_SETS ==> st'.sets[i].active == st.sets[i].active
  }

  lemma BumpedSame(removals: seq<nat>, st: Store, st': Store)
    requires |removals| == MAX_SETS && SameActive(st, st')
    ensures Bumped(removals, st, st') == removals
  {
  }

  lemma CallBumped(st: Store, call: Call, now: i64, removals: seq<nat>)
    requires Valid(st) && !call.AdjustWaitCall? && |removals| == MAX_SETS
    ensures Shape(st) && Shape(Apply(st, call, now).store)
    ensures Bump(removals, RemovedSlot(st, call)) == Bumped(removals, st, Apply(st, call, now).store)
  {
    var st' := Apply(st, call, now).store;
    ApplyValid(st, call, now);
    hide Valid, Apply;
    ShapeOf(st);
    ShapeOf(st');
    forall i | 0 <= i < MAX_SETS
      ensures Bump(removals, RemovedSlot(st, call))[i] == Bumped(removals, st, st')[i]
    {
      CallSlot(st, call, now, i);
    }
  }

  // ---------------------------------------------------------------- moves

  lemma LaterTidy(sc: Scene, h: History)
    requires Tidy(sc, h)
    ensures Tidy(sc, h.(nextId := h.nextId + 1))
  {
    hide SceneOk, CountsOk, Covered, GenOk, EpochWaiter, WaiterOk;
    var h' := h.(nextId := h.nextId + 1);
    forall j | 0 <= j < |sc.queue| ensures DeadlineOk(sc.queue[j], h') {
      assert DeadlineOk(sc.queue[j], h);
    }
    if |sc.store.sets| == |h.removals| == MAX_SETS { SameEpochs(sc.store, sc.queue, h, h'); }
  }

  lemma SameEpochs(st: Store, queue: seq<Waiter>, h: History, h': History)
    requires EpochOk(st, queue, h) && h'.removals == h.removals && h'.epochs == h.epochs
    ensures EpochOk(st, queue, h')
  {
    hide GenOk, DecodeId;
    forall j | 0 <= j < |queue| ensures EpochWaiter(st.sets, h', queue[j]) {
      assert EpochWaiter(st.sets, h, queue[j]);
    }
  }

  lemma SameDeadlines(queue: seq<Waiter>, h: History, h': History)
    requires DeadlinesOk(queue, h) && h'.starts == h.starts
    ensures DeadlinesOk(queue, h')
  {
    forall j | 0 <= j < |queue| ensures DeadlineOk(queue[j], h') {
      assert DeadlineOk(queue[j], h);
    }
  }

  lemma WatchTidy(sc: Scene, h: History, slot: nat, pid: i32)
    requires Tidy(sc, h) && slot < |sc.watchers| && !sc.watchers[slot].active && pid > 0
    requires forall i :: 0 <= i < |sc.watchers| && sc.watchers[i].active ==> sc.watchers[i].pid != pid
    ensures Tidy(sc.(watchers := sc.watchers[slot := Watcher(true, pid)]), h)
  {
    hide FifoOk, EpochOk, DeadlinesOk, KnownOrphans, CountsOk, Covered, Valid, QueueOk;
    if h.closed { WatchCovers(sc, h.orphans, slot, pid); }
    assert CountsOk(sc) ==> CountsOk(sc.(watchers := sc.watchers[slot := Watcher(true, pid)])) by {
      CountsWatchers(sc, sc.watchers[slot := Watcher(true, pid)]);
    }
  }

  lemma CountsWatchers(sc: Scene, watchers: seq<Watcher>)
    ensures CountsOk(sc) ==> CountsOk(sc.(watchers := watchers))
  {
    hide CountOk;
  }

  /** A store call, with the watchers and orphans it comes with. */
  lemma CallTidy(sc: Scene, h: History, call: Call, now: i64, watchers: seq<Watcher>, orphans: set<nat>)
    requires Tidy(sc, h) && (h.current ==> Fresh(sc.queue, h)) && !call.AdjustWaitCall? && Shape(sc.store)
    requires WatchersOk(watchers) && KnownOrphans(h.(orphans := orphans))
    requires h.closed ==> Covered(Scene(Apply(sc.store, call, now).store, sc.queue, watchers), orphans)
    ensures |h.removals| == MAX_SETS && Shape(Apply(sc.store, call, now).store)
    ensures Tidy(Scene(Apply(sc.store, call, now).store, sc.queue, watchers),
                 h.(removals := Bumped(h.removals, sc.store, Apply(sc.store, call, now).store), orphans := orphans))
  {
    hide Apply, FifoOk, EpochOk, DeadlinesOk, KnownOrphans, Covered, Valid, QueueOk, Fresh, CountOk, WatchersOk, Bumped,
         Bump;
    var st' := Apply(sc.store, call, now).store;
    RemovalsLength(sc, h);
    CallBumped(sc.store, call, now, h.removals);
    ApplyValid(sc.store, call, now);
    CallEpochs(sc.store, sc.queue, h, call, now);
    var h' := h.(removals := Bumped(h.removals, sc.store, st'), orphans := orphans);
    SameEpochs(st', sc.queue, h.(removals := Bumped(h.removals, sc.store, st')), h');
    SameDeadlines(sc.queue, h, h');
    SameFifo(sc.queue, h, h');
    SameOrphans(h.(orphans := orphans), h');
    if h.current {
      CallCounts(sc.store, sc.queue, h, call, now);
      CallPlaced(sc, h, call, now);
    }
  }

  lemma CallPlaced(sc: Scene, h: History, call: Call, now: i64)
    requires Valid(sc.store) && Shape(sc.store) && EpochOk(sc.store, sc.queue, h) && Fresh(sc.queue, h)
             && AllPlaced(sc.store, sc.queue)
    requires !call.AdjustWaitCall? && Shape(Apply(sc.store, call, now).store) && Valid(Apply(sc.store, call, now).store)
    ensures AllPlaced(Apply(sc.store, call, now).store, sc.queue)
  {
    hide Valid, Apply, EpochOk, Fresh, MakeId;
    var st' := Apply(sc.store, call, now).store;
    forall j | 0 <= j < |sc.queue| ensures Placed(st', sc.queue[j]) {
      var w := sc.queue[j];
      assert Placed(sc.store, w);
      if FindSet(st', w.semid).Some? {
        var i := FindSet(st', w.semid).value;
        CallSlot(sc.store, call, now, i);
        LiveId(st', w.semid, i);
        if sc.store.sets[i].active {
          LiveId(sc.store, w.semid, i);
        } else {
          FreshIdUnused(sc.store, sc.queue, h, i, j);
        }
      }
    }
  }

  lemma RemovalsLength(sc: Scene, h: History)
    requires EpochOk(sc.store, sc.queue, h)
    ensures |h.removals| == |sc.store.sets| == MAX_SETS
  {
  }

  lemma SameFifo(queue: seq<Waiter>, h: History, h': History)
    requires FifoOk(queue, h) && h'.nextId == h.nextId && h'.log == h.log
    ensures FifoOk(queue, h')
  {
  }

  lemma SameOrphans(h: History, h': History)
    requires KnownOrphans(h) && h'.nextId == h.nextId && h'.orphans == h.orphans
    ensures KnownOrphans(h')
  {
  }

  /** The history of a waiter that joins. */
  function JoinHistory(h: History, id: nat, semid: i32, now: Time): History
    requires |h.removals| == MAX_SETS
  {
    h.(nextId := h.nextId + 1,
       epochs := h.epochs[id := if SlotOf(semid) < MAX_SETS then h.removals[SlotOf(semid)] else 0],
       starts := h.starts[id := now])
  }

  lemma JoinTidy(sc: Scene, h: History, w: Waiter, world: World)
    requires Tidy(sc, h) && w.id == h.nextId && Joins(sc, w.request, w.actor, w.id, world, w)
    requires UsesUndo(w.request) ==> Watched(sc.watchers, w.actor.pid)
    ensures |h.removals| == MAX_SETS
    ensures Tidy(Joined(sc, w), JoinHistory(h, w.id, w.semid, world.now))
  {
    hide Valid, Covered, EpochOk, WatchersOk, DeadlinesOk, FifoOk, CountOk, UsesUndo, Watched, ParseOps, AdjustWait,
         Promised, TryOp, SlotOf, StartDeadline, WouldBlock;
    RemovalsLength(sc, h);
    var h' := JoinHistory(h, w.id, w.semid, world.now);
    var sc' := Joined(sc, w);
    FifoFresh(sc.queue, h);
    JoinScene(sc, h, w, world);
    JoinEpochs(sc, h, w, world);
    FifoJoin(sc.queue, h, Core(w));
    SameFifo(sc'.queue, h.(nextId := h.nextId + 1), h');
    JoinDeadlines(sc.queue, h, w, world);
    if h.current {
      CountJoin(sc.store, sc.queue, Core(w));
      JoinPlaced(sc, w);
    }
    if h.closed { JoinCovers(sc, h.orphans, w); }
  }

  lemma JoinPlaced(sc: Scene, w: Waiter)
    requires Shape(sc.store) && AllPlaced(sc.store, sc.queue)
    requires AdjustWait(sc.store, w.semid, w.reason.semNum, w.reason.forZero, true).code == 0
    ensures |Joined(sc, w).store.sets| == MAX_SETS && AllPlaced(Joined(sc, w).store, Joined(sc, w).queue)
  {
    AdjustPlaced(sc.store, sc.queue, w.semid, w.reason.semNum, w.reason.forZero, true);
    var sc' := Joined(sc, w);
    forall j | 0 <= j < |sc'.queue| ensures Placed(sc'.store, sc'.queue[j]) {
      if j < |sc.queue| { assert Placed(sc'.store, sc.queue[j]); }
    }
  }

  lemma AdjustPlaced(st: Store, queue: seq<Waiter>, semid: i32, semNum: nat, forZero: bool, up: bool)
    requires Shape(st) && AllPlaced(st, queue)
    ensures var r := AdjustWait(st, semid, semNum, forZero, up);
            |r.store.sets| == MAX_SETS && AllPlaced(r.store, queue)
  {
    var st' := AdjustWait(st, semid, semNum, forZero, up).store;
    forall j | 0 <= j < |queue| ensures Placed(st', queue[j]) {
      assert Placed(st, queue[j]);
    }
  }

  lemma FifoFresh(queue: seq<Waiter>, h: History)
    requires FifoOk(queue, h)
    ensures forall j :: 0 <= j < |queue| ==> queue[j].id < h.nextId
  {
  }

  lemma JoinScene(sc: Scene, h: History, w: Waiter, world: World)
    requires SceneOk(sc) && Joins(sc, w.request, w.actor, w.id, world, w)
    requires forall j :: 0 <= j < |sc.queue| ==> sc.queue[j].id < w.id
    ensures SceneOk(Joined(sc, w))
  {
    hide Valid, ParseOps, AdjustWait, WouldBlock, TryOp, WatchersOk, Promised;
    AdjustWaitValid(sc.store, w.semid, w.reason.semNum, w.reason.forZero, true);
    var q := sc.queue + [Core(w)];
    forall j | 0 <= j < |q| ensures WaiterOk(q[j]) {
      if j < |sc.queue| { assert WaiterOk(sc.queue[j]); } else { assert WaiterOk(w); }
    }
  }

  lemma JoinEpochs(sc: Scene, h: History, w: Waiter, world: World)
    requires Valid(sc.store) && EpochOk(sc.store, sc.queue, h) && Joins(sc, w.request, w.actor, w.id, world, w)
    requires w.id == h.nextId && |h.removals| == MAX_SETS
    requires forall j :: 0 <= j < |sc.queue| ==> sc.queue[j].id < w.id
    ensures EpochOk(Joined(sc, w).store, Joined(sc, w).queue, JoinHistory(h, w.id, w.semid, world.now))
  {
    LiveWaiter(sc.store, w);
    hide Valid, ParseOps, AdjustWait, TryOp, EpochOk, Promised, SlotOf, WouldBlock;
    JoinEpoch(sc.store, sc.queue, h, Core(w));
    var h1 := h.(epochs := h.epochs[w.id := h.removals[SlotOf(w.semid)]]);
    AdjustEpochs(sc.store, sc.queue + [Core(w)], h1, w.semid, w.reason.semNum, w.reason.forZero, true);
    SameEpochs(Joined(sc, w).store, Joined(sc, w).queue, h1, JoinHistory(h, w.id, w.semid, world.now));
  }

  lemma LiveWaiter(st: Store, w: Waiter)
    requires |st.sets| == MAX_SETS && WaiterOk(w) && Blocked(st, w)
    ensures FindSet(st, w.semid).Some?
  {
    hide ParseOps;
  }

  lemma JoinDeadlines(queue: seq<Waiter>, h: History, w: Waiter, world: World)
    requires DeadlinesOk(queue, h) && Promised(w, world) && |h.removals| == MAX_SETS
    requires forall j :: 0 <= j < |queue| ==> queue[j].id < w.id
    ensures DeadlinesOk(queue + [Core(w)], JoinHistory(h, w.id, w.semid, world.now))
  {
    hide SlotOf, GetI64;
    var h' := JoinHistory(h, w.id, w.semid, world.now);
    var q := queue + [Core(w)];
    forall j | 0 <= j < |q| ensures DeadlineOk(q[j], h') {
      if j < |queue| { assert DeadlineOk(queue[j], h); }
    }
  }

  /** Joining keeps every waiter fresh. */
  lemma JoinFresh(sc: Scene, h: History, w: Waiter, world: World)
    requires Shape(sc.store) && Fresh(sc.queue, h) && |h.removals| == MAX_SETS && SlotOf(w.semid) < MAX_SETS
    requires forall j :: 0 <= j < |sc.queue| ==> sc.queue[j].id < w.id
    ensures Fresh(Joined(sc, w).queue, JoinHistory(h, w.id, w.semid, world.now))
  {
    hide AdjustWait, SlotOf;
    var q := Joined(sc, w).queue;
    forall j | 0 <= j < |q| ensures FreshFor(JoinHistory(h, w.id, w.semid, world.now), q[j]) {
      if j < |sc.queue| { assert FreshFor(h, sc.queue[j]); }
    }
  }

  lemma LeaveTidy(sc: Scene, h: History, i: nat)
    requires Tidy(sc, h) && i < |sc.queue| && Shape(sc.store)
    ensures Tidy(Left(sc, i), h)
    ensures SameActive(sc.store, Left(sc, i).store)
  {
    hide Valid, Covered, EpochOk, WatchersOk, FifoOk, CountOk, AdjustWait, QueueOk, DeadlineOk;
    var w := sc.queue[i];
    var sc' := Left(sc, i);
    AdjustWaitValid(sc.store, w.semid, w.reason.semNum, w.reason.forZero, false);
    WithoutOk(sc.queue, i);
    FifoLeave(sc.queue, h, i);
    LeaveEpoch(sc.store, sc.queue, h, i);
    AdjustEpochs(sc.store, sc'.queue, h, w.semid, w.reason.semNum, w.reason.forZero, false);
    if h.current {
      CountLeave(sc.store, sc.queue, i);
      AdjustPlaced(sc.store, sc.queue, w.semid, w.reason.semNum, w.reason.forZero, false);
    }
    if h.closed { LeaveCovers(sc, h.orphans, i); }
    AdjustActive(sc.store, w.semid, w.reason.semNum, w.reason.forZero, false);
  }

  lemma AdjustActive(st: Store, semid: i32, semNum: nat, forZero: bool, up: bool)
    requires Shape(st)
    ensures SameActive(st, AdjustWait(st, semid, semNum, forZero, up).store)
  {
  }

  /** The log gains the batches that commit on retry. */
  function Logged(h: History, fate: Fate, semid: i32, id: nat): History {
    if fate == Retried(0) then h.(log := h.log + [Commit(semid, id)]) else h
  }

  lemma LogTidy(sc: Scene, h: History, log: seq<Commit>)
    requires Tidy(sc, h) && FifoOk(sc.queue, h.(log := log))
    ensures Tidy(sc, h.(log := log))
  {
    hide SceneOk, FifoOk, EpochOk, DeadlinesOk, CountsOk, Covered;
    var h' := h.(log := log);
    SameEpochs(sc.store, sc.queue, h, h');
    SameDeadlines(sc.queue, h, h');
  }

  /** A retry: the first waiter's batch runs against the store and the waiter leaves. */
  lemma RetryTidy(sc: Scene, h: History, i: nat, now: i64)
    requires Tidy(sc, h) && (h.current ==> Fresh(sc.queue, h)) && i < |sc.queue| && Shape(sc.store)
             && WaiterOk(sc.queue[i])
    requires IsFirst(sc.queue, i) && (h.closed ==> sc.queue[i].id !in h.orphans)
    ensures var r := Retry(sc, i, now);
            && Shape(r.store) && SameActive(sc.store, Left(sc.(store := r.store), i).store)
            && Tidy(Left(sc.(store := r.store), i), Logged(h, Retried(r.code), sc.queue[i].semid, sc.queue[i].id))
  {
    hide Valid, Covered, EpochOk, WatchersOk, FifoOk, DeadlinesOk, QueueOk, CountsOk, TryOp, Left, Fresh, ParseOps,
         KnownOrphans, Bumped;
    var w := sc.queue[i];
    var r := Retry(sc, i, now);
    var call := TryOpCall(w.semid, OpsOf(w), w.actor.pid);
    FailedChangesNothing(sc.store, call, now);
    if r.code != 0 {
      LeaveTidy(sc, h, i);
    } else {
      if h.closed { CommitCovers(sc, h.orphans, i, now); }
      assert Apply(sc.store, call, now).store == r.store;
      CallTidy(sc, h, call, now, sc.watchers, h.orphans);
      TryOpActive(sc.store, w.semid, OpsOf(w), w.actor.pid, now);
      BumpedSame(h.removals, sc.store, r.store);
      var sc' := sc.(store := r.store);
      LeaveTidy(sc', h, i);
      LeftQueue(sc', i);
      FifoCommit(sc.queue, h, i);
      LogTidy(Left(sc', i), h, h.log + [Commit(w.semid, w.id)]);
      ActiveChain(sc.store, r.store, Left(sc', i).store);
    }
  }

  lemma LeftQueue(sc: Scene, i: nat)
    requires Shape(sc.store) && i < |sc.queue|
    ensures Left(sc, i).queue == Without(sc.queue, i)
  {
  }

  lemma TryOpActive(st: Store, semid: i32, ops: seq<SemOp>, pid: i32, now: i64)
    requires Shape(st)
    ensures SameActive(st, TryOp(st, semid, ops, pid, now).store)
  {
  }

  lemma ActiveChain(a: Store, b: Store, c: Store)
    requires SameActive(a, b) && SameActive(b, c)
    ensures SameActive(a, c)
  {
  }

  /** One pass of the retry loop. */
  lemma SettleTidy(sc: Scene, h: History, i: nat, world: World, o: Outcome)
    requires Tidy(sc, h) && (h.current ==> Fresh(sc.queue, h)) && i < |sc.queue| && Shape(sc.store)
             && WaiterOk(sc.queue[i])
    requires SettleShape(sc, i, world, o)
    requires h.closed && sc.queue[i].id in h.orphans ==> world.peerClosed
    ensures SameActive(sc.store, o.broker.store)
    ensures Tidy(SceneOf(o.broker), Logged(h, o.fate, sc.queue[i].semid, sc.queue[i].id))
  {
    hide Tidy, Retry, Left, Fresh, WaiterOk;
    SceneStore(o.broker);
    match o.fate
    case Asleep =>
    case Retried(code) => RetryTidy(sc, h, i, world.realNow);
    case _ => LeaveTidy(sc, h, i);
  }
}
