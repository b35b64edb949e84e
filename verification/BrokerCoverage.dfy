/** Undo coverage: a process that owes an undo adjustment is watched, so its exit will be replayed. */
module BrokerCoverage {
  import opened SemTypes
  import opened StoreModel
  import opened SemopMeaning
  import opened SemopAtomic
  import opened StoreValid
  import opened UndoLedger
  import opened ExitReplay
  import opened Restoration
  import opened Messages
  import opened Remote
  import opened BrokerModel
  import opened BrokerSafety
  import opened BrokerShape

  predicate Watched(watchers: seq<Watcher>, pid: i32) {
    exists i :: 0 <= i < |watchers| && watchers[i].active && watchers[i].pid == pid
  }

  predicate Owing(undo: seq<UndoEntry>, pid: i32) {
    exists i :: 0 <= i < |undo| && undo[i].active && undo[i].pid == pid
  }

  predicate AnyUndo(ops: seq<SemOp>) {
    exists i :: 0 <= i < |ops| && ops[i].Undo()
  }

  /** Every process with an adjustment is watched. */
  ghost predicate UndoCovered(undo: seq<UndoEntry>, watchers: seq<Watcher>) {
    forall pid :: Owing(undo, pid) ==> Watched(watchers, pid)
  }

  /** So is every process with a queued SEM_UNDO batch that might still commit. */
  ghost predicate QueueCovered(queue: seq<Waiter>, watchers: seq<Watcher>, orphans: set<nat>) {
    forall j :: 0 <= j < |queue| ==> WaiterCovered(queue[j], watchers, orphans)
  }

  predicate WaiterCovered(w: Waiter, watchers: seq<Watcher>, orphans: set<nat>) {
    Sized(w.request) && (w.id !in orphans && UsesUndo(w.request) ==> Watched(watchers, w.actor.pid))
  }

  ghost predicate Covered(sc: Scene, orphans: set<nat>) {
    UndoCovered(sc.store.undo, sc.watchers) && QueueCovered(sc.queue, sc.watchers, orphans)
  }

  // ---------------------------------------------------------------- who may come to owe

  lemma CommitOwing(undo: seq<UndoEntry>, pid: i32, semid: i32, ops: seq<SemOp>, nsems: nat, q: i32)
    requires NamesOnly(ops, nsems) && DeltasTo(ops, nsems, |ops|).Some?
    requires CommitTo(undo, pid, semid, DeltasTo(ops, nsems, |ops|).value, nsems).Some?
    requires Owing(CommitTo(undo, pid, semid, DeltasTo(ops, nsems, |ops|).value, nsems).value, q)
    ensures Owing(undo, q) || (q == pid && AnyUndo(ops))
  {
    var deltas := DeltasTo(ops, nsems, |ops|).value;
    var after := CommitTo(undo, pid, semid, deltas, nsems).value;
    CommitEntries(undo, pid, semid, deltas, nsems);
    var i :| 0 <= i < |after| && after[i].active && after[i].pid == q;
    assert Posted(undo, pid, semid, deltas, after[i]);
    if after[i] in undo {
      var j :| 0 <= j < |undo| && undo[j] == after[i];
      assert undo[j].active && undo[j].pid == q;
    } else {
      DeltasMeaning(ops, nsems, |ops|, after[i].semNum);
      if !AnyUndo(ops) { PartZero(ops, after[i].semNum, |ops|, true); }
    }
  }

  lemma TryOpOwing(st: Store, semid: i32, ops: seq<SemOp>, pid: i32, now: i64, q: i32)
    requires Shape(st) && Owing(TryOp(st, semid, ops, pid, now).store.undo, q)
    ensures Owing(st.undo, q) || (q == pid && AnyUndo(ops))
  {
    TryOpAtomic(st, semid, ops, pid, now);
    if TryOp(st, semid, ops, pid, now).code == 0 {
      hide Owing, AnyUndo;
      var s := st.sets[FindSet(st, semid).value];
      CommitOwing(st.undo, pid, semid, ops, |s.values|, q);
    }
  }

  lemma ClearOwing(undo: seq<UndoEntry>, semid: i32, semNum: int, all: bool, q: i32)
    requires Owing(ClearUndo(undo, semid, semNum, all), q)
    ensures Owing(undo, q)
  {
    var after := ClearUndo(undo, semid, semNum, all);
    var i :| 0 <= i < |after| && after[i].active && after[i].pid == q;
    assert undo[i].active && undo[i].pid == q;
  }

  lemma ExitOwing(st: Store, pid: i32, now: i64, q: i32)
    requires Valid(st) && pid > 0 && Owing(ProcessExit(st, pid, now).store.undo, q)
    ensures Owing(st.undo, q) && q != pid
  {
    ExitIsReplay(st, pid, now, MAX_UNDO);
    var after := RetiredTo(st.undo, pid, MAX_UNDO);
    assert ProcessExit(st, pid, now).store.undo == after;
    var i :| 0 <= i < |after| && after[i].active && after[i].pid == q;
    assert st.undo[i].active && st.undo[i].pid == q;
  }

  /** Only a successful SEM_UNDO batch makes its own caller owe. */
  lemma CallOwing(st: Store, call: Call, now: i64, q: i32)
    requires Valid(st) && !call.ExitCall? && Owing(Apply(st, call, now).store.undo, q)
    ensures Owing(st.undo, q) || (call.TryOpCall? && q == call.pid && AnyUndo(call.ops))
  {
    hide Owing, AnyUndo, TryOp, ProcessExit, Census, FindSet, Valid, ClearUndo;
    ShapeOf(st);
    match call
    case TryOpCall(semid, ops, pid) => TryOpOwing(st, semid, ops, pid, now, q);
    case RemoveCall(semid) => if Remove(st, semid).code == 0 { ClearOwing(st.undo, semid, 0, true, q); }
    case SetAllCall(semid, values, pid) =>
      if SetAll(st, semid, values, pid, now).code == 0 { ClearOwing(st.undo, semid, 0, true, q); }
    case SetValCall(semid, semNum, value, pid) =>
      if SetVal(st, semid, semNum, value, pid, now).code == 0 { ClearOwing(st.undo, semid, semNum, false, q); }
    case _ =>
  }

  // ---------------------------------------------------------------- the moves

  lemma WatchCovers(sc: Scene, orphans: set<nat>, slot: nat, pid: i32)
    requires Covered(sc, orphans) && slot < |sc.watchers| && !sc.watchers[slot].active
    ensures Covered(sc.(watchers := sc.watchers[slot := Watcher(true, pid)]), orphans)
  {
    hide Owing, UsesUndo;
    var watchers := sc.watchers[slot := Watcher(true, pid)];
    forall q | Watched(sc.watchers, q) ensures Watched(watchers, q) {
      var i :| 0 <= i < |sc.watchers| && sc.watchers[i].active && sc.watchers[i].pid == q;
      assert watchers[i] == sc.watchers[i];
    }
    forall j | 0 <= j < |sc.queue| ensures WaiterCovered(sc.queue[j], watchers, orphans) {
      assert WaiterCovered(sc.queue[j], sc.watchers, orphans);
    }
  }

  /** A batch parsed from a packet that uses SEM_UNDO was announced by the broker's own scan. */
  lemma AnnouncedUndo(p: Packet, actor: Actor, noMemory: bool)
    requires Sized(p) && Parse(p, actor, noMemory).Accepted? && Parse(p, actor, noMemory).call.TryOpCall?
    ensures AnyUndo(Parse(p, actor, noMemory).call.ops) <==> UsesUndo(p)
  {
    hide Parse, UsesUndo;
    UsesUndoAgrees(p, actor, noMemory);
  }

  lemma DispatchCovers(sc: Scene, orphans: set<nat>, request: Packet, actor: Actor, now: i64, noMemory: bool)
    requires SceneOk(sc) && Covered(sc, orphans) && Sized(request)
    requires UsesUndo(request) ==> Watched(sc.watchers, actor.pid)
    ensures var d := Dispatch(sc.store, request, actor, now, noMemory);
            d.Replied? ==> Covered(sc.(store := d.store), orphans)
  {
    hide Parse, Apply, Respond, Encodable, UsesUndo, Owing, Watched, Valid, QueueCovered, QueueOk, WatchersOk, AnyUndo;
    ShapeOf(sc.store);
    var parsed := Parse(request, actor, noMemory);
    var d := Dispatch(sc.store, request, actor, now, noMemory);
    if d.Replied? && parsed.Accepted? {
      ParseKind(request, actor, noMemory);
      forall q | Owing(d.store.undo, q) ensures Watched(sc.watchers, q) {
        CallOwing(sc.store, parsed.call, now, q);
        if parsed.call.TryOpCall? {
          ParsedPid(request, actor, noMemory);
          AnnouncedUndo(request, actor, noMemory);
        }
      }
    }
  }

  lemma ParsedPid(p: Packet, actor: Actor, noMemory: bool)
    requires Sized(p) && Parse(p, actor, noMemory).Accepted? && IsSemop(p)
    ensures Parse(p, actor, noMemory).call.TryOpCall? && Parse(p, actor, noMemory).call.pid == actor.pid
  {
    hide Parse, ParseOps;
    ParseSemop(p, actor, noMemory);
    ParseOpsKind(p, actor.pid);
  }

  lemma JoinCovers(sc: Scene, orphans: set<nat>, w: Waiter)
    requires Shape(sc.store) && Covered(sc, orphans) && WaiterOk(w)
    requires UsesUndo(w.request) ==> Watched(sc.watchers, w.actor.pid)
    ensures Covered(Joined(sc, w), orphans)
  {
    hide Owing, UsesUndo, Watched, ParseOps;
    var r := Joined(sc, w);
    assert r.store.undo == sc.store.undo;
    forall j | 0 <= j < |r.queue| ensures WaiterCovered(r.queue[j], r.watchers, orphans) {
      if j < |sc.queue| { assert WaiterCovered(sc.queue[j], sc.watchers, orphans); }
    }
  }

  lemma LeaveCovers(sc: Scene, orphans: set<nat>, i: nat)
    requires Shape(sc.store) && Covered(sc, orphans) && i < |sc.queue|
    ensures Covered(Left(sc, i), orphans)
  {
    hide Owing, UsesUndo, Watched;
    var r := Left(sc, i);
    assert r.store.undo == sc.store.undo;
    forall j | 0 <= j < |r.queue| ensures WaiterCovered(r.queue[j], r.watchers, orphans) {
      assert WaiterCovered(sc.queue[if j < i then j else j + 1], sc.watchers, orphans);
    }
  }

  /** On every semaphore the SEM_UNDO operations of the batch cancel out. */
  predicate NoNetUndo(ops: seq<SemOp>) {
    forall j :: 0 <= j < |ops| ==> Part(ops, ops[j].semNum, |ops|, true) == 0
  }

  lemma NoNetPart(ops: seq<SemOp>, k: int)
    requires NoNetUndo(ops)
    ensures Part(ops, k, |ops|, true) == 0
  {
    if forall j :: 0 <= j < |ops| ==> ops[j].semNum != k { PartZero(ops, k, |ops|, true); }
  }

  /** A nonzero balance sits in some active entry. */
  lemma OwedIsOwing(undo: seq<UndoEntry>, key: UndoKey)
    ensures Owed(undo, key) != 0 ==> Owing(undo, key.pid)
  {
    var j := FindUndo(undo, key.pid, key.semid, key.semNum);
    assert j < |undo| ==> undo[j].active && undo[j].pid == key.pid;
  }

  /** A process that owes nothing comes to owe exactly when its batch can run and leaves some net SEM_UNDO change. */
  lemma OwesAfterIff(st: Store, semid: i32, ops: seq<SemOp>, pid: i32, now: i64)
    requires Valid(st) && Shape(st) && !Owing(st.undo, pid)
    ensures Owing(TryOp(st, semid, ops, pid, now).store.undo, pid) <==> Runnable(st, semid, ops, pid) && !NoNetUndo(ops)
  {
    SucceedsIff(st, semid, ops, pid, now);
    TryOpAtomic(st, semid, ops, pid, now);
    if Runnable(st, semid, ops, pid) {
      hide Owing, Valid, Runnable, NoNetUndo;
      CommittedUndo(st, semid, ops, pid, now);
      CommittedOwing(st, semid, ops, |st.sets[FindSet(st, semid).value].values|, pid);
    }
  }

  /** The undo table a successful batch leaves. */
  lemma CommittedUndo(st: Store, semid: i32, ops: seq<SemOp>, pid: i32, now: i64)
    requires Shape(st) && TryOp(st, semid, ops, pid, now).code == 0
    ensures FindSet(st, semid).Some?
    ensures var n := |st.sets[FindSet(st, semid).value].values|;
            && NamesOnly(ops, n) && DeltasTo(ops, n, |ops|).Some?
            && CommitTo(st.undo, pid, semid, DeltasTo(ops, n, |ops|).value, n) ==
                 Some(TryOp(st, semid, ops, pid, now).store.undo)
  {
    TryOpAtomic(st, semid, ops, pid, now);
  }

  lemma CommittedOwing(st: Store, semid: i32, ops: seq<SemOp>, n: nat, pid: i32)
    requires Valid(st) && !Owing(st.undo, pid) && NamesOnly(ops, n) && DeltasTo(ops, n, |ops|).Some?
    requires CommitTo(st.undo, pid, semid, DeltasTo(ops, n, |ops|).value, n).Some?
    ensures Owing(CommitTo(st.undo, pid, semid, DeltasTo(ops, n, |ops|).value, n).value, pid) <==> !NoNetUndo(ops)
  {
    var deltas := DeltasTo(ops, n, |ops|).value;
    var after := CommitTo(st.undo, pid, semid, deltas, n).value;
    if NoNetUndo(ops) {
      hide Owing;
      forall k | 0 <= k < n ensures deltas[k] == 0 {
        DeltasMeaning(ops, n, |ops|, k);
        NoNetPart(ops, k);
      }
      NothingReserved(st.undo, pid, semid, deltas, n);
    } else {
      hide Owing, Valid;
      var j :| 0 <= j < |ops| && Part(ops, ops[j].semNum, |ops|, true) != 0;
      var k := ops[j].semNum;
      DeltasMeaning(ops, n, |ops|, k);
      ValidUnique(st);
      CommitChange(st.undo, pid, semid, deltas, semid, k);
      OwedIsOwing(st.undo, UndoKey(pid, semid, k));
      OwedIsOwing(after, UndoKey(pid, semid, k));
    }
  }

  lemma ValidUnique(st: Store)
    requires Valid(st)
    ensures Unique(st.undo)
  {
  }

  /** A retry keeps every debtor watched exactly when, before it, its process is watched, or its batch cannot run, or
      the SEM_UNDO operations of the batch cancel out on every semaphore. */
  lemma CommitCoversIff(sc: Scene, i: nat, now: i64)
    requires SceneOk(sc) && UndoCovered(sc.store.undo, sc.watchers) && i < |sc.queue| && WaiterOk(sc.queue[i])
    requires Shape(sc.store)
    ensures var w := sc.queue[i];
            UndoCovered(Retry(sc, i, now).store.undo, sc.watchers) <==>
            || Watched(sc.watchers, w.actor.pid)
            || !Runnable(sc.store, w.semid, OpsOf(w), w.actor.pid)
            || NoNetUndo(OpsOf(w))
  {
    hide Owing, Watched, Valid, QueueOk, WatchersOk, TryOp, ParseOps, Runnable, NoNetUndo;
    var w := sc.queue[i];
    var undo := Retry(sc, i, now).store.undo;
    if !Watched(sc.watchers, w.actor.pid) { OwesAfterIff(sc.store, w.semid, OpsOf(w), w.actor.pid, now); }
    forall q | Owing(undo, q) && q != w.actor.pid ensures Watched(sc.watchers, q) {
      TryOpOwing(sc.store, w.semid, OpsOf(w), w.actor.pid, now, q);
    }
  }

  /** A waiter whose process has not been reaped may commit. */
  lemma CommitCovers(sc: Scene, orphans: set<nat>, i: nat, now: i64)
    requires SceneOk(sc) && Covered(sc, orphans) && i < |sc.queue| && WaiterOk(sc.queue[i]) && Shape(sc.store)
    requires sc.queue[i].id !in orphans
    ensures Covered(sc.(store := Retry(sc, i, now).store), orphans)
  {
    hide Owing, Watched, Valid, QueueOk, WatchersOk, TryOp, ParseOps, UsesUndo, Retry, AnyUndo, Parse;
    var w := sc.queue[i];
    assert WaiterCovered(w, sc.watchers, orphans);
    ParseSemop(w.request, w.actor, false);
    ParseOpsKind(w.request, w.actor.pid);
    AnnouncedUndo(w.request, w.actor, false);
    RetryIs(sc, i, now);
    var undo := Retry(sc, i, now).store.undo;
    forall q | Owing(undo, q) ensures Watched(sc.watchers, q) {
      TryOpOwing(sc.store, w.semid, OpsOf(w), w.actor.pid, now, q);
    }
  }

  lemma RetryIs(sc: Scene, i: nat, now: i64)
    requires Shape(sc.store) && i < |sc.queue| && WaiterOk(sc.queue[i])
    ensures Retry(sc, i, now) == TryOp(sc.store, sc.queue[i].semid, OpsOf(sc.queue[i]), sc.queue[i].actor.pid, now)
  {
  }

  function OrphanIds(queue: seq<Waiter>, pid: i32): set<nat> {
    set j | 0 <= j < |queue| && queue[j].actor.pid == pid :: queue[j].id
  }

  /** Reaping a process clears its watcher, its debts and its waiters' claim together. */
  lemma ReapCovers(sc: Scene, orphans: set<nat>, i: nat, now: i64)
    requires SceneOk(sc) && Covered(sc, orphans) && i < |sc.watchers| && sc.watchers[i].active && Shape(sc.store)
    ensures var pid := sc.watchers[i].pid;
            Covered(Scene(ProcessExit(sc.store, pid, now).store, sc.queue, sc.watchers[i := Watcher(false, 0)]),
                    orphans + OrphanIds(sc.queue, pid))
  {
    hide Valid, QueueOk, UsesUndo, Owing, ProcessExit;
    var pid := sc.watchers[i].pid;
    var watchers := sc.watchers[i := Watcher(false, 0)];
    forall q | Watched(sc.watchers, q) && q != pid ensures Watched(watchers, q) {
      var j :| 0 <= j < |sc.watchers| && sc.watchers[j].active && sc.watchers[j].pid == q;
      assert watchers[j] == sc.watchers[j];
    }
    forall q | Owing(ProcessExit(sc.store, pid, now).store.undo, q) ensures Watched(watchers, q) {
      ExitOwing(sc.store, pid, now, q);
    }
    forall j | 0 <= j < |sc.queue| ensures WaiterCovered(sc.queue[j], watchers, orphans + OrphanIds(sc.queue, pid)) {
      assert WaiterCovered(sc.queue[j], sc.watchers, orphans);
      if sc.queue[j].actor.pid == pid { assert sc.queue[j].id in OrphanIds(sc.queue, pid); }
    }
  }
}
