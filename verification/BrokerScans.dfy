/** What a monitor scan does, over every run: whom it replays and forgets, who is woken, and how it waits next. */
module BrokerScans {
  import opened SemTypes
  import opened StoreModel
  import opened StoreValid
  import opened UndoLedger
  import opened ExitReplay
  import opened BrokerModel
  import opened BrokerSafety
  import opened BrokerCoverage
  import opened BrokerSteps
  import opened BrokerRuns

  /** The processes found exited among the first `n` watchers, in table order. */
  function Gone(watchers: seq<Watcher>, exited: seq<bool>, n: nat): seq<i32>
    requires n <= |watchers| == |exited|
  {
    if n == 0 then []
    else Gone(watchers, exited, n - 1) + if watchers[n - 1].active && exited[n - 1] then [watchers[n - 1].pid] else []
  }

  lemma {:induction false} GoneIff(watchers: seq<Watcher>, exited: seq<bool>, n: nat, pid: i32)
    requires n <= |watchers| == |exited|
    ensures pid in Gone(watchers, exited, n) <==>
            exists i :: 0 <= i < n && watchers[i].active && watchers[i].pid == pid && exited[i]
  {
    if n > 0 { GoneIff(watchers, exited, n - 1, pid); }
  }

  /** The ledger store after these processes exit one after another. */
  ghost function LedgerExits(a: LedgerStore, pids: seq<i32>, now: i64): (r: LedgerStore)
    requires Shape(SetsOnly(a))
    ensures Shape(SetsOnly(r))
  {
    if pids == [] then a
    else
      var before := LedgerExits(a, pids[..|pids| - 1], now);
      LedgerExitShape(before, pids[|pids| - 1], now);
      LedgerExit(before, pids[|pids| - 1], now).store
  }

  lemma LedgerExitShape(a: LedgerStore, pid: i32, now: i64)
    requires Shape(SetsOnly(a))
    ensures Shape(SetsOnly(LedgerExit(a, pid, now).store))
  {
  }

  // ---------------------------------------------------------------- one watcher

  lemma ExitOwingIff(st: Store, pid: i32, now: i64, q: i32)
    requires Valid(st) && pid > 0
    ensures Owing(ProcessExit(st, pid, now).store.undo, q) <==> Owing(st.undo, q) && q != pid
    ensures ProcessExit(st, pid, now).code > 0 <==> Owing(st.undo, pid)
  {
    ExitIsReplay(st, pid, now, MAX_UNDO);
    ExitChanges(st, pid, now, MAX_UNDO);
    var after := RetiredTo(st.undo, pid, MAX_UNDO);
    assert ProcessExit(st, pid, now).store.undo == after;
    if j :| 0 <= j < |st.undo| && st.undo[j].active && st.undo[j].pid == q && q != pid {
      assert after[j].active && after[j].pid == q;
    }
    if j :| 0 <= j < |after| && after[j].active && after[j].pid == q {
      assert st.undo[j].active && st.undo[j].pid == q;
    }
  }

  /** The scan after some watchers, told by what it started from. */
  ghost predicate Scanned(b: Broker, exited: seq<bool>, now: i64, n: nat, r: Broker)
    requires Valid(b.store) && |exited| == |b.watchers| && n <= |b.watchers|
  {
    var gone := Gone(b.watchers, exited, n);
    && Valid(r.store) && |r.watchers| == |b.watchers|
    && (forall i :: 0 <= i < |b.watchers| ==>
          r.watchers[i] == if i < n && b.watchers[i].active && exited[i] then Watcher(false, 0) else b.watchers[i])
    && Abs(r.store) == LedgerExits(Abs(b.store), gone, now)
    && (forall q :: Owing(r.store.undo, q) <==> Owing(b.store.undo, q) && q !in gone)
    && r.queue == (if exists q :: q in gone && Owing(b.store.undo, q) then Raise(b.queue) else b.queue)
  }

  lemma RaiseTwice(queue: seq<Waiter>)
    ensures Raise(Raise(queue)) == Raise(queue)
  {
  }

  lemma NotYetGone(watchers: seq<Watcher>, exited: seq<bool>, n: nat)
    requires WatchersOk(watchers) && |exited| == |watchers| && n < |watchers| && watchers[n].active
    ensures watchers[n].pid !in Gone(watchers, exited, n) && watchers[n].pid > 0
  {
    GoneIff(watchers, exited, n, watchers[n].pid);
  }

  lemma {:induction false} ReapToIs(b: Broker, exited: seq<bool>, now: i64, n: nat)
    requires Valid(b.store) && WatchersOk(b.watchers) && |exited| == |b.watchers| && n <= |b.watchers|
    ensures Scanned(b, exited, now, n, ReapTo(b, exited, now, n))
  {
    hide Valid, Owing, WatchersOk, ProcessExit, LedgerExit, Shape, Abs;
    if n > 0 {
      ReapToIs(b, exited, now, n - 1);
      ReapStep(b, exited, now, n - 1, ReapTo(b, exited, now, n - 1));
    }
  }

  lemma ReapStep(b: Broker, exited: seq<bool>, now: i64, n: nat, prev: Broker)
    requires Valid(b.store) && WatchersOk(b.watchers) && |exited| == |b.watchers| && n < |b.watchers|
    requires Scanned(b, exited, now, n, prev)
    ensures Shape(prev.store) && Scanned(b, exited, now, n + 1, Reap(prev, n, exited[n], now))
  {
    hide Valid, Scanned, WatchersOk, ProcessExit;
    StillThere(b, exited, now, n, prev);
    ShapeOf(prev.store);
    if b.watchers[n].active && exited[n] {
      ReapTakes(b, exited, now, n, prev);
    } else {
      ReapSkips(b, exited, now, n, prev);
    }
  }

  lemma StillThere(b: Broker, exited: seq<bool>, now: i64, n: nat, prev: Broker)
    requires Valid(b.store) && |exited| == |b.watchers| && n < |b.watchers| && Scanned(b, exited, now, n, prev)
    ensures Valid(prev.store) && |prev.watchers| == |b.watchers| && prev.watchers[n] == b.watchers[n]
  {
    hide Valid, Owing, LedgerExits, Abs, Raise, Gone;
  }

  lemma ReapSkips(b: Broker, exited: seq<bool>, now: i64, n: nat, prev: Broker)
    requires Valid(b.store) && |exited| == |b.watchers| && n < |b.watchers| && Scanned(b, exited, now, n, prev)
    requires !(b.watchers[n].active && exited[n])
    ensures Scanned(b, exited, now, n + 1, prev)
  {
    hide Valid, Owing, LedgerExits, Abs, Raise;
    assert Gone(b.watchers, exited, n) + [] == Gone(b.watchers, exited, n);
  }

  lemma ReapTakes(b: Broker, exited: seq<bool>, now: i64, n: nat, prev: Broker)
    requires Valid(b.store) && WatchersOk(b.watchers) && |exited| == |b.watchers| && n < |b.watchers|
    requires Scanned(b, exited, now, n, prev) && Shape(prev.store) && b.watchers[n].active && exited[n]
    ensures Scanned(b, exited, now, n + 1, Reap(prev, n, true, now))
  {
    hide Valid, Owing, WatchersOk, ProcessExit, LedgerExits, Abs, Raise, Shape, Unique, SetsOnly;
    var gone := Gone(b.watchers, exited, n);
    NotYetGone(b.watchers, exited, n);
    ReapValid(prev, n, true, now);
    ValidAbs(b.store);
    ValidAbs(prev.store);
    TakenStore(b.store, gone, b.watchers[n].pid, now, prev.store);
    TakenOwing(b.store, gone, b.watchers[n].pid, now, prev.store);
    TakenQueue(b, gone, b.watchers[n].pid, prev.queue);
  }

  /** One more exit, seen on the ledger. */
  lemma TakenStore(st: Store, gone: seq<i32>, pid: i32, now: i64, prev: Store)
    requires Valid(st) && Valid(prev) && Shape(prev)
    requires Unique(st.undo) && Unique(prev.undo) && Shape(SetsOnly(Abs(st)))
    requires Abs(prev) == LedgerExits(Abs(st), gone, now)
    ensures Unique(ProcessExit(prev, pid, now).store.undo)
    ensures Abs(ProcessExit(prev, pid, now).store) == LedgerExits(Abs(st), gone + [pid], now)
  {
    hide Valid, ProcessExit, LedgerExit, Abs, Unique, Shape;
    ExitRefines(prev, pid, now);
    assert (gone + [pid])[..|gone|] == gone;
  }

  /** And who still owes. */
  lemma TakenOwing(st: Store, gone: seq<i32>, pid: i32, now: i64, prev: Store)
    requires Valid(prev) && Shape(prev) && pid > 0 && pid !in gone
    requires forall q :: Owing(prev.undo, q) <==> Owing(st.undo, q) && q !in gone
    ensures forall q :: Owing(ProcessExit(prev, pid, now).store.undo, q) <==> Owing(st.undo, q) && q !in gone + [pid]
    ensures ProcessExit(prev, pid, now).code > 0 <==> Owing(st.undo, pid)
  {
    hide Valid, Owing, ProcessExit, Shape;
    ExitOwingIff(prev, pid, now, pid);
    forall q ensures Owing(ProcessExit(prev, pid, now).store.undo, q) <==> Owing(st.undo, q) && q !in gone + [pid] {
      ExitOwingIff(prev, pid, now, q);
    }
  }

  /** And who has been woken. */
  lemma TakenQueue(b: Broker, gone: seq<i32>, pid: i32, queue: seq<Waiter>)
    requires queue == if exists q :: q in gone && Owing(b.store.undo, q) then Raise(b.queue) else b.queue
    ensures (if Owing(b.store.undo, pid) then Raise(queue) else queue) ==
            if exists q :: q in gone + [pid] && Owing(b.store.undo, q) then Raise(b.queue) else b.queue
  {
    hide Owing, Raise;
    RaiseTwice(b.queue);
    if Owing(b.store.undo, pid) { assert pid in gone + [pid]; }
    if q :| q in gone && Owing(b.store.undo, q) { assert q in gone + [pid]; }
  }

  lemma ValidAbs(st: Store)
    requires Valid(st)
    ensures Unique(st.undo) && Shape(SetsOnly(Abs(st)))
  {
  }

  predicate FoundExited(watchers: seq<Watcher>, exited: seq<bool>, pid: i32)
    requires |exited| == |watchers|
  {
    exists j :: 0 <= j < |exited| && watchers[j] == Watcher(true, pid) && exited[j]
  }

  /** A whole scan, told by what it started from. */
  ghost predicate Swept(b: Broker, exited: seq<bool>, world: World, b': Broker)
    requires Valid(b.store) && |exited| == |b.watchers| && b.monitor.Waiting?
  {
    if b.monitor.timed && world.waitFailure != 0 then b' == b.(monitor := Stopped)
    else
      var gone := Gone(b.watchers, exited, |exited|);
      && Valid(b'.store) && |b'.watchers| == |b.watchers|
      && (forall i :: 0 <= i < |exited| ==>
            b'.watchers[i] == if b.watchers[i].active && exited[i] then Watcher(false, 0) else b.watchers[i])
      && (forall pid :: pid in gone <==> FoundExited(b.watchers, exited, pid))
      && (forall pid :: Owing(b'.store.undo, pid) <==>
            Owing(b.store.undo, pid) && !FoundExited(b.watchers, exited, pid))
      && Abs(b'.store) == LedgerExits(Abs(b.store), gone, world.realNow)
      && b'.queue == (if exists q :: q in gone && Owing(b.store.undo, q) then Raise(b.queue) else b.queue)
      && b'.monitor == (if forall i :: 0 <= i < |b'.watchers| ==> !b'.watchers[i].active then Waiting(false, false)
                        else if world.clockFailure != 0 then Stopped else Waiting(true, false))
  }

  lemma ScanSweeps(b: Broker, exited: seq<bool>, world: World)
    requires Valid(b.store) && WatchersOk(b.watchers) && |exited| == |b.watchers| && b.monitor.Waiting?
    ensures Swept(b, exited, world, Scan(b, exited, world))
  {
    hide Valid, Owing, WatchersOk, ReapTo, Abs, LedgerExits, Gone;
    ReapToIs(b, exited, world.realNow, |exited|);
    forall pid ensures pid in Gone(b.watchers, exited, |exited|) <==> FoundExited(b.watchers, exited, pid) {
      GoneIff(b.watchers, exited, |exited|, pid);
    }
  }

  /** Over every run, a scan whose wait did not fail forgets exactly the watchers of processes found exited. Exactly
      those processes no longer owe; the sets and balances are those of their exits, one after another; if one of
      them owed, everyone is woken; and the monitor goes on to wait, with a time limit if anyone is left to watch. */
  lemma ScanMeans(steps: seq<Step>, exited: seq<bool>, world: World)
    requires BrokerRuns.Run(steps).Some? && Legal(BrokerRuns.Run(steps).value.broker, ScanStep(exited, world))
    ensures var s := BrokerRuns.Run(steps).value;
            Valid(s.broker.store) && Swept(s.broker, exited, world, Act(s, ScanStep(exited, world)).broker)
  {
    hide BrokerRuns.Run, Good, Safe, Valid, Swept, Scan, WatchersOk;
    var s := BrokerRuns.Run(steps).value;
    GoodSafe(s);
    SafeParts(s.broker);
    SoundWatchers(s.broker);
    ScanSweeps(s.broker, exited, world);
  }
}
