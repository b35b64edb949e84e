/**
 Theorems about the store over whole runs: it refines the ledger store,
 conserves what semaphores are worth, restores exactly, composes batches and
 never confuses a stale identifier with a live one before its slot's generation wraps.
 */
module StoreRuns {
  import opened SemTypes
  import opened StoreModel
  import opened SemopMeaning
  import opened SemopAtomic
  import opened StoreValid
  import opened UndoLedger
  import opened ExitReplay

  /** The store after the first `n` calls of a run that starts in `st`. */
  ghost function RunFrom(st: Store, calls: seq<Timed>, n: nat): (r: Store)
    requires Valid(st) && n <= |calls|
    ensures Valid(r)
  {
    if n == 0 then st
    else
      var before := RunFrom(st, calls, n - 1);
      ApplyValid(before, calls[n - 1].call, calls[n - 1].now);
      Apply(before, calls[n - 1].call, calls[n - 1].now).store
  }

  lemma RunStart(st: Store, calls: seq<Timed>)
    requires Valid(st)
    ensures RunFrom(st, calls, 0) == st
  {
  }

  lemma RunStep(st: Store, calls: seq<Timed>, n: nat)
    requires Valid(st) && 0 < n <= |calls|
    ensures Shape(RunFrom(st, calls, n - 1))
    ensures RunFrom(st, calls, n) == Apply(RunFrom(st, calls, n - 1), calls[n - 1].call, calls[n - 1].now).store
  {
  }

  /** In every reachable store the liveness test of the exit loop passes for each entry it meets. */
  lemma ExitGuardPasses(st: Store, calls: seq<Timed>, n: nat, i: nat)
    requires Valid(st) && n <= |calls| && i < MAX_UNDO
    ensures RunFrom(st, calls, n).undo[i].active ==> Replays(RunFrom(st, calls, n), RunFrom(st, calls, n).undo[i])
  {
    var r := RunFrom(st, calls, n);
    assert r.undo[i].active ==> EntryOk(r, r.undo[i]);
  }

  // ---------------------------------------------------------------- refinement of the ledger store

  lemma ClearKeeps(undo: seq<UndoEntry>, semid: i32, semNum: int, all: bool, key: UndoKey)
    ensures var after := ClearUndo(undo, semid, semNum, all);
            if key.semid == semid && (all || key.semNum == semNum) then Absent(after, key.pid, key.semid, key.semNum)
            else FindUndo(after, key.pid, key.semid, key.semNum) == FindUndo(undo, key.pid, key.semid, key.semNum)
  {
    var after := ClearUndo(undo, semid, semNum, all);
    var j, j' := FindUndo(undo, key.pid, key.semid, key.semNum), FindUndo(after, key.pid, key.semid, key.semNum);
    assert j' < |undo| ==> Matches(undo[j'], key.pid, key.semid, key.semNum);
    if !(key.semid == semid && (all || key.semNum == semNum)) {
      assert j < |undo| ==> Matches(after[j], key.pid, key.semid, key.semNum);
    }
  }

  lemma ClearIsForget(undo: seq<UndoEntry>, semid: i32, semNum: int, all: bool)
    requires Unique(undo)
    ensures Unique(ClearUndo(undo, semid, semNum, all))
    ensures LedgerOf(ClearUndo(undo, semid, semNum, all)) == Forget(LedgerOf(undo), semid, semNum, all)
  {
    hide LedgerOf, Unique, ClearUndo, Forget, KeyOf, Cleared;
    ClearUnique(undo, semid, semNum, all);
    var l, m := LedgerOf(ClearUndo(undo, semid, semNum, all)), Forget(LedgerOf(undo), semid, semNum, all);
    forall key
      ensures key in l <==> key in m
      ensures key in l ==> l[key] == m[key]
    {
      KeyForgotten(undo, semid, semNum, all, key);
    }
  }

  lemma KeyForgotten(undo: seq<UndoEntry>, semid: i32, semNum: int, all: bool, key: UndoKey)
    requires Unique(undo) && Unique(ClearUndo(undo, semid, semNum, all))
    ensures var l, m := LedgerOf(ClearUndo(undo, semid, semNum, all)), Forget(LedgerOf(undo), semid, semNum, all);
            (key in l <==> key in m) && (key in l ==> l[key] == m[key])
  {
    hide LedgerOf, Unique, ClearUndo;
    ClearKeeps(undo, semid, semNum, all, key);
    FindUndoIsLookup(undo, key);
    FindUndoIsLookup(ClearUndo(undo, semid, semNum, all), key);
  }

  lemma ClearUnique(undo: seq<UndoEntry>, semid: i32, semNum: int, all: bool)
    requires Unique(undo)
    ensures Unique(ClearUndo(undo, semid, semNum, all))
  {
  }

  lemma SemctlRefines(st: Store, call: Call, now: i64)
    requires Valid(st) && (call.RemoveCall? || call.SetValCall? || call.SetAllCall?)
    ensures var r := Apply(st, call, now);
            && Unique(r.store.undo)
            && LedgerEffect(Abs(r.store), r.code, r.answer) == LedgerApply(Abs(st), call, now)
  {
    hide TryOp, LedgerTryOp, Get, ProcessExit, LedgerExit, Census, DecodeId, Unique, LedgerOf, ClearUndo, Forget;
    assert FindSet(SetsOnly(Abs(st)), call.semid) == FindSet(st, call.semid);
    match call
    case RemoveCall(semid) => ClearIsForget(st.undo, semid, 0, true);
    case SetAllCall(semid, _, _) => ClearIsForget(st.undo, semid, 0, true);
    case SetValCall(semid, semNum, _, _) => ClearIsForget(st.undo, semid, semNum, false);
  }

  // Calls that never read the undo table give the same result whatever the table holds.

  lemma ReadIgnoresUndo(st: Store, undo: seq<UndoEntry>, call: Call, now: i64)
    requires Shape(st) && |undo| == MAX_UNDO
    requires call.GetValCall? || call.GetPidCall? || call.GetAllCall? || call.StatCall? || call.StatIndexCall?
          || call.WaitCountCall? || call.InfoCall?
    ensures var r, r' := Apply(st, call, now), Apply(st.(undo := undo), call, now);
            r.store == st && r'.store == st.(undo := undo) && r'.code == r.code && r'.answer == r.answer
  {
    hide TryOp, ProcessExit, ClearUndo, Get, Census, DecodeId;
  }

  lemma GetIgnoresUndo(st: Store, undo: seq<UndoEntry>, call: Call, now: i64)
    requires Shape(st) && |undo| == MAX_UNDO && call.GetCall?
    ensures var r, r' := Apply(st, call, now), Apply(st.(undo := undo), call, now);
            r.store.undo == st.undo && r'.store == r.store.(undo := undo) && r'.code == r.code && r'.answer == r.answer
  {
    hide TryOp, ProcessExit, ClearUndo, Census, FreshSet, FindKey, FindSlot;
  }

  lemma SetupIgnoresUndo(st: Store, undo: seq<UndoEntry>, call: Call, now: i64)
    requires Shape(st) && |undo| == MAX_UNDO && (call.SetMetaCall? || call.AdjustWaitCall?)
    ensures var r, r' := Apply(st, call, now), Apply(st.(undo := undo), call, now);
            r.store.undo == st.undo && r'.store == r.store.(undo := undo) && r'.code == r.code && r'.answer == r.answer
  {
    hide TryOp, ProcessExit, ClearUndo, Census, Get, DecodeId, WithCounter;
  }

  lemma ReadRefines(st: Store, call: Call, now: i64)
    requires Valid(st)
    requires call.GetValCall? || call.GetPidCall? || call.GetAllCall? || call.StatCall? || call.StatIndexCall?
          || call.WaitCountCall? || call.InfoCall?
    ensures Apply(st, call, now).store == st
    ensures LedgerEffect(Abs(st), Apply(st, call, now).code, Apply(st, call, now).answer) ==
            LedgerApply(Abs(st), call, now)
  {
    hide LedgerOf, Apply;
    ReadIgnoresUndo(st, SetsOnly(Abs(st)).undo, call, now);
    assert st.(undo := SetsOnly(Abs(st)).undo) == SetsOnly(Abs(st));
  }

  lemma SetupRefines(st: Store, call: Call, now: i64)
    requires Valid(st) && (call.GetCall? || call.SetMetaCall? || call.AdjustWaitCall?)
    ensures Apply(st, call, now).store.undo == st.undo
    ensures var r := Apply(st, call, now);
            LedgerEffect(Abs(r.store), r.code, r.answer) == LedgerApply(Abs(st), call, now)
  {
    hide LedgerOf, Apply;
    var undo := SetsOnly(Abs(st)).undo;
    if call.GetCall? { GetIgnoresUndo(st, undo, call, now); } else { SetupIgnoresUndo(st, undo, call, now); }
    assert st.(undo := undo) == SetsOnly(Abs(st));
  }

  /** Every call returns the same code and data, and leaves the same sets and balances, as on the ledger store. */
  lemma ApplyRefines(st: Store, call: Call, now: i64)
    requires Valid(st)
    ensures var r := Apply(st, call, now);
            && Unique(r.store.undo)
            && LedgerEffect(Abs(r.store), r.code, r.answer) == LedgerApply(Abs(st), call, now)
  {
    match call
    case TryOpCall(semid, ops, pid) => TryOpRefines(st, semid, ops, pid, now);
    case ExitCall(pid) => ExitRefines(st, pid, now);
    case RemoveCall(_) => SemctlRefines(st, call, now);
    case SetAllCall(_, _, _) => SemctlRefines(st, call, now);
    case SetValCall(_, _, _, _) => SemctlRefines(st, call, now);
    case GetCall(_, _, _, _, _) => SetupRefines(st, call, now);
    case SetMetaCall(_, _, _, _, _) => SetupRefines(st, call, now);
    case AdjustWaitCall(_, _, _, _) => SetupRefines(st, call, now);
    case GetValCall(_, _) => ReadRefines(st, call, now);
    case GetPidCall(_, _) => ReadRefines(st, call, now);
    case GetAllCall(_, _) => ReadRefines(st, call, now);
    case StatCall(_) => ReadRefines(st, call, now);
    case StatIndexCall(_) => ReadRefines(st, call, now);
    case WaitCountCall(_, _, _) => ReadRefines(st, call, now);
    case InfoCall(_) => ReadRefines(st, call, now);
  }

  /** Two stores that differ only in where undo entries sit answer a call alike and still differ only in that. */
  lemma SameReply(st: Store, st': Store, call: Call, now: i64)
    requires Valid(st) && Valid(st') && Abs(st) == Abs(st')
    ensures Unique(Apply(st, call, now).store.undo) && Unique(Apply(st', call, now).store.undo)
    ensures var r, r' := Apply(st, call, now), Apply(st', call, now);
            r.code == r'.code && r.answer == r'.answer && Abs(r.store) == Abs(r'.store)
  {
    hide LedgerOf, LedgerApply;
    ApplyRefines(st, call, now);
    ApplyRefines(st', call, now);
  }

  /** So no run can tell where undo entries sit. */
  lemma {:induction false} TableOrderInvisible(st: Store, st': Store, calls: seq<Timed>, n: nat)
    requires Valid(st) && Valid(st') && Abs(st) == Abs(st') && n <= |calls|
    ensures Abs(RunFrom(st, calls, n)) == Abs(RunFrom(st', calls, n))
  {
    hide *;
    if n == 0 {
      RunStart(st, calls);
      RunStart(st', calls);
    } else {
      RunStep(st, calls, n);
      RunStep(st', calls, n);
      TableOrderInvisible(st, st', calls, n - 1);
      SameReply(RunFrom(st, calls, n - 1), RunFrom(st', calls, n - 1), calls[n - 1].call, calls[n - 1].now);
    }
  }

  // ---------------------------------------------------------------- batches

  lemma ChargeCompose(ledger: Ledger, pid: i32, semid: i32, da: seq<int>, db: seq<int>, dab: seq<int>)
    requires NonZero(ledger) && |da| == |db| == |dab|
    requires forall k :: 0 <= k < |da| ==> dab[k] == da[k] + db[k]
    ensures Charge(Charge(ledger, pid, semid, da), pid, semid, db) == Charge(ledger, pid, semid, dab)
  {
    var a := Charge(ledger, pid, semid, da);
    forall key
      ensures Balance(Charge(a, pid, semid, db), key) == Balance(Charge(ledger, pid, semid, dab), key)
    {
      ChargeBalance(ledger, pid, semid, da, key);
      ChargeBalance(a, pid, semid, db, key);
      ChargeBalance(ledger, pid, semid, dab, key);
    }
    SameBalances(Charge(a, pid, semid, db), Charge(ledger, pid, semid, dab));
  }

  lemma DeltasCompose(a: seq<SemOp>, b: seq<SemOp>, nsems: nat)
    requires NamesOnly(a, nsems) && NamesOnly(b, nsems) && NamesOnly(a + b, nsems)
    requires DeltasTo(a, nsems, |a|).Some? && DeltasTo(b, nsems, |b|).Some? && DeltasTo(a + b, nsems, |a + b|).Some?
    ensures forall k :: 0 <= k < nsems ==>
              DeltasTo(a + b, nsems, |a + b|).value[k] ==
                  DeltasTo(a, nsems, |a|).value[k] + DeltasTo(b, nsems, |b|).value[k]
  {
    forall k | 0 <= k < nsems
      ensures DeltasTo(a + b, nsems, |a + b|).value[k] ==
              DeltasTo(a, nsems, |a|).value[k] + DeltasTo(b, nsems, |b|).value[k]
    {
      DeltasMeaning(a, nsems, |a|, k);
      DeltasMeaning(b, nsems, |b|, k);
      DeltasMeaning(a + b, nsems, |a + b|, k);
      PartAppend(a, b, k, |b|, true);
    }
  }

  /** When A ++ B, A, and then B all succeed, both ways give the same values, last pids and undo balances. */
  lemma BatchCompose(st: Store, semid: i32, a: seq<SemOp>, b: seq<SemOp>, pid: i32, now: i64)
    requires Valid(st)
    requires TryOp(st, semid, a + b, pid, now).code == 0
    requires TryOp(st, semid, a, pid, now).code == 0
    requires var first := TryOp(st, semid, a, pid, now).store;
             Shape(first) && TryOp(first, semid, b, pid, now).code == 0
    ensures Valid(TryOp(st, semid, a + b, pid, now).store)
    ensures Valid(TryOp(TryOp(st, semid, a, pid, now).store, semid, b, pid, now).store)
    ensures Abs(TryOp(st, semid, a + b, pid, now).store)
         == Abs(TryOp(TryOp(st, semid, a, pid, now).store, semid, b, pid, now).store)
  {
    hide TryOp, LedgerTryOp;
    var first := TryOp(st, semid, a, pid, now).store;
    TryOpValid(st, semid, a, pid, now);
    TryOpValid(st, semid, a + b, pid, now);
    TryOpValid(first, semid, b, pid, now);
    TryOpRefines(st, semid, a, pid, now);
    TryOpRefines(st, semid, a + b, pid, now);
    TryOpRefines(first, semid, b, pid, now);
    LedgerBatchCompose(st, first, semid, a, b, pid, now);
  }

  lemma OperatedCompose(s: SemSet, a: seq<SemOp>, b: seq<SemOp>, pid: i32, now: i64)
    requires ShapedSet(s) && NamesOnly(a, |s.values|) && NamesOnly(b, |s.values|)
    requires EvalTo(s.values, a, |a|).Ready? && EvalTo(EvalTo(s.values, a, |a|).values, b, |b|).Ready?
    ensures NamesOnly(a + b, |s.values|) && EvalTo(s.values, a + b, |a + b|).Ready?
    ensures Operated(Operated(s, a, pid, now), b, pid, now) == Operated(s, a + b, pid, now)
  {
    EvalAppend(s.values, a, b, |b|);
    StampAppend(s.lastPids, a, b, pid);
  }

  lemma LedgerBatchCompose(st: Store, first: Store, semid: i32, a: seq<SemOp>, b: seq<SemOp>, pid: i32, now: i64)
    requires Valid(st) && Valid(first)
    requires LedgerTryOp(Abs(st), semid, a + b, pid, now).code == 0
    requires var r := LedgerTryOp(Abs(st), semid, a, pid, now);
             r.code == 0 && r.store == Abs(first)
    requires LedgerTryOp(Abs(first), semid, b, pid, now).code == 0
    ensures LedgerTryOp(Abs(st), semid, a + b, pid, now) == LedgerTryOp(Abs(first), semid, b, pid, now)
  {
    hide Charge, LedgerOf;
    var i := FindSet(SetsOnly(Abs(st)), semid).value;
    var s := st.sets[i];
    assert FindSet(SetsOnly(Abs(first)), semid) == Some(i);
    OperatedCompose(s, a, b, pid, now);
    DeltasCompose(a, b, |s.values|);
    ValidNonZero(st);
    ChargeCompose(LedgerOf(st.undo), pid, semid, DeltasTo(a, |s.values|, |a|).value,
                  DeltasTo(b, |s.values|, |b|).value, DeltasTo(a + b, |s.values|, |a + b|).value);
  }

  // ---------------------------------------------------------------- conservation

  function Share(e: UndoEntry, semid: i32, k: int): int {
    if e.active && e.semid == semid && e.semNum == k then e.adjustment else 0
  }

  /** The sum of all processes' adjustments on one semaphore, over the first `n` entries. */
  function OwedTo(undo: seq<UndoEntry>, semid: i32, k: int, n: nat): int
    requires n <= |undo|
  {
    if n == 0 then 0 else OwedTo(undo, semid, k, n - 1) + Share(undo[n - 1], semid, k)
  }

  lemma {:induction false} OwedUpdate(undo: seq<UndoEntry>, i: nat, e: UndoEntry, semid: i32, k: int, n: nat)
    requires i < |undo| && n <= |undo|
    ensures OwedTo(undo[i := e], semid, k, n) ==
            OwedTo(undo, semid, k, n) + if i < n then Share(e, semid, k) - Share(undo[i], semid, k) else 0
  {
    if n > 0 { OwedUpdate(undo, i, e, semid, k, n - 1); }
  }

  lemma {:induction false} CommitOwedTotal(undo: seq<UndoEntry>, pid: i32, semid: i32, deltas: seq<int>, n: nat,
                                           id: i32, k: int)
    requires n <= |deltas| && CommitTo(undo, pid, semid, deltas, n).Some?
    ensures OwedTo(CommitTo(undo, pid, semid, deltas, n).value, id, k, |undo|) ==
            OwedTo(undo, id, k, |undo|) + if id == semid && 0 <= k < n then deltas[k] else 0
  {
    if n > 0 {
      CommitOwedTotal(undo, pid, semid, deltas, n - 1, id, k);
      if deltas[n - 1] != 0 {
        var before := CommitTo(undo, pid, semid, deltas, n - 1).value;
        var after := PostUndo(before, pid, semid, n - 1, deltas[n - 1]).value;
        var j := FindUndo(before, pid, semid, n - 1);
        var slot := if j < |undo| then j else FindFree(before);
        OwedUpdate(before, slot, after[slot], id, k, |undo|);
      }
    }
  }

  /** Value plus everything still owed: what the semaphore would hold if every process left now. */
  function Worth(st: Store, i: nat, semid: i32, k: nat): int
    requires Shape(st) && i < MAX_SETS && k < |st.sets[i].values|
  {
    st.sets[i].values[k] + OwedTo(st.undo, semid, k, MAX_UNDO)
  }

  /** A successful batch changes the worth of each live semaphore by exactly its operations without SEM_UNDO. */
  lemma TryOpConserves(st: Store, semid: i32, ops: seq<SemOp>, pid: i32, now: i64, id: i32, i: nat, k: nat)
    requires Valid(st) && TryOp(st, semid, ops, pid, now).code == 0
    requires FindSet(st, id) == Some(i) && k < |st.sets[i].values|
    ensures var st' := TryOp(st, semid, ops, pid, now).store;
            && Valid(st') && FindSet(st', id) == Some(i) && |st'.sets[i].values| == |st.sets[i].values|
            && Worth(st', i, id, k) == Worth(st, i, id, k) + if id == semid then Part(ops, k, |ops|, false) else 0
  {
    TryOpValid(st, semid, ops, pid, now);
    var j := FindSet(st, semid).value;
    FindSetIsId(st, id, i);
    FindSetIsId(st, semid, j);
    var n := |st.sets[j].values|;
    EvalMeaning(st.sets[j].values, ops, |ops|);
    if id == semid { DeltasMeaning(ops, n, |ops|, k); }
    CommitOwedTotal(st.undo, pid, semid, DeltasTo(ops, n, |ops|).value, n, id, k);
  }

  lemma {:induction false} RetiredOwed(st: Store, pid: i32, semid: i32, k: int, n: nat)
    requires Valid(st) && n <= MAX_UNDO
    ensures OwedTo(RetiredTo(st.undo, pid, MAX_UNDO), semid, k, n) ==
            OwedTo(st.undo, semid, k, n) -
              if Due(st.undo, pid, semid, k, n) then Adjustment(st.undo, pid, semid, k) else 0
  {
    if n > 0 {
      RetiredOwed(st, pid, semid, k, n - 1);
      DueStep(st, pid, semid, k, n - 1);
      assert RetiredTo(st.undo, pid, MAX_UNDO)[n - 1] ==
             if st.undo[n - 1].active && st.undo[n - 1].pid == pid then st.undo[n - 1].(active := false)
             else st.undo[n - 1];
    }
  }

  /** Process exit leaves each semaphore at its value plus what the process owes, cut at 0 and at 32767; it conserves
      the semaphore's worth exactly when nothing is cut. */
  lemma ExitConserves(st: Store, pid: i32, now: i64, id: i32, i: nat, k: nat)
    requires Valid(st) && pid > 0 && FindSet(st, id) == Some(i) && k < |st.sets[i].values|
    ensures var st' := ProcessExit(st, pid, now).store;
            && Valid(st') && FindSet(st', id) == Some(i) && |st'.sets[i].values| == |st.sets[i].values|
            && var sum := st.sets[i].values[k] + Adjustment(st.undo, pid, id, k);
            && st'.sets[i].values[k] == (if sum < 0 then 0 else if sum > 32767 then 32767 else sum)
            && (Worth(st', i, id, k) == Worth(st, i, id, k) <==>
                0 <= sum <= 32767)
  {
    ExitValid(st, pid, now, MAX_UNDO);
    ExitIsReplay(st, pid, now, MAX_UNDO);
    FindSetIsId(st, id, i);
    RetiredOwed(st, pid, id, k, MAX_UNDO);
    assert ProcessExit(st, pid, now).store.sets[i] == SlotTo(st, pid, now, i, MAX_UNDO);
    assert Bounded(st.sets[i].values, MAX_VALUE);
  }
}
