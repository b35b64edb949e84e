/**
 SEM_UNDO restores exactly: if only one process operates on a semaphore, with
 SEM_UNDO throughout, its exit brings back the value it started from.
 */
module Restoration {
  import opened SemTypes
  import opened StoreModel
  import opened SemopMeaning
  import opened SemopAtomic
  import opened StoreValid
  import opened UndoLedger
  import opened ExitReplay
  import opened StoreRuns

  /** The call leaves semaphore `k` of the set to process `p`, and `p` itself uses SEM_UNDO on it. */
  ghost predicate LeftTo(p: i32, semid: i32, k: nat, st0: Store, call: Call) {
    match call
    case RemoveCall(id) => id != semid
    case SetAllCall(id, _, _) => id != semid
    case SetValCall(id, semNum, _, _) => id != semid || semNum != k
    case TryOpCall(id, ops, pid) =>
      id == semid ==> forall j :: 0 <= j < |ops| && ops[j].semNum == k ==> pid == p && ops[j].Undo()
    case ExitCall(q) => q != p && Owed(st0.undo, UndoKey(q, semid, k)) == 0
    case _ => true
  }

  /** One live semaphore of a store: its value and what each process owes it. */
  ghost predicate At(st: Store, semid: i32, i: nat, k: nat, nsems: nat) {
    Valid(st) && i < MAX_SETS && FindSet(st, semid) == Some(i) && k < nsems == |st.sets[i].values|
  }

  /** The step keeps `p`'s value plus debt, and every other process's debt. */
  ghost predicate Keeps(p: i32, semid: i32, i: nat, k: nat, nsems: nat, st: Store, st': Store) {
    && At(st, semid, i, k, nsems)
    && At(st', semid, i, k, nsems)
    && st'.sets[i].values[k] + Owed(st'.undo, UndoKey(p, semid, k)) ==
         st.sets[i].values[k] + Owed(st.undo, UndoKey(p, semid, k))
    && forall q :: q != p ==> Owed(st'.undo, UndoKey(q, semid, k)) == Owed(st.undo, UndoKey(q, semid, k))
  }

  lemma {:induction false} PartZero(ops: seq<SemOp>, k: int, n: nat, undo: bool)
    requires n <= |ops| && forall j :: 0 <= j < n && ops[j].semNum == k ==> ops[j].Undo() != undo
    ensures Part(ops, k, n, undo) == 0
  {
    if n > 0 { PartZero(ops, k, n - 1, undo); }
  }

  lemma TryOpKeeps(st: Store, p: i32, semid: i32, i: nat, k: nat, nsems: nat, id: i32, ops: seq<SemOp>, pid: i32,
                   now: i64)
    requires At(st, semid, i, k, nsems) && LeftTo(p, semid, k, st, TryOpCall(id, ops, pid))
    requires TryOp(st, id, ops, pid, now).code == 0
    ensures Keeps(p, semid, i, k, nsems, st, TryOp(st, id, ops, pid, now).store)
  {
    var st' := TryOp(st, id, ops, pid, now).store;
    TryOpValid(st, id, ops, pid, now);
    var j := FindSet(st, id).value;
    FindSetIsId(st, semid, i);
    FindSetIsId(st, id, j);
    var s := st.sets[j];
    var deltas := DeltasTo(ops, |s.values|, |ops|).value;
    if id == semid {
      EvalMeaning(s.values, ops, |ops|);
      DeltasMeaning(ops, |s.values|, |ops|, k);
      PartZero(ops, k, |ops|, false);
      if pid != p { PartZero(ops, k, |ops|, true); }
    }
    CommitChange(st.undo, pid, id, deltas, semid, k);
  }

  lemma CommitChange(undo: seq<UndoEntry>, pid: i32, id: i32, deltas: seq<int>, semid: i32, k: nat)
    requires Unique(undo) && CommitTo(undo, pid, id, deltas, |deltas|).Some?
    ensures forall q :: Owed(CommitTo(undo, pid, id, deltas, |deltas|).value, UndoKey(q, semid, k)) ==
              Owed(undo, UndoKey(q, semid, k)) + if q == pid && semid == id && k < |deltas| then deltas[k] else 0
  {
    hide *;
    forall q
      ensures Owed(CommitTo(undo, pid, id, deltas, |deltas|).value, UndoKey(q, semid, k)) ==
              Owed(undo, UndoKey(q, semid, k)) + if q == pid && semid == id && k < |deltas| then deltas[k] else 0
    {
      CommitOwed(undo, pid, id, deltas, |deltas|, UndoKey(q, semid, k));
      DeltaAt(UndoKey(q, semid, k), pid, id, deltas);
    }
  }

  lemma DeltaAt(key: UndoKey, pid: i32, semid: i32, deltas: seq<int>)
    ensures DeltaFor(key, pid, semid, deltas, |deltas|) ==
            if key.pid == pid && key.semid == semid && 0 <= key.semNum < |deltas| then deltas[key.semNum] else 0
  {
  }

  lemma ClearKeepsOwed(undo: seq<UndoEntry>, id: i32, semNum: int, all: bool, key: UndoKey)
    requires key.semid != id || (!all && key.semNum != semNum)
    ensures Owed(ClearUndo(undo, id, semNum, all), key) == Owed(undo, key)
  {
    ClearKeeps(undo, id, semNum, all, key);
    var j := FindUndo(undo, key.pid, key.semid, key.semNum);
    assert j < |undo| ==> Matches(undo[j], key.pid, key.semid, key.semNum);
  }

  lemma SemctlKeeps(st: Store, p: i32, semid: i32, i: nat, k: nat, nsems: nat, call: Call, now: i64)
    requires At(st, semid, i, k, nsems) && LeftTo(p, semid, k, st, call)
    requires call.RemoveCall? || call.SetValCall? || call.SetAllCall?
    ensures Keeps(p, semid, i, k, nsems, st, Apply(st, call, now).store)
  {
    hide TryOp, ProcessExit, Get, Census, DecodeId, ClearUndo, Owed;
    ApplyValid(st, call, now);
    var r := Apply(st, call, now);
    if r.code == 0 {
      var j := FindSet(st, call.semid).value;
      FindSetIsId(st, semid, i);
      FindSetIsId(st, call.semid, j);
      var semNum, all := if call.SetValCall? then call.semNum else 0, !call.SetValCall?;
      assert r.store.undo == ClearUndo(st.undo, call.semid, semNum, all);
      forall q ensures Owed(r.store.undo, UndoKey(q, semid, k)) == Owed(st.undo, UndoKey(q, semid, k)) {
        ClearKeepsOwed(st.undo, call.semid, semNum, all, UndoKey(q, semid, k));
      }
    }
  }

  lemma SetupKeeps(st: Store, p: i32, semid: i32, i: nat, k: nat, nsems: nat, call: Call, now: i64)
    requires At(st, semid, i, k, nsems) && (call.GetCall? || call.SetMetaCall? || call.AdjustWaitCall?)
    ensures Keeps(p, semid, i, k, nsems, st, Apply(st, call, now).store)
  {
    ApplyValid(st, call, now);
    SetupSame(st, semid, i, call, now);
    hide Apply, Valid;
  }

  lemma SetupSame(st: Store, semid: i32, i: nat, call: Call, now: i64)
    requires Shape(st) && FindSet(st, semid) == Some(i) && (call.GetCall? || call.SetMetaCall? || call.AdjustWaitCall?)
    ensures var st' := Apply(st, call, now).store;
            && Shape(st') && FindSet(st', semid) == Some(i)
            && st'.sets[i].values == st.sets[i].values && st'.undo == st.undo
  {
    hide Apply, FindSet;
    if call.GetCall? { GetSame(st, semid, i, call, now); } else { ChangeSame(st, semid, i, call, now); }
  }

  lemma GetSame(st: Store, semid: i32, i: nat, call: Call, now: i64)
    requires Shape(st) && FindSet(st, semid) == Some(i) && call.GetCall?
    ensures var st' := Apply(st, call, now).store;
            Shape(st') && FindSet(st', semid) == Some(i) && st'.sets[i] == st.sets[i] && st'.undo == st.undo
  {
    hide TryOp, ProcessExit, ClearUndo, Census, FindKey, FindSlot, HasFlag, DecodeId, MakeId;
  }

  lemma ChangeSame(st: Store, semid: i32, i: nat, call: Call, now: i64)
    requires Shape(st) && FindSet(st, semid) == Some(i) && (call.SetMetaCall? || call.AdjustWaitCall?)
    ensures var st' := Apply(st, call, now).store;
            && Shape(st') && FindSet(st', semid) == Some(i)
            && st'.sets[i].values == st.sets[i].values && st'.undo == st.undo
  {
    hide TryOp, ProcessExit, ClearUndo, Census, Get, DecodeId;
  }

  lemma ExitOwed(st: Store, q: i32, now: i64, key: UndoKey)
    requires Valid(st) && q > 0
    ensures Owed(ProcessExit(st, q, now).store.undo, key) == if key.pid == q then 0 else Owed(st.undo, key)
  {
    ExitIsReplay(st, q, now, MAX_UNDO);
    var after := RetiredTo(st.undo, q, MAX_UNDO);
    assert ProcessExit(st, q, now).store.undo == after;
    RetiredIsDropped(st.undo, q);
    FindUndoIsLookup(st.undo, key);
    FindUndoIsLookup(after, key);
  }

  lemma ExitKeeps(st: Store, p: i32, semid: i32, i: nat, k: nat, nsems: nat, q: i32, now: i64)
    requires At(st, semid, i, k, nsems) && q > 0 && q != p && Owed(st.undo, UndoKey(q, semid, k)) == 0
    ensures Keeps(p, semid, i, k, nsems, st, ProcessExit(st, q, now).store)
  {
    ExitConserves(st, q, now, semid, i, k);
    assert Bounded(st.sets[i].values, MAX_VALUE);
    forall o
      ensures o != q ==>
        Owed(ProcessExit(st, q, now).store.undo, UndoKey(o, semid, k)) == Owed(st.undo, UndoKey(o, semid, k))
      ensures Owed(ProcessExit(st, q, now).store.undo, UndoKey(q, semid, k)) == 0
    {
      ExitOwed(st, q, now, UndoKey(o, semid, k));
      ExitOwed(st, q, now, UndoKey(q, semid, k));
    }
  }

  /** Any single call that leaves the semaphore to `p` keeps value plus debt. */
  lemma ApplyKeeps(st: Store, p: i32, semid: i32, i: nat, k: nat, nsems: nat, call: Call, now: i64)
    requires At(st, semid, i, k, nsems) && LeftTo(p, semid, k, st, call)
    ensures Keeps(p, semid, i, k, nsems, st, Apply(st, call, now).store)
  {
    match call
    case TryOpCall(id, ops, pid) =>
      TryOpAtomic(st, id, ops, pid, now);
      if TryOp(st, id, ops, pid, now).code == 0 { TryOpKeeps(st, p, semid, i, k, nsems, id, ops, pid, now); }
    case ExitCall(q) => if q > 0 { ExitKeeps(st, p, semid, i, k, nsems, q, now); }
    case RemoveCall(_) => SemctlKeeps(st, p, semid, i, k, nsems, call, now);
    case SetAllCall(_, _, _) => SemctlKeeps(st, p, semid, i, k, nsems, call, now);
    case SetValCall(_, _, _, _) => SemctlKeeps(st, p, semid, i, k, nsems, call, now);
    case GetCall(_, _, _, _, _) => SetupKeeps(st, p, semid, i, k, nsems, call, now);
    case SetMetaCall(_, _, _, _, _) => SetupKeeps(st, p, semid, i, k, nsems, call, now);
    case AdjustWaitCall(_, _, _, _) => SetupKeeps(st, p, semid, i, k, nsems, call, now);
    case GetValCall(_, _) =>
    case GetPidCall(_, _) =>
    case GetAllCall(_, _) =>
    case StatCall(_) =>
    case StatIndexCall(_) =>
    case WaitCountCall(_, _, _) =>
    case InfoCall(_) =>
  }

  lemma {:induction false} RunKeeps(st: Store, calls: seq<Timed>, n: nat, p: i32, semid: i32, i: nat, k: nat,
                                    nsems: nat)
    requires At(st, semid, i, k, nsems) && n <= |calls|
    requires forall m :: 0 <= m < n ==> LeftTo(p, semid, k, st, calls[m].call)
    ensures Keeps(p, semid, i, k, nsems, st, RunFrom(st, calls, n))
  {
    hide Apply, LeftTo;
    if n > 0 {
      RunKeeps(st, calls, n - 1, p, semid, i, k, nsems);
      RunStep(st, calls, n);
      var before := RunFrom(st, calls, n - 1);
      var call := calls[n - 1].call;
      LeftToLater(p, semid, k, st, before, call);
      ApplyKeeps(before, p, semid, i, k, nsems, call, calls[n - 1].now);
    }
  }

  lemma LeftToLater(p: i32, semid: i32, k: nat, st: Store, st': Store, call: Call)
    requires LeftTo(p, semid, k, st, call)
    requires forall q :: q != p ==> Owed(st'.undo, UndoKey(q, semid, k)) == Owed(st.undo, UndoKey(q, semid, k))
    ensures LeftTo(p, semid, k, st', call)
  {
  }

  /** After any such run, `p`'s exit puts the starting value back and the clamp does not act. */
  lemma ExactRestoration(st: Store, calls: seq<Timed>, n: nat, p: i32, semid: i32, i: nat, k: nat, now: i64)
    requires Valid(st) && FindSet(st, semid) == Some(i) && k < |st.sets[i].values| && p > 0
    requires Owed(st.undo, UndoKey(p, semid, k)) == 0
    requires n <= |calls| && forall m :: 0 <= m < n ==> LeftTo(p, semid, k, st, calls[m].call)
    ensures var before := RunFrom(st, calls, n);
            var after := ProcessExit(before, p, now).store;
            && FindSet(after, semid) == Some(i) && k < |after.sets[i].values| == |before.sets[i].values|
            && before.sets[i].values[k] + Adjustment(before.undo, p, semid, k) == st.sets[i].values[k]
            && after.sets[i].values[k] == st.sets[i].values[k]
  {
    RunKeeps(st, calls, n, p, semid, i, k, |st.sets[i].values|);
    ExitConserves(RunFrom(st, calls, n), p, now, semid, i, k);
    assert Bounded(st.sets[i].values, MAX_VALUE);
  }
}
