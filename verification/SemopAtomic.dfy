/** The all-or-nothing law of semop: a batch that does not return 0 leaves the whole store as it was. */
module SemopAtomic {
  import opened SemTypes
  import opened StoreModel
  import opened SemopMeaning

  predicate Absent(undo: seq<UndoEntry>, pid: i32, semid: i32, k: int) {
    FindUndo(undo, pid, semid, k) == |undo|
  }

  lemma {:induction false} CountFreeUpdate(undo: seq<UndoEntry>, i: nat, e: UndoEntry, n: nat)
    requires i < |undo| && n <= |undo|
    ensures CountFree(undo[i := e], n) ==
            CountFree(undo, n) + if i >= n || undo[i].active == e.active then 0 else if e.active then -1 else 1
  {
    if n > 0 { CountFreeUpdate(undo, i, e, n - 1); }
  }

  lemma {:induction false} FreeExists(undo: seq<UndoEntry>, n: nat)
    requires n <= |undo| && CountFree(undo, n) > 0
    ensures FindFree(undo) < |undo|
  {
    if undo[n - 1].active { FreeExists(undo, n - 1); }
  }

  /** One posting takes at most one free entry, only when it has none, and no other semaphore's entry. */
  lemma PostUndoRoom(undo: seq<UndoEntry>, pid: i32, semid: i32, k: int, delta: int)
    requires Absent(undo, pid, semid, k) ==> CountFree(undo, |undo|) > 0
    ensures PostUndo(undo, pid, semid, k, delta).Some?
    ensures var after := PostUndo(undo, pid, semid, k, delta).value;
            && CountFree(after, |undo|) >= CountFree(undo, |undo|) - (if Absent(undo, pid, semid, k) then 1 else 0)
            && forall k' :: k' != k ==> (Absent(after, pid, semid, k') <==> Absent(undo, pid, semid, k'))
  {
    if Absent(undo, pid, semid, k) { FreeExists(undo, |undo|); }
    var i := FindUndo(undo, pid, semid, k);
    var slot := if i < |undo| then i else FindFree(undo);
    var after := PostUndo(undo, pid, semid, k, delta).value;
    CountFreeUpdate(undo, slot, after[slot], |undo|);
    forall k' | k' != k
      ensures Absent(after, pid, semid, k') <==> Absent(undo, pid, semid, k')
    {
      assert !Matches(undo[slot], pid, semid, k') && !Matches(after[slot], pid, semid, k');
      var j, j' := FindUndo(undo, pid, semid, k'), FindUndo(after, pid, semid, k');
      assert j < |undo| ==> Matches(after[j], pid, semid, k');
      assert j' < |undo| ==> Matches(undo[j'], pid, semid, k');
    }
  }

  lemma {:induction false} ReserveMonotone(undo: seq<UndoEntry>, pid: i32, semid: i32, deltas: seq<int>, n: nat, m: nat)
    requires n <= m <= |deltas| && ReserveTo(undo, pid, semid, deltas, m).Some?
    ensures ReserveTo(undo, pid, semid, deltas, n).Some?
    ensures ReserveTo(undo, pid, semid, deltas, n).value <= ReserveTo(undo, pid, semid, deltas, m).value
    decreases m
  {
    if n < m { ReserveMonotone(undo, pid, semid, deltas, n, m - 1); }
  }

  /** The reservation bounds what the commit loop takes, so its table-full exit is never reached. */
  lemma {:induction false} CommitHasRoom(undo: seq<UndoEntry>, pid: i32, semid: i32, deltas: seq<int>, n: nat)
    requires n <= |deltas|
    requires ReserveTo(undo, pid, semid, deltas, |deltas|).Some?
    requires ReserveTo(undo, pid, semid, deltas, |deltas|).value <= CountFree(undo, |undo|)
    ensures ReserveTo(undo, pid, semid, deltas, n).Some?
    ensures CommitTo(undo, pid, semid, deltas, n).Some?
    ensures var after := CommitTo(undo, pid, semid, deltas, n).value;
            && CountFree(after, |undo|) >= CountFree(undo, |undo|) - ReserveTo(undo, pid, semid, deltas, n).value
            && forall k :: k >= n ==> (Absent(after, pid, semid, k) <==> Absent(undo, pid, semid, k))
  {
    ReserveMonotone(undo, pid, semid, deltas, n, |deltas|);
    if n > 0 {
      CommitHasRoom(undo, pid, semid, deltas, n - 1);
      if deltas[n - 1] != 0 {
        var before := CommitTo(undo, pid, semid, deltas, n - 1).value;
        assert Absent(before, pid, semid, n - 1) <==> Absent(undo, pid, semid, n - 1);
        PostUndoRoom(before, pid, semid, n - 1, deltas[n - 1]);
      }
    }
  }

  /** Every result other than 0 leaves the whole store unchanged; no batch ends half committed. */
  lemma TryOpAtomic(st: Store, semid: i32, ops: seq<SemOp>, pid: i32, now: i64)
    requires Shape(st)
    ensures var r := TryOp(st, semid, ops, pid, now);
            r.code != 0 ==> r.store == st
  {
    var i := FindSet(st, semid);
    if i.Some? && ops != [] && ValidBatch(ops, |st.sets[i.value].values|) {
      var s := st.sets[i.value];
      var deltas := DeltasTo(ops, |s.values|, |ops|);
      if EvalTo(s.values, ops, |ops|).Ready? && deltas.Some? {
        var required := ReserveTo(st.undo, pid, semid, deltas.value, |s.values|);
        if required.Some? && required.value <= CountFree(st.undo, |st.undo|) {
          CommitHasRoom(st.undo, pid, semid, deltas.value, |deltas.value|);
        }
      }
    }
  }

  // ---------------------------------------------------------------- when a batch runs

  /** The undo changes of the batch stay in range, one by one and on top of what the process owes already, and the
      table has a free entry for each new debt. */
  predicate Affordable(undo: seq<UndoEntry>, pid: i32, semid: i32, ops: seq<SemOp>, nsems: nat)
    requires NamesOnly(ops, nsems)
  {
    && DeltasTo(ops, nsems, |ops|).Some?
    && var required := ReserveTo(undo, pid, semid, DeltasTo(ops, nsems, |ops|).value, nsems);
       required.Some? && required.value <= CountFree(undo, |undo|)
  }

  /** Changes of zero need no entry and post nothing. */
  lemma {:induction false} NothingReserved(undo: seq<UndoEntry>, pid: i32, semid: i32, deltas: seq<int>, n: nat)
    requires n <= |deltas| && forall k :: 0 <= k < |deltas| ==> deltas[k] == 0
    ensures ReserveTo(undo, pid, semid, deltas, n) == Some(0) && CommitTo(undo, pid, semid, deltas, n) == Some(undo)
  {
    if n > 0 { NothingReserved(undo, pid, semid, deltas, n - 1); }
  }

  /** The batch can run now: the set is live, the batch is well formed, every operation passes in turn, and its undo
      changes are affordable. */
  predicate Runnable(st: Store, semid: i32, ops: seq<SemOp>, pid: i32)
    requires Shape(st)
  {
    FindSet(st, semid).Some? &&
    var values := st.sets[FindSet(st, semid).value].values;
    && ops != [] && ValidBatch(ops, |values|)
    && (forall i :: 0 <= i < |ops| ==> Passes(values, ops, i))
    && Affordable(st.undo, pid, semid, ops, |values|)
  }

  /** How a well-formed batch on a live set ends, by what its evaluation comes to. */
  lemma TryOpOutcome(st: Store, semid: i32, i: nat, ops: seq<SemOp>, pid: i32, now: i64)
    requires Shape(st) && FindSet(st, semid) == Some(i) && ops != [] && ValidBatch(ops, |st.sets[i].values|)
    ensures var r := TryOp(st, semid, ops, pid, now);
            var e := EvalTo(st.sets[i].values, ops, |ops|);
            && (e.Overflows? ==> r.code == -ERANGE)
            && (e.Blocks? ==> r.code == (if ops[e.at].NoWait() then -EAGAIN else OP_BLOCKED))
            && (e.Ready? ==> r.code == 0 || r.code == -ERANGE || r.code == -ENOSPC)
            && (e.Ready? ==> (r.code == 0 <==> Affordable(st.undo, pid, semid, ops, |st.sets[i].values|)))
            && (r.code == 0 ==>
                  |r.store.sets| == MAX_SETS && r.store.sets[i].active && r.store.sets[i].values == e.values)
  {
    var n := |st.sets[i].values|;
    if EvalTo(st.sets[i].values, ops, |ops|).Ready? && Affordable(st.undo, pid, semid, ops, n) {
      CommitHasRoom(st.undo, pid, semid, DeltasTo(ops, n, |ops|).value, n);
    }
  }

  /** semop succeeds exactly when the batch can run. */
  lemma SucceedsIff(st: Store, semid: i32, ops: seq<SemOp>, pid: i32, now: i64)
    requires Shape(st)
    ensures TryOp(st, semid, ops, pid, now).code == 0 <==> Runnable(st, semid, ops, pid)
  {
    if FindSet(st, semid).Some? {
      var i := FindSet(st, semid).value;
      var values := st.sets[i].values;
      if ops != [] && ValidBatch(ops, |values|) {
        hide TryOp, EvalTo, Passes, Affordable;
        TryOpOutcome(st, semid, i, ops, pid, now);
        EvalMeaning(values, ops, |ops|);
      }
    }
  }
}
