/** semop by what its caller and later calls see: every result code with its exact condition, and every effect. */
module SemopLaws {
  import opened SemTypes
  import opened StoreModel
  import opened SemopMeaning
  import opened StoreValid
  import opened UndoLedger
  import opened Restoration
  import opened StoreLaws

  /** Empty, or some operation names no semaphore of the set or has a flag other than IPC_NOWAIT and SEM_UNDO. */
  predicate BadBatch(ops: seq<SemOp>, n: nat) {
    || ops == []
    || exists j :: 0 <= j < |ops| &&
         (ops[j].semNum >= n ||
          (ops[j].flg != 0 && ops[j].flg != 0x800 && ops[j].flg != 0x1000 && ops[j].flg != 0x1800))
  }

  lemma BadIff(ops: seq<SemOp>, n: nat)
    ensures BadBatch(ops, n) <==> ops == [] || !ValidBatch(ops, n)
  {
    forall j | 0 <= j < |ops|
      ensures ops[j].KnownFlags() <==>
              ops[j].flg == 0 || ops[j].flg == 0x800 || ops[j].flg == 0x1000 || ops[j].flg == 0x1800
    {
      FourFlags(ops[j].flg);
    }
  }

  lemma FourFlags(flg: u16)
    ensures flg % 0x800 == 0 && flg < 0x2000 <==> flg == 0 || flg == 0x800 || flg == 0x1000 || flg == 0x1800
  {
    var q := flg / 0x800;
    assert flg == q * 0x800 + flg % 0x800;
    if flg % 0x800 == 0 && flg < 0x2000 { assert q == 0 || q == 1 || q == 2 || q == 3; }
  }

  /** A batch on no live set, or a bad one, is refused; otherwise the first operation that may not run by running sums
      decides: adding too much is out of range, and anything else waits, unless it has IPC_NOWAIT, for its semaphore. */
  lemma SemopStops(st: Store, semid: i32, ops: seq<SemOp>, pid: i32, now: i64, at: nat)
    requires Shape(st)
    ensures var r := TryOp(st, semid, ops, pid, now);
            if FindSet(st, semid).None? || BadBatch(ops, |st.sets[FindSet(st, semid).value].values|) then
              r == Effect(st, -22, NoData)
            else
              var values := st.sets[FindSet(st, semid).value].values;
              NamesOnly(ops, |values|) && (FirstFailing(values, ops, at) ==>
                var op := ops[at];
                && r.store == st
                && r.code == (if op.op > 0 then -34 else if HasFlag(op.flg, 0x800) then -11 else 1)
                && (op.op <= 0 ==> r.answer == Waits(WaitReason(op.semNum, op.op == 0))))
  {
    hide DecodeId, DeltasTo, ReserveTo, Commit, CountFree, Passes, EvalTo;
    if FindSet(st, semid).Some? {
      var values := st.sets[FindSet(st, semid).value].values;
      BadIff(ops, |values|);
      if ops != [] && ValidBatch(ops, |values|) {
        EvalMeaning(values, ops, |ops|);
        if FirstFailing(values, ops, at) {
          var e := EvalTo(values, ops, |ops|);
          var at' :| StopsAt(values, ops, |ops|, at', e);
          assert at' == at;
        }
      }
    }
  }

  /** The new adjustments, each running total included, stay within 16 bits. */
  predicate UndoInRange(undo: seq<UndoEntry>, pid: i32, semid: i32, ops: seq<SemOp>, n: nat) {
    && (forall i :: 0 <= i < |ops| && ops[i].Undo() ==> -32768 <= -Part(ops, ops[i].semNum, i + 1, true) <= 32767)
    && (forall k :: 0 <= k < n && Part(ops, k, |ops|, true) != 0 ==>
          -32768 <= Owed(undo, UndoKey(pid, semid, k)) - Part(ops, k, |ops|, true) <= 32767)
  }

  /** The semaphores the process will owe and did not. */
  function NewDebts(undo: seq<UndoEntry>, pid: i32, semid: i32, ops: seq<SemOp>, n: nat): set<nat> {
    set k | 0 <= k < n && Part(ops, k, |ops|, true) != 0 && Owed(undo, UndoKey(pid, semid, k)) == 0
  }

  /** When every operation may run, only the adjustments can refuse the batch: out of range, or more debts than 4096. */
  lemma SemopUndo(st: Store, semid: i32, ops: seq<SemOp>, pid: i32, now: i64)
    requires Valid(st) && FindSet(st, semid).Some?
    requires var values := st.sets[FindSet(st, semid).value].values;
             ops != [] && ValidBatch(ops, |values|) && forall i :: 0 <= i < |ops| ==> Passes(values, ops, i)
    ensures var n := |st.sets[FindSet(st, semid).value].values|;
            TryOp(st, semid, ops, pid, now).code ==
              if !UndoInRange(st.undo, pid, semid, ops, n) then -34
              else if |LedgerOf(st.undo)| + |NewDebts(st.undo, pid, semid, ops, n)| > 4096 then -28
              else 0
  {
    var values := st.sets[FindSet(st, semid).value].values;
    TryOpRefines(st, semid, ops, pid, now);
    EvalMeaning(values, ops, |ops|);
    DeltasDefined(ops, |values|, |ops|);
    RangeIff(st, semid, ops, pid, |values|);
    hide TryOp, EvalTo, DeltasTo, InRange, NewKeys, Charge, LedgerOf, Passes, UndoFits, UndoInRange, NewDebts, Operated,
         Valid;
    assert FindSet(SetsOnly(Abs(st)), semid) == FindSet(st, semid);
  }

  lemma RangeIff(st: Store, semid: i32, ops: seq<SemOp>, pid: i32, n: nat)
    requires Valid(st) && NamesOnly(ops, n)
    ensures var deltas := DeltasTo(ops, n, |ops|);
            var ledger := LedgerOf(st.undo);
            && (UndoInRange(st.undo, pid, semid, ops, n) <==>
                  deltas.Some? && InRange(ledger, pid, semid, deltas.value, n))
            && (deltas.Some? ==> NewKeys(ledger, pid, semid, deltas.value, n) == NewDebts(st.undo, pid, semid, ops, n))
  {
    var ledger := LedgerOf(st.undo);
    ValidNonZero(st);
    DeltasDefined(ops, n, |ops|);
    hide LedgerOf, Valid, DeltasTo, Owed, Part;
    forall i | 0 <= i < |ops|
      ensures UndoFits(ops, i) <==>
              (ops[i].Undo() ==> -32768 <= -Part(ops, ops[i].semNum, i + 1, true) <= 32767) {
    }
    if DeltasTo(ops, n, |ops|).Some? {
      var deltas := DeltasTo(ops, n, |ops|).value;
      forall k: nat | k < n
        ensures deltas[k] == -Part(ops, k, |ops|, true)
        ensures Balance(ledger, UndoKey(pid, semid, k)) == Owed(st.undo, UndoKey(pid, semid, k))
        ensures UndoKey(pid, semid, k) in ledger <==> Owed(st.undo, UndoKey(pid, semid, k)) != 0
      {
        DeltasMeaning(ops, n, |ops|, k);
        OwedIsBalance(st.undo, UndoKey(pid, semid, k));
      }
    }
  }

  /** A batch that returns 0 adds each operation to its semaphore, makes the caller the last process of exactly the
      semaphores it names, takes the SEM_UNDO operations off the caller's adjustments, and changes nothing else. */
  lemma {:induction false} SemopDone(st: Store, semid: i32, ops: seq<SemOp>, pid: i32, now: i64, id: i32, k: nat,
                                     owner: UndoKey)
    requires Valid(st) && TryOp(st, semid, ops, pid, now).code == 0
    ensures var st' := TryOp(st, semid, ops, pid, now).store;
            && Shape(st') && FindSet(st', id) == FindSet(st, id)
            && (id != semid ==> Untouched(st, st', id))
            && (FindSet(st, semid).Some? ==>
                  var i := FindSet(st, semid).value;
                  KeepsRecord(st.sets[i], st'.sets[i], st.sets[i].meta.(otime := now)))
            && (Live(st, id, k) ==>
                  && Live(st', id, k)
                  && GetVal(st', id, k).code ==
                       GetVal(st, id, k).code + (if id == semid then Total(ops, k, |ops|) else 0)
                  && GetPid(st', id, k).code ==
                       if id == semid && exists j :: 0 <= j < |ops| && ops[j].semNum == k then pid
                       else GetPid(st, id, k).code)
            && Owed(st'.undo, owner) == Owed(st.undo, owner) -
                 if owner.pid == pid && owner.semid == semid then Part(ops, owner.semNum, |ops|, true) else 0
  {
    var st' := TryOp(st, semid, ops, pid, now).store;
    SemopSlot(st, semid, ops, pid, now);
    hide Valid, TryOp, StampTo, DecodeId;
    ShapeOf(st);
    TryOpValid(st, semid, ops, pid, now);
    ShapeOf(st');
    SameSlotSameId(st, semid, id);
    SemopOwed(st, semid, ops, pid, now, owner);
    var i := FindSet(st, semid).value;
    if Live(st, id, k) && id == semid {
      EvalMeaning(st.sets[i].values, ops, |ops|);
      StampMeaning(st.sets[i].lastPids, ops, pid, |ops|, k);
    }
  }

  lemma SemopSlot(st: Store, semid: i32, ops: seq<SemOp>, pid: i32, now: i64)
    requires Shape(st) && TryOp(st, semid, ops, pid, now).code == 0
    ensures FindSet(st, semid).Some? && NamesOnly(ops, |st.sets[FindSet(st, semid).value].values|)
    ensures var i := FindSet(st, semid).value;
            var s := st.sets[i];
            var e := EvalTo(s.values, ops, |ops|);
            && e.Ready?
            && TryOp(st, semid, ops, pid, now).store.sets ==
               st.sets[i := s.(values := e.values, lastPids := StampTo(s.lastPids, ops, pid, |ops|),
                               meta := s.meta.(otime := now))]
            && DeltasTo(ops, |s.values|, |ops|).Some?
            && CommitTo(st.undo, pid, semid, DeltasTo(ops, |s.values|, |ops|).value, |s.values|) ==
               Some(TryOp(st, semid, ops, pid, now).store.undo)
  {
    hide EvalTo, DeltasTo, ReserveTo, CommitTo, StampTo, CountFree, DecodeId, PartialCommit;
  }

  lemma {:induction false} SemopOwed(st: Store, semid: i32, ops: seq<SemOp>, pid: i32, now: i64, owner: UndoKey)
    requires Valid(st) && TryOp(st, semid, ops, pid, now).code == 0
    ensures Owed(TryOp(st, semid, ops, pid, now).store.undo, owner) == Owed(st.undo, owner) -
              if owner.pid == pid && owner.semid == semid then Part(ops, owner.semNum, |ops|, true) else 0
  {
    SemopSlot(st, semid, ops, pid, now);
    hide TryOp, EvalTo, DeltasTo, CommitTo, Owed;
    var n := |st.sets[FindSet(st, semid).value].values|;
    CommitOwed(st.undo, pid, semid, DeltasTo(ops, n, |ops|).value, n, owner);
    if 0 <= owner.semNum < n {
      DeltasMeaning(ops, n, |ops|, owner.semNum);
    } else {
      PartZero(ops, owner.semNum, |ops|, true);
    }
  }
}
