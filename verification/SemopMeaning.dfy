/**
 What a semop batch means: an independent reading of the evaluation loop by
 prefix sums, and the law that a batch is the same as its two halves in order.
 */
module SemopMeaning {
  import opened SemTypes
  import opened StoreModel

  /** Sum of the operations on semaphore `k` among the first `n`, restricted to those with or without SEM_UNDO. */
  function Part(ops: seq<SemOp>, k: int, n: nat, undo: bool): int
    requires n <= |ops|
  {
    if n == 0 then 0
    else Part(ops, k, n - 1, undo) + if ops[n - 1].semNum == k && ops[n - 1].Undo() == undo then ops[n - 1].op else 0
  }

  function Total(ops: seq<SemOp>, k: int, n: nat): int
    requires n <= |ops|
  {
    Part(ops, k, n, true) + Part(ops, k, n, false)
  }

  /** Operation `i` may run after the operations before it, judged by sums alone. */
  predicate Passes(values: seq<int>, ops: seq<SemOp>, i: nat)
    requires i < |ops| && NamesOnly(ops, |values|)
  {
    var v := values[ops[i].semNum] + Total(ops, ops[i].semNum, i);
    var d: int := ops[i].op;
    if d > 0 then v + d <= MAX_VALUE else if d < 0 then 0 <= v + d else v == 0
  }

  /** The first operation that may not run. */
  predicate FirstFailing(values: seq<int>, ops: seq<SemOp>, b: nat)
    requires NamesOnly(ops, |values|)
  {
    b < |ops| && !Passes(values, ops, b) && forall i :: 0 <= i < b ==> Passes(values, ops, i)
  }

  /** The loop succeeds exactly when every operation passes in order, and stops at the first that does not. */
  lemma {:induction false} EvalMeaning(values: seq<int>, ops: seq<SemOp>, n: nat)
    requires n <= |ops| && NamesOnly(ops, |values|)
    ensures var r := EvalTo(values, ops, n);
            && (r.Ready? <==> forall i :: 0 <= i < n ==> Passes(values, ops, i))
            && (r.Ready? ==> forall k :: 0 <= k < |values| ==> r.values[k] == values[k] + Total(ops, k, n))
            && (!r.Ready? ==> exists at :: StopsAt(values, ops, n, at, r))
  {
    if n > 0 {
      EvalMeaning(values, ops, n - 1);
      var before := EvalTo(values, ops, n - 1);
      if before.Ready? {
        var r := EvalTo(values, ops, n);
        if !r.Ready? {
          assert !Passes(values, ops, n - 1);
          assert StopsAt(values, ops, n, n - 1, r);
        } else {
          assert Passes(values, ops, n - 1);
          assert Total(ops, ops[n - 1].semNum, n) == Total(ops, ops[n - 1].semNum, n - 1) + ops[n - 1].op;
        }
      } else {
        var at :| StopsAt(values, ops, n - 1, at, before);
        assert StopsAt(values, ops, n, at, before);
      }
    }
  }

  /** `at` is the first operation that cannot run: a wait if it does not add, an overflow if it does. */
  predicate StopsAt(values: seq<int>, ops: seq<SemOp>, n: nat, at: nat, r: Eval)
    requires n <= |ops| && NamesOnly(ops, |values|)
  {
    && at < n
    && !Passes(values, ops, at)
    && (forall i :: 0 <= i < at ==> Passes(values, ops, i))
    && r == if ops[at].op > 0 then Overflows else Blocks(at)
  }

  /** Every undo change is minus the sum of the SEM_UNDO operations on that semaphore. */
  lemma {:induction false} DeltasMeaning(ops: seq<SemOp>, nsems: nat, n: nat, k: nat)
    requires n <= |ops| && NamesOnly(ops, nsems) && k < nsems
    ensures DeltasTo(ops, nsems, n).Some? ==> DeltasTo(ops, nsems, n).value[k] == -Part(ops, k, n, true)
  {
    if n > 0 { DeltasMeaning(ops, nsems, n - 1, k); }
  }

  /** The running SEM_UNDO total of operation `i`'s semaphore is in range just after it. */
  predicate UndoFits(ops: seq<SemOp>, i: nat)
    requires i < |ops|
  {
    ops[i].Undo() ==> UndoRange(-Part(ops, ops[i].semNum, i + 1, true))
  }

  /** The undo changes exist exactly when every running total stays in the SEM_UNDO range. */
  lemma {:induction false} DeltasDefined(ops: seq<SemOp>, nsems: nat, n: nat)
    requires n <= |ops| && NamesOnly(ops, nsems)
    ensures DeltasTo(ops, nsems, n).Some? <==> forall i :: 0 <= i < n ==> UndoFits(ops, i)
  {
    if n > 0 {
      DeltasDefined(ops, nsems, n - 1);
      var op := ops[n - 1];
      DeltasMeaning(ops, nsems, n - 1, op.semNum);
      assert op.Undo() ==> Part(ops, op.semNum, n, true) == Part(ops, op.semNum, n - 1, true) + op.op;
      assert DeltasTo(ops, nsems, n - 1).Some? ==> (DeltasTo(ops, nsems, n).Some? <==> UndoFits(ops, n - 1));
    }
  }

  /** The last pid of a semaphore becomes the caller's exactly when the batch names it. */
  lemma {:induction false} StampMeaning(pids: seq<i32>, ops: seq<SemOp>, pid: i32, n: nat, k: nat)
    requires n <= |ops| && NamesOnly(ops, |pids|) && k < |pids|
    ensures StampTo(pids, ops, pid, n)[k] == if exists i :: 0 <= i < n && ops[i].semNum == k then pid else pids[k]
  {
    if n > 0 {
      StampMeaning(pids, ops, pid, n - 1, k);
    }
  }

  // ---------------------------------------------------------------- batches

  function Shift(r: Eval, offset: nat): Eval {
    if r.Blocks? then Blocks(r.at + offset) else r
  }

  /** Evaluating A ++ B is evaluating A, then B on what A left. */
  lemma {:induction false} EvalAppend(values: seq<int>, a: seq<SemOp>, b: seq<SemOp>, n: nat)
    requires n <= |b| && NamesOnly(a, |values|) && NamesOnly(b, |values|)
    ensures NamesOnly(a + b, |values|)
    ensures var first := EvalTo(values, a, |a|);
            EvalTo(values, a + b, |a| + n) == if first.Ready? then Shift(EvalTo(first.values, b, n), |a|) else first
  {
    if n > 0 {
      EvalAppend(values, a, b, n - 1);
      assert (a + b)[|a| + n - 1] == b[n - 1];
    } else {
      EvalPrefix(values, a, b, |a|);
    }
  }

  lemma {:induction false} EvalPrefix(values: seq<int>, a: seq<SemOp>, b: seq<SemOp>, n: nat)
    requires n <= |a| && NamesOnly(a, |values|) && NamesOnly(b, |values|)
    ensures NamesOnly(a + b, |values|)
    ensures EvalTo(values, a + b, n) == EvalTo(values, a, n)
  {
    if n > 0 {
      EvalPrefix(values, a, b, n - 1);
      assert (a + b)[n - 1] == a[n - 1];
    }
  }

  lemma {:induction false} PartAppend(a: seq<SemOp>, b: seq<SemOp>, k: int, n: nat, undo: bool)
    requires n <= |b|
    ensures Part(a + b, k, |a| + n, undo) == Part(a, k, |a|, undo) + Part(b, k, n, undo)
  {
    if n > 0 {
      PartAppend(a, b, k, n - 1, undo);
      assert (a + b)[|a| + n - 1] == b[n - 1];
    } else {
      PartPrefix(a, b, k, |a|, undo);
    }
  }

  lemma {:induction false} PartPrefix(a: seq<SemOp>, b: seq<SemOp>, k: int, n: nat, undo: bool)
    requires n <= |a|
    ensures Part(a + b, k, n, undo) == Part(a, k, n, undo)
  {
    if n > 0 {
      PartPrefix(a, b, k, n - 1, undo);
      assert (a + b)[n - 1] == a[n - 1];
    }
  }

  /** Stamping A ++ B is stamping A, then B. */
  lemma StampAppend(pids: seq<i32>, a: seq<SemOp>, b: seq<SemOp>, pid: i32)
    requires NamesOnly(a, |pids|) && NamesOnly(b, |pids|)
    ensures NamesOnly(a + b, |pids|)
    ensures StampTo(pids, a + b, pid, |a + b|) == StampTo(StampTo(pids, a, pid, |a|), b, pid, |b|)
  {
    var ab := a + b;
    forall k | 0 <= k < |pids|
      ensures StampTo(pids, ab, pid, |ab|)[k] == StampTo(StampTo(pids, a, pid, |a|), b, pid, |b|)[k]
    {
      StampMeaning(pids, ab, pid, |ab|, k);
      StampMeaning(pids, a, pid, |a|, k);
      StampMeaning(StampTo(pids, a, pid, |a|), b, pid, |b|, k);
      assert forall i :: 0 <= i < |a| ==> ab[i] == a[i];
      assert forall i :: 0 <= i < |b| ==> ab[|a| + i] == b[i];
      if i :| 0 <= i < |ab| && ab[i].semNum == k {
        assert if i < |a| then a[i].semNum == k else b[i - |a|].semNum == k;
      }
    }
  }
}
