/**
 The in-process semaphore table, a second and simpler implementation of
 semget, semctl and semop, and its agreement with the store's semop.
 */
module Shim {
  import opened SemTypes
  import opened StoreModel
  import opened SemopMeaning
  import opened SemopAtomic

  const SHIM_SETS := 32
  const SHIM_PER_SET := 32
  const SHIM_ID_BASE := 0x534d00

  datatype ShimSet = ShimSet(used: bool, key: i32, count: int, values: seq<u16>)

  function Unused(): ShimSet { ShimSet(false, 0, 0, seq(SHIM_PER_SET, _ => 0)) }

  predicate ShimSetOk(s: ShimSet) {
    0 <= s.count <= SHIM_PER_SET == |s.values|
  }

  /** Sets are well formed and no key names two of them. */
  ghost predicate TableOk(sets: seq<ShimSet>) {
    && |sets| == SHIM_SETS
    && (forall i :: 0 <= i < |sets| ==> ShimSetOk(sets[i]))
    && (forall i, j :: 0 <= i < j < |sets| && sets[i].used && sets[j].used && sets[i].key == sets[j].key ==>
          sets[i].key == IPC_PRIVATE)
  }

  // ---------------------------------------------------------------- one evaluation pass of semop

  predicate Refuses(value: u16, op: SemOp) {
    (op.op < 0 && value + op.op < 0) || (op.op == 0 && value != 0)
  }

  datatype Verdict = Proceed | TooBig | Again | Sleeps

  /** The check loop after `n` operations: every operation is tested against the values as they were. */
  function CheckTo(s: ShimSet, ops: seq<SemOp>, n: nat): Verdict
    requires ShimSetOk(s) && n <= |ops|
  {
    if n == 0 then Proceed
    else
      var before := CheckTo(s, ops, n - 1);
      if before != Proceed then before
      else
        var op := ops[n - 1];
        if op.semNum >= s.count then TooBig
        else if Refuses(s.values[op.semNum], op) then if op.NoWait() then Again else Sleeps
        else Proceed
  }

  function Truncate(v: int): u16 {
    v % 0x1_0000
  }

  /** The apply loop after `n` operations; sums are cut to 16 bits. */
  function ApplyTo(values: seq<u16>, ops: seq<SemOp>, n: nat): (r: seq<u16>)
    requires n <= |ops| && NamesOnly(ops, |values|)
    ensures |r| == |values|
  {
    if n == 0 then values
    else
      var before := ApplyTo(values, ops, n - 1);
      var op := ops[n - 1];
      before[op.semNum := Truncate(before[op.semNum] + op.op)]
  }

  lemma {:induction false} ProceedInRange(s: ShimSet, ops: seq<SemOp>, n: nat)
    requires ShimSetOk(s) && n <= |ops| && CheckTo(s, ops, n) == Proceed
    ensures forall i :: 0 <= i < n ==> ops[i].semNum < s.count && !Refuses(s.values[ops[i].semNum], ops[i])
  {
    if n > 0 { ProceedInRange(s, ops, n - 1); }
  }

  lemma {:induction false} CheckStuck(s: ShimSet, ops: seq<SemOp>, n: nat, m: nat)
    requires ShimSetOk(s) && n <= m <= |ops| && CheckTo(s, ops, n) != Proceed
    ensures CheckTo(s, ops, m) == CheckTo(s, ops, n)
    decreases m
  {
    if n < m { CheckStuck(s, ops, n, m - 1); }
  }

  /** Operation `i` does not stop the check loop: it names a semaphore whose value, before the batch, allows it. */
  predicate Allowed(s: ShimSet, ops: seq<SemOp>, i: nat)
    requires ShimSetOk(s) && i < |ops|
  {
    && ops[i].semNum < s.count
    && (ops[i].op < 0 ==> s.values[ops[i].semNum] as int >= -(ops[i].op as int))
    && (ops[i].op == 0 ==> s.values[ops[i].semNum] == 0)
  }

  /** A pass proceeds exactly when nothing stops it, and otherwise the first operation that does decides: too big for an
      index out of range, and try again or wait, by IPC_NOWAIT, for a value. */
  lemma {:induction false} PassIff(s: ShimSet, ops: seq<SemOp>, n: nat, at: nat)
    requires ShimSetOk(s) && n <= |ops|
    ensures CheckTo(s, ops, n) == Proceed <==> forall i :: 0 <= i < n ==> Allowed(s, ops, i)
    ensures at < n && !Allowed(s, ops, at) && (forall i :: 0 <= i < at ==> Allowed(s, ops, i)) ==>
              CheckTo(s, ops, n) ==
                if ops[at].semNum >= s.count then TooBig else if HasFlag(ops[at].flg, 0x800) then Again else Sleeps
  {
    if n > 0 {
      PassIff(s, ops, n - 1, at);
      var op := ops[n - 1];
      assert Allowed(s, ops, n - 1) <==> op.semNum < s.count && !Refuses(s.values[op.semNum], op);
      assert (forall i :: 0 <= i < n ==> Allowed(s, ops, i)) <==>
             (forall i :: 0 <= i < n - 1 ==> Allowed(s, ops, i)) && Allowed(s, ops, n - 1);
    }
  }

  /** Applying adds every operation to its semaphore, in 16 bits. */
  lemma {:induction false} ApplyMeaning(values: seq<u16>, ops: seq<SemOp>, n: nat, k: nat)
    requires n <= |ops| && NamesOnly(ops, |values|) && k < |values|
    ensures ApplyTo(values, ops, n)[k] == (values[k] + Total(ops, k, n)) % 0x1_0000
  {
    if n > 0 {
      ApplyMeaning(values, ops, n - 1, k);
      if ops[n - 1].semNum == k { SumsWrap(values[k] + Total(ops, k, n - 1), ops[n - 1].op); }
    }
  }

  lemma SumsWrap(a: int, b: int)
    ensures (a % 0x1_0000 + b) % 0x1_0000 == (a + b) % 0x1_0000
  {
    var q := a / 0x1_0000;
    assert a == q * 0x1_0000 + a % 0x1_0000;
    Wraps(a % 0x1_0000 + b, q);
  }

  lemma Wraps(x: int, q: int)
    ensures (x + q * 0x1_0000) % 0x1_0000 == x % 0x1_0000
  {
    var m := x / 0x1_0000;
    assert x + q * 0x1_0000 == (m + q) * 0x1_0000 + x % 0x1_0000;
  }

  // ---------------------------------------------------------------- agreement with the store

  /** The store set and the shim set hold the same semaphores, with values semop can have left. */
  predicate SameSet(s: SemSet, t: ShimSet) {
    && ShimSetOk(t) && s.active && t.used && s.values == t.values[..t.count]
    && InLimit(t.values, t.count)
  }

  predicate InLimit(values: seq<u16>, count: int)
    requires count <= |values|
  {
    forall k :: 0 <= k < count ==> values[k] <= MAX_VALUE
  }

  /** One pass of the shim and the store's semop end alike: both apply and hold the same values, both give EAGAIN and
      change nothing, or both would wait and change nothing. */
  predicate Agree(st: Store, semid: i32, i: nat, t: ShimSet, ops: seq<SemOp>, pid: i32, now: i64)
    requires Shape(st) && i < MAX_SETS && ShimSetOk(t)
  {
    var r := TryOp(st, semid, ops, pid, now);
    match CheckTo(t, ops, |ops|)
    case Proceed =>
      && r.code == 0 && |r.store.sets| == MAX_SETS && NamesOnly(ops, |t.values|)
      && SameSet(r.store.sets[i], t.(values := ApplyTo(t.values, ops, |ops|)))
    case TooBig => false
    case Again => r.code == -EAGAIN && r.store == st
    case Sleeps => r.code == OP_BLOCKED && r.store == st
  }

  /** Operation `i` is refused at the values before the batch. */
  predicate Refused(t: ShimSet, ops: seq<SemOp>, i: nat)
    requires ShimSetOk(t) && i < |ops| && NamesOnly(ops, t.count)
  {
    Refuses(t.values[ops[i].semNum], ops[i])
  }

  predicate FirstRefused(t: ShimSet, ops: seq<SemOp>, n: nat, a: nat)
    requires ShimSetOk(t) && n <= |ops| && NamesOnly(ops, t.count)
  {
    a < n && Refused(t, ops, a) && forall i :: 0 <= i < a ==> !Refused(t, ops, i)
  }

  /** Nothing is refused at the start values and everything passes by running sums. */
  predicate NothingStops(t: ShimSet, ops: seq<SemOp>)
    requires ShimSetOk(t) && NamesOnly(ops, t.count)
  {
    forall i :: 0 <= i < |ops| ==> !Refused(t, ops, i) && Passes(t.values[..t.count], ops, i)
  }

  /** Decided before the batch runs: nothing is refused at the start values and everything passes by running sums; or
      the first operation refused and the first that fails by running sums both exist, the latter does not overflow,
      and both or neither are IPC_NOWAIT. */
  predicate Harmless(t: ShimSet, ops: seq<SemOp>)
    requires ShimSetOk(t) && NamesOnly(ops, t.count)
  {
    || NothingStops(t, ops)
    || (exists a, b ::
          && 0 <= a < |ops| && 0 <= b < |ops|
          && FirstRefused(t, ops, |ops|, a) && FirstFailing(t.values[..t.count], ops, b)
          && ops[b].op <= 0 && ops[a].NoWait() == ops[b].NoWait())
  }

  /** The check loop proceeds exactly when nothing is refused, and otherwise answers for the first that is. */
  lemma {:induction false} CheckMeaning(t: ShimSet, ops: seq<SemOp>, n: nat)
    requires ShimSetOk(t) && n <= |ops| && NamesOnly(ops, t.count)
    ensures CheckTo(t, ops, n) == Proceed <==> forall i :: 0 <= i < n ==> !Refused(t, ops, i)
    ensures CheckTo(t, ops, n) != Proceed ==>
              exists a: nat ::
                FirstRefused(t, ops, n, a) && CheckTo(t, ops, n) == if ops[a].NoWait() then Again else Sleeps
  {
    if n > 0 {
      CheckMeaning(t, ops, n - 1);
      if CheckTo(t, ops, n - 1) != Proceed {
        var a: nat :|
          FirstRefused(t, ops, n - 1, a) && CheckTo(t, ops, n - 1) == if ops[a].NoWait() then Again else Sleeps;
        assert FirstRefused(t, ops, n, a);
      } else if Refused(t, ops, n - 1) {
        assert FirstRefused(t, ops, n, n - 1);
      }
    }
  }

  /** What the store's evaluation leaves is what the shim's apply loop leaves: no sum is cut. */
  lemma {:induction false} ReadyIsApplied(t: ShimSet, ops: seq<SemOp>, n: nat)
    requires ShimSetOk(t) && n <= |ops| && NamesOnly(ops, t.count) && NamesOnly(ops, |t.values|)
    requires InLimit(t.values, t.count)
    requires EvalTo(t.values[..t.count], ops, n).Ready?
    ensures EvalTo(t.values[..t.count], ops, n).values == ApplyTo(t.values, ops, n)[..t.count]
    ensures InLimit(ApplyTo(t.values, ops, n), t.count)
  {
    if n > 0 {
      ReadyIsApplied(t, ops, n - 1);
      ApplyStep(t, ops, n);
    }
  }

  lemma ApplyStep(t: ShimSet, ops: seq<SemOp>, n: nat)
    requires ShimSetOk(t) && 0 < n <= |ops| && NamesOnly(ops, t.count) && NamesOnly(ops, |t.values|)
    requires EvalTo(t.values[..t.count], ops, n).Ready?
    requires EvalTo(t.values[..t.count], ops, n - 1).Ready?
    requires EvalTo(t.values[..t.count], ops, n - 1).values == ApplyTo(t.values, ops, n - 1)[..t.count]
    requires InLimit(ApplyTo(t.values, ops, n - 1), t.count)
    ensures EvalTo(t.values[..t.count], ops, n).values == ApplyTo(t.values, ops, n)[..t.count]
    ensures InLimit(ApplyTo(t.values, ops, n), t.count)
  {
    var w, before := EvalTo(t.values[..t.count], ops, n - 1).values, ApplyTo(t.values, ops, n - 1);
    var op := ops[n - 1];
    assert w[op.semNum] == before[op.semNum];
    var v: int := before[op.semNum] + op.op;
    assert EvalTo(t.values[..t.count], ops, n).values == w[op.semNum := v] && 0 <= v <= MAX_VALUE;
  }

  lemma {:induction false} NoUndoDeltas(ops: seq<SemOp>, nsems: nat, n: nat)
    requires n <= |ops| && NamesOnly(ops, nsems) && forall i :: 0 <= i < |ops| ==> !ops[i].Undo()
    ensures DeltasTo(ops, nsems, n) == Some(seq(nsems, _ => 0))
  {
    if n > 0 { NoUndoDeltas(ops, nsems, n - 1); }
  }

  /** The check loop and the evaluation come to the same decision. */
  predicate SameDecision(t: ShimSet, ops: seq<SemOp>)
    requires ShimSetOk(t) && NamesOnly(ops, t.count)
  {
    var v, e := CheckTo(t, ops, |ops|), EvalTo(t.values[..t.count], ops, |ops|);
    || (v == Proceed && e.Ready?)
    || (e.Blocks? && v == if ops[e.at].NoWait() then Again else Sleeps)
  }

  lemma HarmlessIff(t: ShimSet, ops: seq<SemOp>)
    requires ShimSetOk(t) && NamesOnly(ops, t.count)
    ensures Harmless(t, ops) <==> SameDecision(t, ops)
    ensures NothingStops(t, ops) <==>
            CheckTo(t, ops, |ops|) == Proceed && EvalTo(t.values[..t.count], ops, |ops|).Ready?
  {
    hide EvalTo, CheckTo, Passes, Refused;
    var values := t.values[..t.count];
    var v, e := CheckTo(t, ops, |ops|), EvalTo(values, ops, |ops|);
    CheckMeaning(t, ops, |ops|);
    EvalMeaning(values, ops, |ops|);
    if v != Proceed && !e.Ready? {
      var a: nat :| FirstRefused(t, ops, |ops|, a) && v == if ops[a].NoWait() then Again else Sleeps;
      var b: nat :| StopsAt(values, ops, |ops|, b, e);
      assert FirstFailing(values, ops, b);
      OnlyStops(t, ops, a, b);
    }
  }

  /** There is one first operation refused and one first that fails. */
  lemma OnlyStops(t: ShimSet, ops: seq<SemOp>, a: nat, b: nat)
    requires ShimSetOk(t) && NamesOnly(ops, t.count)
    requires FirstRefused(t, ops, |ops|, a) && FirstFailing(t.values[..t.count], ops, b)
    ensures Harmless(t, ops) <==> ops[b].op <= 0 && ops[a].NoWait() == ops[b].NoWait()
  {
    hide Passes, Refused;
    var values := t.values[..t.count];
    if Harmless(t, ops) {
      var a': nat, b': nat :|
        && 0 <= a' < |ops| && 0 <= b' < |ops| && FirstRefused(t, ops, |ops|, a') && FirstFailing(values, ops, b')
        && ops[b'].op <= 0 && ops[a'].NoWait() == ops[b'].NoWait();
      assert a' == a && b' == b;
    }
  }

  /** For every batch on a set both hold, one pass of the shim ends as the store's semop does if and only if the batch
      is not empty, names only existing semaphores, has no unknown flag, is harmless, and, where nothing stops it, its
      SEM_UNDO changes are affordable. */
  lemma AgreeIff(st: Store, semid: i32, i: nat, t: ShimSet, ops: seq<SemOp>, pid: i32, now: i64)
    requires Shape(st) && i < MAX_SETS && FindSet(st, semid) == Some(i) && SameSet(st.sets[i], t)
    ensures Agree(st, semid, i, t, ops, pid, now) <==>
            && ops != [] && ValidBatch(ops, t.count) && Harmless(t, ops)
            && (NothingStops(t, ops) ==> Affordable(st.undo, pid, semid, ops, t.count))
  {
    if ops == [] || !ValidBatch(ops, t.count) {
      InvalidFails(st, semid, i, ops, pid, now);
    } else {
      hide TryOp, EvalTo, CheckTo, ApplyTo, Harmless, NothingStops, Affordable;
      HarmlessIff(t, ops);
      TryOpOutcome(st, semid, i, ops, pid, now);
      TryOpAtomic(st, semid, ops, pid, now);
      CheckMeaning(t, ops, |ops|);
      if EvalTo(t.values[..t.count], ops, |ops|).Ready? { ReadyIsApplied(t, ops, |ops|); }
    }
  }

  lemma InvalidFails(st: Store, semid: i32, i: nat, ops: seq<SemOp>, pid: i32, now: i64)
    requires Shape(st) && FindSet(st, semid) == Some(i) && (ops == [] || !ValidBatch(ops, |st.sets[i].values|))
    ensures TryOp(st, semid, ops, pid, now).code == -EINVAL
  {
  }

  // ---------------------------------------------------------------- batches that name each semaphore once

  /** Each semaphore is named at most once, in range, with no flag but IPC_NOWAIT. */
  ghost predicate PlainBatch(ops: seq<SemOp>, count: int) {
    && ops != []
    && (forall i :: 0 <= i < |ops| ==> ops[i].semNum < count && (ops[i].flg == 0 || ops[i].flg == IPC_NOWAIT))
    && (forall i, j :: 0 <= i < j < |ops| ==> ops[i].semNum != ops[j].semNum)
  }

  /** No semaphore is raised above the limit. */
  predicate NoOverflow(values: seq<u16>, ops: seq<SemOp>)
    requires NamesOnly(ops, |values|)
  {
    forall i :: 0 <= i < |ops| ==> values[ops[i].semNum] + ops[i].op <= MAX_VALUE
  }

  /** Operations that do not name a semaphore add nothing to its running sum. */
  lemma {:induction false} TotalElsewhere(ops: seq<SemOp>, k: int, n: nat)
    requires n <= |ops| && forall j :: 0 <= j < n ==> ops[j].semNum != k
    ensures Total(ops, k, n) == 0
  {
    if n > 0 { TotalElsewhere(ops, k, n - 1); }
  }

  /** In particular, a batch that names each semaphore at most once and overflows none agrees. */
  lemma ImplementationsAgree(st: Store, semid: i32, i: nat, t: ShimSet, ops: seq<SemOp>, pid: i32, now: i64)
    requires Shape(st) && FindSet(st, semid) == Some(i) && i < MAX_SETS && SameSet(st.sets[i], t)
    requires PlainBatch(ops, t.count) && NamesOnly(ops, |t.values|) && NoOverflow(t.values, ops)
    ensures Agree(st, semid, i, t, ops, pid, now)
  {
    BatchIsValid(ops, t.count);
    PlainIsHarmless(t, ops);
    NoUndoDeltas(ops, t.count, |ops|);
    NothingReserved(st.undo, pid, semid, seq(t.count, _ => 0), t.count);
    AgreeIff(st, semid, i, t, ops, pid, now);
  }

  lemma PlainIsHarmless(t: ShimSet, ops: seq<SemOp>)
    requires ShimSetOk(t) && PlainBatch(ops, t.count) && NamesOnly(ops, t.count)
    requires NamesOnly(ops, |t.values|) && NoOverflow(t.values, ops)
    ensures Harmless(t, ops)
  {
    var values := t.values[..t.count];
    forall j | 0 <= j < |ops| ensures Refused(t, ops, j) <==> !Passes(values, ops, j) {
      TotalElsewhere(ops, ops[j].semNum, j);
    }
    CheckMeaning(t, ops, |ops|);
    hide CheckTo, Passes, Refused;
    if CheckTo(t, ops, |ops|) != Proceed {
      var a: nat :| FirstRefused(t, ops, |ops|, a);
      assert FirstFailing(values, ops, a);
      RefusedFalls(t, ops, a);
    }
  }

  lemma RefusedFalls(t: ShimSet, ops: seq<SemOp>, a: nat)
    requires ShimSetOk(t) && a < |ops| && NamesOnly(ops, t.count) && Refused(t, ops, a)
    ensures ops[a].op <= 0
  {
  }

  lemma BatchIsValid(ops: seq<SemOp>, count: int)
    requires PlainBatch(ops, count) && 0 <= count <= SHIM_PER_SET
    ensures ValidBatch(ops, count) && NamesOnly(ops, count) && forall i :: 0 <= i < |ops| ==> !ops[i].Undo()
  {
  }

  /** Naming a semaphore twice breaks the agreement: taking one unit twice from a value of one. */
  lemma TwiceDisagrees(key: i32)
    ensures var t := ShimSet(true, key, 1, [1] + seq(SHIM_PER_SET - 1, _ => 0));
            var ops := [SemOp(0, -1, 0), SemOp(0, -1, 0)];
            && CheckTo(t, ops, 2) == Proceed && EvalTo(t.values[..1], ops, 2) == Blocks(1)
            && ApplyTo(t.values, ops, 2)[0] == 0xffff
  {
    var t := ShimSet(true, key, 1, [1] + seq(SHIM_PER_SET - 1, _ => 0));
    var ops := [SemOp(0, -1, 0), SemOp(0, -1, 0)];
    assert CheckTo(t, ops, 1) == Proceed;
    assert EvalTo(t.values[..1], ops, 1) == Ready([0]);
    assert ApplyTo(t.values, ops, 1)[0] == 0;
  }

  /** Raising past the limit breaks it too: the shim stores what the store refuses. */
  lemma OverflowDisagrees(key: i32)
    ensures var t := ShimSet(true, key, 1, [MAX_VALUE] + seq(SHIM_PER_SET - 1, _ => 0));
            var ops := [SemOp(0, 1, 0)];
            CheckTo(t, ops, 1) == Proceed && EvalTo(t.values[..1], ops, 1) == Overflows
  {
  }

  // ---------------------------------------------------------------- semget

  function FindShimKey(sets: seq<ShimSet>, key: i32, from: nat := 0): (i: nat)
    requires from <= |sets|
    ensures from <= i <= |sets|
    ensures i < |sets| ==> sets[i].used && sets[i].key == key
    ensures forall j :: from <= j < i ==> !(sets[j].used && sets[j].key == key)
    decreases |sets| - from
  {
    if from == |sets| || (sets[from].used && sets[from].key == key) then from else FindShimKey(sets, key, from + 1)
  }

  function FindShimFree(sets: seq<ShimSet>, from: nat := 0): (i: nat)
    requires from <= |sets|
    ensures from <= i <= |sets|
    ensures i < |sets| ==> !sets[i].used
    ensures forall j :: from <= j < i ==> sets[j].used
    decreases |sets| - from
  {
    if from == |sets| || !sets[from].used then from else FindShimFree(sets, from + 1)
  }

  function NewShimSet(key: i32, nsems: i32): ShimSet {
    Unused().(used := true, key := key, count := nsems)
  }

  /** The table and the identifier or error number after semget. */
  function ShimGet(sets: seq<ShimSet>, key: i32, nsems: i32, flags: int): (seq<ShimSet>, Result<int>)
    requires |sets| == SHIM_SETS
  {
    var found, free := FindShimKey(sets, key), FindShimFree(sets);
    if key != IPC_PRIVATE && found < SHIM_SETS then
      if HasFlag(flags, IPC_CREAT) && HasFlag(flags, IPC_EXCL) then (sets, Err(EEXIST))
      else (sets, Ok(SHIM_ID_BASE + found))
    else if !HasFlag(flags, IPC_CREAT) && key != IPC_PRIVATE then (sets, Err(ENOENT))
    else if free == SHIM_SETS then (sets, Err(ENOSPC))
    else if nsems <= 0 || nsems > SHIM_PER_SET then (sets, Err(EINVAL))
    else (sets[free := NewShimSet(key, nsems)], Ok(SHIM_ID_BASE + free))
  }

  /** semget keeps the table well formed, and asking again for the same public key finds the same set. */
  lemma ShimGetStable(sets: seq<ShimSet>, key: i32, nsems: i32, flags: int, nsems': i32, flags': int)
    requires TableOk(sets)
    ensures var (after, r) := ShimGet(sets, key, nsems, flags);
            && TableOk(after)
            && (r.Ok? && key != IPC_PRIVATE && !(HasFlag(flags', IPC_CREAT) && HasFlag(flags', IPC_EXCL)) ==>
                  ShimGet(after, key, nsems', flags') == (after, r))
  {
    var (after, r) := ShimGet(sets, key, nsems, flags);
    if r.Ok? && key != IPC_PRIVATE {
      var i := r.value - SHIM_ID_BASE;
      assert after[i].used && after[i].key == key;
      assert forall j :: 0 <= j < SHIM_SETS && after[j].used && after[j].key == key ==> j == i;
    }
  }

  /** A public key of a set in use is found, whatever is asked for, and refused only to an exclusive creation. */
  lemma ShimGetFinds(sets: seq<ShimSet>, key: i32, nsems: i32, flags: int, i: nat)
    requires TableOk(sets) && key != 0 && i < 32 && sets[i].used && sets[i].key == key
    ensures ShimGet(sets, key, nsems, flags) ==
            (sets, if HasFlag(flags, 0x200) && HasFlag(flags, 0x400) then Err(17) else Ok(0x534d00 + i))
  {
    hide HasFlag;
    assert FindShimKey(sets, key) == i;
  }

  /** Any other key gets the first free slot, all zero, exactly when creation is asked for, a slot is free and the size
      is allowed. */
  lemma ShimGetMakes(sets: seq<ShimSet>, key: i32, nsems: i32, flags: int)
    requires TableOk(sets) && (key == 0 || forall i :: 0 <= i < 32 && sets[i].used ==> sets[i].key != key)
    ensures var (after, r) := ShimGet(sets, key, nsems, flags);
            if key != 0 && !HasFlag(flags, 0x200) then r == Err(2) && after == sets
            else if forall i :: 0 <= i < 32 ==> sets[i].used then r == Err(28) && after == sets
            else if nsems < 1 || nsems > 32 then r == Err(22) && after == sets
            else exists i :: ShimMakes(sets, after, i, key, nsems) && r == Ok(0x534d00 + i)
  {
    hide HasFlag;
    var (after, r) := ShimGet(sets, key, nsems, flags);
    if r.Ok? { assert ShimMakes(sets, after, r.value - 0x534d00, key, nsems); }
  }

  predicate ShimMakes(sets: seq<ShimSet>, after: seq<ShimSet>, i: int, key: i32, nsems: int) {
    && |sets| == |after| == 32 && 0 <= i < 32 && !sets[i].used && (forall j :: 0 <= j < i ==> sets[j].used)
    && (forall j :: 0 <= j < 32 && j != i ==> after[j] == sets[j])
    && after[i].used && after[i].key == key && after[i].count == nsems && |after[i].values| == 32
    && forall k :: 0 <= k < 32 ==> after[i].values[k] == 0
  }

  // ---------------------------------------------------------------- the table in place

  class Table {
    const sets: array<ShimSet>

    ghost predicate Valid()
      reads sets
    {
      TableOk(sets[..])
    }

    constructor ()
      ensures Valid() && fresh(sets) && forall i :: 0 <= i < SHIM_SETS ==> sets[i] == Unused()
    {
      sets := new ShimSet[SHIM_SETS](_ => Unused());
    }

    method FromId(id: i32) returns (slot: int)
      requires Valid()
      ensures slot == -1 || 0 <= slot < SHIM_SETS
      ensures slot >= 0 <==> SHIM_ID_BASE <= id < SHIM_ID_BASE + SHIM_SETS && sets[id - SHIM_ID_BASE].used
      ensures slot >= 0 ==> slot == id - SHIM_ID_BASE
    {
      slot := id - SHIM_ID_BASE;
      if slot < 0 || slot >= SHIM_SETS || !sets[slot].used { slot := -1; }
    }

    /** One pass looks for the key and for the first free slot together. */
    method SemGet(key: i32, nsems: i32, flags: int) returns (r: Result<int>)
      requires Valid()
      modifies sets
      ensures Valid() && (sets[..], r) == ShimGet(old(sets[..]), key, nsems, flags)
    {
      ShimGetStable(sets[..], key, nsems, flags, nsems, flags);
      var free := SHIM_SETS;
      for i := 0 to SHIM_SETS
        invariant key != IPC_PRIVATE ==> forall j :: 0 <= j < i ==> !(sets[j].used && sets[j].key == key)
        invariant free == SHIM_SETS || (0 <= free < i && !sets[free].used && forall j :: 0 <= j < free ==> sets[j].used)
        invariant free == SHIM_SETS ==> forall j :: 0 <= j < i ==> sets[j].used
      {
        if sets[i].used && sets[i].key == key && key != IPC_PRIVATE {
          if HasFlag(flags, IPC_CREAT) && HasFlag(flags, IPC_EXCL) { return Err(EEXIST); }
          return Ok(SHIM_ID_BASE + i);
        }
        if !sets[i].used && free == SHIM_SETS { free := i; }
      }
      if !HasFlag(flags, IPC_CREAT) && key != IPC_PRIVATE { return Err(ENOENT); }
      if free == SHIM_SETS || nsems <= 0 || nsems > SHIM_PER_SET {
        return Err(if free == SHIM_SETS then ENOSPC else EINVAL);
      }
      sets[free] := NewShimSet(key, nsems);
      assert sets[..] == old(sets[..])[free := NewShimSet(key, nsems)];
      r := Ok(SHIM_ID_BASE + free);
    }

    /** One pass of semop: the check loop, and the apply loop if nothing refused. */
    method SemOpPass(semid: i32, ops: seq<SemOp>) returns (found: bool, verdict: Verdict)
      requires Valid()
      modifies sets
      ensures Valid()
      ensures found <==> SHIM_ID_BASE <= semid < SHIM_ID_BASE + SHIM_SETS && old(sets[semid - SHIM_ID_BASE]).used
      ensures found ==> verdict == CheckTo(old(sets[semid - SHIM_ID_BASE]), ops, |ops|)
      ensures if found && verdict == Proceed then
                var s := old(sets[semid - SHIM_ID_BASE]);
                && NamesOnly(ops, |s.values|)
                && sets[..] == old(sets[..])[semid - SHIM_ID_BASE := s.(values := ApplyTo(s.values, ops, |ops|))]
              else sets[..] == old(sets[..])
    {
      var slot := FromId(semid);
      if slot < 0 { return false, Proceed; }
      found := true;
      var s := sets[slot];
      assert ShimSetOk(s);
      verdict := Check(s, ops);
      if verdict != Proceed { return; }
      ProceedInRange(s, ops, |ops|);
      var values := s.values;
      for i := 0 to |ops|
        invariant values == ApplyTo(s.values, ops, i)
      {
        values := values[ops[i].semNum := Truncate(values[ops[i].semNum] + ops[i].op)];
      }
      sets[slot] := s.(values := values);
      assert sets[..] == old(sets[..])[slot := s.(values := values)];
    }

    static method Check(s: ShimSet, ops: seq<SemOp>) returns (verdict: Verdict)
      requires ShimSetOk(s)
      ensures verdict == CheckTo(s, ops, |ops|)
    {
      for i := 0 to |ops|
        invariant CheckTo(s, ops, i) == Proceed
      {
        var op := ops[i];
        if op.semNum >= s.count {
          CheckStuck(s, ops, i + 1, |ops|);
          return TooBig;
        }
        if Refuses(s.values[op.semNum], op) {
          CheckStuck(s, ops, i + 1, |ops|);
          return if op.NoWait() then Again else Sleeps;
        }
      }
      verdict := Proceed;
    }
  }
}
