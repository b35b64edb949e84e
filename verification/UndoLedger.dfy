/**
 The SEM_UNDO table read as a ledger: a map from (process, set, semaphore) to
 the adjustment owed. The ledger store below has no table, no search and no
 commit loop; the table store refines it call by call, so nothing a caller can
 observe depends on where entries sit in the table.
 */
module UndoLedger {
  import opened SemTypes
  import opened StoreModel
  import opened SemopAtomic
  import opened StoreValid

  type Ledger = map<UndoKey, int>

  ghost function LedgerOf(undo: seq<UndoEntry>): Ledger
    requires Unique(undo)
  {
    map i | 0 <= i < |undo| && undo[i].active :: KeyOf(undo[i]) := undo[i].adjustment
  }

  function Balance(ledger: Ledger, key: UndoKey): int {
    if key in ledger then ledger[key] else 0
  }

  /** The table search is the ledger lookup. */
  lemma FindUndoIsLookup(undo: seq<UndoEntry>, key: UndoKey)
    requires Unique(undo)
    ensures key in LedgerOf(undo) <==> !Absent(undo, key.pid, key.semid, key.semNum)
    ensures Balance(LedgerOf(undo), key) == Adjustment(undo, key.pid, key.semid, key.semNum)
  {
    var i := FindUndo(undo, key.pid, key.semid, key.semNum);
    if i < |undo| {
      assert KeyOf(undo[i]) == key;
    }
  }

  // ---------------------------------------------------------------- the ledger store

  datatype LedgerStore = LedgerStore(sets: seq<SemSet>, ledger: Ledger)

  ghost function Abs(st: Store): LedgerStore
    requires Unique(st.undo)
  {
    LedgerStore(st.sets, LedgerOf(st.undo))
  }

  /** Adds every delta to the caller's balance and drops the balances that reach zero. */
  function Charge(ledger: Ledger, pid: i32, semid: i32, deltas: seq<int>): Ledger {
    var touched := set k | 0 <= k < |deltas| && deltas[k] != 0 :: UndoKey(pid, semid, k);
    map key | key in ledger.Keys + touched && Balance(ledger, key) + DeltaFor(key, pid, semid, deltas, |deltas|) != 0
      :: Balance(ledger, key) + DeltaFor(key, pid, semid, deltas, |deltas|)
  }

  function DeltaFor(key: UndoKey, pid: i32, semid: i32, deltas: seq<int>, n: nat): int
    requires n <= |deltas|
  {
    if key.pid == pid && key.semid == semid && 0 <= key.semNum < n then deltas[key.semNum] else 0
  }

  /** Semaphores among the first `n` that change but have no balance yet. */
  function NewKeys(ledger: Ledger, pid: i32, semid: i32, deltas: seq<int>, n: nat): set<nat>
    requires n <= |deltas|
  {
    set k | 0 <= k < n && deltas[k] != 0 && UndoKey(pid, semid, k) !in ledger
  }

  predicate InRange(ledger: Ledger, pid: i32, semid: i32, deltas: seq<int>, n: nat)
    requires n <= |deltas|
  {
    forall k :: 0 <= k < n && deltas[k] != 0 ==> UndoRange(deltas[k] + Balance(ledger, UndoKey(pid, semid, k)))
  }

  datatype LedgerEffect = LedgerEffect(store: LedgerStore, code: int, answer: Answer)

  function SetsOnly(a: LedgerStore): Store {
    Store(a.sets, seq(MAX_UNDO, _ => NO_UNDO))
  }

  function LedgerTryOp(a: LedgerStore, semid: i32, ops: seq<SemOp>, pid: i32, now: i64): LedgerEffect
    requires Shape(SetsOnly(a))
  {
    match FindSet(SetsOnly(a), semid)
    case None => LedgerEffect(a, -EINVAL, NoData)
    case Some(i) =>
      var s := a.sets[i];
      if ops == [] || !ValidBatch(ops, |s.values|) then LedgerEffect(a, -EINVAL, NoData)
      else
        match EvalTo(s.values, ops, |ops|)
        case Overflows => LedgerEffect(a, -ERANGE, NoData)
        case Blocks(at) =>
          LedgerEffect(a, if ops[at].NoWait() then -EAGAIN else OP_BLOCKED,
                       Waits(WaitReason(ops[at].semNum, ops[at].op == 0)))
        case Ready(_) =>
          var deltas := DeltasTo(ops, |s.values|, |ops|);
          if deltas.None? || !InRange(a.ledger, pid, semid, deltas.value, |s.values|) then
            LedgerEffect(a, -ERANGE, NoData)
          else if |a.ledger| + |NewKeys(a.ledger, pid, semid, deltas.value, |s.values|)| > MAX_UNDO then
            LedgerEffect(a, -ENOSPC, NoData)
          else
            LedgerEffect(LedgerStore(a.sets[i := Operated(s, ops, pid, now)],
                                     Charge(a.ledger, pid, semid, deltas.value)),
                         0, NoData)
  }

  /** A set after a batch that may run. */
  function Operated(s: SemSet, ops: seq<SemOp>, pid: i32, now: i64): SemSet
    requires ShapedSet(s) && NamesOnly(ops, |s.values|) && EvalTo(s.values, ops, |ops|).Ready?
  {
    s.(values := EvalTo(s.values, ops, |ops|).values, lastPids := StampTo(s.lastPids, ops, pid, |ops|),
       meta := s.meta.(otime := now))
  }


  /** A set after a process has gone: every balance it held is added back, clamped to the value range. */
  ghost function Restored(s: SemSet, semid: i32, ledger: Ledger, pid: i32, now: i64): SemSet
    requires ShapedSet(s)
  {
    var touched := exists k: nat :: k < |s.values| && UndoKey(pid, semid, k) in ledger;
    s.(values := seq(|s.values|, k requires 0 <= k < |s.values| =>
         if UndoKey(pid, semid, k) !in ledger then s.values[k]
         else if s.values[k] < -ledger[UndoKey(pid, semid, k)] then 0
         else if s.values[k] > MAX_VALUE - ledger[UndoKey(pid, semid, k)] then MAX_VALUE
         else s.values[k] + ledger[UndoKey(pid, semid, k)]),
       lastPids := seq(|s.values|, k requires 0 <= k < |s.values| =>
         if UndoKey(pid, semid, k) in ledger then pid else s.lastPids[k]),
       meta := if touched then s.meta.(otime := now) else s.meta)
  }

  ghost function LedgerExit(a: LedgerStore, pid: i32, now: i64): LedgerEffect
    requires Shape(SetsOnly(a))
  {
    if pid <= 0 then LedgerEffect(a, -EINVAL, NoData)
    else
      var sets := seq(MAX_SETS, i requires 0 <= i < MAX_SETS =>
        if a.sets[i].active then Restored(a.sets[i], MakeId(i, a.sets[i].generation), a.ledger, pid, now)
        else a.sets[i]);
      LedgerEffect(LedgerStore(sets, map key | key in a.ledger && key.pid != pid :: a.ledger[key]),
                   if exists key :: key in a.ledger && key.pid == pid then 1 else 0, NoData)
  }

  /** Forgets the balances of one semaphore, or of a whole set. */
  function Forget(ledger: Ledger, semid: i32, semNum: int, all: bool): Ledger {
    map key | key in ledger && !(key.semid == semid && (all || key.semNum == semNum)) :: ledger[key]
  }

  /** Every call on the ledger store; calls that never read the undo table run on the sets alone. */
  ghost function LedgerApply(a: LedgerStore, call: Call, now: i64): LedgerEffect
    requires Shape(SetsOnly(a))
  {
    match call
    case TryOpCall(semid, ops, pid) => LedgerTryOp(a, semid, ops, pid, now)
    case ExitCall(pid) => LedgerExit(a, pid, now)
    case _ =>
      var r := Apply(SetsOnly(a), call, now);
      var ledger :=
        if r.code != 0 then a.ledger
        else match call
          case RemoveCall(semid) => Forget(a.ledger, semid, 0, true)
          case SetAllCall(semid, _, _) => Forget(a.ledger, semid, 0, true)
          case SetValCall(semid, semNum, _, _) => Forget(a.ledger, semid, semNum, false)
          case _ => a.ledger;
      LedgerEffect(LedgerStore(r.store.sets, ledger), r.code, r.answer)
  }

  // ---------------------------------------------------------------- refinement: semop

  function KeysTo(undo: seq<UndoEntry>, n: nat): set<UndoKey>
    requires n <= |undo|
  {
    set i | 0 <= i < n && undo[i].active :: KeyOf(undo[i])
  }

  lemma {:induction false} CountKeys(undo: seq<UndoEntry>, n: nat)
    requires Unique(undo) && n <= |undo|
    ensures |KeysTo(undo, n)| + CountFree(undo, n) == n
  {
    hide Unique, KeyOf;
    if n > 0 {
      CountKeys(undo, n - 1);
      KeysStep(undo, n - 1);
    }
  }

  lemma KeysStep(undo: seq<UndoEntry>, n: nat)
    requires Unique(undo) && n < |undo|
    ensures KeysTo(undo, n + 1) == KeysTo(undo, n) + if undo[n].active then {KeyOf(undo[n])} else {}
    ensures undo[n].active ==> KeyOf(undo[n]) !in KeysTo(undo, n)
  {
  }

  /** The free entries of the table are what the ledger leaves. */
  lemma LedgerSize(undo: seq<UndoEntry>)
    requires Unique(undo)
    ensures |LedgerOf(undo)| + CountFree(undo, |undo|) == |undo|
  {
    CountKeys(undo, |undo|);
    assert LedgerOf(undo).Keys == KeysTo(undo, |undo|);
  }

  function Owed(undo: seq<UndoEntry>, key: UndoKey): int {
    Adjustment(undo, key.pid, key.semid, key.semNum)
  }

  lemma PostUndoOwed(undo: seq<UndoEntry>, pid: i32, semid: i32, k: int, delta: int, key: UndoKey)
    requires Unique(undo) && PostUndo(undo, pid, semid, k, delta).Some?
    ensures Owed(PostUndo(undo, pid, semid, k, delta).value, key) ==
            Owed(undo, key) + if key == UndoKey(pid, semid, k) then delta else 0
  {
    var after := PostUndo(undo, pid, semid, k, delta).value;
    var i := FindUndo(undo, pid, semid, k);
    var slot := if i < |undo| then i else FindFree(undo);
    if key == UndoKey(pid, semid, k) {
      PostUndoUnique(undo, pid, semid, k, delta);
      if after[slot].active {
        FindUndoUnique(after, slot);
      } else {
        assert Absent(after, pid, semid, k);
      }
    } else {
      var j, j' := FindUndo(undo, key.pid, key.semid, key.semNum), FindUndo(after, key.pid, key.semid, key.semNum);
      assert j < |undo| ==> Matches(after[j], key.pid, key.semid, key.semNum);
      assert j' < |undo| ==> Matches(undo[j'], key.pid, key.semid, key.semNum);
    }
  }

  /** The commit loop adds each delta to the caller's adjustment and touches no other. */
  lemma {:induction false} CommitOwed(undo: seq<UndoEntry>, pid: i32, semid: i32, deltas: seq<int>, n: nat,
                                      key: UndoKey)
    requires n <= |deltas| && Unique(undo) && CommitTo(undo, pid, semid, deltas, n).Some?
    ensures Owed(CommitTo(undo, pid, semid, deltas, n).value, key) ==
            Owed(undo, key) + DeltaFor(key, pid, semid, deltas, n)
  {
    if n > 0 {
      CommitOwed(undo, pid, semid, deltas, n - 1, key);
      if deltas[n - 1] != 0 {
        CommitUnique(undo, pid, semid, deltas, n - 1);
        PostUndoOwed(CommitTo(undo, pid, semid, deltas, n - 1).value, pid, semid, n - 1, deltas[n - 1], key);
      }
    }
  }

  ghost predicate NonZero(ledger: Ledger) {
    forall key :: key in ledger ==> ledger[key] != 0
  }

  /** Ledgers without zero balances are determined by their balances. */
  lemma SameBalances(a: Ledger, b: Ledger)
    requires NonZero(a) && NonZero(b) && forall key :: Balance(a, key) == Balance(b, key)
    ensures a == b
  {
    forall key
      ensures key in a <==> key in b
      ensures key in a ==> a[key] == b[key]
    {
      assert Balance(a, key) == Balance(b, key);
    }
  }

  lemma ChargeBalance(ledger: Ledger, pid: i32, semid: i32, deltas: seq<int>, key: UndoKey)
    requires NonZero(ledger)
    ensures Balance(Charge(ledger, pid, semid, deltas), key) ==
            Balance(ledger, key) + DeltaFor(key, pid, semid, deltas, |deltas|)
  {
    if DeltaFor(key, pid, semid, deltas, |deltas|) != 0 {
      assert key == UndoKey(pid, semid, key.semNum);
    }
  }

  lemma ValidNonZero(st: Store)
    requires Valid(st)
    ensures NonZero(LedgerOf(st.undo))
  {
    forall i | 0 <= i < |st.undo| && st.undo[i].active
      ensures st.undo[i].adjustment != 0
    {
      assert EntryOk(st, st.undo[i]);
    }
  }

  lemma CommitNonZero(st: Store, pid: i32, semid: i32, deltas: seq<int>)
    requires Valid(st) && CommitTo(st.undo, pid, semid, deltas, |deltas|).Some?
    ensures Unique(CommitTo(st.undo, pid, semid, deltas, |deltas|).value)
    ensures NonZero(LedgerOf(CommitTo(st.undo, pid, semid, deltas, |deltas|).value))
  {
    CommitUnique(st.undo, pid, semid, deltas, |deltas|);
    CommitEntries(st.undo, pid, semid, deltas, |deltas|);
    var after := CommitTo(st.undo, pid, semid, deltas, |deltas|).value;
    forall i | 0 <= i < |after| && after[i].active
      ensures after[i].adjustment != 0
    {
      assert Posted(st.undo, pid, semid, deltas, after[i]);
    }
  }

  /** The commit loop over the table is one charge on the ledger. */
  lemma CommitIsCharge(st: Store, pid: i32, semid: i32, deltas: seq<int>)
    requires Valid(st) && CommitTo(st.undo, pid, semid, deltas, |deltas|).Some?
    ensures Unique(CommitTo(st.undo, pid, semid, deltas, |deltas|).value)
    ensures LedgerOf(CommitTo(st.undo, pid, semid, deltas, |deltas|).value) ==
            Charge(LedgerOf(st.undo), pid, semid, deltas)
  {
    CommitNonZero(st, pid, semid, deltas);
    ValidNonZero(st);
    var after := CommitTo(st.undo, pid, semid, deltas, |deltas|).value;
    var ledger := LedgerOf(st.undo);
    forall key
      ensures Balance(LedgerOf(after), key) == Balance(Charge(ledger, pid, semid, deltas), key)
    {
      CommitOwed(st.undo, pid, semid, deltas, |deltas|, key);
      FindUndoIsLookup(st.undo, key);
      FindUndoIsLookup(after, key);
      ChargeBalance(ledger, pid, semid, deltas, key);
    }
    SameBalances(LedgerOf(after), Charge(ledger, pid, semid, deltas));
  }

  /** The reservation loop counts new ledger keys and checks every new balance. */
  lemma {:induction false} ReserveIsCount(undo: seq<UndoEntry>, ledger: Ledger, pid: i32, semid: i32, deltas: seq<int>,
                                          n: nat)
    requires Unique(undo) && n <= |deltas| && ledger == LedgerOf(undo)
    ensures ReserveTo(undo, pid, semid, deltas, n) ==
            if InRange(ledger, pid, semid, deltas, n) then Some(|NewKeys(ledger, pid, semid, deltas, n)|) else None
  {
    hide LedgerOf, Unique, UndoRange, FindUndo;
    if n > 0 {
      ReserveIsCount(undo, ledger, pid, semid, deltas, n - 1);
      FindUndoIsLookup(undo, UndoKey(pid, semid, n - 1));
      NewKeysStep(ledger, pid, semid, deltas, n - 1);
    }
  }

  lemma NewKeysStep(ledger: Ledger, pid: i32, semid: i32, deltas: seq<int>, n: nat)
    requires n < |deltas|
    ensures |NewKeys(ledger, pid, semid, deltas, n + 1)| ==
            |NewKeys(ledger, pid, semid, deltas, n)| +
              if deltas[n] != 0 && UndoKey(pid, semid, n) !in ledger then 1 else 0
  {
    var more := if deltas[n] != 0 && UndoKey(pid, semid, n) !in ledger then {n} else {};
    assert NewKeys(ledger, pid, semid, deltas, n + 1) == NewKeys(ledger, pid, semid, deltas, n) + more;
  }

  lemma TryOpRefines(st: Store, semid: i32, ops: seq<SemOp>, pid: i32, now: i64)
    requires Valid(st)
    ensures var r := TryOp(st, semid, ops, pid, now);
            && Unique(r.store.undo)
            && LedgerEffect(Abs(r.store), r.code, r.answer) == LedgerTryOp(Abs(st), semid, ops, pid, now)
  {
    var i := FindSet(st, semid);
    assert FindSet(SetsOnly(Abs(st)), semid) == i;
    TryOpAtomic(st, semid, ops, pid, now);
    if i.Some? && ops != [] && ValidBatch(ops, |st.sets[i.value].values|) {
      var s := st.sets[i.value];
      var deltas := DeltasTo(ops, |s.values|, |ops|);
      if EvalTo(s.values, ops, |ops|).Ready? && deltas.Some? {
        ReserveIsCount(st.undo, LedgerOf(st.undo), pid, semid, deltas.value, |s.values|);
        LedgerSize(st.undo);
        var required := ReserveTo(st.undo, pid, semid, deltas.value, |s.values|);
        if required.Some? && required.value <= CountFree(st.undo, |st.undo|) {
          CommitHasRoom(st.undo, pid, semid, deltas.value, |deltas.value|);
          CommitIsCharge(st, pid, semid, deltas.value);
        }
      }
    }
  }
}
