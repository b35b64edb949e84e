/** The invariant every store operation keeps, and the identifier laws it rests on. */
module StoreValid {
  import opened SemTypes
  import opened StoreModel
  import opened SemopAtomic

  // ---------------------------------------------------------------- identifiers

  /** Encoding then decoding, for every slot and generation: the generation is the upper half of the identifier, the
      slot, counted from one, the lower. */
  lemma IdRoundTrip(index: nat, generation: nat)
    requires index < MAX_SETS && 1 <= generation <= MAX_GENERATION
    ensures 0 < MakeId(index, generation) <= INT_MAX
    ensures MakeId(index, generation) / 0x1_0000 == generation && MakeId(index, generation) % 0x1_0000 == index + 1
    ensures DecodeId(MakeId(index, generation)) == Some((index, generation))
  {
    assert MakeId(index, generation) / 0x1_0000 == generation;
    assert MakeId(index, generation) % 0x1_0000 == index + 1;
  }

  /** Decoding then encoding, for every accepted identifier; decoded parts are in range. */
  lemma IdDecodes(semid: i32)
    requires DecodeId(semid).Some?
    ensures var (i, g) := DecodeId(semid).value;
            i < MAX_SETS && 1 <= g <= MAX_GENERATION && MakeId(i, g) == semid
  {
  }

  /** An identifier resolves to a slot exactly when it is that slot's current one. */
  lemma FindSetIsId(st: Store, semid: i32, i: nat)
    requires Shape(st) && i < MAX_SETS
    ensures FindSet(st, semid) == Some(i) <==>
            st.sets[i].active && st.sets[i].generation > 0 && semid == MakeId(i, st.sets[i].generation)
  {
    if FindSet(st, semid) == Some(i) {
      IdDecodes(semid);
    }
    if st.sets[i].generation > 0 {
      IdRoundTrip(i, st.sets[i].generation);
    }
  }

  // ---------------------------------------------------------------- the invariant

  predicate Bounded(values: seq<int>, limit: int) {
    forall k :: 0 <= k < |values| ==> 0 <= values[k] <= limit
  }

  predicate ValidSet(s: SemSet) {
    && ShapedSet(s)
    && (s.active ==> s.generation > 0 && s.values != [])
    && (!s.active ==> s.values == [])
    && Bounded(s.values, MAX_VALUE)
    && Bounded(s.negWaiters, UINT32_MAX)
    && Bounded(s.zeroWaiters, UINT32_MAX)
  }

  predicate UniqueKeys(sets: seq<SemSet>) {
    forall i, j :: 0 <= i < j < |sets| && sets[i].active && sets[j].active && sets[i].key != IPC_PRIVATE
      ==> sets[i].key != sets[j].key
  }

  datatype UndoKey = UndoKey(pid: i32, semid: i32, semNum: int)

  function KeyOf(e: UndoEntry): UndoKey {
    UndoKey(e.pid, e.semid, e.semNum)
  }

  ghost predicate Unique(undo: seq<UndoEntry>) {
    forall i, j :: 0 <= i < j < |undo| && undo[i].active && undo[j].active ==> KeyOf(undo[i]) != KeyOf(undo[j])
  }

  /** An active entry names a live semaphore and holds a nonzero adjustment within the SEM_UNDO range. */
  predicate EntryOk(st: Store, e: UndoEntry)
    requires Shape(st)
  {
    Replays(st, e) && e.adjustment != 0 && UndoRange(e.adjustment)
  }

  ghost predicate Valid(st: Store) {
    && Shape(st)
    && (forall i :: 0 <= i < MAX_SETS ==> ValidSet(st.sets[i]))
    && UniqueKeys(st.sets)
    && Unique(st.undo)
    && (forall i :: 0 <= i < MAX_UNDO && st.undo[i].active ==> EntryOk(st, st.undo[i]))
  }

  // ---------------------------------------------------------------- preservation, operation by operation

  lemma ShapeOf(st: Store)
    requires Valid(st)
    ensures Shape(st)
  {
  }

  lemma InitValid()
    ensures Valid(Init())
  {
  }

  /** Changing a live set's contents but not its identity, length or values' range keeps the invariant. */
  lemma WithSetValid(st: Store, i: nat, s: SemSet, undo: seq<UndoEntry>)
    requires Valid(st) && i < MAX_SETS && st.sets[i].active
    requires ValidSet(s) && s.active && s.key == st.sets[i].key && s.generation == st.sets[i].generation
    requires |s.values| == |st.sets[i].values|
    requires |undo| == MAX_UNDO && Unique(undo)
    requires forall j :: 0 <= j < MAX_UNDO && undo[j].active ==> EntryOk(st, undo[j])
    ensures Valid(Store(st.sets[i := s], undo))
  {
    var st' := Store(st.sets[i := s], undo);
    assert forall j :: 0 <= j < MAX_UNDO && undo[j].active ==>
           FindSet(st', undo[j].semid) == FindSet(st, undo[j].semid);
  }

  /** A new set in a free slot, under a key no live set has, keeps the invariant. */
  lemma FreshSetValid(st: Store, i: nat, s: SemSet)
    requires Valid(st) && i < MAX_SETS && !st.sets[i].active && ValidSet(s)
    requires s.key != IPC_PRIVATE ==> forall j :: 0 <= j < MAX_SETS && st.sets[j].active ==> st.sets[j].key != s.key
    ensures Valid(WithSet(st, i, s))
  {
    var st' := WithSet(st, i, s);
    assert forall j :: 0 <= j < MAX_UNDO && st.undo[j].active ==>
           FindSet(st', st.undo[j].semid) == FindSet(st, st.undo[j].semid);
  }

  lemma GetValid(st: Store, key: i32, nsems: i32, flags: int, who: Identity, now: i64, noMemory: bool)
    requires Valid(st)
    ensures Valid(Get(st, key, nsems, flags, who, now, noMemory).store)
  {
    var st' := Get(st, key, nsems, flags, who, now, noMemory).store;
    if st' != st {
      var slot := FindSlot(st.sets);
      FreshSetValid(st, slot, st'.sets[slot]);
    }
  }

  lemma RemoveValid(st: Store, semid: i32)
    requires Valid(st)
    ensures Valid(Remove(st, semid).store)
  {
    var r := FindSet(st, semid);
    if r.Some? {
      var st' := Remove(st, semid).store;
      forall j | 0 <= j < MAX_UNDO && st'.undo[j].active
        ensures EntryOk(st', st'.undo[j])
      {
        var e := st.undo[j];
        FindSetIsId(st, semid, r.value);
        FindSetIsId(st, e.semid, FindSet(st, e.semid).value);
        assert FindSet(st', e.semid) == FindSet(st, e.semid);
      }
    }
  }

  lemma SetValValid(st: Store, semid: i32, semNum: nat, value: nat, pid: i32, now: i64)
    requires Valid(st)
    ensures Valid(SetVal(st, semid, semNum, value, pid, now).store)
  {
    var r := SetVal(st, semid, semNum, value, pid, now);
    if r.code == 0 {
      var i := FindSet(st, semid).value;
      WithSetValid(st, i, r.store.sets[i], r.store.undo);
    }
  }

  lemma SetAllValid(st: Store, semid: i32, values: seq<u16>, pid: i32, now: i64)
    requires Valid(st)
    ensures Valid(SetAll(st, semid, values, pid, now).store)
  {
    var r := SetAll(st, semid, values, pid, now);
    if r.code == 0 {
      var i := FindSet(st, semid).value;
      WithSetValid(st, i, r.store.sets[i], r.store.undo);
    }
  }

  lemma SetMetaValid(st: Store, semid: i32, uid: u32, gid: u32, mode: u32, who: Identity, now: i64)
    requires Valid(st)
    ensures Valid(SetMeta(st, semid, uid, gid, mode, who, now).store)
  {
    var r := SetMeta(st, semid, uid, gid, mode, who, now);
    if r.code == 0 {
      var i := FindSet(st, semid).value;
      WithSetValid(st, i, r.store.sets[i], r.store.undo);
    }
  }

  lemma AdjustWaitValid(st: Store, semid: i32, semNum: nat, forZero: bool, up: bool)
    requires Valid(st)
    ensures Valid(AdjustWait(st, semid, semNum, forZero, up).store)
  {
    var r := AdjustWait(st, semid, semNum, forZero, up);
    if r.code == 0 {
      var i := FindSet(st, semid).value;
      WithSetValid(st, i, r.store.sets[i], r.store.undo);
    }
  }

  // ---------------------------------------------------------------- semop

  lemma {:induction false} EvalInRange(values: seq<int>, ops: seq<SemOp>, n: nat)
    requires n <= |ops| && NamesOnly(ops, |values|)
    requires Bounded(values, MAX_VALUE)
    ensures EvalTo(values, ops, n).Ready? ==> Bounded(EvalTo(values, ops, n).values, MAX_VALUE)
  {
    if n > 0 { EvalInRange(values, ops, n - 1); }
  }

  /** With unique entries the first match is the only one. */
  lemma FindUndoUnique(undo: seq<UndoEntry>, i: nat)
    requires Unique(undo) && i < |undo| && undo[i].active
    ensures FindUndo(undo, undo[i].pid, undo[i].semid, undo[i].semNum) == i
  {
    var j := FindUndo(undo, undo[i].pid, undo[i].semid, undo[i].semNum);
    assert Matches(undo[i], undo[i].pid, undo[i].semid, undo[i].semNum);
    assert KeyOf(undo[j]) == KeyOf(undo[i]);
  }

  lemma PostUndoUnique(undo: seq<UndoEntry>, pid: i32, semid: i32, k: int, delta: int)
    requires Unique(undo) && PostUndo(undo, pid, semid, k, delta).Some?
    ensures Unique(PostUndo(undo, pid, semid, k, delta).value)
  {
    var i := FindUndo(undo, pid, semid, k);
    var slot := if i < |undo| then i else FindFree(undo);
    var after := PostUndo(undo, pid, semid, k, delta).value;
    forall j | 0 <= j < |undo| && j != slot && undo[j].active
      ensures KeyOf(undo[j]) != UndoKey(pid, semid, k)
    {
      if KeyOf(undo[j]) == UndoKey(pid, semid, k) { FindUndoUnique(undo, j); }
    }
    assert forall j :: 0 <= j < |undo| && j != slot ==> after[j] == undo[j];
  }

  /** An entry of the committed table is an old one for another semaphore, or the caller's new adjustment. */
  predicate Posted(undo: seq<UndoEntry>, pid: i32, semid: i32, deltas: seq<int>, e: UndoEntry) {
    || e in undo
    || (&& e.pid == pid && e.semid == semid && 0 <= e.semNum < |deltas| && e.adjustment != 0
        && e.adjustment == Adjustment(undo, pid, semid, e.semNum) + deltas[e.semNum]
        && deltas[e.semNum] != 0)
  }

  /** Posting to one semaphore leaves the adjustment of every other semaphore as it was. */
  lemma PostUndoFrame(undo: seq<UndoEntry>, pid: i32, semid: i32, k: int, delta: int, k': int)
    requires PostUndo(undo, pid, semid, k, delta).Some? && k' != k
    ensures Adjustment(PostUndo(undo, pid, semid, k, delta).value, pid, semid, k') == Adjustment(undo, pid, semid, k')
  {
    var after := PostUndo(undo, pid, semid, k, delta).value;
    var j, j' := FindUndo(undo, pid, semid, k'), FindUndo(after, pid, semid, k');
    assert j < |undo| ==> Matches(after[j], pid, semid, k');
    assert j' < |undo| ==> Matches(undo[j'], pid, semid, k');
  }

  lemma {:induction false} CommitUnique(undo: seq<UndoEntry>, pid: i32, semid: i32, deltas: seq<int>, n: nat)
    requires n <= |deltas| && Unique(undo) && CommitTo(undo, pid, semid, deltas, n).Some?
    ensures Unique(CommitTo(undo, pid, semid, deltas, n).value)
  {
    if n > 0 {
      CommitUnique(undo, pid, semid, deltas, n - 1);
      if deltas[n - 1] != 0 {
        PostUndoUnique(CommitTo(undo, pid, semid, deltas, n - 1).value, pid, semid, n - 1, deltas[n - 1]);
      }
    }
  }

  /** Semaphores the commit loop has not reached keep their adjustment. */
  lemma {:induction false} CommitFrame(undo: seq<UndoEntry>, pid: i32, semid: i32, deltas: seq<int>, n: nat, k: int)
    requires n <= |deltas| && CommitTo(undo, pid, semid, deltas, n).Some? && k >= n
    ensures Adjustment(CommitTo(undo, pid, semid, deltas, n).value, pid, semid, k) == Adjustment(undo, pid, semid, k)
  {
    if n > 0 {
      CommitFrame(undo, pid, semid, deltas, n - 1, k);
      if deltas[n - 1] != 0 {
        PostUndoFrame(CommitTo(undo, pid, semid, deltas, n - 1).value, pid, semid, n - 1, deltas[n - 1], k);
      }
    }
  }

  lemma {:induction false} CommitEntries(undo: seq<UndoEntry>, pid: i32, semid: i32, deltas: seq<int>, n: nat)
    requires n <= |deltas| && CommitTo(undo, pid, semid, deltas, n).Some?
    ensures var after := CommitTo(undo, pid, semid, deltas, n).value;
            forall i :: 0 <= i < |after| && after[i].active ==> Posted(undo, pid, semid, deltas, after[i])
  {
    if n > 0 {
      CommitEntries(undo, pid, semid, deltas, n - 1);
      if deltas[n - 1] != 0 {
        CommitFrame(undo, pid, semid, deltas, n - 1, n - 1);
      }
    }
  }

  lemma {:induction false} ReserveRange(undo: seq<UndoEntry>, pid: i32, semid: i32, deltas: seq<int>, n: nat, k: nat)
    requires k < n <= |deltas| && ReserveTo(undo, pid, semid, deltas, n).Some? && deltas[k] != 0
    ensures UndoRange(deltas[k] + Adjustment(undo, pid, semid, k))
  {
    if k < n - 1 { ReserveRange(undo, pid, semid, deltas, n - 1, k); }
  }

  lemma TryOpValid(st: Store, semid: i32, ops: seq<SemOp>, pid: i32, now: i64)
    requires Valid(st)
    ensures Valid(TryOp(st, semid, ops, pid, now).store)
  {
    var r := TryOp(st, semid, ops, pid, now);
    TryOpAtomic(st, semid, ops, pid, now);
    if r.code == 0 {
      var i := FindSet(st, semid).value;
      var s := st.sets[i];
      EvalInRange(s.values, ops, |ops|);
      var deltas := DeltasTo(ops, |s.values|, |ops|).value;
      CommitUnique(st.undo, pid, semid, deltas, |deltas|);
      CommitEntries(st.undo, pid, semid, deltas, |deltas|);
      forall j | 0 <= j < MAX_UNDO && r.store.undo[j].active
        ensures EntryOk(st, r.store.undo[j])
      {
        var e := r.store.undo[j];
        assert Posted(st.undo, pid, semid, deltas, e);
        if e !in st.undo { ReserveRange(st.undo, pid, semid, deltas, |deltas|, e.semNum); }
      }
      WithSetValid(st, i, r.store.sets[i], r.store.undo);
    }
  }

  // ---------------------------------------------------------------- process exit

  lemma ExitOneValid(st: Store, pid: i32, now: i64, i: nat)
    requires Valid(st) && i < MAX_UNDO
    ensures Valid(ExitOne(st, pid, now, i))
  {
    var e := st.undo[i];
    if e.active && e.pid == pid {
      assert EntryOk(st, e);
      var j := FindSet(st, e.semid).value;
      var r := ReplayEntry(st, i, now);
      WithSetValid(st, j, r.sets[j], r.undo);
    }
  }

  lemma {:induction false} ExitValid(st: Store, pid: i32, now: i64, n: nat)
    requires Valid(st) && n <= MAX_UNDO
    ensures Valid(ExitTo(st, pid, now, n))
  {
    if n > 0 {
      ExitValid(st, pid, now, n - 1);
      ExitOneValid(ExitTo(st, pid, now, n - 1), pid, now, n - 1);
    }
  }

  // ---------------------------------------------------------------- every call, every run

  lemma ApplyValid(st: Store, call: Call, now: i64)
    requires Valid(st)
    ensures Valid(Apply(st, call, now).store)
  {
    match call
    case GetCall(key, nsems, flags, who, noMemory) => GetValid(st, key, nsems, flags, who, now, noMemory);
    case RemoveCall(semid) => RemoveValid(st, semid);
    case SetValCall(semid, semNum, value, pid) => SetValValid(st, semid, semNum, value, pid, now);
    case SetAllCall(semid, values, pid) => SetAllValid(st, semid, values, pid, now);
    case SetMetaCall(semid, uid, gid, mode, who) => SetMetaValid(st, semid, uid, gid, mode, who, now);
    case AdjustWaitCall(semid, semNum, forZero, up) => AdjustWaitValid(st, semid, semNum, forZero, up);
    case TryOpCall(semid, ops, pid) => TryOpValid(st, semid, ops, pid, now);
    case ExitCall(pid) => if pid > 0 { ExitValid(st, pid, now, MAX_UNDO); }
    case GetValCall(_, _) =>
    case GetPidCall(_, _) =>
    case GetAllCall(_, _) =>
    case StatCall(_) =>
    case StatIndexCall(_) =>
    case WaitCountCall(_, _, _) =>
    case InfoCall(_) =>
  }

  /** A call together with the clock reading it sees. */
  datatype Timed = Timed(call: Call, now: i64)

  /** The store after the first `n` calls of a run from the empty store. */
  ghost function Run(calls: seq<Timed>, n: nat): (st: Store)
    requires n <= |calls|
    ensures Valid(st)
  {
    InitValid();
    if n == 0 then Init()
    else
      var before := Run(calls, n - 1);
      ApplyValid(before, calls[n - 1].call, calls[n - 1].now);
      Apply(before, calls[n - 1].call, calls[n - 1].now).store
  }
}
