/**
 The semaphore store as a value: a table of semaphore sets and the shared
 SEM_UNDO table. Every operation is a total function from a store to a store
 and a result code; the class `SemStore` runs the same operations in place.
 Functions that stand for a loop take the number of iterations done so far.
 */
module StoreModel {
  import opened SemTypes

  datatype Meta = Meta(uid: u32, gid: u32, cuid: u32, cgid: u32, mode: u32, otime: i64, ctime: i64)

  const NO_META := Meta(0, 0, 0, 0, 0, 0, 0)

  datatype SemSet = SemSet(
    active: bool,
    key: i32,
    generation: nat,
    values: seq<int>,
    lastPids: seq<i32>,
    negWaiters: seq<nat>,
    zeroWaiters: seq<nat>,
    meta: Meta)

  const EMPTY_SET := SemSet(false, 0, 0, [], [], [], [], NO_META)

  datatype UndoEntry = UndoEntry(active: bool, pid: i32, semid: i32, semNum: int, adjustment: int)

  const NO_UNDO := UndoEntry(false, 0, 0, 0, 0)

  datatype Store = Store(sets: seq<SemSet>, undo: seq<UndoEntry>)

  predicate Shape(st: Store) {
    && |st.sets| == MAX_SETS
    && |st.undo| == MAX_UNDO
    && forall i :: 0 <= i < MAX_SETS ==> ShapedSet(st.sets[i])
  }

  predicate ShapedSet(s: SemSet) {
    && |s.values| == |s.lastPids| == |s.negWaiters| == |s.zeroWaiters| <= MAX_PER_SET
    && s.generation <= MAX_GENERATION
  }

  function Init(): Store {
    Store(seq(MAX_SETS, _ => EMPTY_SET), seq(MAX_UNDO, _ => NO_UNDO))
  }

  // ---------------------------------------------------------------- identifiers

  function MakeId(index: nat, generation: nat): int {
    generation * 0x1_0000 + (index + 1)
  }

  /** The slot and generation an identifier names, when it is well formed. */
  function DecodeId(semid: i32): Option<(nat, nat)> {
    if semid <= 0 then None
    else
      var index, generation := semid % 0x1_0000, semid / 0x1_0000;
      if index == 0 || index > MAX_SETS || generation == 0 then None
      else Some((index - 1, generation))
  }

  function NextGeneration(generation: nat): nat {
    if generation >= MAX_GENERATION then 1 else generation + 1
  }

  function FindSet(st: Store, semid: i32): (r: Option<nat>)
    requires |st.sets| == MAX_SETS
    ensures r.Some? ==> r.value < MAX_SETS && st.sets[r.value].active
  {
    match DecodeId(semid)
    case None => None
    case Some((i, g)) => if st.sets[i].active && st.sets[i].generation == g then Some(i) else None
  }

  // ---------------------------------------------------------------- undo table

  predicate Matches(e: UndoEntry, pid: i32, semid: i32, semNum: int) {
    e.active && e.pid == pid && e.semid == semid && e.semNum == semNum
  }

  /** The first entry for the triple at or after `from`, or the table size. */
  function FindUndo(undo: seq<UndoEntry>, pid: i32, semid: i32, semNum: int, from: nat := 0): (i: nat)
    requires from <= |undo|
    ensures from <= i <= |undo|
    ensures i < |undo| ==> Matches(undo[i], pid, semid, semNum)
    ensures forall j :: from <= j < i ==> !Matches(undo[j], pid, semid, semNum)
    decreases |undo| - from
  {
    if from == |undo| || Matches(undo[from], pid, semid, semNum) then from
    else FindUndo(undo, pid, semid, semNum, from + 1)
  }

  /** The first inactive entry at or after `from`, or the table size. */
  function FindFree(undo: seq<UndoEntry>, from: nat := 0): (i: nat)
    requires from <= |undo|
    ensures from <= i <= |undo|
    ensures i < |undo| ==> !undo[i].active
    ensures forall j :: from <= j < i ==> undo[j].active
    decreases |undo| - from
  {
    if from == |undo| || !undo[from].active then from else FindFree(undo, from + 1)
  }

  predicate Cleared(e: UndoEntry, semid: i32, semNum: int, all: bool) {
    e.active && e.semid == semid && (all || e.semNum == semNum)
  }

  function ClearUndo(undo: seq<UndoEntry>, semid: i32, semNum: int, all: bool): (r: seq<UndoEntry>)
    ensures |r| == |undo|
    ensures forall i :: 0 <= i < |undo| ==>
              r[i] == if Cleared(undo[i], semid, semNum, all) then undo[i].(active := false) else undo[i]
  {
    seq(|undo|, i requires 0 <= i < |undo| =>
      if Cleared(undo[i], semid, semNum, all) then undo[i].(active := false) else undo[i])
  }

  function CountFree(undo: seq<UndoEntry>, n: nat): nat
    requires n <= |undo|
  {
    if n == 0 then 0 else CountFree(undo, n - 1) + if undo[n - 1].active then 0 else 1
  }

  // ---------------------------------------------------------------- effects

  datatype Answer =
    | NoData
    | Values(values: seq<int>)
    | Metadata(key: i32, nsems: nat, generation: nat, meta: Meta)
    | Limits(fields: seq<int>)
    | Waits(reason: WaitReason)

  /** What an operation leaves behind: the new store, the C return value and any data returned. */
  datatype Effect = Effect(store: Store, code: int, answer: Answer)

  function Fails(st: Store, errno: int): Effect {
    Effect(st, -errno, NoData)
  }

  function WithSet(st: Store, i: nat, s: SemSet): Store
    requires i < |st.sets|
  {
    st.(sets := st.sets[i := s])
  }

  // ---------------------------------------------------------------- semget

  function FindKey(sets: seq<SemSet>, key: i32, from: nat := 0): (i: nat)
    requires from <= |sets|
    ensures from <= i <= |sets|
    ensures i < |sets| ==> sets[i].active && sets[i].key == key
    ensures forall j :: from <= j < i ==> !(sets[j].active && sets[j].key == key)
    decreases |sets| - from
  {
    if from == |sets| || (sets[from].active && sets[from].key == key) then from
    else FindKey(sets, key, from + 1)
  }

  function FindSlot(sets: seq<SemSet>, from: nat := 0): (i: nat)
    requires from <= |sets|
    ensures from <= i <= |sets|
    ensures i < |sets| ==> !sets[i].active
    ensures forall j :: from <= j < i ==> sets[j].active
    decreases |sets| - from
  {
    if from == |sets| || !sets[from].active then from else FindSlot(sets, from + 1)
  }

  function Zeros(n: nat): (r: seq<nat>)
    ensures |r| == n && forall i :: 0 <= i < n ==> r[i] == 0
  {
    seq(n, _ => 0)
  }

  function Repeat(x: i32, n: nat): (r: seq<i32>)
    ensures |r| == n && forall i :: 0 <= i < n ==> r[i] == x
  {
    seq(n, _ => x)
  }

  function FreshSet(s: SemSet, key: i32, nsems: nat, flags: int, who: Identity, now: i64): SemSet {
    SemSet(true, key, if s.generation == 0 then 1 else s.generation,
           Zeros(nsems), Repeat(0, nsems), Zeros(nsems), Zeros(nsems),
           Meta(who.uid, who.gid, who.uid, who.gid, flags % 0x200, 0, now))
  }

  function Get(st: Store, key: i32, nsems: i32, flags: int, who: Identity, now: i64, noMemory: bool): Effect
    requires Shape(st)
  {
    var found := FindKey(st.sets, key);
    if key != IPC_PRIVATE && found < MAX_SETS then
      if HasFlag(flags, IPC_CREAT) && HasFlag(flags, IPC_EXCL) then Fails(st, EEXIST)
      else if nsems < 0 || nsems > |st.sets[found].values| then Fails(st, EINVAL)
      else Effect(st, MakeId(found, st.sets[found].generation), NoData)
    else if key != IPC_PRIVATE && !HasFlag(flags, IPC_CREAT) then Fails(st, ENOENT)
    else if nsems <= 0 || nsems > MAX_PER_SET then Fails(st, EINVAL)
    else
      var slot := FindSlot(st.sets);
      if slot == MAX_SETS then Fails(st, ENOSPC)
      else if noMemory then Fails(st, ENOMEM)
      else
        var s := FreshSet(st.sets[slot], key, nsems, flags, who, now);
        Effect(WithSet(st, slot, s), MakeId(slot, s.generation), NoData)
  }

  // ---------------------------------------------------------------- semctl

  function Remove(st: Store, semid: i32): Effect
    requires Shape(st)
  {
    match FindSet(st, semid)
    case None => Fails(st, EINVAL)
    case Some(i) =>
      var s := EMPTY_SET.(generation := NextGeneration(st.sets[i].generation));
      Effect(Store(st.sets[i := s], ClearUndo(st.undo, semid, 0, true)), 0, NoData)
  }

  function GetVal(st: Store, semid: i32, semNum: nat): Effect
    requires Shape(st)
  {
    match FindSet(st, semid)
    case None => Fails(st, EINVAL)
    case Some(i) =>
      if semNum >= |st.sets[i].values| then Fails(st, EINVAL)
      else Effect(st, st.sets[i].values[semNum], NoData)
  }

  function GetPid(st: Store, semid: i32, semNum: nat): Effect
    requires Shape(st)
  {
    match FindSet(st, semid)
    case None => Fails(st, EINVAL)
    case Some(i) =>
      if semNum >= |st.sets[i].values| then Fails(st, EINVAL)
      else Effect(st, st.sets[i].lastPids[semNum], NoData)
  }

  function SetVal(st: Store, semid: i32, semNum: nat, value: nat, pid: i32, now: i64): Effect
    requires Shape(st)
  {
    match FindSet(st, semid)
    case None => Fails(st, EINVAL)
    case Some(i) =>
      var s := st.sets[i];
      if semNum >= |s.values| then Fails(st, EINVAL)
      else if value > MAX_VALUE then Fails(st, ERANGE)
      else
        var s' := s.(values := s.values[semNum := value], lastPids := s.lastPids[semNum := pid],
                     meta := s.meta.(ctime := now));
        Effect(Store(st.sets[i := s'], ClearUndo(st.undo, semid, semNum, false)), 0, NoData)
  }

  function GetAll(st: Store, semid: i32, count: nat): Effect
    requires Shape(st)
  {
    match FindSet(st, semid)
    case None => Fails(st, EINVAL)
    case Some(i) =>
      if count != |st.sets[i].values| then Fails(st, EINVAL)
      else Effect(st, 0, Values(st.sets[i].values))
  }

  function SetAll(st: Store, semid: i32, values: seq<u16>, pid: i32, now: i64): Effect
    requires Shape(st)
  {
    match FindSet(st, semid)
    case None => Fails(st, EINVAL)
    case Some(i) =>
      var s := st.sets[i];
      if |values| != |s.values| then Fails(st, EINVAL)
      else if exists k :: 0 <= k < |values| && values[k] > MAX_VALUE then Fails(st, ERANGE)
      else
        var s' := s.(values := values, lastPids := Repeat(pid, |values|), meta := s.meta.(ctime := now));
        Effect(Store(st.sets[i := s'], ClearUndo(st.undo, semid, 0, true)), 0, NoData)
  }

  function MetadataOf(st: Store, i: nat): Answer
    requires i < |st.sets|
  {
    var s := st.sets[i];
    Metadata(s.key, |s.values|, s.generation, s.meta)
  }

  function Stat(st: Store, semid: i32): Effect
    requires Shape(st)
  {
    match FindSet(st, semid)
    case None => Fails(st, EINVAL)
    case Some(i) => Effect(st, 0, MetadataOf(st, i))
  }

  function StatIndex(st: Store, index: nat): Effect
    requires Shape(st)
  {
    if index >= MAX_SETS || !st.sets[index].active then Fails(st, EINVAL)
    else
      var semid := MakeId(index, st.sets[index].generation);
      if FindSet(st, semid).None? then Fails(st, EINVAL)
      else Effect(st, semid, MetadataOf(st, index))
  }

  function SetMeta(st: Store, semid: i32, uid: u32, gid: u32, mode: u32, who: Identity, now: i64): Effect
    requires Shape(st)
  {
    match FindSet(st, semid)
    case None => Fails(st, EINVAL)
    case Some(i) =>
      var m := st.sets[i].meta;
      if who.uid != m.uid && who.uid != m.cuid then Fails(st, EPERM)
      else if uid != m.uid || (gid != m.gid && gid != who.gid) || mode >= 0x200 then Fails(st, EPERM)
      else Effect(WithSet(st, i, st.sets[i].(meta := m.(gid := gid, mode := mode, ctime := now))), 0, NoData)
  }

  function Counter(s: SemSet, forZero: bool): seq<nat> {
    if forZero then s.zeroWaiters else s.negWaiters
  }

  function WaitCount(st: Store, semid: i32, semNum: nat, forZero: bool): Effect
    requires Shape(st)
  {
    match FindSet(st, semid)
    case None => Fails(st, EINVAL)
    case Some(i) =>
      if semNum >= |st.sets[i].values| then Fails(st, EINVAL)
      else
        var count := Counter(st.sets[i], forZero)[semNum];
        Effect(st, if count > INT_MAX then INT_MAX else count, NoData)
  }

  function WithCounter(s: SemSet, forZero: bool, semNum: nat, count: nat): SemSet
    requires semNum < |Counter(s, forZero)|
  {
    if forZero then s.(zeroWaiters := s.zeroWaiters[semNum := count])
    else s.(negWaiters := s.negWaiters[semNum := count])
  }

  function AdjustWait(st: Store, semid: i32, semNum: nat, forZero: bool, up: bool): Effect
    requires Shape(st)
  {
    match FindSet(st, semid)
    case None => Fails(st, EINVAL)
    case Some(i) =>
      var s := st.sets[i];
      if semNum >= |s.values| then Fails(st, EINVAL)
      else
        var count := Counter(s, forZero)[semNum];
        if (up && count == UINT32_MAX) || (!up && count == 0) then Fails(st, ERANGE)
        else Effect(WithSet(st, i, WithCounter(s, forZero, semNum, if up then count + 1 else count - 1)), 0, NoData)
  }

  /** The highest active slot, the number of active sets and their semaphores among the first `n` slots. */
  function Census(sets: seq<SemSet>, n: nat): (nat, nat, nat)
    requires n <= |sets|
  {
    if n == 0 then (0, 0, 0)
    else
      var (highest, active, total) := Census(sets, n - 1);
      if sets[n - 1].active then (n - 1, active + 1, total + |sets[n - 1].values|) else (highest, active, total)
  }

  // sizeof(struct tgc_sem_set) on an LP64 target.
  const SET_RECORD_SIZE := 80

  function Info(st: Store, dynamic: bool): Effect
    requires Shape(st)
  {
    var (highest, active, total) := Census(st.sets, MAX_SETS);
    Effect(st, highest,
           Limits([MAX_SETS, MAX_SETS, MAX_SETS * MAX_PER_SET, MAX_SETS, MAX_PER_SET,
                   MAX_PER_SET, MAX_PER_SET, if dynamic then active else SET_RECORD_SIZE,
                   MAX_VALUE, if dynamic then total else MAX_VALUE]))
  }

  // ---------------------------------------------------------------- semop: evaluation

  predicate NamesOnly(ops: seq<SemOp>, nsems: nat) {
    forall i :: 0 <= i < |ops| ==> ops[i].semNum < nsems
  }

  predicate ValidBatch(ops: seq<SemOp>, nsems: nat) {
    forall i :: 0 <= i < |ops| ==> ops[i].semNum < nsems && ops[i].KnownFlags()
  }

  /** The working copy after the operations done so far, or why and where the batch stopped. */
  datatype Eval = Ready(values: seq<int>) | Blocks(at: nat) | Overflows

  function EvalTo(values: seq<int>, ops: seq<SemOp>, n: nat): (r: Eval)
    requires n <= |ops| && NamesOnly(ops, |values|)
    ensures r.Ready? ==> |r.values| == |values|
    ensures r.Blocks? ==> r.at < n
  {
    if n == 0 then Ready(values)
    else
      var before := EvalTo(values, ops, n - 1);
      if !before.Ready? then before
      else
        var k := ops[n - 1].semNum;
        var d: int := ops[n - 1].op;
        var v := before.values[k];
        if d > 0 then
          if v + d > MAX_VALUE then Overflows else Ready(before.values[k := v + d])
        else if d < 0 then
          if v < -d then Blocks(n - 1) else Ready(before.values[k := v + d])
        else if v != 0 then Blocks(n - 1) else before
  }

  // ---------------------------------------------------------------- semop: undo reservation

  predicate UndoRange(a: int) {
    -MAX_VALUE - 1 <= a <= MAX_VALUE
  }

  /** The change of each undo adjustment after `n` operations; None once a running total leaves the range. */
  function DeltasTo(ops: seq<SemOp>, nsems: nat, n: nat): (r: Option<seq<int>>)
    requires n <= |ops| && NamesOnly(ops, nsems)
    ensures r.Some? ==> |r.value| == nsems
  {
    if n == 0 then Some(seq(nsems, _ => 0))
    else
      var before := DeltasTo(ops, nsems, n - 1);
      var op := ops[n - 1];
      if before.None? || !op.Undo() then before
      else
        var d := before.value[op.semNum] - op.op;
        if UndoRange(d) then Some(before.value[op.semNum := d]) else None
  }

  function Adjustment(undo: seq<UndoEntry>, pid: i32, semid: i32, semNum: int): int {
    var i := FindUndo(undo, pid, semid, semNum);
    if i < |undo| then undo[i].adjustment else 0
  }

  predicate NeedsEntry(undo: seq<UndoEntry>, pid: i32, semid: i32, deltas: seq<int>, k: nat)
    requires k < |deltas|
  {
    deltas[k] != 0 && FindUndo(undo, pid, semid, k) == |undo|
  }

  /** New entries needed for the first `n` semaphores; None when some adjustment would leave the range. */
  function ReserveTo(undo: seq<UndoEntry>, pid: i32, semid: i32, deltas: seq<int>, n: nat): Option<nat>
    requires n <= |deltas|
  {
    if n == 0 then Some(0)
    else
      var before := ReserveTo(undo, pid, semid, deltas, n - 1);
      if before.None? || deltas[n - 1] == 0 then before
      else if !UndoRange(deltas[n - 1] + Adjustment(undo, pid, semid, n - 1)) then None
      else if NeedsEntry(undo, pid, semid, deltas, n - 1) then Some(before.value + 1)
      else before
  }

  // ---------------------------------------------------------------- semop: commit

  /** Adds `delta` to one adjustment, taking a free entry when there is none; None when the table is full. */
  function PostUndo(undo: seq<UndoEntry>, pid: i32, semid: i32, semNum: int, delta: int): (r: Option<seq<UndoEntry>>)
    ensures r.Some? ==> |r.value| == |undo|
  {
    var i := FindUndo(undo, pid, semid, semNum);
    var slot := if i < |undo| then i else FindFree(undo);
    if slot == |undo| then None
    else
      var a := Adjustment(undo, pid, semid, semNum) + delta;
      Some(undo[slot := UndoEntry(a != 0, pid, semid, semNum, a)])
  }

  function CommitTo(undo: seq<UndoEntry>, pid: i32, semid: i32, deltas: seq<int>, n: nat): (r: Option<seq<UndoEntry>>)
    requires n <= |deltas|
    ensures r.Some? ==> |r.value| == |undo|
  {
    if n == 0 then Some(undo)
    else
      var before := CommitTo(undo, pid, semid, deltas, n - 1);
      if before.None? || deltas[n - 1] == 0 then before
      else PostUndo(before.value, pid, semid, n - 1, deltas[n - 1])
  }

  /** The table the commit loop stops with when it finds no free entry. */
  function PartialCommit(undo: seq<UndoEntry>, pid: i32, semid: i32, deltas: seq<int>, n: nat): (r: seq<UndoEntry>)
    requires n <= |deltas|
    ensures |r| == |undo|
  {
    var done := CommitTo(undo, pid, semid, deltas, n);
    if done.Some? then done.value
    else if n == 0 then undo
    else PartialCommit(undo, pid, semid, deltas, n - 1)
  }

  function StampTo(pids: seq<i32>, ops: seq<SemOp>, pid: i32, n: nat): (r: seq<i32>)
    requires n <= |ops| && NamesOnly(ops, |pids|)
    ensures |r| == |pids|
  {
    if n == 0 then pids else StampTo(pids, ops, pid, n - 1)[ops[n - 1].semNum := pid]
  }

  /** semop on one set: validate, evaluate on a working copy, reserve undo entries, commit. */
  function TryOp(st: Store, semid: i32, ops: seq<SemOp>, pid: i32, now: i64): Effect
    requires Shape(st)
  {
    match FindSet(st, semid)
    case None => Fails(st, EINVAL)
    case Some(i) =>
      var s := st.sets[i];
      if ops == [] || !ValidBatch(ops, |s.values|) then Fails(st, EINVAL)
      else
        match EvalTo(s.values, ops, |ops|)
        case Overflows => Fails(st, ERANGE)
        case Blocks(at) =>
          Effect(st, if ops[at].NoWait() then -EAGAIN else OP_BLOCKED,
                 Waits(WaitReason(ops[at].semNum, ops[at].op == 0)))
        case Ready(working) =>
          var deltas := DeltasTo(ops, |s.values|, |ops|);
          if deltas.None? then Fails(st, ERANGE)
          else
            var required := ReserveTo(st.undo, pid, semid, deltas.value, |s.values|);
            if required.None? then Fails(st, ERANGE)
            else if required.value > CountFree(st.undo, |st.undo|) then Fails(st, ENOSPC)
            else Commit(st, i, semid, ops, pid, now, working, deltas.value)
  }

  /** The commit phase, with the table-full exit the code keeps inside its loop, after the values are written. */
  function Commit(st: Store, i: nat, semid: i32, ops: seq<SemOp>, pid: i32, now: i64,
                  working: seq<int>, deltas: seq<int>): Effect
    requires i < |st.sets| && NamesOnly(ops, |st.sets[i].lastPids|)
  {
    var s := st.sets[i].(values := working, lastPids := StampTo(st.sets[i].lastPids, ops, pid, |ops|));
    var undo := CommitTo(st.undo, pid, semid, deltas, |deltas|);
    if undo.Some? then Effect(Store(st.sets[i := s.(meta := s.meta.(otime := now))], undo.value), 0, NoData)
    else Effect(Store(st.sets[i := s], PartialCommit(st.undo, pid, semid, deltas, |deltas|)), -ENOSPC, NoData)
  }

  // ---------------------------------------------------------------- process exit

  function Clamp(v: int): int {
    if v < 0 then 0 else if v > MAX_VALUE then MAX_VALUE else v
  }

  function ReplayEntry(st: Store, i: nat, now: i64): Store
    requires Shape(st) && i < |st.undo|
  {
    var e := st.undo[i];
    var undo := st.undo[i := e.(active := false)];
    match FindSet(st, e.semid)
    case None => st.(undo := undo)
    case Some(j) =>
      var s := st.sets[j];
      if !(0 <= e.semNum < |s.values|) then st.(undo := undo)
      else
        var s' := s.(values := s.values[e.semNum := Clamp(s.values[e.semNum] + e.adjustment)],
                     lastPids := s.lastPids[e.semNum := e.pid], meta := s.meta.(otime := now));
        Store(st.sets[j := s'], undo)
  }

  /** Whether replaying the entry touches a live semaphore. */
  predicate Replays(st: Store, e: UndoEntry)
    requires Shape(st)
  {
    var j := FindSet(st, e.semid);
    j.Some? && 0 <= e.semNum < |st.sets[j.value].values|
  }

  /** The store after the exit loop has visited entry `i`. */
  function ExitOne(st: Store, pid: i32, now: i64, i: nat): (r: Store)
    requires Shape(st) && i < MAX_UNDO
    ensures Shape(r)
  {
    if st.undo[i].active && st.undo[i].pid == pid then ReplayEntry(st, i, now) else st
  }

  /** The store after the exit loop has visited the first `n` undo entries. */
  function ExitTo(st: Store, pid: i32, now: i64, n: nat): (r: Store)
    requires Shape(st) && n <= MAX_UNDO
    ensures Shape(r)
  {
    if n == 0 then st else ExitOne(ExitTo(st, pid, now, n - 1), pid, now, n - 1)
  }

  /** Whether the loop has changed a value by then. */
  predicate ExitChanged(st: Store, pid: i32, now: i64, n: nat)
    requires Shape(st) && n <= MAX_UNDO
  {
    n > 0 &&
    var before := ExitTo(st, pid, now, n - 1);
    var e := before.undo[n - 1];
    ExitChanged(st, pid, now, n - 1) || (e.active && e.pid == pid && Replays(before, e))
  }

  function ProcessExit(st: Store, pid: i32, now: i64): Effect
    requires Shape(st)
  {
    if pid <= 0 then Fails(st, EINVAL)
    else
      Effect(ExitTo(st, pid, now, MAX_UNDO), if ExitChanged(st, pid, now, MAX_UNDO) then 1 else 0, NoData)
  }

  // ---------------------------------------------------------------- all calls

  datatype Call =
    | GetCall(key: i32, nsems: i32, flags: int, who: Identity, noMemory: bool)
    | RemoveCall(semid: i32)
    | GetValCall(semid: i32, semNum: nat)
    | GetPidCall(semid: i32, semNum: nat)
    | SetValCall(semid: i32, semNum: nat, value: nat, pid: i32)
    | GetAllCall(semid: i32, count: nat)
    | SetAllCall(semid: i32, values: seq<u16>, pid: i32)
    | StatCall(semid: i32)
    | StatIndexCall(index: nat)
    | SetMetaCall(semid: i32, uid: u32, gid: u32, mode: u32, who: Identity)
    | WaitCountCall(semid: i32, semNum: nat, forZero: bool)
    | AdjustWaitCall(semid: i32, semNum: nat, forZero: bool, up: bool)
    | InfoCall(dynamic: bool)
    | TryOpCall(semid: i32, ops: seq<SemOp>, pid: i32)
    | ExitCall(pid: i32)

  function Apply(st: Store, call: Call, now: i64): Effect
    requires Shape(st)
  {
    match call
    case GetCall(key, nsems, flags, who, noMemory) => Get(st, key, nsems, flags, who, now, noMemory)
    case RemoveCall(semid) => Remove(st, semid)
    case GetValCall(semid, semNum) => GetVal(st, semid, semNum)
    case GetPidCall(semid, semNum) => GetPid(st, semid, semNum)
    case SetValCall(semid, semNum, value, pid) => SetVal(st, semid, semNum, value, pid, now)
    case GetAllCall(semid, count) => GetAll(st, semid, count)
    case SetAllCall(semid, values, pid) => SetAll(st, semid, values, pid, now)
    case StatCall(semid) => Stat(st, semid)
    case StatIndexCall(index) => StatIndex(st, index)
    case SetMetaCall(semid, uid, gid, mode, who) => SetMeta(st, semid, uid, gid, mode, who, now)
    case WaitCountCall(semid, semNum, forZero) => WaitCount(st, semid, semNum, forZero)
    case AdjustWaitCall(semid, semNum, forZero, up) => AdjustWait(st, semid, semNum, forZero, up)
    case InfoCall(dynamic) => Info(st, dynamic)
    case TryOpCall(semid, ops, pid) => TryOp(st, semid, ops, pid, now)
    case ExitCall(pid) => ProcessExit(st, pid, now)
  }
}
