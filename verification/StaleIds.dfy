/** Identifiers over whole runs: a removed set's identifier names nothing until its slot's generation has wrapped. */
module StaleIds {
  import opened SemTypes
  import opened StoreModel
  import opened StoreValid
  import opened StoreRuns

  predicate RemovesSlot(st: Store, call: Call, slot: nat)
    requires Shape(st)
  {
    call.RemoveCall? && FindSet(st, call.semid) == Some(slot)
  }

  /** How often the first `n` calls of a run removed the set in `slot`. */
  ghost function Removals(st: Store, calls: seq<Timed>, n: nat, slot: nat): nat
    requires Valid(st) && n <= |calls|
  {
    if n == 0 then 0
    else
      Removals(st, calls, n - 1, slot) +
        if RemovesSlot(RunFrom(st, calls, n - 1), calls[n - 1].call, slot) then 1 else 0
  }

  function Advance(generation: nat, k: nat): nat
    requires generation > 0
  {
    (generation - 1 + k) % MAX_GENERATION + 1
  }

  lemma AdvanceStep(generation: nat, k: nat)
    requires 1 <= generation <= MAX_GENERATION
    ensures 1 <= Advance(generation, k) <= MAX_GENERATION
    ensures 0 < k < MAX_GENERATION ==> Advance(generation, k) != generation
    ensures Advance(generation, k + 1) == NextGeneration(Advance(generation, k))
    ensures Advance(generation, 0) == generation
    ensures Advance(generation, k) == generation <==> k % MAX_GENERATION == 0
  {
    var q := k / MAX_GENERATION;
    assert k == q * MAX_GENERATION + k % MAX_GENERATION;
  }

  /** A call moves a slot's generation on exactly when it removes that slot's set. */
  lemma ApplyGeneration(st: Store, call: Call, now: i64, slot: nat)
    requires Valid(st) && slot < MAX_SETS && st.sets[slot].generation > 0
    ensures var st' := Apply(st, call, now).store;
            |st'.sets| == MAX_SETS && st'.sets[slot].generation ==
            if RemovesSlot(st, call, slot) then NextGeneration(st.sets[slot].generation) else st.sets[slot].generation
  {
    hide TryOp, ProcessExit, ClearUndo, Census, Get, Valid;
    ShapeOf(st);
    match call
    case TryOpCall(semid, ops, pid) => TryOpGeneration(st, semid, ops, pid, now, slot);
    case ExitCall(pid) => ExitGeneration(st, pid, now, slot);
    case GetCall(key, nsems, flags, who, noMemory) => GetGeneration(st, key, nsems, flags, who, now, noMemory, slot);
    case _ =>
  }

  lemma GetGeneration(st: Store, key: i32, nsems: i32, flags: int, who: Identity, now: i64, noMemory: bool, slot: nat)
    requires Shape(st) && slot < MAX_SETS && st.sets[slot].generation > 0
    ensures var st' := Get(st, key, nsems, flags, who, now, noMemory).store;
            |st'.sets| == MAX_SETS && st'.sets[slot].generation == st.sets[slot].generation
  {
  }

  lemma ExitGeneration(st: Store, pid: i32, now: i64, slot: nat)
    requires Shape(st) && slot < MAX_SETS
    ensures var st' := ProcessExit(st, pid, now).store;
            |st'.sets| == MAX_SETS && st'.sets[slot].generation == st.sets[slot].generation
  {
    if pid > 0 { ExitToGeneration(st, pid, now, slot, MAX_UNDO); }
  }

  lemma TryOpGeneration(st: Store, semid: i32, ops: seq<SemOp>, pid: i32, now: i64, slot: nat)
    requires Shape(st) && slot < MAX_SETS
    ensures var st' := TryOp(st, semid, ops, pid, now).store;
            |st'.sets| == MAX_SETS && st'.sets[slot].generation == st.sets[slot].generation
  {
  }

  lemma {:induction false} ExitToGeneration(st: Store, pid: i32, now: i64, slot: nat, n: nat)
    requires Shape(st) && slot < MAX_SETS && n <= MAX_UNDO
    ensures ExitTo(st, pid, now, n).sets[slot].generation == st.sets[slot].generation
  {
    if n > 0 { ExitToGeneration(st, pid, now, slot, n - 1); }
  }

  /** k removals move a slot from generation g to ((g - 1 + k) mod 32767) + 1. */
  lemma {:induction false} RunGeneration(st: Store, calls: seq<Timed>, n: nat, slot: nat)
    requires Valid(st) && n <= |calls| && slot < MAX_SETS && st.sets[slot].generation > 0
    ensures RunFrom(st, calls, n).sets[slot].generation ==
            Advance(st.sets[slot].generation, Removals(st, calls, n, slot))
  {
    hide Advance, Apply, NextGeneration, RemovesSlot;
    var g := st.sets[slot].generation;
    AdvanceStep(g, 0);
    if n > 0 {
      RunGeneration(st, calls, n - 1, slot);
      RunStep(st, calls, n);
      AdvanceStep(g, Removals(st, calls, n - 1, slot));
      ApplyGeneration(RunFrom(st, calls, n - 1), calls[n - 1].call, calls[n - 1].now, slot);
    }
  }

  /** An identifier live at the start resolves later exactly when its slot is in use after a multiple of 32767
      removals. */
  lemma StaleUntilWrap(st: Store, calls: seq<Timed>, n: nat, semid: i32, slot: nat)
    requires Valid(st) && n <= |calls| && FindSet(st, semid) == Some(slot)
    ensures var later := RunFrom(st, calls, n);
            && (FindSet(later, semid).Some? <==>
                later.sets[slot].active && Removals(st, calls, n, slot) % MAX_GENERATION == 0)
            && (0 < Removals(st, calls, n, slot) < MAX_GENERATION ==> FindSet(later, semid).None?)
  {
    hide *;
    SameSlot(st, RunFrom(st, calls, n), semid, slot);
    RunGeneration(st, calls, n, slot);
    AdvanceStep(st.sets[slot].generation, Removals(st, calls, n, slot));
  }

  lemma SameSlot(st: Store, later: Store, semid: i32, slot: nat)
    requires Valid(st) && Valid(later) && FindSet(st, semid) == Some(slot)
    ensures slot < MAX_SETS == |st.sets| == |later.sets| && 1 <= st.sets[slot].generation <= MAX_GENERATION
    ensures FindSet(later, semid) ==
            if later.sets[slot].active && later.sets[slot].generation == st.sets[slot].generation then Some(slot)
            else None
  {
    assert ValidSet(st.sets[slot]);
  }
}
