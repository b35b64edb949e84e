/**
 The store as the broker runs it: two fixed tables updated in place. Each
 method is proved to take the tables from one value of the store model to the next.
 */
module SemStore {
  import opened SemTypes
  import opened StoreModel
  import opened SemopAtomic
  import opened StoreValid

  // ---------------------------------------------------------------- phases of semop that only read

  lemma {:induction false} EvalStuck(values: seq<int>, ops: seq<SemOp>, n: nat, m: nat)
    requires n <= m <= |ops| && NamesOnly(ops, |values|) && !EvalTo(values, ops, n).Ready?
    ensures EvalTo(values, ops, m) == EvalTo(values, ops, n)
    decreases m
  {
    if n < m { EvalStuck(values, ops, n, m - 1); }
  }

  /** Runs the batch on a working copy, stopping at the first operation that cannot proceed. */
  method Evaluate(values: seq<int>, ops: seq<SemOp>) returns (r: Eval)
    requires NamesOnly(ops, |values|)
    ensures r == EvalTo(values, ops, |ops|)
  {
    var working := values;
    for n := 0 to |ops|
      invariant EvalTo(values, ops, n) == Ready(working)
    {
      var k := ops[n].semNum;
      var d: int := ops[n].op;
      var blocked := false;
      if d > 0 {
        if working[k] + d > MAX_VALUE {
          EvalStuck(values, ops, n + 1, |ops|);
          return Overflows;
        }
        working := working[k := working[k] + d];
      } else if d < 0 {
        if working[k] < -d { blocked := true; } else { working := working[k := working[k] + d]; }
      } else if working[k] != 0 {
        blocked := true;
      }
      if blocked {
        EvalStuck(values, ops, n + 1, |ops|);
        return Blocks(n);
      }
    }
    r := Ready(working);
  }

  lemma {:induction false} DeltasStuck(ops: seq<SemOp>, nsems: nat, n: nat, m: nat)
    requires n <= m <= |ops| && NamesOnly(ops, nsems) && DeltasTo(ops, nsems, n).None?
    ensures DeltasTo(ops, nsems, m).None?
    decreases m
  {
    if n < m { DeltasStuck(ops, nsems, n, m - 1); }
  }

  method UndoDeltas(ops: seq<SemOp>, nsems: nat) returns (r: Option<seq<int>>)
    requires NamesOnly(ops, nsems)
    ensures r == DeltasTo(ops, nsems, |ops|)
  {
    var deltas := seq(nsems, _ => 0);
    for n := 0 to |ops|
      invariant DeltasTo(ops, nsems, n) == Some(deltas)
    {
      if ops[n].Undo() {
        var d := deltas[ops[n].semNum] - ops[n].op;
        if d < -MAX_VALUE - 1 || d > MAX_VALUE {
          DeltasStuck(ops, nsems, n + 1, |ops|);
          return None;
        }
        deltas := deltas[ops[n].semNum := d];
      }
    }
    r := Some(deltas);
  }

  lemma {:induction false} ReserveStuck(undo: seq<UndoEntry>, pid: i32, semid: i32, deltas: seq<int>, n: nat, m: nat)
    requires n <= m <= |deltas| && ReserveTo(undo, pid, semid, deltas, n).None?
    ensures ReserveTo(undo, pid, semid, deltas, m).None?
    decreases m
  {
    if n < m { ReserveStuck(undo, pid, semid, deltas, n, m - 1); }
  }

  lemma FirstUndo(undo: seq<UndoEntry>, pid: i32, semid: i32, semNum: int, i: nat)
    requires i <= |undo| && (i < |undo| ==> Matches(undo[i], pid, semid, semNum))
    requires forall j :: 0 <= j < i ==> !Matches(undo[j], pid, semid, semNum)
    ensures FindUndo(undo, pid, semid, semNum) == i
  {
  }

  class SemStore {
    const sets: array<SemSet>
    const undo: array<UndoEntry>

    ghost function State(): Store
      reads sets, undo
    {
      Store(sets[..], undo[..])
    }

    ghost predicate Valid()
      reads sets, undo
    {
      StoreValid.Valid(State())
    }

    constructor ()
      ensures Valid() && State() == Init()
      ensures fresh(sets) && fresh(undo)
    {
      sets := new SemSet[MAX_SETS](_ => EMPTY_SET);
      undo := new UndoEntry[MAX_UNDO](_ => NO_UNDO);
      new;
      assert sets[..] == Init().sets;
      assert undo[..] == Init().undo;
      InitValid();
    }

    // -------------------------------------------------------------- searches

    /** The slot an identifier names, or -1. */
    method Lookup(semid: i32) returns (i: int)
      requires Valid()
      ensures if i < 0 then FindSet(State(), semid) == None else FindSet(State(), semid) == Some(i)
    {
      if semid <= 0 { return -1; }
      var index, generation := semid % 0x1_0000, semid / 0x1_0000;
      if index == 0 || index > MAX_SETS || generation == 0 { return -1; }
      i := if sets[index - 1].active && sets[index - 1].generation == generation then index - 1 else -1;
    }

    method FindEntry(pid: i32, semid: i32, semNum: int) returns (i: nat)
      ensures i == FindUndo(undo[..], pid, semid, semNum)
    {
      i := 0;
      while i < undo.Length && !Matches(undo[i], pid, semid, semNum)
        invariant i <= undo.Length
        invariant forall j :: 0 <= j < i ==> !Matches(undo[j], pid, semid, semNum)
      {
        i := i + 1;
      }
      FirstUndo(undo[..], pid, semid, semNum, i);
    }

    method FindFreeEntry() returns (i: nat)
      ensures i == FindFree(undo[..])
    {
      i := 0;
      while i < undo.Length && undo[i].active
        invariant i <= undo.Length
        invariant forall j :: 0 <= j < i ==> undo[j].active
      {
        i := i + 1;
      }
      var u := undo[..];
      assert forall j :: 0 <= j < i ==> u[j].active;
    }

    method ClearEntries(semid: i32, semNum: int, all: bool)
      modifies undo
      ensures undo[..] == ClearUndo(old(undo[..]), semid, semNum, all)
    {
      for n := 0 to undo.Length
        invariant forall j :: 0 <= j < n ==>
                    undo[j] ==
                      if Cleared(old(undo[j]), semid, semNum, all) then old(undo[j]).(active := false) else old(undo[j])
        invariant forall j :: n <= j < undo.Length ==> undo[j] == old(undo[j])
      {
        if Cleared(undo[n], semid, semNum, all) {
          undo[n] := undo[n].(active := false);
        }
      }
    }

    method CountFreeEntries() returns (free: nat)
      ensures free == CountFree(undo[..], undo.Length)
    {
      free := 0;
      for n := 0 to undo.Length
        invariant free == CountFree(undo[..], n)
      {
        free := free + if undo[n].active then 0 else 1;
      }
    }

    // -------------------------------------------------------------- semget and semctl

    method Get(key: i32, nsems: i32, flags: int, who: Identity, now: i64, noMemory: bool) returns (code: int)
      requires Valid()
      modifies sets
      ensures var r := StoreModel.Get(old(State()), key, nsems, flags, who, now, noMemory);
              State() == r.store && code == r.code
      ensures Valid()
    {
      ghost var st := State();
      GetValid(st, key, nsems, flags, who, now, noMemory);
      if key != IPC_PRIVATE {
        var i := 0;
        while i < MAX_SETS
          invariant i <= MAX_SETS
          invariant forall j :: 0 <= j < i ==> !(st.sets[j].active && st.sets[j].key == key)
        {
          if sets[i].active && sets[i].key == key {
            assert FindKey(st.sets, key) == i;
            if HasFlag(flags, IPC_CREAT) && HasFlag(flags, IPC_EXCL) { return -EEXIST; }
            if nsems < 0 || nsems > |sets[i].values| { return -EINVAL; }
            return MakeId(i, sets[i].generation);
          }
          i := i + 1;
        }
        assert FindKey(st.sets, key) == MAX_SETS;
        if !HasFlag(flags, IPC_CREAT) { return -ENOENT; }
      }
      if nsems <= 0 || nsems > MAX_PER_SET { return -EINVAL; }
      var slot := 0;
      while slot < MAX_SETS && sets[slot].active
        invariant slot <= MAX_SETS
        invariant forall j :: 0 <= j < slot ==> st.sets[j].active
      {
        slot := slot + 1;
      }
      assert FindSlot(st.sets) == slot;
      if slot == MAX_SETS { return -ENOSPC; }
      if noMemory { return -ENOMEM; }
      sets[slot] := FreshSet(sets[slot], key, nsems, flags, who, now);
      assert sets[..] == st.sets[slot := sets[slot]];
      code := MakeId(slot, sets[slot].generation);
    }

    method Remove(semid: i32) returns (code: int)
      requires Valid()
      modifies sets, undo
      ensures var r := StoreModel.Remove(old(State()), semid);
              State() == r.store && code == r.code
      ensures Valid()
    {
      ghost var st := State();
      RemoveValid(st, semid);
      var i := Lookup(semid);
      if i < 0 { return -EINVAL; }
      ClearEntries(semid, 0, true);
      sets[i] := EMPTY_SET.(generation := NextGeneration(sets[i].generation));
      assert sets[..] == st.sets[i := sets[i]];
      code := 0;
    }

    method GetVal(semid: i32, semNum: nat) returns (code: int)
      requires Valid()
      ensures code == StoreModel.GetVal(State(), semid, semNum).code
    {
      var i := Lookup(semid);
      if i < 0 || semNum >= |sets[i].values| { return -EINVAL; }
      code := sets[i].values[semNum];
    }

    method GetPid(semid: i32, semNum: nat) returns (code: int)
      requires Valid()
      ensures code == StoreModel.GetPid(State(), semid, semNum).code
    {
      var i := Lookup(semid);
      if i < 0 || semNum >= |sets[i].values| { return -EINVAL; }
      code := sets[i].lastPids[semNum];
    }

    method SetVal(semid: i32, semNum: nat, value: nat, pid: i32, now: i64) returns (code: int)
      requires Valid()
      modifies sets, undo
      ensures var r := StoreModel.SetVal(old(State()), semid, semNum, value, pid, now);
              State() == r.store && code == r.code
      ensures Valid()
    {
      ghost var st := State();
      SetValValid(st, semid, semNum, value, pid, now);
      var i := Lookup(semid);
      if i < 0 || semNum >= |sets[i].values| { return -EINVAL; }
      if value > MAX_VALUE { return -ERANGE; }
      ClearEntries(semid, semNum, false);
      var s := sets[i];
      sets[i] := s.(values := s.values[semNum := value], lastPids := s.lastPids[semNum := pid],
                    meta := s.meta.(ctime := now));
      assert sets[..] == st.sets[i := sets[i]];
      code := 0;
    }

    method GetAll(semid: i32, count: nat) returns (code: int, values: seq<int>)
      requires Valid()
      ensures var r := StoreModel.GetAll(State(), semid, count);
              code == r.code && (code == 0 ==> r.answer == Values(values))
    {
      var i := Lookup(semid);
      if i < 0 || count != |sets[i].values| { return -EINVAL, []; }
      return 0, sets[i].values;
    }

    method SetAll(semid: i32, values: seq<u16>, pid: i32, now: i64) returns (code: int)
      requires Valid()
      modifies sets, undo
      ensures var r := StoreModel.SetAll(old(State()), semid, values, pid, now);
              State() == r.store && code == r.code
      ensures Valid()
    {
      ghost var st := State();
      SetAllValid(st, semid, values, pid, now);
      var i := Lookup(semid);
      if i < 0 || |values| != |sets[i].values| { return -EINVAL; }
      for n := 0 to |values|
        invariant forall k :: 0 <= k < n ==> values[k] <= MAX_VALUE
      {
        if values[n] > MAX_VALUE { return -ERANGE; }
      }
      ClearEntries(semid, 0, true);
      var s := sets[i];
      var pids := s.lastPids;
      for n := 0 to |values|
        invariant |pids| == |values|
        invariant forall k :: 0 <= k < n ==> pids[k] == pid
      {
        pids := pids[n := pid];
      }
      assert pids == Repeat(pid, |values|);
      sets[i] := s.(values := values, lastPids := pids, meta := s.meta.(ctime := now));
      assert sets[..] == st.sets[i := sets[i]];
      code := 0;
    }

    method Stat(semid: i32) returns (code: int, answer: Answer)
      requires Valid()
      ensures Effect(State(), code, answer) == StoreModel.Stat(State(), semid)
    {
      var i := Lookup(semid);
      if i < 0 { return -EINVAL, NoData; }
      var s := sets[i];
      return 0, Metadata(s.key, |s.values|, s.generation, s.meta);
    }

    method StatIndex(index: nat) returns (code: int, answer: Answer)
      requires Valid()
      ensures Effect(State(), code, answer) == StoreModel.StatIndex(State(), index)
    {
      if index >= MAX_SETS || !sets[index].active { return -EINVAL, NoData; }
      assert ValidSet(sets[..][index]);
      var semid := MakeId(index, sets[index].generation);
      FindSetIsId(State(), semid, index);
      code, answer := Stat(semid);
      if code == 0 { code := semid; }
    }

    method SetMeta(semid: i32, uid: u32, gid: u32, mode: u32, who: Identity, now: i64) returns (code: int)
      requires Valid()
      modifies sets
      ensures var r := StoreModel.SetMeta(old(State()), semid, uid, gid, mode, who, now);
              State() == r.store && code == r.code
      ensures Valid()
    {
      ghost var st := State();
      SetMetaValid(st, semid, uid, gid, mode, who, now);
      var i := Lookup(semid);
      if i < 0 { return -EINVAL; }
      var m := sets[i].meta;
      if who.uid != m.uid && who.uid != m.cuid { return -EPERM; }
      if uid != m.uid || (gid != m.gid && gid != who.gid) || mode >= 0x200 { return -EPERM; }
      sets[i] := sets[i].(meta := m.(gid := gid, mode := mode, ctime := now));
      assert sets[..] == st.sets[i := sets[i]];
      code := 0;
    }

    method WaitCount(semid: i32, semNum: nat, forZero: bool) returns (code: int)
      requires Valid()
      ensures code == StoreModel.WaitCount(State(), semid, semNum, forZero).code
    {
      var i := Lookup(semid);
      if i < 0 || semNum >= |sets[i].values| { return -EINVAL; }
      var count := if forZero then sets[i].zeroWaiters[semNum] else sets[i].negWaiters[semNum];
      code := if count > INT_MAX then INT_MAX else count;
    }

    method AdjustWait(semid: i32, semNum: nat, forZero: bool, up: bool) returns (code: int)
      requires Valid()
      modifies sets
      ensures var r := StoreModel.AdjustWait(old(State()), semid, semNum, forZero, up);
              State() == r.store && code == r.code
      ensures Valid()
    {
      ghost var st := State();
      AdjustWaitValid(st, semid, semNum, forZero, up);
      var i := Lookup(semid);
      if i < 0 || semNum >= |sets[i].values| { return -EINVAL; }
      var s := sets[i];
      var count := if forZero then s.zeroWaiters[semNum] else s.negWaiters[semNum];
      if (up && count == UINT32_MAX) || (!up && count == 0) { return -ERANGE; }
      var count' := if up then count + 1 else count - 1;
      if forZero {
        sets[i] := s.(zeroWaiters := s.zeroWaiters[semNum := count']);
      } else {
        sets[i] := s.(negWaiters := s.negWaiters[semNum := count']);
      }
      assert sets[..] == st.sets[i := sets[i]];
      code := 0;
    }

    method Info(dynamic: bool) returns (code: int, answer: Answer)
      requires Valid()
      ensures Effect(State(), code, answer) == StoreModel.Info(State(), dynamic)
    {
      var highest, active, total := 0, 0, 0;
      for n := 0 to MAX_SETS
        invariant Census(sets[..], n) == (highest, active, total)
      {
        if sets[n].active {
          active := active + 1;
          total := total + |sets[n].values|;
          highest := n;
        }
      }
      code := highest;
      answer := Limits([MAX_SETS, MAX_SETS, MAX_SETS * MAX_PER_SET, MAX_SETS, MAX_PER_SET,
                        MAX_PER_SET, MAX_PER_SET, if dynamic then active else SET_RECORD_SIZE,
                        MAX_VALUE, if dynamic then total else MAX_VALUE]);
    }

    // -------------------------------------------------------------- semop

    /** Counts the entries the batch will need, or finds an adjustment that would leave the range. */
    method Reserve(pid: i32, semid: i32, deltas: seq<int>) returns (r: Option<nat>)
      ensures r == ReserveTo(undo[..], pid, semid, deltas, |deltas|)
    {
      var required := 0;
      for k := 0 to |deltas|
        invariant ReserveTo(undo[..], pid, semid, deltas, k) == Some(required)
      {
        if deltas[k] != 0 {
          var i := FindEntry(pid, semid, k);
          var adjustment := deltas[k];
          if i < undo.Length { adjustment := adjustment + undo[i].adjustment; } else { required := required + 1; }
          if adjustment < -MAX_VALUE - 1 || adjustment > MAX_VALUE {
            ReserveStuck(undo[..], pid, semid, deltas, k + 1, |deltas|);
            return None;
          }
        }
      }
      r := Some(required);
    }

    /** Writes the reserved adjustments; the reservation is why a free entry is always found. */
    method CommitUndo(pid: i32, semid: i32, deltas: seq<int>)
      requires ReserveTo(undo[..], pid, semid, deltas, |deltas|).Some?
      requires ReserveTo(undo[..], pid, semid, deltas, |deltas|).value <= CountFree(undo[..], undo.Length)
      modifies undo
      ensures CommitTo(old(undo[..]), pid, semid, deltas, |deltas|) == Some(undo[..])
    {
      ghost var before := undo[..];
      for k := 0 to |deltas|
        invariant CommitTo(before, pid, semid, deltas, k) == Some(undo[..])
      {
        CommitHasRoom(before, pid, semid, deltas, k + 1);
        if deltas[k] != 0 { PostEntry(pid, semid, k, deltas[k]); }
      }
    }

    method PostEntry(pid: i32, semid: i32, k: nat, delta: int)
      requires PostUndo(undo[..], pid, semid, k, delta).Some?
      modifies undo
      ensures PostUndo(old(undo[..]), pid, semid, k, delta) == Some(undo[..])
    {
      ghost var u := undo[..];
      var i := FindEntry(pid, semid, k);
      if i == undo.Length {
        i := FindFreeEntry();
        // The code returns -ENOSPC when there is none; the reservation excludes it.
        assert i < undo.Length;
        undo[i] := UndoEntry(true, pid, semid, k, 0);
      }
      var a := undo[i].adjustment + delta;
      undo[i] := undo[i].(adjustment := a, active := a != 0);
      assert undo[..] == u[i := undo[i]];
    }

    method TryOp(semid: i32, ops: seq<SemOp>, pid: i32, now: i64) returns (code: int, answer: Answer)
      requires Valid()
      modifies sets, undo
      ensures Effect(State(), code, answer) == StoreModel.TryOp(old(State()), semid, ops, pid, now)
      ensures Valid()
      ensures code != 0 ==> State() == old(State())
    {
      ghost var st := State();
      TryOpValid(st, semid, ops, pid, now);
      TryOpAtomic(st, semid, ops, pid, now);
      var i := Lookup(semid);
      if i < 0 || |ops| == 0 { return -EINVAL, NoData; }
      var s := sets[i];
      for n := 0 to |ops|
        invariant forall k :: 0 <= k < n ==> ops[k].semNum < |s.values| && ops[k].KnownFlags()
      {
        if ops[n].semNum >= |s.values| || !ops[n].KnownFlags() { return -EINVAL, NoData; }
      }
      var eval := Evaluate(s.values, ops);
      match eval {
        case Overflows => return -ERANGE, NoData;
        case Blocks(at) =>
          return if ops[at].NoWait() then -EAGAIN else OP_BLOCKED, Waits(WaitReason(ops[at].semNum, ops[at].op == 0));
        case Ready(working) =>
          var deltas := UndoDeltas(ops, |s.values|);
          if deltas.None? { return -ERANGE, NoData; }
          var free := CountFreeEntries();
          var required := Reserve(pid, semid, deltas.value);
          if required.None? { return -ERANGE, NoData; }
          if required.value > free { return -ENOSPC, NoData; }
          WriteBack(i, working, ops, pid);
          CommitUndo(pid, semid, deltas.value);
          sets[i] := sets[i].(meta := s.meta.(otime := now));
          assert sets[..] == st.sets[i := sets[i]];
          return 0, NoData;
      }
    }

    method WriteBack(i: nat, working: seq<int>, ops: seq<SemOp>, pid: i32)
      requires i < sets.Length && NamesOnly(ops, |sets[i].lastPids|)
      modifies sets
      ensures sets[..] == old(sets[..])[i := old(sets[i]).(values := working,
                                                         lastPids := StampTo(old(sets[i]).lastPids, ops, pid, |ops|))]
    {
      ghost var s := sets[i];
      sets[i] := sets[i].(values := working);
      for n := 0 to |ops|
        invariant sets[i] == s.(values := working, lastPids := StampTo(s.lastPids, ops, pid, n))
        invariant forall j :: 0 <= j < sets.Length && j != i ==> sets[j] == old(sets[j])
      {
        sets[i] := sets[i].(lastPids := sets[i].lastPids[ops[n].semNum := pid]);
      }
    }

    // -------------------------------------------------------------- process exit

    method ProcessExit(pid: i32, now: i64) returns (code: int)
      requires Valid()
      modifies sets, undo
      ensures var r := StoreModel.ProcessExit(old(State()), pid, now);
              State() == r.store && code == r.code
      ensures Valid()
    {
      if pid <= 0 { return -EINVAL; }
      ghost var st := State();
      var changed := false;
      for n := 0 to MAX_UNDO
        invariant State() == ExitTo(st, pid, now, n) && Valid()
        invariant changed == ExitChanged(st, pid, now, n)
      {
        var hit := ReplayOne(pid, now, n);
        changed := changed || hit;
      }
      code := if changed then 1 else 0;
    }

    /** One entry of the exit loop: replayed and retired if it is the process's. */
    method ReplayOne(pid: i32, now: i64, n: nat) returns (hit: bool)
      requires Valid() && n < MAX_UNDO
      modifies sets, undo
      ensures Valid() && State() == ExitOne(old(State()), pid, now, n)
      ensures hit <==> old(undo[n]).active && old(undo[n]).pid == pid && Replays(old(State()), old(undo[n]))
    {
      ghost var before := State();
      ExitOneValid(before, pid, now, n);
      hide StoreValid.Valid;
      ShapeOf(before);
      hit := false;
      var e := undo[n];
      if e.active && e.pid == pid {
        var i := Lookup(e.semid);
        if i >= 0 && 0 <= e.semNum < |sets[i].values| {
          var s := sets[i];
          var value := s.values[e.semNum] + e.adjustment;
          if value < 0 { value := 0; } else if value > MAX_VALUE { value := MAX_VALUE; }
          sets[i] := s.(values := s.values[e.semNum := value], lastPids := s.lastPids[e.semNum := pid],
                        meta := s.meta.(otime := now));
          assert sets[..] == before.sets[i := sets[i]];
          hit := true;
        }
        undo[n] := undo[n].(active := false);
        assert undo[..] == before.undo[n := undo[n]];
      }
    }
  }
}
