/**
 What the exit of a process does: the replay loop over the undo table equals
 one closed-form restoration read off the ledger, in any table order.
 */
module ExitReplay {
  import opened SemTypes
  import opened StoreModel
  import opened StoreValid
  import opened UndoLedger

  function IdOf(sets: seq<SemSet>, i: nat): i32
    requires i < |sets| <= MAX_SETS && sets[i].generation <= MAX_GENERATION
  {
    MakeId(i, sets[i].generation)
  }

  predicate Due(undo: seq<UndoEntry>, pid: i32, semid: i32, k: int, n: nat) {
    FindUndo(undo, pid, semid, k) < n
  }

  /** Slot `i` once the entries below `n` are replayed, read off the original store alone. */
  function SlotTo(st: Store, pid: i32, now: i64, i: nat, n: nat): SemSet
    requires Shape(st) && i < MAX_SETS && n <= MAX_UNDO
  {
    var s := st.sets[i];
    var semid := IdOf(st.sets, i);
    s.(values := seq(|s.values|, k requires 0 <= k < |s.values| =>
         if Due(st.undo, pid, semid, k, n) then Clamp(s.values[k] + Adjustment(st.undo, pid, semid, k))
         else s.values[k]),
       lastPids := seq(|s.values|, k requires 0 <= k < |s.values| =>
         if Due(st.undo, pid, semid, k, n) then pid else s.lastPids[k]),
       meta := if AnyDue(st.undo, pid, semid, |s.values|, n) then s.meta.(otime := now) else s.meta)
  }

  predicate AnyDue(undo: seq<UndoEntry>, pid: i32, semid: i32, nsems: nat, n: nat) {
    exists k :: 0 <= k < nsems && Due(undo, pid, semid, k, n)
  }

  predicate Target(st: Store, e: UndoEntry, pid: i32, i: nat)
    requires Shape(st) && i < MAX_SETS
  {
    e.active && e.pid == pid && FindSet(st, e.semid) == Some(i)
  }

  /** The entry at `n` falls due for its own semaphore and for no other. */
  lemma DueStep(st: Store, pid: i32, semid: i32, k: int, n: nat)
    requires Valid(st) && n < MAX_UNDO
    ensures Due(st.undo, pid, semid, k, n + 1) <==>
            Due(st.undo, pid, semid, k, n) || Matches(st.undo[n], pid, semid, k)
    ensures Matches(st.undo[n], pid, semid, k) ==>
              !Due(st.undo, pid, semid, k, n) && Adjustment(st.undo, pid, semid, k) == st.undo[n].adjustment
  {
    if Matches(st.undo[n], pid, semid, k) { FindUndoUnique(st.undo, n); }
  }

  lemma SlotSkips(st: Store, pid: i32, now: i64, i: nat, n: nat)
    requires Valid(st) && i < MAX_SETS && n < MAX_UNDO && !Target(st, st.undo[n], pid, i)
    ensures SlotTo(st, pid, now, i, n + 1) == SlotTo(st, pid, now, i, n)
  {
    var semid := IdOf(st.sets, i);
    forall k | 0 <= k < |st.sets[i].values|
      ensures Due(st.undo, pid, semid, k, n + 1) <==> Due(st.undo, pid, semid, k, n)
    {
      DueStep(st, pid, semid, k, n);
      FindSetIsId(st, semid, i);
    }
    var a, b := SlotTo(st, pid, now, i, n), SlotTo(st, pid, now, i, n + 1);
    assert a.values == b.values;
    assert a.lastPids == b.lastPids;
    if AnyDue(st.undo, pid, semid, |a.values|, n + 1) {
      var k :| 0 <= k < |a.values| && Due(st.undo, pid, semid, k, n + 1);
      assert Due(st.undo, pid, semid, k, n);
    }
  }

  lemma SlotReplays(st: Store, pid: i32, now: i64, i: nat, n: nat)
    requires Valid(st) && i < MAX_SETS && n < MAX_UNDO && Target(st, st.undo[n], pid, i)
    ensures var e, s := st.undo[n], SlotTo(st, pid, now, i, n);
            && 0 <= e.semNum < |s.values| == |s.lastPids|
            && SlotTo(st, pid, now, i, n + 1) ==
               s.(values := s.values[e.semNum := Clamp(s.values[e.semNum] + e.adjustment)],
                  lastPids := s.lastPids[e.semNum := pid], meta := s.meta.(otime := now))
  {
    var e, s := st.undo[n], SlotTo(st, pid, now, i, n);
    assert EntryOk(st, e);
    FindSetIsId(st, e.semid, i);
    forall k | 0 <= k < |s.values|
      ensures Due(st.undo, pid, e.semid, k, n + 1) <==> Due(st.undo, pid, e.semid, k, n) || k == e.semNum
      ensures k == e.semNum ==>
              !Due(st.undo, pid, e.semid, k, n) && Adjustment(st.undo, pid, e.semid, k) == e.adjustment
    {
      DueStep(st, pid, e.semid, k, n);
    }
    assert Due(st.undo, pid, e.semid, e.semNum, n + 1);
  }

  function RetiredTo(undo: seq<UndoEntry>, pid: i32, n: nat): (r: seq<UndoEntry>)
    requires n <= |undo|
    ensures |r| == |undo|
  {
    seq(|undo|, j requires 0 <= j < |undo| =>
      if j < n && undo[j].active && undo[j].pid == pid then undo[j].(active := false) else undo[j])
  }

  function ReplayedTo(st: Store, pid: i32, now: i64, n: nat): (r: Store)
    requires Shape(st) && n <= MAX_UNDO
    ensures |r.sets| == MAX_SETS && |r.undo| == MAX_UNDO
    ensures Shape(r)
  {
    Store(seq(MAX_SETS, i requires 0 <= i < MAX_SETS => SlotTo(st, pid, now, i, n)), RetiredTo(st.undo, pid, n))
  }

  lemma ReplaySlot(st: Store, pid: i32, now: i64, n: nat, i: nat)
    requires Valid(st) && n < MAX_UNDO && i < MAX_SETS
    ensures ExitOne(ReplayedTo(st, pid, now, n), pid, now, n).sets[i] == ReplayedTo(st, pid, now, n + 1).sets[i]
  {
    var e := st.undo[n];
    if Target(st, e, pid, i) { SlotReplays(st, pid, now, i, n); } else { SlotSkips(st, pid, now, i, n); }
    assert e.active ==> EntryOk(st, e);
    ReplayedFinds(st, pid, now, n, e.semid);
    hide Due, AnyDue, Adjustment, Unique, UniqueKeys, SlotTo;
    ReplayedAt(st, pid, now, n, i);
    ReplayedAt(st, pid, now, n + 1, i);
  }

  lemma ReplayedAt(st: Store, pid: i32, now: i64, n: nat, i: nat)
    requires Shape(st) && n <= MAX_UNDO && i < MAX_SETS
    ensures ReplayedTo(st, pid, now, n).sets[i] == SlotTo(st, pid, now, i, n)
    ensures n < MAX_UNDO ==> ReplayedTo(st, pid, now, n).undo[n] == st.undo[n]
  {
  }

  /** Replaying moves no set. */
  lemma ReplayedFinds(st: Store, pid: i32, now: i64, n: nat, semid: i32)
    requires Shape(st) && n <= MAX_UNDO
    ensures FindSet(ReplayedTo(st, pid, now, n), semid) == FindSet(st, semid)
  {
  }

  lemma ReplayStep(st: Store, pid: i32, now: i64, n: nat)
    requires Valid(st) && n < MAX_UNDO
    ensures ExitOne(ReplayedTo(st, pid, now, n), pid, now, n) == ReplayedTo(st, pid, now, n + 1)
  {
    var before, after := ReplayedTo(st, pid, now, n), ReplayedTo(st, pid, now, n + 1);
    forall i | 0 <= i < MAX_SETS ensures ExitOne(before, pid, now, n).sets[i] == after.sets[i] {
      ReplaySlot(st, pid, now, n, i);
    }
    RetiredStep(st, pid, now, n);
    hide SlotTo, Valid, Replays, Clamp;
  }

  lemma RetiredStep(st: Store, pid: i32, now: i64, n: nat)
    requires Valid(st) && n < MAX_UNDO
    ensures ExitOne(ReplayedTo(st, pid, now, n), pid, now, n).undo == RetiredTo(st.undo, pid, n + 1)
    ensures |ExitOne(ReplayedTo(st, pid, now, n), pid, now, n).sets| == MAX_SETS
  {
    hide SlotTo, Valid, Replays, Clamp;
    ShapeOf(st);
  }

  /** The replay loop, closed form: no entry sees another entry's effect. */
  lemma {:induction false} ExitIsReplay(st: Store, pid: i32, now: i64, n: nat)
    requires Valid(st) && n <= MAX_UNDO
    ensures ExitTo(st, pid, now, n) == ReplayedTo(st, pid, now, n)
  {
    if n == 0 {
      assert forall i :: 0 <= i < MAX_SETS ==> SlotTo(st, pid, now, i, 0) == st.sets[i];
      assert ReplayedTo(st, pid, now, 0).sets == st.sets;
      assert RetiredTo(st.undo, pid, 0) == st.undo;
    } else {
      ExitIsReplay(st, pid, now, n - 1);
      ReplayStep(st, pid, now, n - 1);
    }
  }

  lemma {:induction false} ExitChanges(st: Store, pid: i32, now: i64, n: nat)
    requires Valid(st) && n <= MAX_UNDO
    ensures ExitChanged(st, pid, now, n) <==> exists j :: 0 <= j < n && st.undo[j].active && st.undo[j].pid == pid
  {
    if n > 0 {
      ExitChanges(st, pid, now, n - 1);
      ExitIsReplay(st, pid, now, n - 1);
      ExitValid(st, pid, now, n - 1);
      var before := ExitTo(st, pid, now, n - 1);
      assert before.undo[n - 1] == st.undo[n - 1];
      assert before.undo[n - 1].active ==> EntryOk(before, before.undo[n - 1]);
    }
  }

  /** Falling due is having a balance. */
  lemma DueIsOwed(undo: seq<UndoEntry>, pid: i32, semid: i32, k: nat)
    requires Unique(undo)
    ensures Due(undo, pid, semid, k, |undo|) <==> UndoKey(pid, semid, k) in LedgerOf(undo)
    ensures UndoKey(pid, semid, k) in LedgerOf(undo) ==>
            LedgerOf(undo)[UndoKey(pid, semid, k)] == Adjustment(undo, pid, semid, k)
  {
    hide LedgerOf;
    FindUndoIsLookup(undo, UndoKey(pid, semid, k));
  }

  lemma RestoredValues(st: Store, pid: i32, now: i64, i: nat, ledger: Ledger)
    requires Shape(st) && i < MAX_SETS && Unique(st.undo) && ledger == LedgerOf(st.undo)
    ensures var a, b := SlotTo(st, pid, now, i, MAX_UNDO), Restored(st.sets[i], IdOf(st.sets, i), ledger, pid, now);
            a.values == b.values && a.lastPids == b.lastPids
  {
    hide LedgerOf, Due, Adjustment, AnyDue, Unique;
    var semid := IdOf(st.sets, i);
    forall k: nat | k < |st.sets[i].values|
      ensures Due(st.undo, pid, semid, k, MAX_UNDO) <==> UndoKey(pid, semid, k) in ledger
      ensures UndoKey(pid, semid, k) in ledger ==> ledger[UndoKey(pid, semid, k)] == Adjustment(st.undo, pid, semid, k)
    {
      DueIsOwed(st.undo, pid, semid, k);
    }
  }

  lemma RestoredTime(st: Store, pid: i32, i: nat, ledger: Ledger)
    requires Shape(st) && i < MAX_SETS && Unique(st.undo) && ledger == LedgerOf(st.undo)
    ensures var semid := IdOf(st.sets, i);
            AnyDue(st.undo, pid, semid, |st.sets[i].values|, MAX_UNDO) <==>
            exists k: nat :: k < |st.sets[i].values| && UndoKey(pid, semid, k) in ledger
  {
    hide LedgerOf, Due, Unique;
    var semid, n := IdOf(st.sets, i), |st.sets[i].values|;
    forall k: nat | k < n ensures Due(st.undo, pid, semid, k, MAX_UNDO) <==> UndoKey(pid, semid, k) in ledger {
      DueIsOwed(st.undo, pid, semid, k);
    }
  }

  lemma SlotIsRestored(st: Store, pid: i32, now: i64, i: nat)
    requires Valid(st) && i < MAX_SETS
    ensures SlotTo(st, pid, now, i, MAX_UNDO) == Restored(st.sets[i], IdOf(st.sets, i), LedgerOf(st.undo), pid, now)
  {
    RestoredValues(st, pid, now, i, LedgerOf(st.undo));
    RestoredTime(st, pid, i, LedgerOf(st.undo));
    hide LedgerOf, AnyDue, Due, Unique, Valid;
  }

  lemma RetiredUnique(undo: seq<UndoEntry>, pid: i32)
    requires Unique(undo)
    ensures Unique(RetiredTo(undo, pid, |undo|))
  {
    var after := RetiredTo(undo, pid, |undo|);
    assert forall j :: 0 <= j < |undo| ==> if undo[j].pid != pid then after[j] == undo[j] else !after[j].active;
  }

  lemma RetiredKey(undo: seq<UndoEntry>, pid: i32, key: UndoKey)
    requires Unique(undo) && Unique(RetiredTo(undo, pid, |undo|))
    ensures var l, m := LedgerOf(RetiredTo(undo, pid, |undo|)), LedgerOf(undo);
            (key in l <==> key in m && key.pid != pid) && (key in l ==> l[key] == m[key])
  {
    hide LedgerOf, Unique;
    var after := RetiredTo(undo, pid, |undo|);
    FindUndoIsLookup(undo, key);
    FindUndoIsLookup(after, key);
    var j, j' := FindUndo(undo, key.pid, key.semid, key.semNum), FindUndo(after, key.pid, key.semid, key.semNum);
    assert j < |undo| && key.pid != pid ==> Matches(after[j], key.pid, key.semid, key.semNum);
    assert j' < |undo| ==> Matches(undo[j'], key.pid, key.semid, key.semNum);
  }

  lemma RetiredIsDropped(undo: seq<UndoEntry>, pid: i32)
    requires Unique(undo)
    ensures Unique(RetiredTo(undo, pid, |undo|))
    ensures LedgerOf(RetiredTo(undo, pid, |undo|)) ==
            map key | key in LedgerOf(undo) && key.pid != pid :: LedgerOf(undo)[key]
  {
    hide LedgerOf, Unique, RetiredTo;
    RetiredUnique(undo, pid);
    var l, m := LedgerOf(RetiredTo(undo, pid, |undo|)), LedgerOf(undo);
    forall key
      ensures key in l <==> key in m && key.pid != pid
      ensures key in l ==> l[key] == m[key]
    {
      RetiredKey(undo, pid, key);
    }
  }

  /** Process exit on the table is process exit on the ledger: clamped restoration of exactly what the process owes. */
  lemma ExitRefines(st: Store, pid: i32, now: i64)
    requires Valid(st)
    ensures var r := ProcessExit(st, pid, now);
            && Unique(r.store.undo)
            && LedgerEffect(Abs(r.store), r.code, r.answer) == LedgerExit(Abs(st), pid, now)
  {
    if pid > 0 {
      var r, a := ProcessExit(st, pid, now), LedgerExit(Abs(st), pid, now);
      ExitIsReplay(st, pid, now, MAX_UNDO);
      ExitChanges(st, pid, now, MAX_UNDO);
      RetiredIsDropped(st.undo, pid);
      forall i | 0 <= i < MAX_SETS ensures r.store.sets[i] == a.store.sets[i] {
        SlotIsRestored(st, pid, now, i);
      }
      assert r.store.sets == a.store.sets;
      OwesIffEntry(st, pid);
    }
  }

  lemma OwesIffEntry(st: Store, pid: i32)
    requires Valid(st)
    ensures (exists key :: key in LedgerOf(st.undo) && key.pid == pid) <==>
            exists j :: 0 <= j < MAX_UNDO && st.undo[j].active && st.undo[j].pid == pid
  {
    var ledger := LedgerOf(st.undo);
    if j :| 0 <= j < MAX_UNDO && st.undo[j].active && st.undo[j].pid == pid {
      assert KeyOf(st.undo[j]) in ledger;
    }
  }
}
