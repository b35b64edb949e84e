/** What later calls observe of a semget, SETVAL, SETALL or removal, and what they leave alone. */
module StoreLaws {
  import opened SemTypes
  import opened StoreModel
  import opened StoreValid
  import opened UndoLedger
  import opened ExitReplay
  import opened StoreRuns
  import opened Restoration

  /** The set changes in nothing but its values, last processes and, as given, its metadata. */
  predicate KeepsRecord(s: SemSet, s': SemSet, meta: Meta) {
    s' == s.(values := s'.values, lastPids := s'.lastPids, meta := meta) && |s'.values| == |s.values|
  }

  /** Every set that resolves in `st` resolves to the same slot and content in `st'`. */
  ghost predicate Untouched(st: Store, st': Store, id: i32)
    requires |st.sets| == |st'.sets| == MAX_SETS
  {
    FindSet(st, id).Some? ==>
      FindSet(st', id) == FindSet(st, id) && st'.sets[FindSet(st, id).value] == st.sets[FindSet(st, id).value]
  }

  /** semget gives the identifier of a live set with that key that is large enough; a new set is all zero, unknown
      before and owed nothing; no other set changes. */
  lemma GetLaw(st: Store, key: i32, nsems: i32, flags: int, who: Identity, now: i64, noMemory: bool, id: i32,
               owner: UndoKey)
    requires Valid(st)
    ensures var r := Get(st, key, nsems, flags, who, now, noMemory);
            && Shape(r.store) && r.store.undo == st.undo && Untouched(st, r.store, id)
            && (r.code <= 0 ==> r.store == st && r.code < 0)
            && (r.code > 0 ==>
                  && r.code <= INT_MAX && FindSet(r.store, r.code).Some?
                  && var s := r.store.sets[FindSet(r.store, r.code).value];
                     s.key == key && nsems <= |s.values| &&
                     (FindSet(st, r.code).None? ==>
                        |s.values| == nsems && (forall k :: 0 <= k < nsems ==> s.values[k] == 0) &&
                        (owner.semid == r.code ==> Owed(r.store.undo, owner) == 0)))
  {
    hide Valid, HasFlag, DecodeId;
    GetValid(st, key, nsems, flags, who, now, noMemory);
    ShapeOf(st);
    var r := Get(st, key, nsems, flags, who, now, noMemory);
    ShapeOf(r.store);
    var found, slot := FindKey(st.sets, key), FindSlot(st.sets);
    if key != IPC_PRIVATE && found < MAX_SETS {
      LiveResolves(st, found);
    } else if r.code > 0 {
      LiveResolves(r.store, slot);
      NothingOwed(st, r.code, owner);
    }
  }

  /** Exactly when semget succeeds and which error it gives otherwise. `i` is any slot: if it holds a live set with a
      public key that is asked for, only exclusivity or the size can refuse. */
  lemma GetFinds(st: Store, key: i32, nsems: i32, flags: int, who: Identity, now: i64, noMemory: bool, i: nat)
    requires Valid(st) && key != 0 && i < 128 && st.sets[i].active && st.sets[i].key == key
    ensures var r := Get(st, key, nsems, flags, who, now, noMemory);
            && r.store == st
            && if HasFlag(flags, 0x200) && HasFlag(flags, 0x400) then r.code == -17
               else if 0 <= nsems <= |st.sets[i].values| then 0 < r.code <= INT_MAX && FindSet(st, r.code) == Some(i)
               else r.code == -22
  {
    hide HasFlag, DecodeId, MakeId, FindSet, Unique, EntryOk;
    LiveResolves(st, i);
    assert FindKey(st.sets, key) == i;
  }

  /** And if no live set has the key, or the key is private, a set is made exactly when that is asked for, the size is
      allowed, a slot is free and there is memory. */
  lemma GetMakes(st: Store, key: i32, nsems: i32, flags: int, who: Identity, now: i64, noMemory: bool)
    requires Valid(st)
    requires key == 0 || forall i :: 0 <= i < 128 && st.sets[i].active ==> st.sets[i].key != key
    ensures var r := Get(st, key, nsems, flags, who, now, noMemory);
            var full := forall i :: 0 <= i < 128 ==> st.sets[i].active;
            if key != 0 && !HasFlag(flags, 0x200) then r.code == -2 && r.store == st
            else if nsems < 1 || nsems > 512 then r.code == -22 && r.store == st
            else if full then r.code == -28 && r.store == st
            else if noMemory then r.code == -12 && r.store == st
            else exists i :: Makes(st, r.store, r.code, i, key, nsems, Meta(who.uid, who.gid, who.uid, who.gid,
                                                                            flags % 512, 0, now))
  {
    hide HasFlag, DecodeId, FindSet, Valid;
    ShapeOf(st);
    GetValid(st, key, nsems, flags, who, now, noMemory);
    var r := Get(st, key, nsems, flags, who, now, noMemory);
    var slot := FindSlot(st.sets);
    if r.code > 0 {
      ShapeOf(r.store);
      LiveResolves(r.store, slot);
      NewIsUnknown(st, r.store, slot, r.code);
      assert Makes(st, r.store, r.code, slot, key, nsems, r.store.sets[slot].meta);
    }
  }

  /** The first free slot now holds a set with this key, size and metadata: all values, last processes and wait
      counters are zero, and its identifier resolved to nothing before. */
  ghost predicate Makes(st: Store, st': Store, id: int, i: nat, key: i32, nsems: int, meta: Meta)
    requires Shape(st)
  {
    && i < 128 && !st.sets[i].active && (forall j :: 0 <= j < i ==> st.sets[j].active)
    && Shape(st') && st'.undo == st.undo && (forall j :: 0 <= j < 128 && j != i ==> st'.sets[j] == st.sets[j])
    && 0 < id <= INT_MAX && FindSet(st', id) == Some(i) && FindSet(st, id).None?
    && var s := st'.sets[i];
       && s.active && s.key == key && |s.values| == nsems && s.meta == meta
       && forall k :: 0 <= k < nsems ==>
            s.values[k] == 0 && s.lastPids[k] == 0 && s.negWaiters[k] == 0 && s.zeroWaiters[k] == 0
  }

  lemma NewIsUnknown(st: Store, st': Store, i: nat, id: i32)
    requires |st.sets| == |st'.sets| == MAX_SETS && i < MAX_SETS && !st.sets[i].active && FindSet(st', id) == Some(i)
    ensures FindSet(st, id).None?
  {
  }

  lemma LiveResolves(st: Store, i: nat)
    requires Valid(st) && i < MAX_SETS && st.sets[i].active
    ensures 0 < MakeId(i, st.sets[i].generation) <= INT_MAX && FindSet(st, MakeId(i, st.sets[i].generation)) == Some(i)
  {
    assert ValidSet(st.sets[i]);
    IdRoundTrip(i, st.sets[i].generation);
  }

  lemma NothingOwed(st: Store, id: i32, owner: UndoKey)
    requires Valid(st) && FindSet(st, id).None?
    ensures owner.semid == id ==> Owed(st.undo, owner) == 0
  {
    var j := FindUndo(st.undo, owner.pid, owner.semid, owner.semNum);
    assert j < |st.undo| ==> EntryOk(st, st.undo[j]);
  }

  /** Asking again for a public key gives the same identifier and changes nothing, unless exclusivity or more semaphores
      are asked for. */
  lemma GetAgain(st: Store, key: i32, nsems: i32, flags: int, who: Identity, now: i64, nsems': i32, flags': int,
                 who': Identity, now': i64)
    requires Valid(st) && key != IPC_PRIVATE && Get(st, key, nsems, flags, who, now, false).code > 0
    requires !(HasFlag(flags', IPC_CREAT) && HasFlag(flags', IPC_EXCL)) && 0 <= nsems' <= nsems
    ensures var r := Get(st, key, nsems, flags, who, now, false);
            Shape(r.store) && Get(r.store, key, nsems', flags', who', now', false) == r
  {
    GetValid(st, key, nsems, flags, who, now, false);
    var r := Get(st, key, nsems, flags, who, now, false);
    var found, slot := FindKey(st.sets, key), FindSlot(st.sets);
    if found == MAX_SETS {
      assert r.store.sets[slot].active && r.store.sets[slot].key == key;
      assert forall j :: 0 <= j < slot ==> r.store.sets[j] == st.sets[j];
    }
  }

  /** The set is still there, with a new change time. */
  predicate StampsChange(st: Store, st': Store, id: i32, now: i64)
    requires |st.sets| == |st'.sets| == MAX_SETS
  {
    && FindSet(st, id).Some? && FindSet(st', id) == FindSet(st, id)
    && var i := FindSet(st, id).value; KeepsRecord(st.sets[i], st'.sets[i], st.sets[i].meta.(ctime := now))
  }

  /** SETVAL succeeds exactly on a live semaphore and a value in range; then exactly that value and its last process
      change, and nobody owes that semaphore any more, while every other debt stays. */
  lemma SetValLaw(st: Store, semid: i32, semNum: nat, value: nat, pid: i32, now: i64, id: i32, k: nat, owner: UndoKey)
    requires Valid(st)
    ensures var r := SetVal(st, semid, semNum, value, pid, now);
            && Shape(r.store)
            && r.code == (if !Live(st, semid, semNum) then -22 else if value > 32767 then -34 else 0)
            && (r.code != 0 ==> r.store == st)
            && (r.code == 0 ==>
                  && StampsChange(st, r.store, semid, now)
                  && GetVal(r.store, id, k).code ==
                       (if id == semid && k == semNum then value else GetVal(st, id, k).code)
                  && GetPid(r.store, id, k).code == (if id == semid && k == semNum then pid else GetPid(st, id, k).code)
                  && Owed(r.store.undo, owner) ==
                       if owner.semid == semid && owner.semNum == semNum then 0 else Owed(st.undo, owner))
  {
    SetValValid(st, semid, semNum, value, pid, now);
    SameSlotSameId(st, semid, id);
    ClearedOwed(st.undo, semid, semNum, false, owner);
  }

  /** Two identifiers resolve to one slot only if they are the same. */
  lemma SameSlotSameId(st: Store, semid: i32, id: i32)
    requires Shape(st)
    ensures FindSet(st, semid).Some? && FindSet(st, id) == FindSet(st, semid) ==> id == semid
  {
    if FindSet(st, semid).Some? && FindSet(st, id) == FindSet(st, semid) {
      FindSetIsId(st, semid, FindSet(st, semid).value);
      FindSetIsId(st, id, FindSet(st, semid).value);
    }
  }

  lemma ClearedOwed(undo: seq<UndoEntry>, semid: i32, semNum: int, all: bool, owner: UndoKey)
    ensures Owed(ClearUndo(undo, semid, semNum, all), owner) ==
            if owner.semid == semid && (all || owner.semNum == semNum) then 0 else Owed(undo, owner)
  {
    if owner.semid == semid && (all || owner.semNum == semNum) {
      ClearKeeps(undo, semid, semNum, all, owner);
      assert FindUndo(ClearUndo(undo, semid, semNum, all), owner.pid, owner.semid, owner.semNum) == |undo|;
    } else {
      ClearKeepsOwed(undo, semid, semNum, all, owner);
    }
  }

  /** SETALL succeeds exactly on a live set of that size and values in range; then GETALL returns those values, GETPID
      the caller for every semaphore, every other set reads as before, and nobody owes that set any more. */
  lemma SetAllLaw(st: Store, semid: i32, values: seq<u16>, pid: i32, now: i64, id: i32, k: nat, owner: UndoKey)
    requires Valid(st)
    ensures var r := SetAll(st, semid, values, pid, now);
            && Shape(r.store)
            && r.code == (if !HasSize(st, semid, |values|) then -22
                          else if exists j :: 0 <= j < |values| && values[j] > 32767 then -34 else 0)
            && (r.code != 0 ==> r.store == st)
            && (r.code == 0 ==>
                  && StampsChange(st, r.store, semid, now)
                  && GetAll(r.store, semid, |values|).code == 0
                  && (k < |values| ==>
                        GetVal(r.store, semid, k).code == values[k] && GetPid(r.store, semid, k).code == pid)
                  && GetAll(r.store, semid, |values|).answer == Values(values)
                  && (id != semid ==> Untouched(st, r.store, id))
                  && Owed(r.store.undo, owner) == if owner.semid == semid then 0 else Owed(st.undo, owner))
  {
    SetAllValid(st, semid, values, pid, now);
    SameSlotSameId(st, semid, id);
    ClearedOwed(st.undo, semid, 0, true, owner);
  }

  /** After a process exits nobody finds a debt of it, every semaphore it owed holds the value nearest to its value plus
      the debt and names the process, and nothing else changed; the result says whether it owed anything. */
  lemma ExitLaw(st: Store, pid: i32, now: i64, id: i32, k: nat, owner: UndoKey)
    requires Valid(st)
    ensures var r := ProcessExit(st, pid, now);
            && Shape(r.store)
            && (pid <= 0 ==> r.code == -EINVAL && r.store == st)
            && (pid > 0 ==>
                  && r.code == (if exists key: UndoKey :: key.pid == pid && Owed(st.undo, key) != 0 then 1 else 0)
                  && Owed(r.store.undo, owner) == (if owner.pid == pid then 0 else Owed(st.undo, owner))
                  && FindSet(r.store, id) == FindSet(st, id)
                  && (FindSet(st, id).Some? ==>
                        var i := FindSet(st, id).value;
                        var m := st.sets[i].meta;
                        KeepsRecord(st.sets[i], r.store.sets[i], if Owes(st, pid, id) then m.(otime := now) else m))
                  && (Live(st, id, k) ==>
                        var debt := Owed(st.undo, UndoKey(pid, id, k));
                        && Nearest(GetVal(st, id, k).code + debt, GetVal(r.store, id, k).code)
                        && GetPid(r.store, id, k).code == if debt != 0 then pid else GetPid(st, id, k).code))
  {
    if pid > 0 {
      hide ProcessExit, GetVal, GetPid, KeepsRecord, Owes;
      ExitReads(st, pid, now, id, k);
      if FindSet(st, id).Some? { ExitRecord(st, pid, now, id); }
      ExitOwed(st, pid, now, owner);
      ExitCode(st, pid, now);
    }
  }

  predicate Live(st: Store, id: i32, k: nat)
    requires Shape(st)
  {
    FindSet(st, id).Some? && k < |st.sets[FindSet(st, id).value].values|
  }

  /** The process owes some semaphore of the set. */
  predicate Owes(st: Store, pid: i32, id: i32)
    requires Shape(st) && FindSet(st, id).Some?
  {
    exists k :: 0 <= k < |st.sets[FindSet(st, id).value].values| && Owed(st.undo, UndoKey(pid, id, k)) != 0
  }

  lemma ExitRecord(st: Store, pid: i32, now: i64, id: i32)
    requires Valid(st) && pid > 0 && FindSet(st, id).Some?
    ensures var i := FindSet(st, id).value;
            var m := st.sets[i].meta;
            var st' := ProcessExit(st, pid, now).store;
            |st'.sets| == MAX_SETS &&
            KeepsRecord(st.sets[i], st'.sets[i], if Owes(st, pid, id) then m.(otime := now) else m)
  {
    var i := FindSet(st, id).value;
    ExitIsReplay(st, pid, now, MAX_UNDO);
    FindSetIsId(st, id, i);
    assert ProcessExit(st, pid, now).store.sets[i] == SlotTo(st, pid, now, i, MAX_UNDO);
    hide Owed, Due, ProcessExit, Valid, DecodeId;
    forall k: nat ensures Due(st.undo, pid, id, k, MAX_UNDO) <==> Owed(st.undo, UndoKey(pid, id, k)) != 0 {
      DueIsDebt(st, pid, id, k);
    }
  }

  /** `v` is the semaphore value nearest to `sum`. */
  ghost predicate Nearest(sum: int, v: int) {
    0 <= v <= 32767 && forall u :: 0 <= u <= 32767 ==> Distance(sum, v) <= Distance(sum, u)
  }

  function Distance(a: int, b: int): nat {
    if a < b then b - a else a - b
  }

  lemma ExitReads(st: Store, pid: i32, now: i64, id: i32, k: nat)
    requires Valid(st) && pid > 0
    ensures var st' := ProcessExit(st, pid, now).store;
            && Shape(st') && FindSet(st', id) == FindSet(st, id)
            && (Live(st, id, k) ==>
                  var debt := Owed(st.undo, UndoKey(pid, id, k));
                  && Nearest(GetVal(st, id, k).code + debt, GetVal(st', id, k).code)
                  && GetPid(st', id, k).code == if debt != 0 then pid else GetPid(st, id, k).code)
  {
    ExitResolves(st, pid, now, id);
    if Live(st, id, k) {
      var i := FindSet(st, id).value;
      ExitConserves(st, pid, now, id, i, k);
      ExitIsReplay(st, pid, now, MAX_UNDO);
      FindSetIsId(st, id, i);
      assert ProcessExit(st, pid, now).store.sets[i] == SlotTo(st, pid, now, i, MAX_UNDO);
      DueIsDebt(st, pid, id, k);
    }
  }

  lemma ExitResolves(st: Store, pid: i32, now: i64, id: i32)
    requires Valid(st) && pid > 0
    ensures var st' := ProcessExit(st, pid, now).store;
            Shape(st') && FindSet(st', id) == FindSet(st, id)
  {
    ShapeOf(st);
    hide Valid, ExitChanged;
    ExitIsReplay(st, pid, now, MAX_UNDO);
    var st' := ProcessExit(st, pid, now).store;
    assert forall i :: 0 <= i < MAX_SETS ==> st'.sets[i] == SlotTo(st, pid, now, i, MAX_UNDO);
  }

  lemma DueIsDebt(st: Store, pid: i32, id: i32, k: nat)
    requires Valid(st)
    ensures Due(st.undo, pid, id, k, MAX_UNDO) <==> Owed(st.undo, UndoKey(pid, id, k)) != 0
  {
    var j := FindUndo(st.undo, pid, id, k);
    assert j < |st.undo| ==> EntryOk(st, st.undo[j]);
  }

  lemma ExitCode(st: Store, pid: i32, now: i64)
    requires Valid(st) && pid > 0
    ensures ProcessExit(st, pid, now).code ==
            if exists key: UndoKey :: key.pid == pid && Owed(st.undo, key) != 0 then 1 else 0
  {
    ExitRefines(st, pid, now);
    ValidNonZero(st);
    var ledger := LedgerOf(st.undo);
    hide ProcessExit, LedgerOf, Owed, Restored, Valid;
    forall key: UndoKey ensures key in ledger <==> Owed(st.undo, key) != 0 {
      FindUndoIsLookup(st.undo, key);
      OwedIsBalance(st.undo, key);
    }
  }

  lemma OwedIsBalance(undo: seq<UndoEntry>, key: UndoKey)
    requires Unique(undo)
    ensures Owed(undo, key) == Balance(LedgerOf(undo), key)
  {
    FindUndoIsLookup(undo, key);
  }

  predicate HasSize(st: Store, id: i32, n: nat)
    requires Shape(st)
  {
    FindSet(st, id).Some? && n == |st.sets[FindSet(st, id).value].values|
  }

  /** Removal succeeds exactly on a live set; its identifier then resolves to nothing, every other set is as before, and
      nobody owes the set any more. */
  lemma RemoveLaw(st: Store, semid: i32, id: i32, owner: UndoKey)
    requires Valid(st)
    ensures var r := Remove(st, semid);
            && Shape(r.store)
            && r.code == (if FindSet(st, semid).Some? then 0 else -22)
            && (r.code != 0 ==> r.store == st)
            && FindSet(r.store, semid).None?
            && (id != semid ==> Untouched(st, r.store, id))
            && (r.code == 0 ==> Owed(r.store.undo, owner) == if owner.semid == semid then 0 else Owed(st.undo, owner))
  {
    RemoveValid(st, semid);
    SameSlotSameId(st, semid, id);
    ClearedOwed(st.undo, semid, 0, true, owner);
  }
}
