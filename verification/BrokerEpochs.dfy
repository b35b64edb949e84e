/**
 Identifiers and counters across slot reuse: while a slot is removed fewer than
 32767 times under a waiter, no new set can take the identifier the waiter holds,
 so the wait counters keep counting the right queue entries.
 */
module BrokerEpochs {
  import opened SemTypes
  import opened StoreModel
  import opened StoreValid
  import opened ExitReplay
  import opened StaleIds
  import opened BrokerModel
  import opened BrokerHistory

  /** What one store call does to one slot. */
  predicate SlotStep(s: SemSet, s': SemSet, removed: bool) {
    if removed then s.active && s.generation > 0 && !s'.active && s'.generation == NextGeneration(s.generation)
    else if s.active then
      && s'.active && s'.generation == s.generation && |s'.values| == |s.values|
      && s'.negWaiters == s.negWaiters && s'.zeroWaiters == s.zeroWaiters
    else
      || s' == s
      || (&& s'.active && s'.generation == Reused(s)
          && s'.negWaiters == Zeros(|s'.values|) && s'.zeroWaiters == Zeros(|s'.values|))
  }

  /** The generation a new set in this slot gets. */
  function Reused(s: SemSet): nat {
    if s.generation == 0 then 1 else s.generation
  }

  lemma TryOpSlot(st: Store, semid: i32, ops: seq<SemOp>, pid: i32, now: i64, i: nat)
    requires Valid(st) && i < MAX_SETS
    ensures var st' := TryOp(st, semid, ops, pid, now).store;
            |st'.sets| == MAX_SETS && SlotStep(st.sets[i], st'.sets[i], false)
  {
  }

  lemma ExitSlot(st: Store, pid: i32, now: i64, i: nat)
    requires Valid(st) && i < MAX_SETS
    ensures var st' := ProcessExit(st, pid, now).store;
            |st'.sets| == MAX_SETS && SlotStep(st.sets[i], st'.sets[i], false)
  {
    if pid > 0 {
      ExitIsReplay(st, pid, now, MAX_UNDO);
      assert ProcessExit(st, pid, now).store.sets[i] == SlotTo(st, pid, now, i, MAX_UNDO);
    }
  }

  lemma GetSlot(st: Store, key: i32, nsems: i32, flags: int, who: Identity, now: i64, noMemory: bool, i: nat)
    requires Shape(st) && i < MAX_SETS
    ensures var st' := Get(st, key, nsems, flags, who, now, noMemory).store;
            |st'.sets| == MAX_SETS && SlotStep(st.sets[i], st'.sets[i], false)
  {
  }

  lemma SemctlSlot(st: Store, call: Call, now: i64, i: nat)
    requires Valid(st) && i < MAX_SETS
             && (call.RemoveCall? || call.SetValCall? || call.SetAllCall? || call.SetMetaCall?)
    ensures var st' := Apply(st, call, now).store;
            |st'.sets| == MAX_SETS && SlotStep(st.sets[i], st'.sets[i], RemovesSlot(st, call, i))
  {
    hide TryOp, ProcessExit, ClearUndo, Get, DecodeId, Census, EntryOk, Unique, UniqueKeys, HasFlag;
    assert ValidSet(st.sets[i]);
  }

  lemma CallSlot(st: Store, call: Call, now: i64, i: nat)
    requires Valid(st) && i < MAX_SETS && !call.AdjustWaitCall?
    ensures var st' := Apply(st, call, now).store;
            |st'.sets| == MAX_SETS && SlotStep(st.sets[i], st'.sets[i], RemovesSlot(st, call, i))
  {
    hide TryOp, ProcessExit, Get, Remove, SetVal, SetAll, SetMeta, AdjustWait, Census, Valid;
    ShapeOf(st);
    match call
    case TryOpCall(semid, ops, pid) => TryOpSlot(st, semid, ops, pid, now, i);
    case ExitCall(pid) => ExitSlot(st, pid, now, i);
    case GetCall(key, nsems, flags, who, noMemory) => GetSlot(st, key, nsems, flags, who, now, noMemory, i);
    case RemoveCall(_) => SemctlSlot(st, call, now, i);
    case SetValCall(_, _, _, _) => SemctlSlot(st, call, now, i);
    case SetAllCall(_, _, _) => SemctlSlot(st, call, now, i);
    case SetMetaCall(_, _, _, _, _) => SemctlSlot(st, call, now, i);
    case _ =>
  }

  // ---------------------------------------------------------------- epochs

  /** A slot's generation counts its removals. */
  predicate GenOk(s: SemSet, removals: nat) {
    if s.generation == 0 then removals == 0 && !s.active else s.generation == Advance(1, removals)
  }

  /** A waiter's identifier dates from a known number of removals, and its set is live until the next one. */
  predicate EpochWaiter(sets: seq<SemSet>, h: History, w: Waiter)
    requires |sets| == |h.removals| == MAX_SETS
  {
    && w.id in h.epochs && DecodeId(w.semid).Some?
    && var (i, g) := DecodeId(w.semid).value;
       && g == Advance(1, h.epochs[w.id])
       && h.epochs[w.id] <= h.removals[i]
       && (h.epochs[w.id] == h.removals[i] ==> sets[i].active)
  }

  ghost predicate EpochOk(st: Store, queue: seq<Waiter>, h: History) {
    && |st.sets| == |h.removals| == MAX_SETS
    && (forall i :: 0 <= i < MAX_SETS ==> GenOk(st.sets[i], h.removals[i]))
    && (forall j :: 0 <= j < |queue| ==> EpochWaiter(st.sets, h, queue[j]))
  }

  function SlotOf(semid: i32): nat {
    if DecodeId(semid).Some? then DecodeId(semid).value.0 else 0
  }

  /** Fewer than 32767 removals of the waiter's slot since it joined. */
  predicate FreshFor(h: History, w: Waiter) {
    w.id in h.epochs && SlotOf(w.semid) < |h.removals| && h.removals[SlotOf(w.semid)] < h.epochs[w.id] + MAX_GENERATION
  }

  ghost predicate Fresh(queue: seq<Waiter>, h: History) {
    forall j :: 0 <= j < |queue| ==> FreshFor(h, queue[j])
  }

  lemma AdvanceInjective(e: nat, r: nat)
    requires e <= r < e + MAX_GENERATION && Advance(1, e) == Advance(1, r)
    ensures e == r
  {
    var q, q' := e / MAX_GENERATION, r / MAX_GENERATION;
    assert r - e == MAX_GENERATION * (q' - q);
  }

  /** No queued waiter holds the identifier a free slot would hand out next. */
  lemma FreshIdUnused(st: Store, queue: seq<Waiter>, h: History, i: nat, j: nat)
    requires EpochOk(st, queue, h) && Fresh(queue, h) && Shape(st)
    requires i < MAX_SETS && !st.sets[i].active && j < |queue|
    ensures queue[j].semid != MakeId(i, Reused(st.sets[i]))
  {
    var w := queue[j];
    assert EpochWaiter(st.sets, h, w) && FreshFor(h, w) && GenOk(st.sets[i], h.removals[i]);
    if w.semid == MakeId(i, Reused(st.sets[i])) {
      AdvanceStep(1, h.removals[i]);
      AdvanceStep(1, 0);
      hide Advance;
      IdRoundTrip(i, Reused(st.sets[i]));
      AdvanceInjective(h.epochs[w.id], h.removals[i]);
    }
  }

  function Bump(removals: seq<nat>, slot: Option<nat>): (r: seq<nat>)
    ensures |r| == |removals|
  {
    if slot.Some? && slot.value < |removals| then removals[slot.value := removals[slot.value] + 1] else removals
  }

  function RemovedSlot(st: Store, call: Call): Option<nat>
    requires |st.sets| == MAX_SETS
  {
    if call.RemoveCall? then FindSet(st, call.semid) else None
  }

  lemma CallEpochs(st: Store, queue: seq<Waiter>, h: History, call: Call, now: i64)
    requires Valid(st) && EpochOk(st, queue, h) && !call.AdjustWaitCall?
    ensures EpochOk(Apply(st, call, now).store, queue, h.(removals := Bump(h.removals, RemovedSlot(st, call))))
  {
    var st' := Apply(st, call, now).store;
    var h' := h.(removals := Bump(h.removals, RemovedSlot(st, call)));
    ApplyValid(st, call, now);
    hide Valid, Apply, Advance, DecodeId;
    ShapeOf(st);
    ShapeOf(st');
    CallSlots(st, queue, h, call, now);
    forall j | 0 <= j < |queue|
      ensures EpochWaiter(st'.sets, h', queue[j])
    {
      assert EpochWaiter(st.sets, h, queue[j]);
      var i := DecodeId(queue[j].semid).value.0;
      SlotInRange(queue[j].semid);
      CallSlot(st, call, now, i);
    }
  }

  lemma CallSlots(st: Store, queue: seq<Waiter>, h: History, call: Call, now: i64)
    requires Valid(st) && Shape(st) && EpochOk(st, queue, h) && !call.AdjustWaitCall?
    requires Shape(Apply(st, call, now).store)
    ensures var h' := h.(removals := Bump(h.removals, RemovedSlot(st, call)));
            |h'.removals| == MAX_SETS &&
            forall i :: 0 <= i < MAX_SETS ==> GenOk(Apply(st, call, now).store.sets[i], h'.removals[i])
  {
    hide Valid, Apply, Advance, EpochWaiter;
    forall i | 0 <= i < MAX_SETS
      ensures GenOk(Apply(st, call, now).store.sets[i], Bump(h.removals, RemovedSlot(st, call))[i])
    {
      CallSlot(st, call, now, i);
      assert GenOk(st.sets[i], h.removals[i]);
      AdvanceStep(1, h.removals[i]);
    }
  }

  lemma SlotInRange(semid: i32)
    requires DecodeId(semid).Some?
    ensures DecodeId(semid).value.0 < MAX_SETS
  {
  }

  /** Changing only counters keeps epochs. */
  lemma AdjustEpochs(st: Store, queue: seq<Waiter>, h: History, semid: i32, semNum: nat, forZero: bool, up: bool)
    requires Valid(st) && EpochOk(st, queue, h)
    ensures EpochOk(AdjustWait(st, semid, semNum, forZero, up).store, queue, h)
  {
    var st' := AdjustWait(st, semid, semNum, forZero, up).store;
    hide Valid, Advance;
    ShapeOf(st);
    forall i | 0 <= i < MAX_SETS ensures GenOk(st'.sets[i], h.removals[i]) && st'.sets[i].active == st.sets[i].active {
      assert GenOk(st.sets[i], h.removals[i]);
    }
    forall j | 0 <= j < |queue| ensures EpochWaiter(st'.sets, h, queue[j]) {
      assert EpochWaiter(st.sets, h, queue[j]);
      SlotInRange(queue[j].semid);
    }
  }

  /** A waiter on a live set joins with the current number of removals as its epoch. */
  lemma JoinEpoch(st: Store, queue: seq<Waiter>, h: History, w: Waiter)
    requires Valid(st) && EpochOk(st, queue, h) && FindSet(st, w.semid).Some?
    requires forall j :: 0 <= j < |queue| ==> queue[j].id != w.id
    ensures SlotOf(w.semid) < |h.removals|
    ensures EpochOk(st, queue + [w], h.(epochs := h.epochs[w.id := h.removals[SlotOf(w.semid)]]))
  {
    var i := FindSet(st, w.semid).value;
    LiveId(st, w.semid, i);
    assert GenOk(st.sets[i], h.removals[i]);
    var h' := h.(epochs := h.epochs[w.id := h.removals[SlotOf(w.semid)]]);
    var q := queue + [w];
    hide Advance, Valid;
    forall j | 0 <= j < |q| ensures EpochWaiter(st.sets, h', q[j]) {
      if j < |queue| { assert EpochWaiter(st.sets, h, queue[j]); }
    }
  }

  lemma LeaveEpoch(st: Store, queue: seq<Waiter>, h: History, at: nat)
    requires EpochOk(st, queue, h) && at < |queue|
    ensures EpochOk(st, Without(queue, at), h)
  {
    hide Advance, DecodeId;
    var r := Without(queue, at);
    forall j | 0 <= j < |r| ensures EpochWaiter(st.sets, h, r[j]) {
      assert EpochWaiter(st.sets, h, queue[if j < at then j else j + 1]);
    }
  }

  // ---------------------------------------------------------------- counters under store calls

  /** Calls keep the counters right, slot reuse included, as long as no waiter is 32767 removals old. */
  lemma CallCounts(st: Store, queue: seq<Waiter>, h: History, call: Call, now: i64)
    requires Valid(st) && EpochOk(st, queue, h) && Fresh(queue, h) && CountOk(st, queue) && !call.AdjustWaitCall?
    ensures Shape(Apply(st, call, now).store) && CountOk(Apply(st, call, now).store, queue)
  {
    var st' := Apply(st, call, now).store;
    ApplyValid(st, call, now);
    hide Valid, Apply, Advance, DecodeId, CountQueue, Fresh, EpochOk;
    ShapeOf(st);
    ShapeOf(st');
    forall i | 0 <= i < MAX_SETS ensures CountsSlot(st'.sets, queue, i) {
      CallSlot(st, call, now, i);
      assert CountsSlot(st.sets, queue, i);
      if st'.sets[i].active && !st.sets[i].active && st'.sets[i] != st.sets[i] {
        NewSlotCounts(st, queue, h, i, st'.sets);
      }
    }
  }

  lemma NewSlotCounts(st: Store, queue: seq<Waiter>, h: History, i: nat, sets: seq<SemSet>)
    requires EpochOk(st, queue, h) && Fresh(queue, h) && Shape(st) && i < MAX_SETS && !st.sets[i].active
    requires |sets| == MAX_SETS && ShapedSet(sets[i]) && sets[i].active && sets[i].generation == Reused(st.sets[i])
    requires sets[i].negWaiters == Zeros(|sets[i].values|) && sets[i].zeroWaiters == Zeros(|sets[i].values|)
    ensures CountsSlot(sets, queue, i)
  {
    hide CountQueue, EpochOk, Fresh;
    var id := MakeId(i, sets[i].generation);
    forall j | 0 <= j < |queue| ensures queue[j].semid != id {
      FreshIdUnused(st, queue, h, i, j);
    }
    forall k: nat, forZero: bool | k < |sets[i].values|
      ensures CountQueue(queue, id, k, forZero, |queue|) == 0
    {
      CountZero(queue, id, k, forZero, |queue|);
    }
  }

  /** Exactly when: a new set starts with correct counters if and only if no queued waiter already holds its identifier
      under some semaphore of it. */
  lemma NewSetCountsIff(st: Store, queue: seq<Waiter>, key: i32, nsems: i32, flags: int, who: Identity, now: i64)
    requires Valid(st) && CountOk(st, queue)
    requires var r := Get(st, key, nsems, flags, who, now, false); r.code > 0 && r.store != st
    ensures var r := Get(st, key, nsems, flags, who, now, false);
            Shape(r.store) &&
            (CountOk(r.store, queue) <==>
             forall j :: 0 <= j < |queue| ==> !(queue[j].semid == r.code && queue[j].reason.semNum < nsems))
  {
    GetValid(st, key, nsems, flags, who, now, false);
    var r := Get(st, key, nsems, flags, who, now, false);
    var slot := FindSlot(st.sets);
    ShapeOf(r.store);
    if CountOk(r.store, queue) {
      assert CountsSlot(r.store.sets, queue, slot);
      forall j | 0 <= j < |queue|
        ensures !(queue[j].semid == r.code && queue[j].reason.semNum < nsems)
      {
        var k, z := queue[j].reason.semNum, queue[j].reason.forZero;
        CountWithout(queue, j, r.code, k, z, |queue|);
        assert k < nsems ==> Counter(r.store.sets[slot], z)[k] == 0;
      }
    }
    if forall j :: 0 <= j < |queue| ==> !(queue[j].semid == r.code && queue[j].reason.semNum < nsems) {
      forall i | 0 <= i < MAX_SETS ensures CountsSlot(r.store.sets, queue, i) {
        assert CountsSlot(st.sets, queue, i);
        if i == slot {
          forall k: nat, forZero: bool | k < nsems
            ensures CountQueue(queue, r.code, k, forZero, |queue|) == 0
          {
            CountNone(queue, r.code, k, forZero, |queue|);
          }
        }
      }
    }
  }

  lemma {:induction false} CountNone(queue: seq<Waiter>, semid: int, k: int, forZero: bool, n: nat)
    requires n <= |queue| && forall j :: 0 <= j < n ==> !CountedAs(queue[j], semid, k, forZero)
    ensures CountQueue(queue, semid, k, forZero, n) == 0
  {
    if n > 0 { CountNone(queue, semid, k, forZero, n - 1); }
  }
}
