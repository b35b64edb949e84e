/** What an observer of the broker records, the order of retries, and the wait counters as counts of the queue. */
module BrokerHistory {
  import opened SemTypes
  import opened StoreModel
  import opened StoreValid
  import opened Timeouts
  import opened BrokerModel
  import opened BrokerSafety

  /** A batch committed on retry: its set and the place its waiter had in the order of arrival. */
  datatype Commit = Commit(semid: i32, id: nat)

  /** What an observer has seen: the retry log, removals per slot, removals of its slot and the time when each
      waiter joined, and the waiters whose process has been seen to exit. `current` says that no waiter has yet been
      queued through 32767 removals of its slot, `closed` that no retry has yet found an exited process's
      connection open. */
  datatype History = History(
    nextId: nat,
    log: seq<Commit>,
    removals: seq<nat>,
    epochs: map<nat, nat>,
    starts: map<nat, Time>,
    orphans: set<nat>,
    current: bool,
    closed: bool)

  // ---------------------------------------------------------------- order of retries

  ghost predicate FifoOk(queue: seq<Waiter>, h: History) {
    && (forall j :: 0 <= j < |queue| ==> queue[j].id < h.nextId)
    && (forall i, j :: 0 <= i < |h.log| && 0 <= j < |queue| && h.log[i].semid == queue[j].semid ==>
          h.log[i].id < queue[j].id)
    && (forall i, j :: 0 <= i < j < |h.log| && h.log[i].semid == h.log[j].semid ==> h.log[i].id < h.log[j].id)
    && (forall i :: 0 <= i < |h.log| ==> h.log[i].id < h.nextId)
  }

  lemma FifoJoin(queue: seq<Waiter>, h: History, w: Waiter)
    requires FifoOk(queue, h) && w.id == h.nextId
    ensures FifoOk(queue + [w], h.(nextId := h.nextId + 1))
  {
  }

  lemma FifoLeave(queue: seq<Waiter>, h: History, i: nat)
    requires FifoOk(queue, h) && i < |queue|
    ensures FifoOk(Without(queue, i), h)
  {
    var r := Without(queue, i);
    assert forall j :: 0 <= j < |r| ==> r[j] == if j < i then queue[j] else queue[j + 1];
  }

  /** The first waiter for a set commits and leaves: it is older than everyone still waiting for that set. */
  lemma FifoCommit(queue: seq<Waiter>, h: History, i: nat)
    requires QueueOk(queue) && FifoOk(queue, h) && i < |queue| && IsFirst(queue, i)
    ensures FifoOk(Without(queue, i), h.(log := h.log + [Commit(queue[i].semid, queue[i].id)]))
  {
    hide WaiterOk;
    var r := Without(queue, i);
    assert forall j :: 0 <= j < |r| ==> r[j] == if j < i then queue[j] else queue[j + 1];
    var c := Commit(queue[i].semid, queue[i].id);
    forall j | 0 <= j < |r| && r[j].semid == c.semid
      ensures c.id < r[j].id
    {
      assert j >= i;
      assert queue[i].id < queue[j + 1].id;
    }
  }

  // ---------------------------------------------------------------- wait counters

  predicate CountedAs(w: Waiter, semid: int, k: int, forZero: bool) {
    w.semid == semid && w.reason.semNum == k && w.reason.forZero == forZero
  }

  function CountQueue(queue: seq<Waiter>, semid: int, k: int, forZero: bool, n: nat): nat
    requires n <= |queue|
  {
    if n == 0 then 0
    else CountQueue(queue, semid, k, forZero, n - 1) + if CountedAs(queue[n - 1], semid, k, forZero) then 1 else 0
  }

  /** The counters of slot `i` equal the number of queued waiters recorded under its identifier. */
  ghost predicate CountsSlot(sets: seq<SemSet>, queue: seq<Waiter>, i: nat)
    requires i < |sets| && ShapedSet(sets[i])
  {
    sets[i].active ==>
      forall k: nat, forZero: bool :: k < |sets[i].values| ==>
        Counter(sets[i], forZero)[k] == CountQueue(queue, MakeId(i, sets[i].generation), k, forZero, |queue|)
  }

  ghost predicate CountOk(st: Store, queue: seq<Waiter>)
    requires Shape(st)
  {
    forall i :: 0 <= i < MAX_SETS ==> CountsSlot(st.sets, queue, i)
  }

  lemma {:induction false} CountAppend(queue: seq<Waiter>, w: Waiter, semid: int, k: int, forZero: bool, n: nat)
    requires n <= |queue|
    ensures CountQueue(queue + [w], semid, k, forZero, n) == CountQueue(queue, semid, k, forZero, n)
  {
    if n > 0 { CountAppend(queue, w, semid, k, forZero, n - 1); }
  }

  lemma {:induction false} CountWithout(queue: seq<Waiter>, i: nat, semid: int, k: int, forZero: bool, n: nat)
    requires i < |queue| && n <= |queue|
    ensures CountQueue(Without(queue, i), semid, k, forZero, if n <= i then n else n - 1) ==
            CountQueue(queue, semid, k, forZero, n) - if i < n && CountedAs(queue[i], semid, k, forZero) then 1 else 0
  {
    if n > 0 {
      CountWithout(queue, i, semid, k, forZero, n - 1);
      var r := Without(queue, i);
      assert n - 1 < i ==> r[n - 1] == queue[n - 1];
      assert n - 1 > i ==> r[n - 2] == queue[n - 1];
    }
  }

  lemma {:induction false} CountZero(queue: seq<Waiter>, semid: int, k: int, forZero: bool, n: nat)
    requires n <= |queue| && forall j :: 0 <= j < n ==> queue[j].semid != semid
    ensures CountQueue(queue, semid, k, forZero, n) == 0
  {
    if n > 0 { CountZero(queue, semid, k, forZero, n - 1); }
  }

  /** Joining the queue raises exactly the counter the waiter is recorded under. */
  lemma CountJoin(st: Store, queue: seq<Waiter>, w: Waiter)
    requires Valid(st) && CountOk(st, queue)
    requires AdjustWait(st, w.semid, w.reason.semNum, w.reason.forZero, true).code == 0
    ensures var st' := AdjustWait(st, w.semid, w.reason.semNum, w.reason.forZero, true).store;
            Shape(st') && CountOk(st', queue + [w])
  {
    AdjustWaitValid(st, w.semid, w.reason.semNum, w.reason.forZero, true);
    var st' := AdjustWait(st, w.semid, w.reason.semNum, w.reason.forZero, true).store;
    var at := FindSet(st, w.semid).value;
    forall i | 0 <= i < MAX_SETS
      ensures CountsSlot(st'.sets, queue + [w], i)
    {
      assert CountsSlot(st.sets, queue, i);
      CountJoinSlot(st, queue, w, i);
    }
  }

  lemma CountJoinSlot(st: Store, queue: seq<Waiter>, w: Waiter, i: nat)
    requires Valid(st) && i < MAX_SETS && CountsSlot(st.sets, queue, i)
    requires AdjustWait(st, w.semid, w.reason.semNum, w.reason.forZero, true).code == 0
    ensures var st' := AdjustWait(st, w.semid, w.reason.semNum, w.reason.forZero, true).store;
            |st'.sets| == MAX_SETS && ShapedSet(st'.sets[i]) && CountsSlot(st'.sets, queue + [w], i)
  {
    hide Valid, CountQueue;
    ShapeOf(st);
    var st' := AdjustWait(st, w.semid, w.reason.semNum, w.reason.forZero, true).store;
    if st.sets[i].active {
      LiveId(st, w.semid, i);
      forall k: nat, forZero: bool | k < |st.sets[i].values|
        ensures CountQueue(queue + [w], MakeId(i, st.sets[i].generation), k, forZero, |queue + [w]|) ==
                CountQueue(queue, MakeId(i, st.sets[i].generation), k, forZero, |queue|) +
                if CountedAs(w, MakeId(i, st.sets[i].generation), k, forZero) then 1 else 0
      {
        CountLast(queue, w, MakeId(i, st.sets[i].generation), k, forZero);
      }
    }
  }

  lemma CountLast(queue: seq<Waiter>, w: Waiter, semid: int, k: int, forZero: bool)
    ensures CountQueue(queue + [w], semid, k, forZero, |queue| + 1) ==
            CountQueue(queue, semid, k, forZero, |queue|) + if CountedAs(w, semid, k, forZero) then 1 else 0
  {
    CountAppend(queue, w, semid, k, forZero, |queue|);
  }

  lemma LiveId(st: Store, semid: i32, i: nat)
    requires Valid(st) && i < MAX_SETS && st.sets[i].active
    ensures st.sets[i].generation > 0
    ensures FindSet(st, semid) == Some(i) <==> semid == MakeId(i, st.sets[i].generation)
  {
    assert ValidSet(st.sets[i]);
    FindSetIsId(st, semid, i);
  }

  /** Leaving the queue lowers exactly that counter; the decrement fails only when the set is gone. */
  lemma CountLeave(st: Store, queue: seq<Waiter>, at: nat)
    requires Valid(st) && CountOk(st, queue) && at < |queue|
    ensures var w := queue[at];
            var r := AdjustWait(st, w.semid, w.reason.semNum, w.reason.forZero, false);
            && Shape(r.store) && CountOk(r.store, Without(queue, at))
            && (FindSet(st, w.semid).Some? && w.reason.semNum < |st.sets[FindSet(st, w.semid).value].values| ==>
                  r.code == 0)
  {
    var w := queue[at];
    AdjustWaitValid(st, w.semid, w.reason.semNum, w.reason.forZero, false);
    var r := AdjustWait(st, w.semid, w.reason.semNum, w.reason.forZero, false);
    forall i | 0 <= i < MAX_SETS
      ensures CountsSlot(r.store.sets, Without(queue, at), i)
    {
      assert CountsSlot(st.sets, queue, i);
      CountLeaveSlot(st, queue, at, i);
    }
    if FindSet(st, w.semid).Some? && w.reason.semNum < |st.sets[FindSet(st, w.semid).value].values| {
      CountedLive(st, queue, at);
    }
  }

  lemma CountedLive(st: Store, queue: seq<Waiter>, at: nat)
    requires Valid(st) && CountOk(st, queue) && at < |queue|
    requires FindSet(st, queue[at].semid).Some?
    requires queue[at].reason.semNum < |st.sets[FindSet(st, queue[at].semid).value].values|
    ensures Counter(st.sets[FindSet(st, queue[at].semid).value], queue[at].reason.forZero)[queue[at].reason.semNum] > 0
  {
    hide Valid;
    ShapeOf(st);
    var w := queue[at];
    var i := FindSet(st, w.semid).value;
    LiveId(st, w.semid, i);
    assert CountsSlot(st.sets, queue, i);
    CountWithout(queue, at, w.semid, w.reason.semNum, w.reason.forZero, |queue|);
  }

  /** What taking back a count does to one counter of a live set. */
  lemma LeaveCounter(st: Store, semid: i32, semNum: nat, forZero: bool, i: nat, k: nat, z: bool)
    requires Shape(st) && i < MAX_SETS && st.sets[i].active && k < |st.sets[i].values|
    ensures var st' := AdjustWait(st, semid, semNum, forZero, false).store;
            var lowers := FindSet(st, semid) == Some(i) && semNum == k && forZero == z && Counter(st.sets[i], z)[k] > 0;
            Counter(st'.sets[i], z)[k] == Counter(st.sets[i], z)[k] - if lowers then 1 else 0
  {
  }

  lemma LeaveSlot(st: Store, semid: i32, semNum: nat, forZero: bool, i: nat)
    requires Shape(st) && i < MAX_SETS
    ensures var st' := AdjustWait(st, semid, semNum, forZero, false).store;
            && |st'.sets| == MAX_SETS && ShapedSet(st'.sets[i]) && st'.sets[i].active == st.sets[i].active
            && st'.sets[i].generation == st.sets[i].generation && |st'.sets[i].values| == |st.sets[i].values|
  {
  }

  lemma CountLeaveSlot(st: Store, queue: seq<Waiter>, at: nat, i: nat)
    requires Valid(st) && i < MAX_SETS && CountOk(st, queue) && at < |queue|
    ensures var w := queue[at];
            var st' := AdjustWait(st, w.semid, w.reason.semNum, w.reason.forZero, false).store;
            |st'.sets| == MAX_SETS && ShapedSet(st'.sets[i]) && CountsSlot(st'.sets, Without(queue, at), i)
  {
    hide Valid, CountQueue, AdjustWait, FindSet;
    ShapeOf(st);
    var w := queue[at];
    var st' := AdjustWait(st, w.semid, w.reason.semNum, w.reason.forZero, false).store;
    LeaveSlot(st, w.semid, w.reason.semNum, w.reason.forZero, i);
    assert CountsSlot(st.sets, queue, i);
    if st.sets[i].active {
      LiveId(st, w.semid, i);
      var id := MakeId(i, st.sets[i].generation);
      var rest := Without(queue, at);
      forall k: nat, z: bool | k < |st.sets[i].values|
        ensures Counter(st'.sets[i], z)[k] == CountQueue(rest, id, k, z, |rest|)
      {
        LeaveCounter(st, w.semid, w.reason.semNum, w.reason.forZero, i, k, z);
        CountWithout(queue, at, id, k, z, |queue|);
      }
    }
  }
}
