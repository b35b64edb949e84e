/**
 What becomes of a sleeper that wakes, over every run: who may retry, who times
 out and with what answer, who gives up and who goes back to sleep.
 */
module BrokerWakes {
  import opened SemTypes
  import opened Wire
  import opened Protocol
  import opened StoreModel
  import opened StoreValid
  import opened Timeouts
  import opened Messages
  import opened Remote
  import opened BrokerModel
  import opened BrokerSafety
  import opened BrokerShape
  import opened BrokerHistory
  import opened BrokerEpochs
  import opened BrokerCoverage
  import opened BrokerTidy
  import opened BrokerSteps
  import opened BrokerRuns
  import opened BrokerAnswers

  /** The waiter at `at` leaves a broker whose store is `st` by then: its count is taken back, the others keep their
      places and are woken, and nobody's watcher changes. */
  ghost predicate Leaves(b: Broker, at: nat, st: Store, b': Broker)
    requires Shape(st) && at < |b.queue|
  {
    var w := b.queue[at];
    && b'.store == AdjustWait(st, w.semid, w.reason.semNum, w.reason.forZero, false).store
    && b'.watchers == b.watchers && |b'.queue| == |b.queue| - 1
    && forall j :: 0 <= j < |b'.queue| ==> b'.queue[j] == b.queue[if j < at then j else j + 1].(signalled := true)
  }

  /** The waiter goes back to sleep where it was, having last waited for `last`; nothing else changes. */
  predicate Stays(b: Broker, at: nat, last: WaitReason, b': Broker)
    requires at < |b.queue|
  {
    b' == b.(queue := b.queue[at := b.queue[at].(signalled := false, last := last)])
  }

  /** It stays asleep, or gives up if sleeping fails. */
  ghost predicate SleepsOn(b: Broker, at: nat, last: WaitReason, world: World, o: Outcome)
    requires Shape(b.store) && at < |b.queue|
  {
    if world.sleepFailure == 0 then o.reply == Nothing && o.fate == Asleep && Stays(b, at, last, o.broker)
    else GivesUp(b, at, world.sleepFailure, o)
  }

  ghost predicate GivesUp(b: Broker, at: nat, error: int, o: Outcome)
    requires Shape(b.store) && at < |b.queue|
  {
    o.reply == Hangup(-error) && o.fate == Broken && Leaves(b, at, b.store, o.broker)
  }

  /** A pass of the retry loop: nothing is tried for a closed peer or behind an earlier waiter for the same set;
      otherwise the store's own semop decides. */
  ghost predicate Passed(b: Broker, at: nat, world: World, o: Outcome)
    requires Shape(b.store) && at < |b.queue| && WaiterOk(b.queue[at])
  {
    var w := b.queue[at];
    var r := TryOp(b.store, w.semid, OpsOf(w), w.actor.pid, world.realNow);
    if world.peerClosed then
      && o.reply == Answered(Respond(w.request, 1, Waits(w.last))) && o.fate == PeerGone
      && Leaves(b, at, b.store, o.broker)
    else if exists j :: 0 <= j < at && b.queue[j].semid == w.semid then SleepsOn(b, at, w.last, world, o)
    else if r.code == 1 then r.answer.Waits? && SleepsOn(b, at, r.answer.reason, world, o)
    else
      && Encodable(r.code, r.answer) && Shape(r.store)
      && o.reply == Answered(Respond(w.request, r.code, r.answer)) && o.fate == Retried(r.code)
      && Leaves(b, at, r.store, o.broker)
  }

  lemma DepartLeaves(b: Broker, at: nat)
    requires Shape(b.store) && at < |b.queue|
    ensures Leaves(b, at, b.store, Depart(b, at))
  {
    hide AdjustWait;
  }

  /** The same once the batch has been committed. */
  lemma DepartAfter(b: Broker, at: nat, st: Store)
    requires Shape(st) && at < |b.queue|
    ensures Leaves(b, at, st, Depart(b.(store := st), at))
  {
    hide AdjustWait;
  }

  lemma SleepIs(b: Broker, at: nat, last: WaitReason, world: World)
    requires Valid(b.store) && Shape(b.store) && at < |b.queue|
    ensures SleepsOn(b, at, last, world, Sleep(b.(queue := b.queue[at := b.queue[at].(last := last)]), at, world))
  {
    hide Valid, AdjustWait;
    var b' := b.(queue := b.queue[at := b.queue[at].(last := last)]);
    if world.sleepFailure == 0 {
      assert b'.queue[at := b'.queue[at].(signalled := false)] ==
             b.queue[at := b.queue[at].(signalled := false, last := last)];
    } else {
      var after := Depart(b', at);
      assert forall j :: 0 <= j < |after.queue| ==>
             after.queue[j] == b'.queue[if j < at then j else j + 1].(signalled := true);
    }
  }

  lemma SettlePasses(b: Broker, at: nat, world: World)
    requires Valid(b.store) && Shape(b.store) && at < |b.queue| && WaiterOk(b.queue[at])
    ensures Passed(b, at, world, Settle(b, at, world))
  {
    hide Valid, Dispatch, ParseOps, TryOp, Encodable, Respond, ReadReason, AdjustWait, Sleep, Depart, Leaves, SleepsOn;
    var w := b.queue[at];
    DepartLeaves(b, at);
    assert b.queue[at := w.(last := w.last)] == b.queue;
    SleepIs(b, at, w.last, world);
    var r := TryOp(b.store, w.semid, OpsOf(w), w.actor.pid, world.realNow);
    WaiterDispatch(b.store, w, world.realNow, world.noMemory);
    RespondHeader(w.request, r.code, r.answer);
    BlocksIff(b.store, w.semid, OpsOf(w), w.actor.pid, world.realNow);
    TryOpValid(b.store, w.semid, OpsOf(w), w.actor.pid, world.realNow);
    ShapeOf(r.store);
    DepartAfter(b, at, r.store);
    if r.code == OP_BLOCKED {
      ReasonReadsBack(w.request, r.answer.reason);
      SleepIs(b, at, r.answer.reason, world);
    }
  }

  /** The answer to a request whose time is up: it answers that request, says -EAGAIN and carries nothing. */
  predicate SaysTimeUp(request: Packet, reply: Reply) {
    && reply.Answered? && Correlated(request, reply.response)
    && reply.response.header.result == -11 && reply.response.payload == []
  }

  /** The whole of a wake-up. `due` says that the request is timed and its time is up. */
  ghost predicate Woken(b: Broker, at: nat, timed: bool, due: bool, world: World, o: Outcome)
    requires Shape(b.store) && at < |b.queue| && WaiterOk(b.queue[at])
  {
    if world.waitFailure != 0 then GivesUp(b, at, world.waitFailure, o)
    else if timed && world.clockFailure != 0 then GivesUp(b, at, world.clockFailure, o)
    else if due then SaysTimeUp(b.queue[at].request, o.reply) && o.fate == TimedOut && Leaves(b, at, b.store, o.broker)
    else Passed(b, at, world, o)
  }

  lemma WakeIs(b: Broker, at: nat, world: World)
    requires Valid(b.store) && Shape(b.store) && at < |b.queue| && WaiterOk(b.queue[at])
    ensures var deadline := b.queue[at].deadline;
            var due := deadline.Some? && Compare(world.now, deadline.value) >= 0;
            Woken(b, at, deadline.Some?, due, world, Wake(b, at, world))
  {
    hide Valid, Settle, Depart, Leaves, Passed, ParseOps, Compare;
    DepartLeaves(b, at);
    SettlePasses(b, at, world);
  }

  /** When the request of a queued waiter was submitted, and how long it may wait. */
  ghost predicate Timing(s: System, at: nat, timed: bool, start: Time, timeout: i64)
    requires at < |s.broker.queue|
  {
    var w := s.broker.queue[at];
    && w.id in s.history.starts && start == s.history.starts[w.id]
    && (timed <==> w.request.header.opcode == 14)
    && (timed ==> |w.request.payload| >= 16 && timeout == GetI64(w.request.payload, 8) && timeout >= 0)
  }

  /** Over every run: a wake-up whose wait and clock do not fail times out exactly when its request is timed and its
      timeout has passed since it was submitted; it is then answered -EAGAIN, in a packet that answers that request, and
      no value and no adjustment changes. Any other wake-up is a pass of the retry loop. */
  lemma WakeMeans(steps: seq<Step>, at: nat, world: World, timed: bool, start: Time, timeout: i64)
    requires BrokerRuns.Run(steps).Some? && at < |BrokerRuns.Run(steps).value.broker.queue|
    requires Timing(BrokerRuns.Run(steps).value, at, timed, start, timeout)
    ensures var s := BrokerRuns.Run(steps).value;
            && Shape(s.broker.store) && WaiterOk(s.broker.queue[at])
            && Woken(s.broker, at, timed, timed && Compare(world.now, Deadline(start, timeout)) >= 0, world,
                     Act(s, WakeStep(at, world)))
  {
    hide BrokerRuns.Run, Good, Safe, Tidy, Wake, Woken, ParseOps, Deadline, Compare, SceneOf;
    var s := BrokerRuns.Run(steps).value;
    GoodSafe(s);
    SafeParts(s.broker);
    WaiterAt(s.broker, at);
    WakeIs(s.broker, at, world);
    DeadlineKept(s, at);
  }

  lemma DeadlineKept(s: System, at: nat)
    requires Good(s) && at < |s.broker.queue|
    ensures DeadlineOk(s.broker.queue[at], s.history)
  {
    hide Safe, SceneOk, FifoOk, EpochOk, KnownOrphans, CountsOk, Covered, Deadline;
    assert DeadlineOk(SceneOf(s.broker).queue[at], s.history);
  }

  // ---------------------------------------------------------------- who retries

  /** The waiter wakes with no failure, an open peer and time left. */
  ghost predicate Calm(s: System, at: nat, world: World, timed: bool, start: Time, timeout: i64)
    requires at < |s.broker.queue|
  {
    && Timing(s, at, timed, start, timeout)
    && world.waitFailure == 0 && world.clockFailure == 0 && !world.peerClosed
    && (timed ==> Compare(world.now, Deadline(start, timeout)) < 0)
  }

  /** No earlier waiter is queued for the same set. */
  predicate Foremost(queue: seq<Waiter>, at: nat)
    requires at < |queue|
  {
    forall j :: 0 <= j < at ==> queue[j].semid != queue[at].semid
  }

  /** Over every run: a sleeper with no earlier waiter for its set that wakes with no failure, an open peer and time
      left is answered exactly when the store's semop does not block now, with the code and data of that semop, whose
      effect on the store stays. */
  lemma FirstIsServed(steps: seq<Step>, at: nat, world: World, timed: bool, start: Time, timeout: i64)
    requires BrokerRuns.Run(steps).Some? && at < |BrokerRuns.Run(steps).value.broker.queue|
    requires Foremost(BrokerRuns.Run(steps).value.broker.queue, at)
    requires Calm(BrokerRuns.Run(steps).value, at, world, timed, start, timeout)
    ensures var s := BrokerRuns.Run(steps).value;
            && Shape(s.broker.store) && WaiterOk(s.broker.queue[at])
            && Served(s.broker, at, world, Act(s, WakeStep(at, world)))
  {
    hide BrokerRuns.Run, Good, Safe, Act, Leaves, SleepsOn, ParseOps, Compare, Deadline, TryOp;
    WakeMeans(steps, at, world, timed, start, timeout);
  }

  ghost predicate Served(b: Broker, at: nat, world: World, o: Outcome)
    requires Shape(b.store) && at < |b.queue| && WaiterOk(b.queue[at])
  {
    var w := b.queue[at];
    var r := TryOp(b.store, w.semid, OpsOf(w), w.actor.pid, world.realNow);
    if r.code == 1 then r.answer.Waits? && SleepsOn(b, at, r.answer.reason, world, o)
    else
      && Encodable(r.code, r.answer) && Shape(r.store)
      && o.reply == Answered(Respond(w.request, r.code, r.answer)) && Leaves(b, at, r.store, o.broker)
  }

  /** And behind an earlier waiter for its set nothing is tried: it goes back to sleep, whatever the store holds. */
  lemma LaterWaits(steps: seq<Step>, at: nat, earlier: nat, world: World, timed: bool, start: Time, timeout: i64)
    requires BrokerRuns.Run(steps).Some? && earlier < at < |BrokerRuns.Run(steps).value.broker.queue|
    requires var queue := BrokerRuns.Run(steps).value.broker.queue; queue[earlier].semid == queue[at].semid
    requires Calm(BrokerRuns.Run(steps).value, at, world, timed, start, timeout)
    ensures var s := BrokerRuns.Run(steps).value;
            && Shape(s.broker.store)
            && SleepsOn(s.broker, at, s.broker.queue[at].last, world, Act(s, WakeStep(at, world)))
  {
    hide BrokerRuns.Run, Good, Safe, Act, Leaves, SleepsOn, ParseOps, Compare, Deadline, TryOp;
    WakeMeans(steps, at, world, timed, start, timeout);
  }

  // ---------------------------------------------------------------- who times out

  lemma WokenFate(b: Broker, at: nat, timed: bool, due: bool, world: World, o: Outcome)
    requires Shape(b.store) && at < |b.queue| && WaiterOk(b.queue[at]) && Woken(b, at, timed, due, world, o)
    ensures o.fate == TimedOut <==> world.waitFailure == 0 && (timed ==> world.clockFailure == 0) && due
  {
    hide Leaves, Stays, ParseOps, TryOp, Respond;
  }

  /** Over every run, with clocks that work and a deadline in range, a wake-up times out exactly when its request is
      timed and at least its timeout has passed since it was submitted. */
  lemma TimeoutIff(steps: seq<Step>, at: nat, world: World, timed: bool, start: Time, timeout: i64)
    requires BrokerRuns.Run(steps).Some? && at < |BrokerRuns.Run(steps).value.broker.queue|
    requires Timing(BrokerRuns.Run(steps).value, at, timed, start, timeout)
    requires world.waitFailure == 0 && world.clockFailure == 0
    requires Normal(world.now) && Normal(start) && (timed ==> start.sec + timeout / 1_000_000_000 <= INT_MAX)
    ensures Act(BrokerRuns.Run(steps).value, WakeStep(at, world)).fate == TimedOut <==>
            timed && Nanos(world.now) >= Nanos(start) + timeout
  {
    hide BrokerRuns.Run, Good, Safe, Act, Woken, ParseOps, Compare, Deadline, TryOp;
    GoodSafe(BrokerRuns.Run(steps).value);
    WakeMeans(steps, at, world, timed, start, timeout);
    var s := BrokerRuns.Run(steps).value;
    WokenFate(s.broker, at, timed, timed && Compare(world.now, Deadline(start, timeout)) >= 0, world,
              Act(s, WakeStep(at, world)));
    if timed {
      DeadlineExact(start, timeout);
      CompareIsOrder(world.now, Deadline(start, timeout));
    }
  }

  /** The caller of a request that times out gets -EAGAIN and no data, and the store it sees next holds the same values,
      last processes and adjustments. */
  lemma TimeoutAnswer(steps: seq<Step>, at: nat, world: World, c: ClientCall, id: u32)
    requires BrokerRuns.Run(steps).Some? && at < |BrokerRuns.Run(steps).value.broker.queue| && Build(c).Ok?
    requires BrokerRuns.Run(steps).value.broker.queue[at].request == Sent(c, id)
    requires Act(BrokerRuns.Run(steps).value, WakeStep(at, world)).fate == TimedOut
    ensures var b := BrokerRuns.Run(steps).value.broker;
            var o := Act(BrokerRuns.Run(steps).value, WakeStep(at, world));
            && o.reply.Answered? && Correlated(Sent(c, id), o.reply.response)
            && Interpret(c, o.reply.response) == ClientReply(-11, NoData)
            && SameReadings(b.store, o.broker.store)
  {
    hide BrokerRuns.Run, Good, Safe, Act, Leaves, SleepsOn, ParseOps, Compare, Deadline, TryOp, Build, Correlated;
    var s := BrokerRuns.Run(steps).value;
    GoodSafe(s);
    DeadlineKept(s, at);
    var w := s.broker.queue[at];
    var timed := w.request.header.opcode == SEMTIMEDOP;
    var start := s.history.starts[w.id];
    var timeout := if timed then GetI64(w.request.payload, 8) else 0;
    WakeMeans(steps, at, world, timed, start, timeout);
    WokenFate(s.broker, at, timed, timed && Compare(world.now, Deadline(start, timeout)) >= 0, world,
              Act(s, WakeStep(at, world)));
    LeaveReads(s.broker, at, Act(s, WakeStep(at, world)).broker);
    EmptyReply(c, Act(s, WakeStep(at, world)).reply.response);
    SemopIsOperate(c, id);
  }

  /** Every set holds the same values and last processes, and every process owes the same. */
  predicate SameReadings(st: Store, st': Store) {
    && st'.undo == st.undo && |st'.sets| == |st.sets|
    && forall i :: 0 <= i < |st.sets| ==>
         && st'.sets[i].active == st.sets[i].active && st'.sets[i].generation == st.sets[i].generation
         && st'.sets[i].values == st.sets[i].values && st'.sets[i].lastPids == st.sets[i].lastPids
         && st'.sets[i].meta == st.sets[i].meta
  }

  lemma LeaveReads(b: Broker, at: nat, b': Broker)
    requires Shape(b.store) && at < |b.queue| && Leaves(b, at, b.store, b')
    ensures SameReadings(b.store, b'.store)
  {
    hide DecodeId;
  }

  lemma EmptyReply(c: ClientCall, p: Packet)
    requires p.payload == [] && p.header.result == -11
    ensures Interpret(c, p) == ClientReply(-11, NoData)
  {
  }
}
