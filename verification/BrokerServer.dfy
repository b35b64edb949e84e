/**
 The broker as it runs under its mutex: the store, the linked queue and the
 watcher table changed in place. Every method is proved to be one step of the
 broker model. The two things only the operating system sees, which sleepers a
 broadcast has reached and how the monitor waits, are ghost state.
 */
module BrokerServer {
  import opened SemTypes
  import opened Wire
  import opened Protocol
  import opened StoreModel
  import opened StoreValid
  import opened Messages
  import opened Remote
  import opened Timeouts
  import opened BrokerModel
  import opened SemStore
  import opened WaiterQueue
  import opened Dispatcher
  import opened BrokerSafety

  /** A queued entry as the model sees it. */
  ghost function Seen(node: WaiterNode, awake: set<WaiterNode>): Waiter
    reads node
  {
    node.entry.(signalled := node in awake)
  }

  class BrokerServer {
    const store: SemStore
    const queue: WaiterQueue
    const watchers: array<Watcher>
    ghost var awake: set<WaiterNode>
    ghost var monitor: Monitor

    constructor ()
      ensures Ready() && fresh(store) && fresh(store.sets) && fresh(store.undo) && fresh(queue) && fresh(watchers)
      ensures State() == Broker(Init(), [], seq(MAX_WATCHERS, _ => Watcher(false, 0)), Waiting(false, false))
    {
      store := new SemStore();
      queue := new WaiterQueue();
      watchers := new Watcher[MAX_WATCHERS](_ => Watcher(false, 0));
      awake, monitor := {}, Waiting(false, false);
    }

    ghost predicate Ready()
      reads this, store, store.sets, store.undo, queue, queue.nodes, watchers
    {
      store.Valid() && queue.Valid() && watchers.Length == MAX_WATCHERS
    }

    ghost function Queued(): (r: seq<Waiter>)
      reads this, queue, queue.nodes
      ensures |r| == |queue.nodes| && forall i :: 0 <= i < |r| ==> r[i] == Seen(queue.nodes[i], awake)
    {
      seq(|queue.nodes|, i requires 0 <= i < |queue.nodes| reads this, queue, queue.nodes =>
        Seen(queue.nodes[i], awake))
    }

    ghost function State(): Broker
      requires Ready()
      reads this, store, store.sets, store.undo, queue, queue.nodes, watchers
    {
      Broker(store.State(), Queued(), watchers[..], monitor)
    }

    // -------------------------------------------------------------- the condition variable

    ghost method NotifyAll()
      requires Ready()
      modifies this
      ensures Ready() && State() == Broadcast(old(State()))
    {
      hide StoreValid.Valid, WaiterQueue.Valid, SemStore.Valid;
      awake := set n | n in queue.nodes;
      if monitor.Waiting? { monitor := monitor.(signalled := true); }
      assert Queued() == Raise(old(Queued()));
    }

    // -------------------------------------------------------------- watchers

    method HasWatchers() returns (any: bool)
      ensures any == AnyWatcher(watchers[..])
    {
      for i := 0 to watchers.Length
        invariant forall j :: 0 <= j < i ==> !watchers[j].active
      {
        if watchers[i].active {
          assert watchers[..][i].active;
          return true;
        }
      }
      any := false;
    }

    /** One pass finds the process's watcher and the first free slot together. */
    method WatchProcess(pid: i32, lookup: Fault) returns (result: i32)
      requires Ready()
      modifies this, watchers
      ensures Ready()
      ensures var (b', code) := Watch(old(State()), pid, lookup); State() == b' && result == code
    {
      var available: nat := watchers.Length;
      for i := 0 to watchers.Length
        invariant forall j :: 0 <= j < i ==> !(watchers[j].active && watchers[j].pid == pid)
        invariant available < i || available == watchers.Length
        invariant available < i ==> !watchers[available].active && forall j :: 0 <= j < available ==> watchers[j].active
        invariant available == watchers.Length ==> forall j :: 0 <= j < i ==> watchers[j].active
      {
        if watchers[i].active && watchers[i].pid == pid { return 0; }
        if !watchers[i].active && available == watchers.Length { available := i; }
      }
      if available == watchers.Length { return -ENOSPC; }
      if lookup != 0 { return -(lookup as int); }
      watchers[available] := Watcher(true, pid);
      assert watchers[..] == old(watchers[..])[available := Watcher(true, pid)];
      assert State() == old(State()).(watchers := watchers[..]);
      NotifyAll();
      result := 0;
    }

    // -------------------------------------------------------------- requests

    /** Runs a request against the store. */
    method Dispatch(request: Packet, actor: Actor, now: i64, noMemory: bool) returns (result: int, response: Packet)
      requires Ready() && Sized(request)
      modifies store.sets, store.undo
      ensures Ready()
      ensures match Remote.Dispatch(old(State()).store, request, actor, now, noMemory)
              case Dropped(code) => result == code != 0 && State() == old(State())
              case Replied(st, p) => result == 0 && State() == old(State()).(store := st) && response == p
    {
      hide Parse, Perform, StoreValid.Valid, Encodable, ReplyPayload;
      response := request;
      if actor.pid <= 0 { return -EINVAL, request; }
      if !GoodRequest(request.header) { return -EPROTO, request; }
      var parsed := Parse(request, actor, noMemory);
      ParseErrno(request, actor, noMemory);
      PerformEncodable(store.State(), parsed, now);
      var code, answer := PerformRequest(store, parsed, now);
      response := Respond(request, code, answer);
      result := 0;
    }

    /** Unlinks the waiter, takes back its count whatever that returns, and wakes everyone. */
    method FinishWaiter(node: WaiterNode, ghost i: nat)
      requires Ready() && i < |queue.nodes| && queue.nodes[i] == node
      modifies this, store.sets, queue, queue.nodes
      ensures Ready() && State() == Depart(old(State()), i)
      ensures queue.nodes == Without(old(queue.nodes), i)
    {
      hide StoreValid.Valid, StoreModel.AdjustWait, Broadcast, WaiterQueue.Valid, SemStore.Valid, Queued, Without;
      Leave(node, i);
      var _ := store.AdjustWait(node.entry.semid, node.entry.reason.semNum, node.entry.reason.forZero, false);
      NotifyAll();
    }

    method Leave(node: WaiterNode, ghost i: nat)
      requires Ready() && i < |queue.nodes| && queue.nodes[i] == node
      modifies queue, queue.nodes
      ensures Ready() && State() == old(State()).(queue := Without(old(State()).queue, i))
      ensures queue.nodes == Without(old(queue.nodes), i) && node.entry == old(node.entry)
    {
      hide StoreValid.Valid, WaiterQueue.Valid, SemStore.Valid;
      ghost var was := Queued();
      queue.Remove(node);
      assert Queued() == Without(was, i);
    }

    // -------------------------------------------------------------- blocked operations

    /** Goes to sleep, or gives up if that fails; `until` is when the sleep ends at the latest. */
    method Sleep(node: WaiterNode, ghost i: nat, world: World) returns (reply: Reply, until: Time)
      requires Ready() && i < |queue.nodes| && queue.nodes[i] == node
      modifies this, store.sets, queue, queue.nodes
      ensures Ready()
      ensures var o := BrokerModel.Sleep(old(State()), i, world); State() == o.broker && reply == o.reply
      ensures reply == Nothing ==> until == WakeBy(world.now, old(node.entry.deadline))
    {
      hide StoreValid.Valid, WaiterQueue.Valid, SemStore.Valid, Depart;
      until := SleepLimit(world.now, node.entry.deadline);
      if world.sleepFailure != 0 {
        FinishWaiter(node, i);
        return Hangup(-(world.sleepFailure as int)), until;
      }
      OnlyAt(i);
      awake := awake - {node};
      assert Queued() == old(Queued())[i := old(Queued())[i].(signalled := false)];
      reply := Nothing;
    }

    lemma OnlyAt(i: nat)
      requires queue.Valid() && i < |queue.nodes|
      ensures forall j :: 0 <= j < |queue.nodes| && j != i ==> queue.nodes[j] != queue.nodes[i]
    {
      assert Distinct(queue.nodes);
    }

    /** Records why the batch blocked this time. */
    method Record(node: WaiterNode, ghost i: nat, last: WaitReason)
      requires Ready() && i < |queue.nodes| && queue.nodes[i] == node
      modifies node`entry
      ensures Ready()
      ensures State() == old(State()).(queue := old(State()).queue[i := old(State()).queue[i].(last := last)])
    {
      hide StoreValid.Valid, SemStore.Valid, WaiterQueue.Valid;
      OnlyAt(i);
      queue.Note(node, node.entry.(last := last));
      assert Queued() == old(Queued())[i := old(Queued())[i].(last := last)];
    }

    method FirstForSet(node: WaiterNode, ghost i: nat) returns (first: bool)
      requires Ready() && i < |queue.nodes| && queue.nodes[i] == node
      ensures first == IsFirst(State().queue, i)
    {
      hide StoreValid.Valid, SemStore.Valid, WaiterQueue.Valid;
      first := queue.IsFirstForSet(node);
      assert forall j :: 0 <= j < |queue.nodes| ==> Queued()[j].semid == queue.nodes[j].entry.semid;
    }

    /** One pass of the retry loop up to the next sleep. */
    method Settle(node: WaiterNode, ghost i: nat, world: World) returns (reply: Reply, until: Time)
      requires Ready() && i < |queue.nodes| && queue.nodes[i] == node
      requires Sized(node.entry.request) && IsSemop(node.entry.request)
      modifies this, store.sets, store.undo, queue, queue.nodes
      ensures Ready()
      ensures var o := BrokerModel.Settle(old(State()), i, world); State() == o.broker && reply == o.reply
      ensures reply == Nothing ==> until == WakeBy(world.now, old(node.entry.deadline))
    {
      hide StoreValid.Valid, SemStore.Valid, WaiterQueue.Valid, Depart, BrokerModel.Sleep, Remote.Dispatch, Respond,
           ReadReason, Queued;
      ghost var b := State();
      var w := node.entry;
      StoreIsValid();
      QueuedAt(i);
      if world.peerClosed {
        FinishWaiter(node, i);
        return Answered(Respond(w.request, OP_BLOCKED, Waits(w.last))), world.now;
      }
      var first := FirstForSet(node, i);
      if !first {
        reply, until := Sleep(node, i, world);
        return;
      }
      var result, response := Dispatch(w.request, w.actor, world.realNow, world.noMemory);
      if result != 0 {
        FinishWaiter(node, i);
        return Hangup(result), world.now;
      }
      if response.header.result != OP_BLOCKED {
        FinishWaiter(node, i);
        return Answered(response), world.now;
      }
      BlockedResponse(b.store, w.request, w.actor, world.realNow, world.noMemory);
      var last := ReadReason(response);
      Record(node, i, if last.Some? then last.value else w.last);
      reply, until := Sleep(node, i, world);
    }

    lemma StoreIsValid()
      requires store.Valid()
      ensures StoreValid.Valid(store.State())
    {
    }

    lemma QueuedAt(i: nat)
      requires i < |queue.nodes|
      ensures |Queued()| == |queue.nodes| && Queued()[i] == Seen(queue.nodes[i], awake)
    {
    }

    /** A sleeper wakes, for whatever reason. */
    method Wake(node: WaiterNode, ghost i: nat, world: World) returns (reply: Reply, until: Time)
      requires Ready() && i < |queue.nodes| && queue.nodes[i] == node
      requires Sized(node.entry.request) && IsSemop(node.entry.request)
      modifies this, store.sets, store.undo, queue, queue.nodes
      ensures Ready()
      ensures var o := BrokerModel.Wake(old(State()), i, world); State() == o.broker && reply == o.reply
      ensures reply == Nothing ==> until == WakeBy(world.now, old(node.entry.deadline))
    {
      hide StoreValid.Valid, SemStore.Valid, WaiterQueue.Valid, Depart, BrokerModel.Settle, Queued;
      var w := node.entry;
      QueuedAt(i);
      if world.waitFailure != 0 {
        FinishWaiter(node, i);
        return Hangup(-(world.waitFailure as int)), world.now;
      }
      if w.deadline.Some? {
        if world.clockFailure != 0 {
          FinishWaiter(node, i);
          return Hangup(-(world.clockFailure as int)), world.now;
        }
        if Compare(world.now, w.deadline.value) >= 0 {
          FinishWaiter(node, i);
          return Answered(ErrorResponse(w.request, -EAGAIN)), world.now;
        }
      }
      reply, until := Settle(node, i, world);
    }
  
    /** Counts and queues a batch that blocked, then goes round the retry loop once. */
    method Block(request: Packet, actor: Actor, id: nat, world: World, response: Packet) returns (reply: Reply)
      requires Ready() && Sized(request) && IsSemop(request)
      modifies this, store.sets, store.undo, queue, queue.nodes
      ensures Ready()
      ensures var o := SubmitBlocked(old(State()), request, actor, id, world, response);
              State() == o.broker && reply == o.reply
    {
      hide StoreValid.Valid, SemStore.Valid, WaiterQueue.Valid, BrokerModel.Settle, ReadReason, StartDeadline,
           StoreModel.AdjustWait, Queued, GetI32, IsSemop, Distinct, WaiterQueue.At, WakeBy, SemStore.State;
      StoreIsValid();
      ghost var b := State();
      var reason := ReadReason(response);
      if reason.None? || |request.payload| < 4 || (request.header.opcode == SEMTIMEDOP && |request.payload| < 16) {
        return Hangup(-EPROTO);
      }
      var deadline := StartDeadline(request, world);
      if deadline.Err? { return Hangup(deadline.errno); }
      var semid := GetI32(request.payload, 0);
      var code := store.AdjustWait(semid, reason.value.semNum, reason.value.forZero, true);
      if code != 0 {
        FailedAdjust(b.store, semid, reason.value.semNum, reason.value.forZero, true);
        return Hangup(code);
      }
      reply := Enter(Waiter(id, request, actor, semid, reason.value, reason.value, deadline.value, false), world);
    }

    /** Queues a new waiter and settles it for the first time. */
    method Enter(w: Waiter, world: World) returns (reply: Reply)
      requires Ready() && Sized(w.request) && IsSemop(w.request) && !w.signalled
      modifies this, store.sets, store.undo, queue, queue.nodes
      ensures Ready()
      ensures var b := old(State());
              var o := BrokerModel.Settle(b.(queue := b.queue + [w]), |b.queue|, world);
              State() == o.broker && reply == o.reply
    {
      hide StoreValid.Valid, SemStore.Valid, WaiterQueue.Valid, BrokerModel.Settle, Queued, Distinct, WaiterQueue.At,
           WakeBy, IsSemop, SemStore.State;
      StoreIsValid();
      var node := new WaiterNode(w);
      Append(node);
      var until;
      reply, until := Settle(node, |queue.nodes| - 1, world);
    }

    /** Queues a new node, asleep as far as broadcasts go. */
    method Append(node: WaiterNode)
      requires Ready() && node !in queue.nodes && !node.entry.signalled
      modifies this, queue, queue.nodes, node
      ensures Ready() && State() == old(State()).(queue := old(State()).queue + [node.entry])
      ensures node.entry == old(node.entry) && queue.nodes == old(queue.nodes) + [node]
    {
      hide StoreValid.Valid, SemStore.Valid, WaiterQueue.Valid;
      ghost var was := Queued();
      TailQueued();
      queue.Enqueue(node);
      awake := awake - {node};
      assert Queued() == was + [node.entry];
    }

    lemma TailQueued()
      requires queue.Valid()
      ensures queue.tail != null ==> queue.tail in queue.nodes
    {
    }

    /** A request arrives. */
    method Submit(request: Packet, actor: Actor, id: nat, world: World) returns (reply: Reply)
      requires Ready() && Sized(request)
      modifies this, store.sets, store.undo, queue, queue.nodes, watchers
      ensures Ready()
      ensures var o := BrokerModel.Submit(old(State()), request, actor, id, world);
              State() == o.broker && reply == o.reply
    {
      hide StoreValid.Valid, SemStore.Valid, WaiterQueue.Valid, SubmitWatched, UsesUndo, Watch, Queued;
      StoreIsValid();
      var undo := ScanUndo(request);
      if undo {
        ghost var b := State();
        var result := WatchProcess(actor.pid, world.pidLookup);
        if result != 0 {
          WatchRefused(b, actor.pid, world.pidLookup);
          return Answered(ErrorResponse(request, result));
        }
        StoreIsValid();
      }
      reply := Run(request, actor, id, world);
    }

    /** A request whose process is already watched if it needs to be. */
    method Run(request: Packet, actor: Actor, id: nat, world: World) returns (reply: Reply)
      requires Ready() && Sized(request)
      modifies this, store.sets, store.undo, queue, queue.nodes
      ensures Ready()
      ensures var o := SubmitWatched(old(State()), request, actor, id, world); State() == o.broker && reply == o.reply
    {
      hide StoreValid.Valid, SemStore.Valid, WaiterQueue.Valid, SubmitBlocked, Remote.Dispatch, Queued, Broadcast;
      StoreIsValid();
      ghost var b := State();
      var result, response := Dispatch(request, actor, world.realNow, world.noMemory);
      if result != 0 { return Hangup(result); }
      if !IsSemop(request) || response.header.result != OP_BLOCKED {
        if ChangedState(request, response) { NotifyAll(); }
        return Answered(response);
      }
      BlockedResponse(b.store, request, actor, world.realNow, world.noMemory);
      reply := Block(request, actor, id, world, response);
    }

    // -------------------------------------------------------------- the monitor

    /** Replays and forgets every watched process found to have exited. */
    method ReapExited(exited: seq<bool>, now: i64)
      requires Ready() && |exited| == MAX_WATCHERS
      modifies this, store.sets, store.undo, watchers
      ensures Ready() && State() == ReapTo(old(State()), exited, now, MAX_WATCHERS)
    {
      hide StoreValid.Valid, SemStore.Valid, WaiterQueue.Valid, Queued, Broadcast, ProcessExit;
      StoreIsValid();
      for i := 0 to watchers.Length
        invariant Ready() && State() == ReapTo(old(State()), exited, now, i)
      {
        StoreIsValid();
        ghost var b := State();
        if watchers[i].active && exited[i] {
          var changed := store.ProcessExit(watchers[i].pid, now);
          watchers[i] := Watcher(false, 0);
          assert watchers[..] == b.watchers[i := Watcher(false, 0)];
          if changed > 0 { NotifyAll(); }
        }
        assert State() == Reap(b, i, exited[i], now);
      }
    }

    /** The monitor wakes, scans, and picks its next wait. */
    method ScanOnce(timed: bool, exited: seq<bool>, world: World)
      requires Ready() && |exited| == MAX_WATCHERS && monitor.Waiting? && monitor.timed == timed
      modifies this, store.sets, store.undo, watchers
      ensures Ready() && State() == Scan(old(State()), exited, world)
    {
      hide StoreValid.Valid, SemStore.Valid, WaiterQueue.Valid, Queued, ReapTo, AnyWatcher;
      StoreIsValid();
      if timed && world.waitFailure != 0 {
        monitor := Stopped;
        return;
      }
      ReapExited(exited, world.realNow);
      var any := HasWatchers();
      if !any {
        monitor := Waiting(false, false);
      } else if world.clockFailure != 0 {
        monitor := Stopped;
      } else {
        monitor := Waiting(true, false);
      }
    }
  }

  lemma FailedAdjust(st: Store, semid: i32, semNum: nat, forZero: bool, up: bool)
    requires Shape(st)
    ensures AdjustWait(st, semid, semNum, forZero, up).code != 0 ==>
            AdjustWait(st, semid, semNum, forZero, up).store == st
  {
  }

  lemma WatchRefused(b: Broker, pid: i32, lookup: Fault)
    ensures Watch(b, pid, lookup).1 != 0 ==> Watch(b, pid, lookup).0 == b
    ensures Watch(b, pid, lookup).0.store == b.store
  {
  }
}
