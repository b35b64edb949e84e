/**
 Clients, their processes and their broker connections over any run of calls,
 interrupts, transport errors and forks. A connection is a pair of queues; each
 packet carries the serial number of the call it belongs to, which the code
 does not have and no rule of the machine reads.
 */
module Connections {
  import opened SemTypes
  import opened Messages
  import opened Remote

  /** A packet and the call it was sent for, or answers. */
  datatype Mail = Mail(serial: nat, packet: Packet)

  /** What the broker has still to serve and what the client side has still to read. */
  datatype Link = Link(opener: i32, pending: seq<Mail>, unread: seq<Mail>)

  /** A client record and the process that holds it; `busy` is the call waiting for its response. */
  datatype Client = Client(pid: i32, socket: Option<nat>, connectionPid: i32, nextRequestId: u32, busy: Option<Mail>)

  datatype Universe = Universe(clients: seq<Client>, links: seq<Link>, pids: set<i32>, nextSerial: nat)

  /** How sending went; a failed send may still have delivered the whole request. */
  datatype Delivery = Sent | Failed(delivered: bool)

  datatype Move =
    /** A new client record, in a new or an existing process. */
    | Attach(pid: i32)
    /** The process of an idle client forks; the child gets a copy of the record and of the socket. */
    | Fork(client: nat, child: i32)
    /** A call up to and including its send. */
    | Begin(client: nat, request: Packet, connects: bool, delivery: Delivery)
    /** The broker answers the oldest request of a connection, or hangs up on it. */
    | Serve(link: nat, response: Packet)
    | Hang(link: nat)
    /** The response arrives, and its data passes the call's own check or not; or an interrupt, error or end of stream
        comes instead. */
    | Finish(client: nat, arrives: bool, wellFormed: bool)
    | Close(client: nat)

  function NextId(id: u32): (r: u32)
    ensures r > 0
  {
    if id == UINT32_MAX then 1 else id + 1
  }

  function Closed(c: Client): Client {
    c.(socket := None, connectionPid := 0)
  }

  /** Has an open socket that its own process opened. */
  predicate Owns(c: Client) {
    c.socket.Some? && c.connectionPid == c.pid
  }

  /** The client and connections after ensuring a connection, or None if connecting failed. */
  function Connected(u: Universe, i: nat, connects: bool): Option<Universe>
    requires i < |u.clients|
  {
    var c := u.clients[i];
    if Owns(c) then Some(u)
    else if !connects then None
    else Some(u.(clients := u.clients[i := c.(socket := Some(|u.links|), connectionPid := c.pid)],
                 links := u.links + [Link(c.pid, [], [])]))
  }

  predicate Enabled(u: Universe, m: Move) {
    match m
    case Attach(_) => true
    case Fork(i, child) => i < |u.clients| && u.clients[i].busy.None? && child !in u.pids
    case Begin(i, _, _, _) => i < |u.clients| && u.clients[i].busy.None?
    case Serve(l, _) => l < |u.links| && u.links[l].pending != []
    case Hang(l) => l < |u.links|
    case Finish(i, arrives, _) =>
      && i < |u.clients| && u.clients[i].busy.Some?
      && (arrives ==> u.clients[i].socket.Some? && u.clients[i].socket.value < |u.links| &&
                      u.links[u.clients[i].socket.value].unread != [])
    case Close(i) => i < |u.clients| && u.clients[i].busy.None?
  }

  function Send(u: Universe, i: nat, request: Packet, delivery: Delivery): Universe
    requires i < |u.clients| && u.clients[i].socket.Some? && u.clients[i].socket.value < |u.links|
  {
    var c := u.clients[i];
    var l := c.socket.value;
    var id := NextId(c.nextRequestId);
    var mail := Mail(u.nextSerial, Numbered(request, id));
    var links := if delivery.Sent? || delivery.delivered
                 then u.links[l := u.links[l].(pending := u.links[l].pending + [mail])] else u.links;
    var numbered := c.(nextRequestId := id);
    u.(clients := u.clients[i := if delivery.Sent? then numbered.(busy := Some(mail)) else Closed(numbered)],
       links := links, nextSerial := u.nextSerial + 1)
  }

  function Next(u: Universe, m: Move): (r: Universe)
    requires Enabled(u, m)
    requires forall i :: 0 <= i < |u.clients| && u.clients[i].socket.Some? ==> u.clients[i].socket.value < |u.links|
  {
    match m
    case Attach(pid) => u.(clients := u.clients + [Client(pid, None, 0, 0, None)], pids := u.pids + {pid})
    case Fork(i, child) => u.(clients := u.clients + [u.clients[i].(pid := child)], pids := u.pids + {child})
    case Begin(i, request, connects, delivery) =>
      (match Connected(u, i, connects)
       case None => u.(clients := u.clients[i := Closed(u.clients[i])])
       case Some(u') => Send(u', i, request, delivery))
    case Serve(l, response) =>
      var link := u.links[l];
      u.(links := u.links[l := link.(pending := link.pending[1..],
                                     unread := link.unread + [Mail(link.pending[0].serial, response)])])
    case Hang(l) => u.(links := u.links[l := u.links[l].(pending := [])])
    case Finish(i, arrives, wellFormed) =>
      var c := u.clients[i].(busy := None);
      if !arrives then u.(clients := u.clients[i := Closed(c)])
      else
        var l := c.socket.value;
        var accepted := Accepts(u, m);
        u.(clients := u.clients[i := if accepted then c else Closed(c)],
           links := u.links[l := u.links[l].(unread := u.links[l].unread[1..])])
    case Close(i) => u.(clients := u.clients[i := Closed(u.clients[i])])
  }

  /** The response a finishing call reads. */
  function Read(u: Universe, m: Move): Mail
    requires Enabled(u, m) && m.Finish? && m.arrives
  {
    u.links[u.clients[m.client].socket.value].unread[0]
  }

  /** The call takes the response it reads for its own. */
  predicate Accepts(u: Universe, m: Move)
    requires Enabled(u, m) && m.Finish?
  {
    m.arrives && m.wellFormed && Correlated(u.clients[m.client].busy.value.packet, Read(u, m).packet)
  }

  // ---------------------------------------------------------------- the invariant

  predicate All(mails: seq<Mail>, serial: nat) {
    forall j :: 0 <= j < |mails| ==> mails[j].serial == serial
  }

  /** A connection in the hands of its owner: idle and empty, or holding at most the one call in progress. */
  predicate LinkOk(link: Link, busy: Option<Mail>) {
    if busy.None? then link.pending == [] && link.unread == []
    else
      && |link.pending| + |link.unread| <= 1
      && All(link.pending, busy.value.serial) && All(link.unread, busy.value.serial)
  }

  predicate ClientOk(u: Universe, c: Client) {
    && c.pid in u.pids
    && (c.busy.Some? ==> Owns(c))
    && (c.socket.Some? ==> && c.socket.value < |u.links| && c.connectionPid in u.pids
                           && u.links[c.socket.value].opener == c.connectionPid)
    && (Owns(c) ==> LinkOk(u.links[c.socket.value], c.busy))
  }

  ghost predicate Sole(u: Universe) {
    forall i, j :: 0 <= i < j < |u.clients| && Owns(u.clients[i]) && Owns(u.clients[j]) ==>
      u.clients[i].socket != u.clients[j].socket
  }

  ghost predicate Exclusive(u: Universe) {
    Sole(u) && forall i :: 0 <= i < |u.clients| ==> ClientOk(u, u.clients[i])
  }

  lemma SocketsExist(u: Universe)
    requires Exclusive(u)
    ensures forall i :: 0 <= i < |u.clients| && u.clients[i].socket.Some? ==> u.clients[i].socket.value < |u.links|
  {
    forall i | 0 <= i < |u.clients| && u.clients[i].socket.Some? ensures u.clients[i].socket.value < |u.links| {
      assert ClientOk(u, u.clients[i]);
    }
  }

  /** One client record and its own connection change; nobody else's does. */
  lemma OneChanged(u: Universe, u': Universe, i: nat)
    requires Exclusive(u) && i < |u.clients| == |u'.clients| && u'.clients == u.clients[i := u'.clients[i]]
    requires |u.links| <= |u'.links| && u.pids <= u'.pids && ClientOk(u', u'.clients[i])
    requires forall l :: 0 <= l < |u.links| ==> u'.links[l].opener == u.links[l].opener
    requires forall l :: 0 <= l < |u.links| && u'.links[l] != u.links[l] ==>
               Owns(u.clients[i]) && u.clients[i].socket.value == l
    requires Owns(u'.clients[i]) ==>
             u'.clients[i].socket.value >= |u.links|
                 || (Owns(u.clients[i]) && u'.clients[i].socket == u.clients[i].socket)
    ensures Exclusive(u')
  {
    hide LinkOk;
    forall j | 0 <= j < |u'.clients| ensures ClientOk(u', u'.clients[j]) {
      assert ClientOk(u, u.clients[j]);
      assert ClientOk(u, u.clients[i]);
    }
  }

  /** A new client record without an own connection. */
  lemma OneAdded(u: Universe, c: Client, pids: set<i32>)
    requires Exclusive(u) && u.pids <= pids && !Owns(c)
    requires ClientOk(u.(pids := pids), c)
    ensures Exclusive(u.(clients := u.clients + [c], pids := pids))
  {
    hide LinkOk;
    var u' := u.(clients := u.clients + [c], pids := pids);
    forall j | 0 <= j < |u'.clients| ensures ClientOk(u', u'.clients[j]) {
      if j < |u.clients| { assert ClientOk(u, u.clients[j]); }
    }
  }

  /** The broker moves a call's packet along, or drops it. */
  lemma LinkServed(u: Universe, l: nat, link: Link)
    requires Exclusive(u) && l < |u.links| && link.opener == u.links[l].opener
    requires forall busy :: LinkOk(u.links[l], busy) ==> LinkOk(link, busy)
    ensures Exclusive(u.(links := u.links[l := link]))
  {
    hide LinkOk;
    var u' := u.(links := u.links[l := link]);
    forall j | 0 <= j < |u'.clients| ensures ClientOk(u', u'.clients[j]) {
      assert ClientOk(u, u.clients[j]);
    }
  }

  lemma BeginExclusive(u: Universe, m: Move)
    requires Exclusive(u) && Enabled(u, m) && m.Begin?
    requires forall i :: 0 <= i < |u.clients| && u.clients[i].socket.Some? ==> u.clients[i].socket.value < |u.links|
    ensures Exclusive(Next(u, m))
  {
    var i := m.client;
    assert ClientOk(u, u.clients[i]);
    OneChanged(u, Next(u, m), i);
  }

  lemma FinishExclusive(u: Universe, m: Move)
    requires Exclusive(u) && Enabled(u, m) && m.Finish?
    requires forall i :: 0 <= i < |u.clients| && u.clients[i].socket.Some? ==> u.clients[i].socket.value < |u.links|
    ensures Exclusive(Next(u, m))
  {
    hide Correlated;
    var i := m.client;
    assert ClientOk(u, u.clients[i]);
    OneChanged(u, Next(u, m), i);
  }

  lemma NextExclusive(u: Universe, m: Move)
    requires Exclusive(u) && Enabled(u, m)
    ensures forall i :: 0 <= i < |u.clients| && u.clients[i].socket.Some? ==> u.clients[i].socket.value < |u.links|
    ensures Exclusive(Next(u, m))
  {
    SocketsExist(u);
    hide Exclusive;
    match m
    case Attach(pid) => OneAdded(u, Client(pid, None, 0, 0, None), u.pids + {pid});
    case Fork(i, child) =>
      IsOk(u, i);
      OneAdded(u, u.clients[i].(pid := child), u.pids + {child});
    case Begin(_, _, _, _) => BeginExclusive(u, m);
    case Serve(l, response) =>
      var link := u.links[l];
      LinkServed(u, l, link.(pending := link.pending[1..],
                             unread := link.unread + [Mail(link.pending[0].serial, response)]));
    case Hang(l) => LinkServed(u, l, u.links[l].(pending := []));
    case Finish(_, _, _) => FinishExclusive(u, m);
    case Close(i) =>
      IsOk(u, i);
      OneChanged(u, Next(u, m), i);
  }

  lemma IsOk(u: Universe, i: nat)
    requires Exclusive(u) && i < |u.clients|
    ensures ClientOk(u, u.clients[i])
  {
  }

  // ---------------------------------------------------------------- whole runs

  const EMPTY := Universe([], [], {}, 0)

  /** The state after a run, or None if some move of it was not possible. */
  ghost function Run(moves: seq<Move>): (r: Option<Universe>)
    ensures r.Some? ==> Exclusive(r.value)
  {
    if moves == [] then Some(EMPTY)
    else
      var last := |moves| - 1;
      var before := Run(moves[..last]);
      if before.None? || !Enabled(before.value, moves[last]) then None
      else
        NextExclusive(before.value, moves[last]);
        Some(Next(before.value, moves[last]))
  }

  /** Whenever a call gets as far as sending, its connection was opened by the calling process itself, no other client
      owns it, and it holds no request and no response of any earlier call. */
  lemma SendsOnCleanOwnConnection(moves: seq<Move>, m: Move)
    requires Run(moves).Some? && Enabled(Run(moves).value, m) && m.Begin?
    requires Connected(Run(moves).value, m.client, m.connects).Some?
    ensures var u := Connected(Run(moves).value, m.client, m.connects).value;
            var c := u.clients[m.client];
            && Owns(c) && c.socket.value < |u.links| && u.links[c.socket.value] == Link(c.pid, [], [])
            && forall j :: 0 <= j < |u.clients| && j != m.client && Owns(u.clients[j]) ==>
                 u.clients[j].socket != c.socket
  {
    hide Run;
    var u := Run(moves).value;
    SocketsExist(u);
    var u' := Connected(u, m.client, m.connects).value;
    assert ClientOk(u, u.clients[m.client]);
    forall j | 0 <= j < |u.clients| && j != m.client && Owns(u.clients[j])
      ensures u'.clients[j].socket != u'.clients[m.client].socket
    {
      assert ClientOk(u, u.clients[j]);
    }
  }

  /** A response that is accepted answers the call that accepts it. */
  lemma NoStaleAnswer(moves: seq<Move>, m: Move)
    requires Run(moves).Some? && Enabled(Run(moves).value, m) && m.Finish? && Accepts(Run(moves).value, m)
    ensures var u := Run(moves).value; Read(u, m).serial == u.clients[m.client].busy.value.serial
  {
    hide Run, Correlated;
    var u := Run(moves).value;
    assert ClientOk(u, u.clients[m.client]);
  }

  /** No process ever reads from or writes to a connection another process opened. */
  lemma ConnectionsStayHome(moves: seq<Move>, i: nat)
    requires Run(moves).Some? && i < |Run(moves).value.clients| && Run(moves).value.clients[i].busy.Some?
    ensures var u := Run(moves).value;
            var c := u.clients[i];
            c.socket.Some? && c.socket.value < |u.links| && u.links[c.socket.value].opener == c.pid
  {
    hide Run;
    assert ClientOk(Run(moves).value, Run(moves).value.clients[i]);
  }

  // ---------------------------------------------------------------- calls get through

  predicate SocketsOpen(u: Universe) {
    forall i :: 0 <= i < |u.clients| && u.clients[i].socket.Some? ==> u.clients[i].socket.value < |u.links|
  }

  /** The call has sent its request: alone on a connection of its own process, numbered one further. */
  predicate Waits(u: Universe, i: nat, request: Packet, u': Universe) {
    && i < |u.clients| == |u'.clients|
    && var c, c' := u.clients[i], u'.clients[i];
       && c'.busy == Some(Mail(u.nextSerial, Numbered(request, NextId(c.nextRequestId)))) && Owns(c') && c'.pid == c.pid
       && c'.socket.value < |u'.links|
       && u'.links[c'.socket.value] == Link(c.pid, [c'.busy.value], [])
  }

  /** In any reachable state, an idle client that can connect and whose send succeeds has its request alone on its own
      connection; once the broker answers it with a correlated response, the call reads exactly that response, accepts
      it, and leaves the connection open and empty. */
  lemma CallCompletes(moves: seq<Move>, i: nat, request: Packet, response: Packet)
    requires Run(moves).Some? && i < |Run(moves).value.clients| && Run(moves).value.clients[i].busy.None?
    ensures var u := Run(moves).value;
            var begin := Begin(i, request, true, Sent);
            && SocketsOpen(u) && Enabled(u, begin)
            && var u1 := Next(u, begin);
            && Waits(u, i, request, u1) && SocketsOpen(u1)
            && var l := u1.clients[i].socket.value;
               var serve := Serve(l, response);
            && Enabled(u1, serve)
            && var u2 := Next(u1, serve);
               var finish := Finish(i, true, true);
            && SocketsOpen(u2) && Enabled(u2, finish) && Read(u2, finish) == Mail(u.nextSerial, response)
            && (Correlated(Numbered(request, NextId(u.clients[i].nextRequestId)), response) ==>
                  && Accepts(u2, finish)
                  && var u3 := Next(u2, finish);
                     && u3.clients[i] == u1.clients[i].(busy := None)
                     && u3.links[l] == Link(u.clients[i].pid, [], []))
  {
    hide Run, Correlated;
    var u := Run(moves).value;
    SocketsExist(u);
    SentAlone(u, i, request);
    var u1 := Next(u, Begin(i, request, true, Sent));
    NextExclusive(u, Begin(i, request, true, Sent));
    SocketsExist(u1);
    NextExclusive(u1, Serve(u1.clients[i].socket.value, response));
    SocketsExist(Next(u1, Serve(u1.clients[i].socket.value, response)));
  }

  lemma SentAlone(u: Universe, i: nat, request: Packet)
    requires Exclusive(u) && i < |u.clients| && u.clients[i].busy.None? && SocketsOpen(u)
    ensures Waits(u, i, request, Next(u, Begin(i, request, true, Sent)))
  {
    assert ClientOk(u, u.clients[i]);
  }

  // ---------------------------------------------------------------- one client record through a call

  /** The fields of a client record: whether it has a socket, who opened it, and the request counter. */
  datatype Record = Record(open: bool, connectionPid: i32, nextRequestId: u32)

  function RecordOf(c: Client): Record {
    Record(c.socket.Some?, c.connectionPid, c.nextRequestId)
  }

  /** The record after a whole call by process `pid`: unchanged but closed if it could not connect; otherwise one
      number further, and open only if the response was accepted. */
  function AfterCall(r: Record, pid: i32, connects: bool, accepted: bool): Record {
    if !(r.open && r.connectionPid == pid) && !connects then Record(false, 0, r.nextRequestId)
    else Record(accepted, if accepted then pid else 0, NextId(r.nextRequestId))
  }

  /** A call that does not get as far as waiting ends so. */
  lemma BeginRecord(u: Universe, m: Move)
    requires Exclusive(u) && Enabled(u, m) && m.Begin?
    requires forall i :: 0 <= i < |u.clients| && u.clients[i].socket.Some? ==> u.clients[i].socket.value < |u.links|
    ensures var c, c' := u.clients[m.client], Next(u, m).clients[m.client];
            if c'.busy.None? then RecordOf(c') == AfterCall(RecordOf(c), c.pid, m.connects, false)
            else RecordOf(c') == AfterCall(RecordOf(c), c.pid, m.connects, true) && c'.pid == c.pid
  {
    assert ClientOk(u, u.clients[m.client]);
  }

  /** And one that waits keeps its record if the response is accepted, and closes it otherwise. */
  lemma FinishRecord(u: Universe, m: Move)
    requires Exclusive(u) && Enabled(u, m) && m.Finish?
    requires forall i :: 0 <= i < |u.clients| && u.clients[i].socket.Some? ==> u.clients[i].socket.value < |u.links|
    ensures var c, c' := u.clients[m.client], Next(u, m).clients[m.client];
            c'.busy.None? && RecordOf(c') == if Accepts(u, m) then RecordOf(c) else Record(false, 0, c.nextRequestId)
  {
    hide Correlated;
  }

  // ---------------------------------------------------------------- why numbering alone is not enough

  function IdAfter(id: u32, k: nat): u32 {
    if k == 0 then id else NextId(IdAfter(id, k - 1))
  }

  /** Request numbers go round: after `k` calls the number is this, so it comes back after 4294967295 calls. */
  lemma {:induction false} IdsGoRound(id: u32, k: nat)
    requires id > 0
    ensures IdAfter(id, k) == (id - 1 + k) % UINT32_MAX + 1
  {
    if k > 0 {
      IdsGoRound(id, k - 1);
      var q, r := (id - 1 + k - 1) / UINT32_MAX, (id - 1 + k - 1) % UINT32_MAX;
      if r + 1 < UINT32_MAX {
        assert id - 1 + k == q * UINT32_MAX + (r + 1);
      } else {
        assert id - 1 + k == (q + 1) * UINT32_MAX;
      }
    }
  }
}
