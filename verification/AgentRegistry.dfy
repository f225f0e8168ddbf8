/** The registry of connected agents, one locked section at a time. Channels and connection
    records are shared by reference, so they live in maps from addresses; a send on a closed
    channel or a second close, which would crash the server, raises a flag instead. */
module AgentRegistry {
  import opened Common

  datatype CommandResult = CommandResult(commandId: string, from: string, payload: string)

  /** A ConnectedAgent with its send channel. */
  datatype Conn = Conn(agentId: string, open: bool, capacity: int, queue: seq<string>, pending: map<string, int>)

  /** A response channel with room for one result, made for one command on one connection. */
  datatype Response = Response(open: bool, value: Option<CommandResult>, conn: int, commandId: string, agentId: string)

  datatype Outcome = Got(result: CommandResult) | NotConnected | BufferFull | Disconnected | TimedOut

  /** Where a SendCommand call is; Returning has its answer but still has to clean up. */
  datatype Call =
    | Waiting(agentId: string, conn: int, ch: int)
    | Returning(agentId: string, conn: int, outcome: Outcome)
    | Returned(agentId: string, outcome: Outcome)

  /** A HandleCommandResult call that has released a lock and not finished. */
  datatype Router =
    | Found(conn: int, result: CommandResult)
    | Picked(ch: int, result: CommandResult)

  datatype Registry = Registry(
    agents: map<string, int>, conns: map<int, Conn>, responses: map<int, Response>,
    closed: bool,        // sync.Once of Close
    sendCrash: bool,     // a send hit a closed SendCh, or a SendCh or pending channel was closed twice
    resultCrash: bool,   // a command result hit a closed response channel
    calls: map<string, Call>, routers: map<int, Router>)

  datatype Step =
    | Register(agentId: string, addr: int, capacity: int)
    | Unregister(agentId: string)
    | Send(agentId: string, msg: string)
    | Receive(addr: int)                 // the stream goroutine takes the next message
    | BeginCommand(agentId: string, commandId: string, ch: int)
    | TakeResponse(commandId: string)
    | TimeOut(commandId: string)
    | CleanUp(commandId: string)
    | FindAgent(router: int, result: CommandResult)
    | PickChannel(router: int)
    | DeliverResult(router: int)
    | Close

  predicate IsWaiting(s: Registry, id: string) { id in s.calls && s.calls[id].Waiting? }

  predicate CanTake(s: Registry, id: string)
  {
    IsWaiting(s, id) && s.calls[id].ch in s.responses &&
    (s.responses[s.calls[id].ch].value.Some? || !s.responses[s.calls[id].ch].open)
  }

  predicate IsReturning(s: Registry, id: string) { id in s.calls && s.calls[id].Returning? }

  predicate HasFound(s: Registry, r: int) { r in s.routers && s.routers[r].Found? }

  predicate HasPicked(s: Registry, r: int) { r in s.routers && s.routers[r].Picked? }

  predicate HasMessage(s: Registry, addr: int) { addr in s.conns && s.conns[addr].queue != [] }

  predicate Enabled(s: Registry, step: Step)
  {
    match step
    case Receive(addr) => HasMessage(s, addr)
    case Register(_, addr, _) => addr !in s.conns          // a fresh channel per connection
    case BeginCommand(_, commandId, ch) => commandId !in s.calls && ch !in s.responses   // fresh uuid, fresh channel
    case TakeResponse(id) => CanTake(s, id)
    case TimeOut(id) => IsWaiting(s, id)
    case CleanUp(id) => IsReturning(s, id)
    case FindAgent(r, _) => r !in s.routers
    case PickChannel(r) => HasFound(s, r)
    case DeliverResult(r) => HasPicked(s, r)
    case _ => true
  }

  // ---- channel operations ----

  /** The non-blocking send of an open channel. */
  function Offer(c: Conn, msg: string): Conn
  {
    if c.open && |c.queue| < c.capacity then c.(queue := c.queue + [msg]) else c
  }

  ghost predicate Pends(c: Conn, ch: int) { exists id :: id in c.pending && c.pending[id] == ch }

  /** Whether closing these connections and their pending channels would close one twice. */
  ghost predicate DoubleClose(s: Registry, addrs: set<int>)
  {
    || (exists a :: a in addrs && a in s.conns && !s.conns[a].open)
    || (exists a, id :: a in addrs && a in s.conns && id in s.conns[a].pending && !OpenResponse(s, s.conns[a].pending[id]))
    || (exists a, b, i, j :: a in addrs && b in addrs && a in s.conns && b in s.conns &&
          i in s.conns[a].pending && j in s.conns[b].pending && (a != b || i != j) &&
          s.conns[a].pending[i] == s.conns[b].pending[j])
  }

  predicate OpenResponse(s: Registry, ch: int) { ch in s.responses && s.responses[ch].open }

  ghost predicate PendsOnAny(s: Registry, addrs: set<int>, ch: int)
  {
    exists a :: a in addrs && a in s.conns && Pends(s.conns[a], ch)
  }

  ghost function CloseAll(s: Registry, addrs: set<int>): Registry
  {
    s.(agents := map a | a in s.agents && s.agents[a] !in addrs :: s.agents[a],
       conns := map a | a in s.conns :: if a in addrs then s.conns[a].(open := false, pending := map[]) else s.conns[a],
       responses := map ch | ch in s.responses ::
         if PendsOnAny(s, addrs, ch) then s.responses[ch].(open := false) else s.responses[ch],
       sendCrash := s.sendCrash || DoubleClose(s, addrs))
  }

  // ---- the locked sections ----

  function DoRegister(s: Registry, agentId: string, addr: int, capacity: int): Registry
  {
    s.(agents := s.agents[agentId := addr], conns := s.conns[addr := Conn(agentId, true, capacity, [], map[])])
  }

  ghost function DoUnregister(s: Registry, agentId: string): Registry
  {
    if agentId in s.agents then CloseAll(s, {s.agents[agentId]}) else s
  }

  function DoSend(s: Registry, agentId: string, msg: string): Registry
  {
    if agentId in s.agents && s.agents[agentId] in s.conns then
      var addr := s.agents[agentId];
      s.(conns := s.conns[addr := Offer(s.conns[addr], msg)], sendCrash := s.sendCrash || !s.conns[addr].open)
    else s
  }

  function DoReceive(s: Registry, addr: int): Registry
    requires HasMessage(s, addr)
  {
    s.(conns := s.conns[addr := s.conns[addr].(queue := s.conns[addr].queue[1..])])
  }

  /** Under the read lock: make the response channel, enter it, and offer the command. */
  function DoBegin(s: Registry, agentId: string, id: string, ch: int): Registry
  {
    if agentId in s.agents && s.agents[agentId] in s.conns
    then Enter(s, agentId, s.agents[agentId], id, ch)
    else s.(calls := s.calls[id := Returned(agentId, NotConnected)])
  }

  function Enter(s: Registry, agentId: string, addr: int, id: string, ch: int): Registry
    requires addr in s.conns
  {
    var c := s.conns[addr];
    var next := if c.open && |c.queue| >= c.capacity then Returning(agentId, addr, BufferFull) else Waiting(agentId, addr, ch);
    s.(responses := s.responses[ch := Response(true, None, addr, id, agentId)],
       conns := s.conns[addr := Offer(c, id).(pending := c.pending[id := ch])],
       sendCrash := s.sendCrash || !c.open,
       calls := s.calls[id := next])
  }

  /** A buffered result is received even from a closed channel; a closed empty one means disconnected. */
  function DoTake(s: Registry, id: string): Registry
    requires CanTake(s, id)
  {
    var call := s.calls[id];
    var r := s.responses[call.ch];
    var outcome := if r.value.Some? then Got(r.value.value) else Disconnected;
    s.(calls := s.calls[id := Returning(call.agentId, call.conn, outcome)],
       responses := s.responses[call.ch := r.(value := None)])
  }

  function DoTimeOut(s: Registry, id: string): Registry
    requires IsWaiting(s, id)
  {
    s.(calls := s.calls[id := Returning(s.calls[id].agentId, s.calls[id].conn, TimedOut)])
  }

  function DoCleanUp(s: Registry, id: string): Registry
    requires IsReturning(s, id)
  {
    var call := s.calls[id];
    var conns :=
      if call.conn in s.conns
      then s.conns[call.conn := s.conns[call.conn].(pending := s.conns[call.conn].pending - {id})]
      else s.conns;
    s.(calls := s.calls[id := Returned(call.agentId, call.outcome)], conns := conns)
  }

  function DoFind(s: Registry, r: int, result: CommandResult): Registry
  {
    if result.from in s.agents then s.(routers := s.routers[r := Found(s.agents[result.from], result)]) else s
  }

  function DoPick(s: Registry, r: int): Registry
    requires HasFound(s, r)
  {
    var f := s.routers[r];
    var routers :=
      if f.conn in s.conns && f.result.commandId in s.conns[f.conn].pending
      then s.routers[r := Picked(s.conns[f.conn].pending[f.result.commandId], f.result)]
      else s.routers - {r};
    s.(routers := routers)
  }

  /** A full channel discards the duplicate; a closed one crashes. */
  function DoDeliver(s: Registry, r: int): Registry
    requires HasPicked(s, r)
  {
    var p := s.routers[r];
    var responses :=
      if OpenResponse(s, p.ch) && s.responses[p.ch].value.None?
      then s.responses[p.ch := s.responses[p.ch].(value := Some(p.result))]
      else s.responses;
    s.(routers := s.routers - {r}, responses := responses, resultCrash := s.resultCrash || !OpenResponse(s, p.ch))
  }

  ghost function DoClose(s: Registry): Registry
  {
    if s.closed then s else CloseAll(s, s.agents.Values).(closed := true)
  }

  ghost function Do(s: Registry, step: Step): Registry
    requires Enabled(s, step)
  {
    match step
    case Register(agentId, addr, capacity) => DoRegister(s, agentId, addr, capacity)
    case Unregister(agentId) => DoUnregister(s, agentId)
    case Send(agentId, msg) => DoSend(s, agentId, msg)
    case Receive(addr) => DoReceive(s, addr)
    case BeginCommand(agentId, id, ch) => DoBegin(s, agentId, id, ch)
    case TakeResponse(id) => DoTake(s, id)
    case TimeOut(id) => DoTimeOut(s, id)
    case CleanUp(id) => DoCleanUp(s, id)
    case FindAgent(r, result) => DoFind(s, r, result)
    case PickChannel(r) => DoPick(s, r)
    case DeliverResult(r) => DoDeliver(s, r)
    case Close => DoClose(s)
  }

  // ---- the invariant ----

  /** Every channel in the map is open, and no two agents share one. */
  ghost predicate Connected(s: Registry)
  {
    && (forall a :: a in s.agents ==> s.agents[a] in s.conns && s.conns[s.agents[a]].open && s.conns[s.agents[a]].agentId == a)
    && (forall a, b :: a in s.agents && b in s.agents && s.agents[a] == s.agents[b] ==> a == b)
  }

  predicate Entered(s: Registry, a: int, id: string) { a in s.conns && id in s.conns[a].pending }

  /** A pending entry names an open channel made for that command on that connection, and its call has not returned. */
  ghost predicate PendingEntry(s: Registry, a: int, id: string)
    requires Entered(s, a, id)
  {
    var ch := s.conns[a].pending[id];
    && OpenResponse(s, ch)
    && s.responses[ch].conn == a && s.responses[ch].commandId == id && s.responses[ch].agentId == s.conns[a].agentId
    && id in s.calls && !s.calls[id].Returned?
  }

  ghost predicate PendingSound(s: Registry)
  {
    forall a, id :: Entered(s, a, id) ==> PendingEntry(s, a, id)
  }

  /** A result on its way, or arrived, is for the command and agent of its channel. */
  ghost predicate Routed(s: Registry)
  {
    && (forall r :: r in s.routers && s.routers[r].Found? ==>
          s.routers[r].conn in s.conns && s.conns[s.routers[r].conn].agentId == s.routers[r].result.from)
    && (forall r :: r in s.routers && s.routers[r].Picked? ==>
          s.routers[r].ch in s.responses && For(s.routers[r].result, s.responses[s.routers[r].ch]))
    && (forall ch :: ch in s.responses && s.responses[ch].value.Some? ==> For(s.responses[ch].value.value, s.responses[ch]))
  }

  predicate For(result: CommandResult, r: Response) { result.commandId == r.commandId && result.from == r.agentId }

  ghost predicate CallSound(s: Registry, id: string)
    requires id in s.calls
  {
    match s.calls[id]
    case Waiting(agentId, conn, ch) =>
      ch in s.responses && s.responses[ch].commandId == id && s.responses[ch].agentId == agentId && s.responses[ch].conn == conn
    case Returning(agentId, conn, outcome) => Answers(outcome, id, agentId)
    case Returned(agentId, outcome) => Answers(outcome, id, agentId)
  }

  predicate Answers(o: Outcome, id: string, agentId: string)
  {
    o.Got? ==> o.result.commandId == id && o.result.from == agentId
  }

  /** A call that still has to clean up knows the connection its entry is on. */
  ghost predicate Owned(s: Registry)
  {
    forall a, id :: Entered(s, a, id) && id in s.calls && !s.calls[id].Returned? ==> s.calls[id].conn == a
  }

  ghost predicate CallsSound(s: Registry) { forall id :: id in s.calls ==> CallSound(s, id) }

  ghost predicate Safe(s: Registry)
  {
    !s.sendCrash && Connected(s) && PendingSound(s) && Owned(s) && Routed(s) && CallsSound(s)
  }

  ghost predicate Init(s: Registry)
  {
    s == Registry(map[], map[], map[], false, false, false, map[], map[])
  }

  /** Closing connections that are in the map never closes anything twice. */
  lemma NoDoubleClose(s: Registry, addrs: set<int>)
    requires Safe(s) && forall x :: x in addrs ==> x in s.agents.Values
    ensures !DoubleClose(s, addrs)
  {
    forall a, b, i, j | a in addrs && b in addrs && a in s.conns && b in s.conns &&
        i in s.conns[a].pending && j in s.conns[b].pending && s.conns[a].pending[i] == s.conns[b].pending[j]
      ensures a == b && i == j
    {
      assert Entered(s, a, i) && Entered(s, b, j);
    }
    forall a, id | a in addrs && a in s.conns && id in s.conns[a].pending
      ensures OpenResponse(s, s.conns[a].pending[id])
    {
      assert Entered(s, a, id);
    }
    forall a | a in addrs && a in s.conns ensures s.conns[a].open {
      var name :| name in s.agents && s.agents[name] == a;
    }
  }

  /** What a step must leave alone for the pending entries to stay sound. */
  ghost predicate SamePending(s: Registry, t: Registry)
  {
    && (forall a :: a in t.conns ==>
          if a in s.conns then t.conns[a].pending == s.conns[a].pending && t.conns[a].agentId == s.conns[a].agentId
          else t.conns[a].pending == map[])
    && (forall ch :: ch in s.responses ==> ch in t.responses && SameChannel(s.responses[ch], t.responses[ch]))
    && (forall id :: id in s.calls ==> id in t.calls && SameOwner(s.calls[id], t.calls[id]))
  }

  predicate SameChannel(r: Response, q: Response)
  {
    q.open == r.open && q.conn == r.conn && q.commandId == r.commandId && q.agentId == r.agentId
  }

  predicate SameOwner(c: Call, d: Call)
  {
    (c.Returned? <==> d.Returned?) && (!c.Returned? ==> d.conn == c.conn)
  }

  lemma FramePending(s: Registry, t: Registry)
    requires PendingSound(s) && Owned(s) && SamePending(s, t)
    ensures PendingSound(t) && Owned(t)
  {
    forall a, id | Entered(t, a, id) ensures PendingEntry(t, a, id) {
      assert Entered(s, a, id);
    }
    forall a, id | Entered(t, a, id) && id in t.calls && !t.calls[id].Returned?
      ensures t.calls[id].conn == a
    {
      assert Entered(s, a, id);
    }
  }

  lemma ClosedStayDistinct(s: Registry, addrs: set<int>, a: int, id: string)
    requires PendingSound(s) && Entered(s, a, id) && a !in addrs
    ensures !PendsOnAny(s, addrs, s.conns[a].pending[id])
  {
    assert Entered(s, a, id);
    forall b, j | b in addrs && b in s.conns && j in s.conns[b].pending
      ensures s.conns[b].pending[j] != s.conns[a].pending[id]
    {
      assert Entered(s, b, j);
    }
  }

  lemma CloseKeepsPending(s: Registry, addrs: set<int>)
    requires PendingSound(s) && Owned(s)
    ensures PendingSound(CloseAll(s, addrs)) && Owned(CloseAll(s, addrs))
  {
    var t := CloseAll(s, addrs);
    forall a, id | Entered(t, a, id) ensures PendingEntry(t, a, id) {
      assert a !in addrs;
      assert Entered(s, a, id);
      ClosedStayDistinct(s, addrs, a, id);
    }
    forall a, id | Entered(t, a, id) && id in t.calls && !t.calls[id].Returned? ensures t.calls[id].conn == a {
      assert Entered(s, a, id);
    }
  }

  lemma CloseKeepsSafe(s: Registry, addrs: set<int>)
    requires Safe(s) && forall x :: x in addrs ==> x in s.agents.Values
    ensures Safe(CloseAll(s, addrs))
  {
    NoDoubleClose(s, addrs);
    CloseKeepsPending(s, addrs);
    var t := CloseAll(s, addrs);
    forall id | id in t.calls ensures CallSound(t, id) {
      assert CallSound(s, id);
    }
  }

  /** Calls are judged by the response channels' labels alone. */
  lemma SameCalls(s: Registry, t: Registry)
    requires CallsSound(s) && t.calls == s.calls
    requires forall ch :: ch in s.responses ==> ch in t.responses && SameChannel(s.responses[ch], t.responses[ch])
    ensures CallsSound(t)
  {
    forall id | id in t.calls ensures CallSound(t, id) {
      assert CallSound(s, id);
    }
  }

  lemma OtherCalls(s: Registry, t: Registry, id: string)
    requires CallsSound(s) && id in t.calls && CallSound(t, id)
    requires forall k :: k in t.calls && k != id ==> k in s.calls && t.calls[k] == s.calls[k]
    requires forall ch :: ch in s.responses ==> ch in t.responses && LabelsKept(s.responses[ch], t.responses[ch])
    ensures CallsSound(t)
  {
    forall k | k in t.calls ensures CallSound(t, k) {
      if k != id { assert CallSound(s, k); }
    }
  }

  predicate LabelsKept(r: Response, q: Response)
  {
    q.conn == r.conn && q.commandId == r.commandId && q.agentId == r.agentId
  }

  lemma BeginKeepsPending(s: Registry, agentId: string, id: string, ch: int)
    requires PendingSound(s) && Owned(s) && id !in s.calls && ch !in s.responses
    requires agentId in s.agents && s.agents[agentId] in s.conns && s.conns[s.agents[agentId]].agentId == agentId
    ensures PendingSound(DoBegin(s, agentId, id, ch)) && Owned(DoBegin(s, agentId, id, ch))
  {
    var t := DoBegin(s, agentId, id, ch);
    var addr := s.agents[agentId];
    forall a, i | Entered(t, a, i)
      ensures PendingEntry(t, a, i) && t.calls[i].conn == a
    {
      if a in s.conns && i in s.conns[a].pending {
        assert Entered(s, a, i);
        assert i != id && t.conns[a].pending[i] == s.conns[a].pending[i] && s.conns[a].pending[i] != ch;
      } else {
        assert a == addr && i == id;
      }
    }
  }

  lemma RegisterKeepsSafe(s: Registry, agentId: string, addr: int, capacity: int)
    requires Safe(s) && addr !in s.conns
    ensures Safe(DoRegister(s, agentId, addr, capacity))
  {
    FramePending(s, DoRegister(s, agentId, addr, capacity));
    SameCalls(s, DoRegister(s, agentId, addr, capacity));
  }

  lemma SendKeepsPending(s: Registry, agentId: string, msg: string)
    requires PendingSound(s) && Owned(s)
    ensures PendingSound(DoSend(s, agentId, msg)) && Owned(DoSend(s, agentId, msg))
  {
    FramePending(s, DoSend(s, agentId, msg));
  }

  lemma SendKeepsSafe(s: Registry, agentId: string, msg: string)
    requires Safe(s)
    ensures Safe(DoSend(s, agentId, msg))
  {
    SendKeepsPending(s, agentId, msg);
    SameCalls(s, DoSend(s, agentId, msg));
  }

  lemma ReceiveKeepsSafe(s: Registry, addr: int)
    requires Safe(s) && HasMessage(s, addr)
    ensures Safe(DoReceive(s, addr))
  {
    FramePending(s, DoReceive(s, addr));
    FrameConnected(s, DoReceive(s, addr));
    FrameRouted(s, DoReceive(s, addr));
    SameCalls(s, DoReceive(s, addr));
  }

  lemma BeginCalls(s: Registry, agentId: string, id: string, ch: int)
    requires CallsSound(s) && id !in s.calls && ch !in s.responses
    ensures CallsSound(DoBegin(s, agentId, id, ch))
  {
    OtherCalls(s, DoBegin(s, agentId, id, ch), id);
  }

  /** Connections are judged by who they belong to and whether they are open. */
  lemma FrameConnected(s: Registry, t: Registry)
    requires Connected(s) && t.agents == s.agents
    requires forall x :: x in s.conns ==> x in t.conns && SameConn(s.conns[x], t.conns[x])
    ensures Connected(t)
  {
    forall a | a in s.agents
      ensures t.agents[a] in t.conns && t.conns[t.agents[a]].open && t.conns[t.agents[a]].agentId == a
    {
      var x := s.agents[a];
      assert x in s.conns && x in t.conns;
      assert SameConn(s.conns[s.agents[a]], t.conns[s.agents[a]]);
    }
  }

  predicate SameConn(c: Conn, d: Conn) { d.open == c.open && d.agentId == c.agentId }

  /** A new channel without a result disturbs no result on its way. */
  lemma FrameRouted(s: Registry, t: Registry)
    requires Routed(s) && t.routers == s.routers
    requires forall a :: a in s.conns ==> a in t.conns && SameConn(s.conns[a], t.conns[a])
    requires forall ch :: ch in s.responses ==> ch in t.responses && t.responses[ch] == s.responses[ch]
    requires forall ch :: ch in t.responses && ch !in s.responses ==> t.responses[ch].value.None?
    ensures Routed(t)
  {
  }

  lemma EnterConnected(s: Registry, agentId: string, addr: int, id: string, ch: int)
    requires !s.sendCrash && Connected(s) && addr in s.conns && s.conns[addr].open
    ensures var t := Enter(s, agentId, addr, id, ch); !t.sendCrash && Connected(t)
  {
    FrameConnected(s, Enter(s, agentId, addr, id, ch));
  }

  lemma EnterRouted(s: Registry, agentId: string, addr: int, id: string, ch: int)
    requires Routed(s) && addr in s.conns && ch !in s.responses
    ensures Routed(Enter(s, agentId, addr, id, ch))
  {
    FrameRouted(s, Enter(s, agentId, addr, id, ch));
  }

  lemma BeginKeepsSafe(s: Registry, agentId: string, id: string, ch: int)
    requires Safe(s) && id !in s.calls && ch !in s.responses
    ensures Safe(DoBegin(s, agentId, id, ch))
  {
    BeginCalls(s, agentId, id, ch);
    if agentId in s.agents {
      EnterConnected(s, agentId, s.agents[agentId], id, ch);
      EnterRouted(s, agentId, s.agents[agentId], id, ch);
      BeginKeepsPending(s, agentId, id, ch);
    } else {
      FramePending(s, DoBegin(s, agentId, id, ch));
    }
  }

  lemma TakeKeepsSafe(s: Registry, id: string)
    requires Safe(s) && CanTake(s, id)
    ensures Safe(DoTake(s, id))
  {
    FramePending(s, DoTake(s, id));
    assert CallSound(s, id);
    OtherCalls(s, DoTake(s, id), id);
  }

  lemma TimeOutKeepsSafe(s: Registry, id: string)
    requires Safe(s) && IsWaiting(s, id)
    ensures Safe(DoTimeOut(s, id))
  {
    FramePending(s, DoTimeOut(s, id));
    OtherCalls(s, DoTimeOut(s, id), id);
  }

  lemma CleanUpKeepsPending(s: Registry, id: string)
    requires PendingSound(s) && Owned(s) && IsReturning(s, id)
    ensures PendingSound(DoCleanUp(s, id)) && Owned(DoCleanUp(s, id))
  {
    var t := DoCleanUp(s, id);
    forall a, i | Entered(t, a, i)
      ensures PendingEntry(t, a, i) && t.calls[i].conn == a
    {
      assert i in s.conns[a].pending;
      assert Entered(s, a, i);
      assert i != id;
    }
  }

  lemma CleanUpKeepsSafe(s: Registry, id: string)
    requires Safe(s) && IsReturning(s, id)
    ensures Safe(DoCleanUp(s, id))
  {
    CleanUpKeepsPending(s, id);
    assert CallSound(s, id);
    OtherCalls(s, DoCleanUp(s, id), id);
  }

  lemma FindKeepsPending(s: Registry, r: int, result: CommandResult)
    requires PendingSound(s) && Owned(s)
    ensures PendingSound(DoFind(s, r, result)) && Owned(DoFind(s, r, result))
  {
    FramePending(s, DoFind(s, r, result));
  }

  lemma FindKeepsSafe(s: Registry, r: int, result: CommandResult)
    requires Safe(s)
    ensures Safe(DoFind(s, r, result))
  {
    FindKeepsPending(s, r, result);
    SameCalls(s, DoFind(s, r, result));
  }

  lemma PickKeepsSafe(s: Registry, r: int)
    requires Safe(s) && HasFound(s, r)
    ensures Safe(DoPick(s, r))
  {
    FramePending(s, DoPick(s, r));
    SameCalls(s, DoPick(s, r));
    PickRouted(s, r);
  }

  /** What the lookup finds is the channel of that command, made for the agent the result came from. */
  lemma PickRouted(s: Registry, r: int)
    requires PendingSound(s) && Routed(s) && HasFound(s, r)
    ensures Routed(DoPick(s, r))
  {
    var f := s.routers[r];
    if Entered(s, f.conn, f.result.commandId) {
      assert PendingEntry(s, f.conn, f.result.commandId);
    }
  }

  lemma DeliverKeepsSafe(s: Registry, r: int)
    requires Safe(s) && HasPicked(s, r)
    ensures Safe(DoDeliver(s, r))
  {
    FramePending(s, DoDeliver(s, r));
    SameCalls(s, DoDeliver(s, r));
  }

  lemma OnceClosed(s: Registry)
    requires Safe(s)
    ensures Safe(s.(closed := true))
  {
    FramePending(s, s.(closed := true));
    SameCalls(s, s.(closed := true));
  }

  lemma StepKeepsSafe(s: Registry, step: Step)
    requires Safe(s) && Enabled(s, step)
    ensures Safe(Do(s, step))
  {
    match step
    case Register(agentId, addr, capacity) => RegisterKeepsSafe(s, agentId, addr, capacity);
    case Unregister(agentId) => if agentId in s.agents { CloseKeepsSafe(s, {s.agents[agentId]}); }
    case Send(agentId, msg) => SendKeepsSafe(s, agentId, msg);
    case Receive(addr) => ReceiveKeepsSafe(s, addr);
    case BeginCommand(agentId, id, ch) => BeginKeepsSafe(s, agentId, id, ch);
    case TakeResponse(id) => TakeKeepsSafe(s, id);
    case TimeOut(id) => TimeOutKeepsSafe(s, id);
    case CleanUp(id) => CleanUpKeepsSafe(s, id);
    case FindAgent(r, result) => FindKeepsSafe(s, r, result);
    case PickChannel(r) => PickKeepsSafe(s, r);
    case DeliverResult(r) => DeliverKeepsSafe(s, r);
    case Close =>
      if !s.closed {
        CloseKeepsSafe(s, s.agents.Values);
        OnceClosed(CloseAll(s, s.agents.Values));
      }
  }

  ghost predicate Runs(s: Registry, steps: seq<Step>)
    decreases |steps|
  {
    steps == [] || (Enabled(s, steps[0]) && Runs(Do(s, steps[0]), steps[1..]))
  }

  ghost function Final(s: Registry, steps: seq<Step>): Registry
    requires Runs(s, steps)
    decreases |steps|
  {
    if steps == [] then s else Final(Do(s, steps[0]), steps[1..])
  }

  lemma {:induction false} RunKeepsSafe(s: Registry, steps: seq<Step>)
    requires Safe(s) && Runs(s, steps)
    ensures Safe(Final(s, steps))
    decreases |steps|
  {
    if steps != [] {
      StepKeepsSafe(s, steps[0]);
      RunKeepsSafe(Do(s, steps[0]), steps[1..]);
    }
  }

  /** Over every interleaving of locked sections: no send meets a closed SendCh and none is closed
      twice, every registered channel is open, a command gets only a result carrying its id and
      routed for its agent, and no returned command is left pending. */
  lemma RegistryIsSafe(s: Registry, steps: seq<Step>)
    requires Init(s) && Runs(s, steps)
    ensures var t := Final(s, steps);
      && !t.sendCrash
      && (forall a :: a in t.agents ==> t.agents[a] in t.conns && t.conns[t.agents[a]].open)
      && (forall id :: id in t.calls && t.calls[id].Returned? && t.calls[id].outcome.Got? ==>
            t.calls[id].outcome.result.commandId == id && t.calls[id].outcome.result.from == t.calls[id].agentId)
      && (forall a, id :: Entered(t, a, id) ==> id in t.calls && !t.calls[id].Returned?)
  {
    RunKeepsSafe(s, steps);
    var t := Final(s, steps);
    forall id | id in t.calls && t.calls[id].Returned? && t.calls[id].outcome.Got?
      ensures t.calls[id].outcome.result.commandId == id && t.calls[id].outcome.result.from == t.calls[id].agentId
    {
      assert CallSound(t, id);
    }
    forall a, id | Entered(t, a, id) ensures id in t.calls && !t.calls[id].Returned? {
      assert Entered(t, a, id);
    }
  }

  // ---- where a result can still meet a closed channel ----

  /** The connections a step closes. */
  function ClosedBy(s: Registry, step: Step): set<int>
  {
    match step
    case Unregister(agentId) => if agentId in s.agents then {s.agents[agentId]} else {}
    case Close => if s.closed then {} else s.agents.Values
    case _ => {}
  }

  /** The step closes the connection of this channel's command while the command still has its pending entry. */
  predicate Cuts(s: Registry, step: Step, ch: int)
    requires ch in s.responses
  {
    var r := s.responses[ch];
    r.conn in ClosedBy(s, step) && Entered(s, r.conn, r.commandId) && s.conns[r.conn].pending[r.commandId] == ch
  }

  lemma PendsThere(s: Registry, addrs: set<int>, ch: int)
    requires PendingSound(s) && ch in s.responses
    ensures var r := s.responses[ch];
      PendsOnAny(s, addrs, ch) <==>
        r.conn in addrs && Entered(s, r.conn, r.commandId) && s.conns[r.conn].pending[r.commandId] == ch
  {
    if PendsOnAny(s, addrs, ch) {
      var a :| a in addrs && a in s.conns && Pends(s.conns[a], ch);
      var id :| id in s.conns[a].pending && s.conns[a].pending[id] == ch;
      assert Entered(s, a, id);
    }
    var r := s.responses[ch];
    if r.conn in addrs && Entered(s, r.conn, r.commandId) && s.conns[r.conn].pending[r.commandId] == ch {
      assert Pends(s.conns[r.conn], ch);
    }
  }

  lemma StepClosesExactly(s: Registry, step: Step, ch: int)
    requires Safe(s) && Enabled(s, step) && ch in s.responses
    ensures ch in Do(s, step).responses
    ensures OpenResponse(Do(s, step), ch) <==> OpenResponse(s, ch) && !Cuts(s, step, ch)
  {
    PendsThere(s, ClosedBy(s, step), ch);
  }

  ghost predicate CutDuring(s: Registry, steps: seq<Step>, ch: int)
    requires Runs(s, steps) && ch in s.responses
    decreases |steps|
  {
    steps != [] && (Cuts(s, steps[0], ch) || (ch in Do(s, steps[0]).responses && CutDuring(Do(s, steps[0]), steps[1..], ch)))
  }

  lemma {:induction false} RunClosesExactly(s: Registry, steps: seq<Step>, ch: int)
    requires Safe(s) && Runs(s, steps) && ch in s.responses
    ensures OpenResponse(Final(s, steps), ch) <==> OpenResponse(s, ch) && !CutDuring(s, steps, ch)
    decreases |steps|
  {
    if steps != [] {
      StepKeepsSafe(s, steps[0]);
      StepClosesExactly(s, steps[0], ch);
      RunClosesExactly(Do(s, steps[0]), steps[1..], ch);
    }
  }

  /** Sending a routed result crashes exactly when, between its lookup and its send, a step closed the
      connection its command was still pending on. */
  lemma RoutedResultIsSafe(s: Registry, r: int, between: seq<Step>)
    requires Safe(s) && HasFound(s, r) && HasPicked(DoPick(s, r), r)
    requires Runs(DoPick(s, r), between)
    requires HasPicked(Final(DoPick(s, r), between), r)
    requires Final(DoPick(s, r), between).routers[r] == DoPick(s, r).routers[r]
    ensures var t := Final(DoPick(s, r), between);
      var ch := DoPick(s, r).routers[r].ch;
      && ch in DoPick(s, r).responses
      && (DoDeliver(t, r).resultCrash <==> t.resultCrash || CutDuring(DoPick(s, r), between, ch))
  {
    var f := s.routers[r];
    assert Entered(s, f.conn, f.result.commandId);
    PickKeepsSafe(s, r);
    RunClosesExactly(DoPick(s, r), between, DoPick(s, r).routers[r].ch);
  }

  // ---- a second connection of the same agent ----

  /** A registration leaves every other agent's connection as it was and the agent's new one open and empty. */
  lemma RegisterIsIsolated(s: Registry, agentId: string, addr: int, capacity: int)
    requires Safe(s) && Enabled(s, Register(agentId, addr, capacity))
    ensures var t := DoRegister(s, agentId, addr, capacity);
      && t.agents[agentId] == addr && t.conns[addr].open && t.conns[addr].queue == [] && t.conns[addr].pending == map[]
      && (forall a :: a in t.agents && a != agentId ==> a in s.agents && t.agents[a] == s.agents[a] != addr)
      && (forall x :: x in s.conns ==> x in t.conns && t.conns[x] == s.conns[x])
  {
  }

  /** No agent is registered on this connection, though it exists. */
  predicate Abandoned(s: Registry, addr: int) { addr in s.conns && addr !in s.agents.Values }

  lemma StepKeepsAbandoned(s: Registry, step: Step, addr: int)
    requires Enabled(s, step) && Abandoned(s, addr)
    ensures Abandoned(Do(s, step), addr) && Do(s, step).conns[addr].open == s.conns[addr].open
  {
  }

  lemma {:induction false} RunKeepsAbandoned(s: Registry, steps: seq<Step>, addr: int)
    requires Runs(s, steps) && Abandoned(s, addr)
    ensures Abandoned(Final(s, steps), addr) && Final(s, steps).conns[addr].open == s.conns[addr].open
    decreases |steps|
  {
    if steps != [] {
      StepKeepsAbandoned(s, steps[0], addr);
      RunKeepsAbandoned(Do(s, steps[0]), steps[1..], addr);
    }
  }

  /** A connection replaced by a second registration of its agent is never closed by the registry. */
  lemma ReplacedStaysOpen(s: Registry, agentId: string, addr: int, capacity: int, steps: seq<Step>)
    requires Safe(s) && agentId in s.agents && Enabled(s, Register(agentId, addr, capacity))
    requires Runs(DoRegister(s, agentId, addr, capacity), steps)
    ensures var t := Final(DoRegister(s, agentId, addr, capacity), steps);
      s.agents[agentId] in t.conns && t.conns[s.agents[agentId]].open
  {
    RunKeepsAbandoned(DoRegister(s, agentId, addr, capacity), steps, s.agents[agentId]);
  }

  predicate Holds(s: Registry, agentId: string, addr: int) { agentId in s.agents && s.agents[agentId] == addr }

  /** The step registers or unregisters the agent, or closes the whole registry for the first time. */
  predicate Displaces(s: Registry, step: Step, agentId: string)
  {
    match step
    case Register(a, _, _) => a == agentId
    case Unregister(a) => a == agentId
    case Close => !s.closed
    case _ => false
  }

  ghost predicate DisplacedDuring(s: Registry, steps: seq<Step>, agentId: string)
    requires Runs(s, steps)
    decreases |steps|
  {
    steps != [] && (Displaces(s, steps[0], agentId) || DisplacedDuring(Do(s, steps[0]), steps[1..], agentId))
  }

  lemma StepDisplacesExactly(s: Registry, step: Step, agentId: string, addr: int)
    requires Safe(s) && Enabled(s, step) && Holds(s, agentId, addr)
    ensures Holds(Do(s, step), agentId, addr) <==> !Displaces(s, step, agentId)
    ensures Displaces(s, step, agentId) ==> Abandoned(Do(s, step), addr)
  {
  }

  lemma {:induction false} RunDisplacesExactly(s: Registry, steps: seq<Step>, agentId: string, addr: int)
    requires Safe(s) && Runs(s, steps) && Holds(s, agentId, addr)
    ensures Holds(Final(s, steps), agentId, addr) <==> !DisplacedDuring(s, steps, agentId)
    decreases |steps|
  {
    if steps != [] {
      StepKeepsSafe(s, steps[0]);
      StepDisplacesExactly(s, steps[0], agentId, addr);
      if Displaces(s, steps[0], agentId) {
        RunKeepsAbandoned(Do(s, steps[0]), steps[1..], addr);
      } else {
        RunDisplacesExactly(Do(s, steps[0]), steps[1..], agentId, addr);
      }
    }
  }

  /** When a stream ends, its Unregister closes the stream's own connection exactly when, since its Register,
      the agent was neither registered nor unregistered again and the registry was not closed. */
  lemma StreamClosesItsOwn(s: Registry, agentId: string, addr: int, capacity: int, steps: seq<Step>)
    requires Safe(s) && Enabled(s, Register(agentId, addr, capacity))
    requires Runs(DoRegister(s, agentId, addr, capacity), steps)
    ensures var s1 := DoRegister(s, agentId, addr, capacity);
      ClosedBy(Final(s1, steps), Unregister(agentId)) == {addr} <==> !DisplacedDuring(s1, steps, agentId)
  {
    StepKeepsSafe(s, Register(agentId, addr, capacity));
    RunDisplacesExactly(DoRegister(s, agentId, addr, capacity), steps, agentId, addr);
    var t := Final(DoRegister(s, agentId, addr, capacity), steps);
    assert agentId in t.agents && {t.agents[agentId]} == {addr} ==> t.agents[agentId] in {addr};
  }

  lemma OneStep(s: Registry, a: seq<Step>, step: Step)
    requires Runs(s, a) && Enabled(Final(s, a), step)
    ensures Runs(s, a + [step]) && Final(s, a + [step]) == Do(Final(s, a), step)
    decreases |a|
  {
    if a == [] {
      assert [step][1..] == [] && a + [step] == [step];
      assert Runs(Do(s, step), []);
    } else {
      assert (a + [step])[1..] == a[1..] + [step];
      OneStep(Do(s, a[0]), a[1..], step);
    }
  }

  /** The unsafe order exists: the agent disconnects after the lookup, and the send crashes. */
  lemma DisconnectDuringRouting() returns (s: Registry, steps: seq<Step>)
    ensures Init(s) && Runs(s, steps) && Final(s, steps).resultCrash
  {
    s := Registry(map[], map[], map[], false, false, false, map[], map[]);
    var result := CommandResult("c", "a", "");
    steps := [];
    OneStep(s, [], Register("a", 0, 1));
    var s1 := DoRegister(s, "a", 0, 1);
    OneStep(s, [Register("a", 0, 1)], BeginCommand("a", "c", 0));
    var s2 := DoBegin(s1, "a", "c", 0);
    steps := [Register("a", 0, 1)] + [BeginCommand("a", "c", 0)];
    OneStep(s, steps, FindAgent(0, result));
    var s3 := DoFind(s2, 0, result);
    steps := steps + [FindAgent(0, result)];
    OneStep(s, steps, PickChannel(0));
    var s4 := DoPick(s3, 0);
    steps := steps + [PickChannel(0)];
    OneStep(s, steps, Unregister("a"));
    var s5 := DoUnregister(s4, "a");
    steps := steps + [Unregister("a")];
    assert Pends(s4.conns[0], 0) by { assert "c" in s4.conns[0].pending; }
    assert PendsOnAny(s4, {0}, 0);
    OneStep(s, steps, DeliverResult(0));
    steps := steps + [DeliverResult(0)];
  }
}
