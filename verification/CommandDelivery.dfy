/** What a command and its result come to: where the message is queued, which channel the result reaches, and
    what the waiting caller gets. */
module CommandDelivery {
  import opened Common
  import opened AgentRegistry
  import opened AgentManager

  // ---- sending ----

  /** A message goes to the end of its agent's queue when there is room, and otherwise nowhere. */
  lemma MessageQueued(s: Registry, agentId: string, msg: string)
    requires Safe(s) && agentId in s.agents
    ensures var addr := s.agents[agentId];
      var c, t := s.conns[addr], DoSend(s, agentId, msg);
      t == s.(conns := s.conns[addr := if |c.queue| < c.capacity then c.(queue := c.queue + [msg]) else c])
  {
  }

  lemma NobodyToSendTo(s: Registry, agentId: string, msg: string)
    requires agentId !in s.agents
    ensures DoSend(s, agentId, msg) == s
  {
  }

  /** The stream takes the oldest message. */
  lemma OldestReceived(s: Registry, addr: int, msg: string, rest: seq<string>)
    requires addr in s.conns && s.conns[addr].queue == [msg] + rest
    ensures Enabled(s, Receive(addr)) && DoReceive(s, addr) == s.(conns := s.conns[addr := s.conns[addr].(queue := rest)])
  {
  }

  /** A command to a connected agent is pending on an open, empty channel of its own and queued last; it waits
      there when there was room, and is told so when there was not. */
  lemma CommandBegins(s: Registry, agentId: string, id: string, ch: int)
    requires Safe(s) && agentId in s.agents && id !in s.calls && ch !in s.responses
    ensures var addr := s.agents[agentId];
      var c, t := s.conns[addr], DoBegin(s, agentId, id, ch);
      var room := |c.queue| < c.capacity;
      && t.conns[addr].queue == (if room then c.queue + [id] else c.queue)
      && t.conns[addr].pending == c.pending[id := ch]
      && t.responses == s.responses[ch := Response(true, None, addr, id, agentId)]
      && t.calls == s.calls[id := if room then Waiting(agentId, addr, ch) else Returning(agentId, addr, BufferFull)]
      && t.agents == s.agents && forall a :: a in s.conns && a != addr ==> t.conns[a] == s.conns[a]
  {
  }

  lemma CommandToNobody(s: Registry, agentId: string, id: string, ch: int)
    requires agentId !in s.agents
    ensures DoBegin(s, agentId, id, ch) == s.(calls := s.calls[id := Returned(agentId, NotConnected)])
  {
  }

  // ---- the result ----

  /** Undisturbed, the first result of a pending command of a connected agent is put on the command's channel,
      and nothing else changes. */
  lemma ResultArrives(s: Registry, result: CommandResult, ch: int)
    requires Safe(s) && s.routers == map[] && result.from in s.agents
    requires result.commandId in s.conns[s.agents[result.from]].pending
    requires s.conns[s.agents[result.from]].pending[result.commandId] == ch
    requires ch in s.responses && s.responses[ch].value == None
    ensures Handled(s, result) == s.(responses := s.responses[ch := s.responses[ch].(value := Some(result))])
  {
    assert Entered(s, s.agents[result.from], result.commandId);
    var found := DoFind(s, 0, result);
    var picked := DoPick(found, 0);
    assert DoDeliver(picked, 0).routers == map[];
  }

  /** A second result, a result for no pending command, and one from an agent that is not connected are dropped. */
  lemma ResultDropped(s: Registry, result: CommandResult)
    requires Safe(s) && s.routers == map[]
    requires result.from in s.agents && result.commandId in s.conns[s.agents[result.from]].pending ==>
      var ch := s.conns[s.agents[result.from]].pending[result.commandId];
      ch in s.responses && s.responses[ch].value.Some?
    ensures Handled(s, result) == s
  {
    if result.from in s.agents {
      var found := DoFind(s, 0, result);
      assert found.routers - {0} == map[];
      if result.commandId in s.conns[s.agents[result.from]].pending {
        assert Entered(s, s.agents[result.from], result.commandId);
      }
    }
  }

  /** Among other steps, a routed result is put on the channel it was looked up for, if that is open and empty. */
  lemma RoutedResultArrives(s: Registry, r: int)
    requires HasPicked(s, r) && s.routers[r].ch in s.responses
    ensures var p, t := s.routers[r], Do(s, DeliverResult(r));
      var c := s.responses[p.ch];
      && t.responses == s.responses[p.ch := if c.open && c.value == None then c.(value := Some(p.result)) else c]
      && t.calls == s.calls && t.conns == s.conns && t.agents == s.agents
  {
  }

  // ---- the caller ----

  /** The call waits on a channel that holds this result. */
  predicate Holds(s: Registry, id: string, ch: int, result: CommandResult)
  {
    && id in s.calls && s.calls[id].Waiting? && s.calls[id].ch == ch
    && ch in s.responses && s.responses[ch].value == Some(result)
  }

  /** It can take the result, gets exactly it, and then returns it. */
  lemma WaiterGetsResult(s: Registry, id: string, ch: int, result: CommandResult)
    requires Holds(s, id, ch, result)
    ensures Enabled(s, TakeResponse(id))
    ensures var t := Do(s, TakeResponse(id));
      && t.calls[id] == Returning(s.calls[id].agentId, s.calls[id].conn, Got(result))
      && Enabled(t, CleanUp(id)) && Do(t, CleanUp(id)).calls[id] == Returned(s.calls[id].agentId, Got(result))
  {
  }

  lemma StepKeepsResult(s: Registry, step: Step, id: string, ch: int, result: CommandResult)
    requires Safe(s) && Enabled(s, step) && Holds(s, id, ch, result) && step != TakeResponse(id) && step != TimeOut(id)
    ensures Holds(Do(s, step), id, ch, result)
  {
    assert CallSound(s, id);
    if step.TakeResponse? { assert CallSound(s, step.commandId); }
  }

  lemma {:induction false} RunKeepsResult(s: Registry, steps: seq<Step>, id: string, ch: int, result: CommandResult)
    requires Safe(s) && Runs(s, steps) && Holds(s, id, ch, result)
    requires forall step :: step in steps ==> step != TakeResponse(id) && step != TimeOut(id)
    ensures Holds(Final(s, steps), id, ch, result)
    decreases |steps|
  {
    if steps != [] {
      assert steps[0] in steps && forall x :: x in steps[1..] ==> x in steps;
      StepKeepsSafe(s, steps[0]);
      StepKeepsResult(s, steps[0], id, ch, result);
      RunKeepsResult(Do(s, steps[0]), steps[1..], id, ch, result);
    }
  }

  /** Once a result is on the channel of a waiting call, no interleaving takes it away or replaces it: as long
      as the call neither took it nor timed out, it can, and then gets exactly this result. */
  lemma ResultWaitsForCaller(s: Registry, steps: seq<Step>, id: string, ch: int, result: CommandResult)
    requires Safe(s) && Runs(s, steps) && Holds(s, id, ch, result)
    requires forall step :: step in steps ==> step != TakeResponse(id) && step != TimeOut(id)
    ensures var t := Final(s, steps);
      && Enabled(t, TakeResponse(id))
      && id in Do(t, TakeResponse(id)).calls
      && Do(t, TakeResponse(id)).calls[id] == Returning(t.calls[id].agentId, t.calls[id].conn, Got(result))
  {
    RunKeepsResult(s, steps, id, ch, result);
    WaiterGetsResult(Final(s, steps), id, ch, result);
  }

  /** A call that waits on an empty channel goes on waiting while the channel is open, and is told of the
      disconnection when it is closed; it can always time out. */
  lemma WaiterWithoutResult(s: Registry, id: string, ch: int)
    requires id in s.calls && s.calls[id].Waiting? && s.calls[id].ch == ch
    requires ch in s.responses && s.responses[ch].value == None
    ensures Enabled(s, TakeResponse(id)) <==> !s.responses[ch].open
    ensures !s.responses[ch].open ==>
      Do(s, TakeResponse(id)).calls[id] == Returning(s.calls[id].agentId, s.calls[id].conn, Disconnected)
    ensures Enabled(s, TimeOut(id))
    ensures Do(s, TimeOut(id)).calls[id] == Returning(s.calls[id].agentId, s.calls[id].conn, TimedOut)
  {
  }

  // ---- disconnecting ----

  /** Unregistering closes the agent's connection and the channels of exactly its pending commands, keeping what
      already arrived there, and leaves every other agent alone. */
  lemma AgentDisconnects(s: Registry, agentId: string, ch: int)
    requires Safe(s) && agentId in s.agents && ch in s.responses
    ensures var addr, t := s.agents[agentId], DoUnregister(s, agentId);
      && agentId !in t.agents && addr in t.conns && !t.conns[addr].open && t.conns[addr].pending == map[]
      && (forall a :: a != agentId ==> (a in t.agents <==> a in s.agents) && (a in s.agents ==> t.agents[a] == s.agents[a]))
      && (forall x :: x in s.conns && x != addr ==> x in t.conns && t.conns[x] == s.conns[x])
      && ch in t.responses && t.responses[ch].value == s.responses[ch].value
      && t.responses[ch].open == (s.responses[ch].open && ch !in s.conns[addr].pending.Values)
      && t.calls == s.calls
  {
    var addr := s.agents[agentId];
    assert PendsOnAny(s, {addr}, ch) <==> Pends(s.conns[addr], ch);
    assert forall a :: a in s.agents && a != agentId ==> s.agents[a] != addr;
  }

  /** Closing the registry disconnects every agent, once. */
  lemma RegistryCloses(s: Registry)
    requires Safe(s)
    ensures s.closed ==> DoClose(s) == s
    ensures !s.closed ==>
      && DoClose(s).agents == map[] && DoClose(s).closed
      && forall a :: a in s.agents ==> s.agents[a] in DoClose(s).conns && !DoClose(s).conns[s.agents[a]].open
  {
  }

  // ---- heartbeats ----

  lemma HeartbeatTransitions(a: CurrentJob, b: CurrentJob)
    ensures Transition(None, Some(a)) == AgentManager.JobStarted && Transition(Some(a), None) == JobStopped
    ensures Transition(Some(a), Some(b)) == JobProgress && Transition(None, None) == JobNoChange
  {
  }
}
