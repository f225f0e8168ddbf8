/** The manager object. Its methods change the registry in place, each run from start to end
    matching the locked sections of AgentRegistry; channels are reached by address. */
module AgentManager {
  import opened Common
  import opened AgentRegistry

  datatype JobTransition = JobNoChange | JobStarted | JobProgress | JobStopped

  datatype CurrentJob = CurrentJob(planId: string, planName: string, startedAt: string)

  lemma PendsOnOneMore(s: Registry, done: set<int>, addr: int, ch: int)
    requires addr !in done
    ensures PendsOnAny(s, done + {addr}, ch) <==> PendsOnAny(s, done, ch) || PendsOnAny(CloseAll(s, done), {addr}, ch)
  {
    var mid := CloseAll(s, done);
    assert addr in s.conns ==> mid.conns[addr] == s.conns[addr];
    if PendsOnAny(mid, {addr}, ch) {
      assert Pends(s.conns[addr], ch) && addr in done + {addr};
    }
    if PendsOnAny(s, done, ch) {
      var a :| a in done && a in s.conns && Pends(s.conns[a], ch);
      assert a in done + {addr};
    }
    if PendsOnAny(s, done + {addr}, ch) && !PendsOnAny(s, done, ch) {
      var a :| a in done + {addr} && a in s.conns && Pends(s.conns[a], ch);
      assert a == addr && addr in {addr};
    }
  }

  lemma ResponsesOneMore(s: Registry, done: set<int>, addr: int)
    requires addr !in done
    ensures CloseAll(CloseAll(s, done), {addr}).responses == CloseAll(s, done + {addr}).responses
  {
    forall ch | ch in s.responses ensures CloseAll(CloseAll(s, done), {addr}).responses[ch] == CloseAll(s, done + {addr}).responses[ch] {
      PendsOnOneMore(s, done, addr, ch);
    }
  }

  /** Closing one more registered connection is closing the larger set. */
  lemma CloseOneMore(s: Registry, done: set<int>, addr: int)
    requires Safe(s) && addr !in done && addr in s.agents.Values
    requires forall x :: x in done ==> x in s.agents.Values
    ensures CloseAll(CloseAll(s, done), {addr}) == CloseAll(s, done + {addr})
  {
    var mid := CloseAll(s, done);
    var name :| name in s.agents && s.agents[name] == addr;
    assert name in mid.agents && mid.agents[name] == addr;
    CloseKeepsSafe(s, done);
    NoDoubleClose(s, done);
    NoDoubleClose(s, done + {addr});
    NoDoubleClose(mid, {addr});
    ResponsesOneMore(s, done, addr);
    TablesOneMore(s, done, addr);
  }

  lemma TablesOneMore(s: Registry, done: set<int>, addr: int)
    requires addr !in done
    ensures CloseAll(CloseAll(s, done), {addr}).agents == CloseAll(s, done + {addr}).agents
    ensures CloseAll(CloseAll(s, done), {addr}).conns == CloseAll(s, done + {addr}).conns
  {
  }

  lemma CloseNone(s: Registry)
    requires Safe(s)
    ensures CloseAll(s, {}) == s
  {
    NoDoubleClose(s, {});
    assert CloseAll(s, {}).agents == s.agents;
    assert CloseAll(s, {}).conns == s.conns;
    assert CloseAll(s, {}).responses == s.responses;
  }

  class Manager {
    var agents: map<string, int>
    var conns: map<int, Conn>
    var responses: map<int, Response>
    var closed: bool
    var sendCrash: bool
    var resultCrash: bool
    var jobs: map<int, CurrentJob>          // CurrentJob per connection record
    ghost var calls: map<string, Call>      // where each SendCommand stands

    ghost function State(): Registry
      reads this
    {
      Registry(agents, conns, responses, closed, sendCrash, resultCrash, calls, map[])
    }

    constructor ()
      ensures Init(State()) && jobs == map[]
    {
      agents, conns, responses, jobs := map[], map[], map[], map[];
      closed, sendCrash, resultCrash, calls := false, false, false, map[];
    }

    method Register(agentId: string, addr: int, capacity: int)
      requires addr !in conns && addr !in jobs
      modifies this
      ensures State() == DoRegister(old(State()), agentId, addr, capacity) && jobs == old(jobs)
    {
      conns := conns[addr := Conn(agentId, true, capacity, [], map[])];
      agents := agents[agentId := addr];
    }

    /** Closes every pending channel of a connection, in any order. */
    method ClosePending(addr: int)
      requires Safe(State()) && addr in agents.Values
      modifies this`responses, this`sendCrash
      ensures sendCrash == old(sendCrash)
      ensures responses == CloseAll(old(State()), {addr}).responses
    {
      ghost var s := State();
      var pending := conns[addr].pending;
      var ids := pending.Keys;
      while ids != {}
        invariant ids <= pending.Keys
        invariant sendCrash == s.sendCrash
        invariant responses.Keys == s.responses.Keys
        invariant forall ch :: ch in responses ==>
          responses[ch] == s.responses[ch].(open := s.responses[ch].open && !ClosedSoFar(pending, ids, ch))
        decreases ids
      {
        var id :| id in ids;
        var ch := pending[id];
        OnlyOnce(s, addr, id, ids);
        SoFar(pending, ids, id);
        sendCrash := sendCrash || ch !in responses || !responses[ch].open;
        if ch in responses { responses := responses[ch := responses[ch].(open := false)]; }
        ids := ids - {id};
      }
      AllClosed(s, addr);
    }

    /** What Unregister does for one agent, and Close for each. */
    method CloseConnection(agentId: string)
      requires Safe(State()) && agentId in agents
      modifies this
      ensures State() == CloseAll(old(State()), {old(agents)[agentId]}) && jobs == old(jobs)
    {
      var addr := agents[agentId];
      NoDoubleClose(State(), {addr});
      ClosePending(addr);
      sendCrash := sendCrash || !conns[addr].open;
      conns := conns[addr := conns[addr].(open := false, pending := map[])];
      agents := agents - {agentId};
      assert agents == CloseAll(old(State()), {addr}).agents;
      assert conns == CloseAll(old(State()), {addr}).conns;
    }

    method Unregister(agentId: string)
      requires Safe(State())
      modifies this
      ensures State() == DoUnregister(old(State()), agentId) && jobs == old(jobs)
    {
      if agentId in agents {
        CloseConnection(agentId);
      }
    }

    method Close()
      requires Safe(State())
      modifies this
      ensures State() == DoClose(old(State())) && jobs == old(jobs)
      ensures !old(closed) ==> agents == map[]
    {
      if closed { return; }
      ghost var s := State();
      ghost var done: set<int> := {};
      CloseNone(s);
      while agents != map[]
        invariant State() == CloseAll(s, done) && jobs == old(jobs)
        invariant done <= s.agents.Values
        decreases agents.Keys
      {
        CloseKeepsSafe(s, done);
        var id :| id in agents;
        ghost var addr := agents[id];
        assert addr in s.agents.Values by { assert s.agents[id] == addr; }
        CloseOneMore(s, done, addr);
        CloseConnection(id);
        done := done + {addr};
        assert id !in agents;
      }
      assert done == s.agents.Values by {
        forall x | x in s.agents.Values ensures x in done {
          var id :| id in s.agents && s.agents[id] == x;
          assert x !in done ==> id in agents;
        }
      }
      closed := true;
    }

    method Send(agentId: string, msg: string) returns (ok: bool)
      requires Safe(State())
      modifies this
      ensures State() == DoSend(old(State()), agentId, msg) && jobs == old(jobs)
      ensures ok <==> agentId in agents && |old(conns)[agents[agentId]].queue| < old(conns)[agents[agentId]].capacity
    {
      ok := false;
      if agentId in agents {
        var addr := agents[agentId];
        var c := conns[addr];
        sendCrash := sendCrash || !c.open;
        ok := |c.queue| < c.capacity;
        if ok {
          conns := conns[addr := c.(queue := c.queue + [msg])];
        } else {
          assert conns == old(conns)[addr := c];
        }
      }
    }

    /** The first part of SendCommand, up to the wait for the response. */
    method BeginCommand(agentId: string, id: string, ch: int) returns (waiting: bool)
      requires Safe(State()) && id !in calls && ch !in responses
      modifies this
      ensures State() == DoBegin(old(State()), agentId, id, ch) && jobs == old(jobs)
      ensures waiting <==> IsWaiting(State(), id)
    {
      if agentId !in agents {
        calls := calls[id := Returned(agentId, NotConnected)];
        return false;
      }
      var addr := agents[agentId];
      var c := conns[addr];
      sendCrash := sendCrash || !c.open;
      responses := responses[ch := Response(true, None, addr, id, agentId)];
      conns := conns[addr := c.(pending := c.pending[id := ch])];
      waiting := |c.queue| < c.capacity;
      if waiting {
        conns := conns[addr := conns[addr].(queue := c.queue + [id])];
        calls := calls[id := Waiting(agentId, addr, ch)];
      } else {
        calls := calls[id := Returning(agentId, addr, BufferFull)];
      }
    }

    /** The deferred deletion at the end of SendCommand. */
    method CleanUp(id: string, conn: int)
      requires Safe(State()) && IsReturning(State(), id) && calls[id].conn == conn
      modifies this
      ensures State() == DoCleanUp(old(State()), id) && jobs == old(jobs)
      ensures forall a :: !Entered(State(), a, id)
    {
      ghost var s := State();
      if conn in conns {
        conns := conns[conn := conns[conn].(pending := conns[conn].pending - {id})];
      }
      calls := calls[id := Returned(calls[id].agentId, calls[id].outcome)];
      forall a ensures !Entered(State(), a, id) {
        if Entered(State(), a, id) { assert Entered(s, a, id); }
      }
    }

    /** Uninterrupted, a result reaches the waiting channel once, and never a closed one. */
    method HandleCommandResult(result: CommandResult)
      requires Safe(State())
      modifies this
      ensures Safe(State()) && resultCrash == old(resultCrash) && jobs == old(jobs)
      ensures State() == Handled(old(State()), result)
    {
      HandledIsSafe(State(), result);
      if result.from !in agents { return; }
      var addr := agents[result.from];
      if result.commandId !in conns[addr].pending { return; }
      var ch := conns[addr].pending[result.commandId];
      assert Entered(State(), addr, result.commandId);
      if responses[ch].value.None? {
        responses := responses[ch := responses[ch].(value := Some(result))];
      }
    }

    method UpdateHeartbeat(agentId: string, job: Option<CurrentJob>) returns (change: JobTransition)
      modifies this
      ensures State() == old(State())
      ensures agentId in agents ==>
        change == Transition(JobOf(old(jobs), agents[agentId]), job) &&
        JobOf(jobs, agents[agentId]) == job &&
        (forall a :: a != agents[agentId] ==> JobOf(jobs, a) == JobOf(old(jobs), a))
      ensures agentId !in agents ==> change == JobNoChange && jobs == old(jobs)
    {
      if agentId !in agents { return JobNoChange; }
      var addr := agents[agentId];
      var had := addr in jobs;
      jobs := match job case None => jobs - {addr} case Some(j) => jobs[addr := j];
      change :=
        if had then (if job.Some? then JobProgress else JobStopped)
        else (if job.Some? then JobStarted else JobNoChange);
    }
  }

  ghost predicate ClosedSoFar(pending: map<string, int>, left: set<string>, ch: int)
  {
    exists id :: id in pending && id !in left && pending[id] == ch
  }

  lemma SoFar(pending: map<string, int>, ids: set<string>, id: string)
    requires id in ids && ids <= pending.Keys
    ensures forall ch :: ClosedSoFar(pending, ids - {id}, ch) <==> ClosedSoFar(pending, ids, ch) || ch == pending[id]
  {
    forall ch ensures ClosedSoFar(pending, ids - {id}, ch) <==> ClosedSoFar(pending, ids, ch) || ch == pending[id] {
      if ClosedSoFar(pending, ids, ch) {
        var k :| k in pending && k !in ids && pending[k] == ch;
        assert k !in ids - {id};
      }
      if ch == pending[id] { assert id !in ids - {id}; }
    }
  }

  lemma AllClosed(s: Registry, addr: int)
    requires addr in s.conns
    ensures forall ch :: ClosedSoFar(s.conns[addr].pending, {}, ch) <==> PendsOnAny(s, {addr}, ch)
  {
    forall ch ensures ClosedSoFar(s.conns[addr].pending, {}, ch) <==> PendsOnAny(s, {addr}, ch) {
      assert addr in {addr};
      if Pends(s.conns[addr], ch) {
        var id :| id in s.conns[addr].pending && s.conns[addr].pending[id] == ch;
        assert id !in {};
      }
    }
  }

  lemma OnlyOnce(s: Registry, addr: int, id: string, ids: set<string>)
    requires Safe(s) && Entered(s, addr, id) && id in ids
    ensures OpenResponse(s, s.conns[addr].pending[id])
    ensures !ClosedSoFar(s.conns[addr].pending, ids, s.conns[addr].pending[id])
  {
    assert PendingEntry(s, addr, id);
    if ClosedSoFar(s.conns[addr].pending, ids, s.conns[addr].pending[id]) {
      var k :| k in s.conns[addr].pending && k !in ids && s.conns[addr].pending[k] == s.conns[addr].pending[id];
      assert Entered(s, addr, k);
    }
  }

  /** The three sections of HandleCommandResult with nothing in between. */
  function Handled(s: Registry, result: CommandResult): Registry
  {
    var found := DoFind(s, 0, result);
    if !HasFound(found, 0) then found
    else
      var picked := DoPick(found, 0);
      if HasPicked(picked, 0) then DoDeliver(picked, 0) else picked
  }

  lemma HandledIsSafe(s: Registry, result: CommandResult)
    requires Safe(s) && s.routers == map[]
    ensures Safe(Handled(s, result)) && Handled(s, result).resultCrash == s.resultCrash
    ensures Handled(s, result).routers == map[]
  {
    var found := DoFind(s, 0, result);
    FindKeepsSafe(s, 0, result);
    if HasFound(found, 0) {
      PickKeepsSafe(found, 0);
      var picked := DoPick(found, 0);
      if HasPicked(picked, 0) {
        assert Entered(found, found.routers[0].conn, result.commandId);
        DeliverKeepsSafe(picked, 0);
      }
    }
  }

  // ---- heartbeats ----

  function JobOf(jobs: map<int, CurrentJob>, addr: int): Option<CurrentJob>
  {
    if addr in jobs then Some(jobs[addr]) else None
  }

  function Transition(before: Option<CurrentJob>, after: Option<CurrentJob>): JobTransition
  {
    match (before, after)
    case (None, Some(_)) => JobStarted
    case (Some(_), None) => JobStopped
    case (Some(_), Some(_)) => JobProgress
    case (None, None) => JobNoChange
  }

  function Reported(before: Option<CurrentJob>, beats: seq<Option<CurrentJob>>, kind: JobTransition): int
    decreases |beats|
  {
    if beats == [] then 0
    else (if Transition(before, beats[0]) == kind then 1 else 0) + Reported(beats[0], beats[1..], kind)
  }

  function LastJob(before: Option<CurrentJob>, beats: seq<Option<CurrentJob>>): Option<CurrentJob>
  {
    if beats == [] then before else beats[|beats| - 1]
  }

  /** Over any run of heartbeats, starts and stops alternate: they differ by exactly the change in being busy. */
  lemma {:induction false} StartsMatchStops(before: Option<CurrentJob>, beats: seq<Option<CurrentJob>>)
    ensures Reported(before, beats, JobStarted) - Reported(before, beats, JobStopped)
         == (if LastJob(before, beats).Some? then 1 else 0) - (if before.Some? then 1 else 0)
    decreases |beats|
  {
    if beats != [] {
      StartsMatchStops(beats[0], beats[1..]);
    }
  }
}
