/** From trigger to server row: the scheduler's slots, the interleaved outbox and the server's job table
    run together. Any database statement may fail, and an acknowledgement may be lost on its way back. */
module JobPipeline {
  import opened SpillStore
  import O = Outbox
  import M = OutboxInterleaving
  import N = OutboxNoLoss
  import P = OutboxPaging
  import A = OutboxAcks
  import S = ServerJobs

  datatype Pipe = Pipe(
    calls: set<string>,              // one id per runJob call
    reports: map<string, S.Report>,
    executing: map<string, string>,  // plan id -> the call holding its slot
    clearing: set<string>,           // plans whose job has ended and still holds its slot
    reporting: set<string>,          // calls about to submit their report
    out: M.State,
    book: S.Book,
    // history, for stating what happened
    delivered: seq<string>,          // calls whose report the server accepted, in order, each time
    lost: seq<string>,               // of these, the ones whose acknowledgement did not arrive
    undeleted: seq<string>)          // calls whose row could not be deleted, each time

  datatype Step =
    | RunJob(planId: string, call: string, aborted: S.Report)   // tryStartJob; a refused call reports at once
    | Finish(planId: string, report: S.Report)                  // the job ends
    | Clear(planId: string)                                     // and gives up its slot
    | SubmitReport(call: string, slot: nat)
    | Outbox(step: M.Step)
    | Deliver(outcome: O.Outcome, freshId: string, f: S.Faults, reached: bool)
    | OnServer(e: S.Event)

  function ItemFor(call: string): SpillItem { SpillItem(call, O.JOB_REPORT, call, 0, "", "") }

  function SubmitStep(p: Pipe, call: string, slot: nat): M.Step
  {
    if |p.out.mem| < p.out.memMax then M.SubmitMem(ItemFor(call)) else M.SubmitSpill(slot, ItemFor(call))
  }

  predicate Accepts(p: Pipe, id: string, freshId: string, f: S.Faults)
  {
    id in p.reports && S.Store(p.book.rows, p.reports[id], freshId, f).1
  }

  /** The worker's delivery reaches the sender. */
  predicate Sends(out: M.State) { out.job.Delivering? && out.job.item.attempts < out.maxAttempts }

  /** The server got the report and kept it. */
  predicate Arrives(p: Pipe, freshId: string, f: S.Faults, reached: bool)
  {
    Sends(p.out) && reached && Accepts(p, p.out.job.item.id, freshId, f)
  }

  /** An acknowledgement only comes from a server that kept the report; it may also get lost. */
  predicate Faithful(p: Pipe, outcome: O.Outcome, freshId: string, f: S.Faults, reached: bool)
  {
    Sends(p.out) && outcome.Acked? ==> Arrives(p, freshId, f, reached)
  }

  predicate Enabled(p: Pipe, step: Step)
  {
    match step
    case RunJob(_, call, aborted) => call != "" && call !in p.calls && aborted.status == S.Aborted
    case Finish(planId, report) => planId in p.executing && report.status != S.Aborted
    case Clear(planId) => planId in p.clearing
    case SubmitReport(call, slot) => call in p.reporting && M.Enabled(p.out, SubmitStep(p, call, slot))
    case Outbox(step) =>
      M.Enabled(p.out, step) && !step.SubmitMem? && !step.SubmitSpill? && !step.SendItem?
    case Deliver(outcome, freshId, f, reached) =>
      M.Enabled(p.out, M.SendItem(outcome)) && Faithful(p, outcome, freshId, f, reached)
    case OnServer(e) => !e.Reported?
  }

  /** The server's side of a delivery. */
  function Receive(p: Pipe, outcome: O.Outcome, freshId: string, f: S.Faults, reached: bool): Pipe
  {
    if Arrives(p, freshId, f, reached) then
      var id := p.out.job.item.id;
      p.(book := S.Handle(p.book, S.Reported(p.reports[id], freshId, f)), delivered := p.delivered + [id],
         lost := if outcome.Acked? then p.lost else p.lost + [id])
    else p
  }

  predicate FailsToDelete(p: Pipe, step: M.Step) { step.FinishDelete? && step.fault && p.out.job.Deleting? }

  function Do(p: Pipe, step: Step): Pipe
    requires Enabled(p, step)
  {
    match step
    case RunJob(planId, call, aborted) =>
      var p1 := p.(calls := p.calls + {call});
      if planId in p.executing || planId in p.clearing
      then p1.(reporting := p.reporting + {call}, reports := p.reports[call := aborted])
      else p1.(executing := p.executing[planId := call])
    case Finish(planId, report) =>
      var call := p.executing[planId];
      p.(executing := p.executing - {planId}, clearing := p.clearing + {planId},
         reporting := p.reporting + {call}, reports := p.reports[call := report])
    case Clear(planId) => p.(clearing := p.clearing - {planId})
    case SubmitReport(call, slot) => p.(reporting := p.reporting - {call}, out := M.Do(p.out, SubmitStep(p, call, slot)))
    case Outbox(step) =>
      p.(out := M.Do(p.out, step), undeleted := if FailsToDelete(p, step) then p.undeleted + [p.out.job.id] else p.undeleted)
    case Deliver(outcome, freshId, f, reached) =>
      Receive(p, outcome, freshId, f, reached).(out := M.Do(p.out, M.SendItem(outcome)))
    case OnServer(e) => p.(book := S.Handle(p.book, e))
  }

  // ---- the invariant ----

  /** A call executes, is about to report, or has submitted its report. */
  ghost predicate CallsPlaced(p: Pipe)
  {
    && "" !in p.calls
    && p.calls == p.executing.Values + p.reporting + p.out.submitted
    && p.executing.Values !! p.reporting && p.executing.Values !! p.out.submitted && p.reporting !! p.out.submitted
    && (forall a, b :: a in p.executing && b in p.executing && p.executing[a] == p.executing[b] ==> a == b)
    && p.reports.Keys == p.reporting + p.out.submitted
  }

  ghost predicate Distinct(s: seq<string>) { forall i, j :: 0 <= i < j < |s| ==> s[i] != s[j] }

  /** The accepted reports are those of the delivered calls, and an acknowledgement was seen or lost. */
  ghost predicate Recorded(p: Pipe)
  {
    && |p.delivered| == |p.book.accepted| && S.Reconciled(p.book)
    && (forall k :: 0 <= k < |p.delivered| ==>
          p.delivered[k] in p.out.submitted && p.delivered[k] in p.reports && p.book.accepted[k] == p.reports[p.delivered[k]])
    && (forall id :: id in p.delivered <==> id in p.out.acked || id in p.lost)
  }

  function Times(s: seq<string>, id: string): nat { multiset(s)[id] }

  /** A call is delivered once, and once more for each lost acknowledgement and each failed delete of its own. */
  ghost predicate Repeats(p: Pipe, id: string)
  {
    Times(p.delivered, id) + (if A.Gone(p.out, id) then 0 else 1) <= 1 + Times(p.lost, id) + Times(p.undeleted, id)
  }

  ghost predicate Sound(p: Pipe)
  {
    && CallsPlaced(p) && Recorded(p) && P.Sound(p.out)
    && (forall id :: Repeats(p, id)) && (p.undeleted == [] ==> A.Settled(p.out))
  }

  ghost predicate Start(p: Pipe)
  {
    && p.calls == {} && p.reports == map[] && p.executing == map[] && p.clearing == {} && p.reporting == {}
    && M.Init(p.out) && p.out.table == [] && p.out.steady == {}
    && p.book == S.EMPTY && p.delivered == p.lost == p.undeleted == []
  }

  lemma StartIsSound(p: Pipe)
    requires Start(p)
    ensures Sound(p)
  {
    P.InitPages(p.out);
    assert M.IdSet(p.out.table) == {};
  }

  lemma OutFrame(out: M.State, step: M.Step)
    requires M.Enabled(out, step) && !step.SubmitMem? && !step.SubmitSpill?
    ensures M.Do(out, step).submitted == out.submitted
    ensures !step.SendItem? ==> M.Do(out, step).acked == out.acked
  {
  }

  lemma SubmitFrame(p: Pipe, call: string, slot: nat)
    requires M.Enabled(p.out, SubmitStep(p, call, slot))
    ensures var out := M.Do(p.out, SubmitStep(p, call, slot));
      out.submitted == p.out.submitted + {call} && out.acked == p.out.acked
  {
  }

  lemma RunJobKeepsPlaced(p: Pipe, step: Step)
    requires step.RunJob? && Enabled(p, step) && CallsPlaced(p)
    ensures CallsPlaced(Do(p, step))
  {
    var p' := Do(p, step);
    if step.planId !in p.executing && step.planId !in p.clearing {
      assert p'.executing[step.planId] == step.call;
      forall x ensures x in p'.executing.Values <==> x in p.executing.Values || x == step.call {
        if x in p.executing.Values {
          var plan :| plan in p.executing && p.executing[plan] == x;
          assert p'.executing[plan] == x;
        }
      }
    }
  }

  lemma FinishKeepsPlaced(p: Pipe, step: Step)
    requires step.Finish? && Enabled(p, step) && CallsPlaced(p)
    ensures CallsPlaced(Do(p, step))
  {
    var p' := Do(p, step);
    var call := p.executing[step.planId];
    forall x ensures x in p'.executing.Values <==> x in p.executing.Values && x != call {
      if x in p.executing.Values && x != call {
        var plan :| plan in p.executing && p.executing[plan] == x;
        assert p'.executing[plan] == x;
      }
    }
  }

  lemma StepKeepsPlaced(p: Pipe, step: Step)
    requires Enabled(p, step) && CallsPlaced(p)
    ensures CallsPlaced(Do(p, step))
  {
    match step
    case RunJob(_, _, _) => RunJobKeepsPlaced(p, step);
    case Finish(_, _) => FinishKeepsPlaced(p, step);
    case SubmitReport(call, slot) => SubmitFrame(p, call, slot);
    case Outbox(s) => OutFrame(p.out, s);
    case Deliver(outcome, _, _, _) => OutFrame(p.out, M.SendItem(outcome));
    case _ =>
  }

  lemma DeliverKeepsRecorded(p: Pipe, step: Step)
    requires step.Deliver? && Enabled(p, step) && CallsPlaced(p) && Recorded(p) && P.Sound(p.out)
    ensures Recorded(Do(p, step))
  {
    var send := M.SendItem(step.outcome);
    forall id ensures id in M.Do(p.out, send).acked <==> id in p.out.acked || A.Acks(p.out, send, id) {
      A.AckedGrows(p.out, send, id);
    }
    OutFrame(p.out, send);
    if Arrives(p, step.freshId, step.f, step.reached) {
      A.SentIsAlone(p.out);
      S.HandleReconciles(p.book, S.Reported(p.reports[p.out.job.item.id], step.freshId, step.f));
    }
  }

  lemma StepKeepsRecorded(p: Pipe, step: Step)
    requires Enabled(p, step) && CallsPlaced(p) && Recorded(p) && P.Sound(p.out)
    ensures Recorded(Do(p, step))
  {
    match step
    case RunJob(_, _, _) =>
    case Finish(_, _) => KnownReports(p, step);
    case SubmitReport(call, slot) => SubmitFrame(p, call, slot);
    case Outbox(s) => OutFrame(p.out, s);
    case Deliver(_, _, _, _) => DeliverKeepsRecorded(p, step);
    case OnServer(e) => S.HandleReconciles(p.book, e);
    case _ =>
  }

  lemma KnownReports(p: Pipe, step: Step)
    requires step.Finish? && Enabled(p, step) && CallsPlaced(p)
    ensures p.executing[step.planId] !in p.reports
  {
    assert p.executing[step.planId] in p.executing.Values;
  }

  lemma DeliverRepeats(p: Pipe, step: Step, id: string)
    requires step.Deliver? && Enabled(p, step) && P.Sound(p.out) && Repeats(p, id)
    ensures Repeats(Do(p, step), id)
  {
    var send := M.SendItem(step.outcome);
    if A.Gone(p.out, id) { A.StepKeepsGone(p.out, send, id); }
    if A.Acks(p.out, send, id) { A.AckedIsGone(p.out, send, id); }
  }

  lemma OutboxRepeats(p: Pipe, step: Step, id: string)
    requires step.Outbox? && Enabled(p, step) && P.Sound(p.out) && Repeats(p, id)
    ensures Repeats(Do(p, step), id)
  {
    if A.Gone(p.out, id) { A.StepKeepsGone(p.out, step.step, id); }
  }

  lemma StepRepeats(p: Pipe, step: Step, id: string)
    requires Enabled(p, step) && P.Sound(p.out) && Repeats(p, id)
    ensures Repeats(Do(p, step), id)
  {
    match step
    case SubmitReport(call, slot) => if A.Gone(p.out, id) { A.StepKeepsGone(p.out, SubmitStep(p, call, slot), id); }
    case Outbox(_) => OutboxRepeats(p, step, id);
    case Deliver(_, _, _, _) => DeliverRepeats(p, step, id);
    case _ =>
  }

  lemma StepSettles(p: Pipe, step: Step)
    requires Enabled(p, step) && P.Sound(p.out) && A.Settled(p.out) && Do(p, step).undeleted == []
    ensures A.Settled(Do(p, step).out)
  {
    match step
    case SubmitReport(call, slot) => A.StepSettles(p.out, SubmitStep(p, call, slot));
    case Outbox(s) => A.StepSettles(p.out, s);
    case Deliver(outcome, _, _, _) => A.StepSettles(p.out, M.SendItem(outcome));
    case _ =>
  }

  lemma StepKeepsOut(p: Pipe, step: Step)
    requires Enabled(p, step) && P.Sound(p.out)
    ensures P.Sound(Do(p, step).out)
  {
    match step
    case SubmitReport(call, slot) => P.StepKeepsSound(p.out, SubmitStep(p, call, slot));
    case Outbox(s) => P.StepKeepsSound(p.out, s);
    case Deliver(outcome, _, _, _) => P.StepKeepsSound(p.out, M.SendItem(outcome));
    case _ =>
  }

  lemma NeverForgotten(p: Pipe, step: Step)
    requires Enabled(p, step)
    ensures Do(p, step).undeleted == [] ==> p.undeleted == []
  {
  }

  lemma StepPlaces(p: Pipe, step: Step)
    requires Enabled(p, step) && Sound(p)
    ensures Sound(Do(p, step))
  {
    StepKeepsPlaced(p, step);
    StepKeepsRecorded(p, step);
    StepKeepsOut(p, step);
    forall id ensures Repeats(Do(p, step), id) { StepRepeats(p, step, id); }
    NeverForgotten(p, step);
    if Do(p, step).undeleted == [] { StepSettles(p, step); }
  }

  predicate Runs(p: Pipe, steps: seq<Step>)
    decreases |steps|
  {
    steps == [] || (Enabled(p, steps[0]) && Runs(Do(p, steps[0]), steps[1..]))
  }

  function Final(p: Pipe, steps: seq<Step>): Pipe
    requires Runs(p, steps)
    decreases |steps|
  {
    if steps == [] then p else Final(Do(p, steps[0]), steps[1..])
  }

  lemma {:induction false} RunPlaces(p: Pipe, steps: seq<Step>)
    requires Runs(p, steps) && Sound(p)
    ensures Sound(Final(p, steps))
    decreases |steps|
  {
    if steps != [] {
      StepPlaces(p, steps[0]);
      RunPlaces(Do(p, steps[0]), steps[1..]);
    }
  }

  // ---- the count ----

  predicate Held(out: M.State, id: string)
  {
    N.HandHolds(out.job, id) || exists i :: 0 <= i < |out.spillers| && N.Holds(out.spillers[i], id)
  }

  function InMemory(out: M.State): set<string> { set id | id in out.submitted && HasId(out.mem, id) }

  /** In the hands of a goroutine that submits or delivers it. */
  function InHand(out: M.State): set<string> { set id | id in out.submitted && Held(out, id) }

  /** A row that was acknowledged counts as on record while it waits to be deleted. */
  function InSpill(out: M.State): set<string> { set id | id in out.submitted && HasId(out.table, id) && id !in out.acked }

  ghost function Lost(out: M.State): set<string> { set id | id in out.submitted && id !in out.acked && !N.Live(out, id) }

  lemma Places(out: M.State, id: string)
    requires P.Sound(out) && A.Settled(out) && id in out.submitted
    ensures HasId(out.mem, id) ==> !Held(out, id) && !HasId(out.table, id) && id !in out.acked
    ensures Held(out, id) ==> !HasId(out.table, id) && id !in out.acked
    ensures N.Live(out, id) <==> HasId(out.mem, id) || HasId(out.table, id) || Held(out, id)
  {
    N.HasIdIsMember(out.table, id);
    N.HasIdIsMember(out.mem, id);
    if HasId(out.mem, id) {
      var k :| 0 <= k < |out.mem| && out.mem[k].id == id;
      assert out.mem[k].id !in out.stored;
    }
  }

  /** Every submitted report is in exactly one of these classes. */
  ghost predicate Partitions(all: set<string>, m: set<string>, h: set<string>, s: set<string>, l: set<string>, a: set<string>)
  {
    && all == m + h + s + l + a
    && m !! h && m !! s && m !! l && m !! a && h !! s && h !! l && h !! a && s !! l && s !! a && l !! a
  }

  lemma PartitionSize(all: set<string>, m: set<string>, h: set<string>, s: set<string>, l: set<string>, a: set<string>)
    requires Partitions(all, m, h, s, l, a)
    ensures |all| == |m| + |h| + |s| + |l| + |a|
  {
    assert all == m + (h + (s + (l + a)));
  }

  /** The classes of submitted reports partition them, and what was lost is on record as lost. */
  lemma Partition(out: M.State)
    requires P.Sound(out) && A.Settled(out)
    ensures Partitions(out.submitted, InMemory(out), InHand(out), InSpill(out), Lost(out), out.acked)
    ensures forall id :: id in Lost(out) ==> id in out.evicted + out.pruned + out.dropped + out.refused
  {
    var m, h, s, l, a := InMemory(out), InHand(out), InSpill(out), Lost(out), out.acked;
    forall id | id in out.submitted
      ensures id in m || id in h || id in s || id in l || id in a
      ensures !(id in m && (id in h || id in s || id in l || id in a)) && !(id in h && (id in s || id in l || id in a))
      ensures !(id in s && (id in l || id in a)) && !(id in l && id in a)
    {
      Places(out, id);
    }
    forall id | id in l ensures id in out.evicted + out.pruned + out.dropped + out.refused {
      assert N.Recorded(out, id);
    }
  }

  lemma {:induction false} DistinctCount(s: seq<string>, t: set<string>)
    requires Distinct(s) && forall x :: x in s <==> x in t
    ensures |s| == |t|
  {
    if s != [] {
      var rest := t - {s[0]};
      forall x ensures x in s[1..] <==> x in rest {
        if x in rest {
          var i :| 0 <= i < |s| && s[i] == x;
          assert s[1..][i - 1] == x;
        }
        if x in s[1..] {
          var i :| 0 <= i < |s| - 1 && s[1..][i] == x;
          assert s[i + 1] == x;
        }
      }
      DistinctCount(s[1..], rest);
    } else {
      assert forall x :: x !in t;
      assert t == {};
    }
  }

  lemma CallsCount(p: Pipe)
    requires CallsPlaced(p)
    ensures |p.calls| == |p.executing.Values| + |p.reporting| + |p.out.submitted|
  {
    assert p.calls == p.executing.Values + (p.reporting + p.out.submitted);
    assert p.executing.Values !! p.reporting + p.out.submitted;
  }

  /** Finished rows and deliveries correspond one to one, and each row shows the report of its call. */
  ghost predicate FromCalls(p: Pipe)
  {
    && S.Reconciled(p.book) && |p.delivered| == |p.book.source|
    && forall k :: 0 <= k < |p.delivered| ==>
         p.delivered[k] in p.calls && p.delivered[k] in p.reports &&
         S.Carries(p.book.rows[p.book.source[k]], p.reports[p.delivered[k]])
  }

  lemma RowsAreFromCalls(p: Pipe)
    requires CallsPlaced(p) && Recorded(p)
    ensures FromCalls(p)
  {
  }

  lemma TwiceCounts(s: seq<string>, i: int, j: int)
    requires 0 <= i < j < |s| && s[i] == s[j]
    ensures Times(s, s[i]) >= 2
  {
    assert s == s[..j] + s[j..];
    assert s[..j][i] in s[..j] && s[j..][0] in s[j..];
    assert multiset(s) == multiset(s[..j]) + multiset(s[j..]);
  }

  lemma OnceIsDistinct(s: seq<string>)
    requires forall id :: Times(s, id) <= 1
    ensures Distinct(s)
  {
    forall i, j | 0 <= i < j < |s| ensures s[i] != s[j] {
      if s[i] == s[j] { TwiceCounts(s, i, j); }
    }
  }

  lemma DeliveredOnce(p: Pipe)
    requires Sound(p) && p.lost == p.undeleted == []
    ensures Distinct(p.delivered) && |p.delivered| == |p.out.acked|
  {
    forall id ensures Times(p.delivered, id) <= 1 { assert Repeats(p, id); }
    OnceIsDistinct(p.delivered);
    DistinctCount(p.delivered, p.out.acked);
  }

  lemma SubmittedCount(out: M.State)
    requires P.Sound(out) && A.Settled(out)
    ensures |out.submitted| == |InMemory(out)| + |InHand(out)| + |InSpill(out)| + |Lost(out)| + |out.acked|
    ensures forall id :: id in Lost(out) ==> id in out.evicted + out.pruned + out.dropped + out.refused
  {
    Partition(out);
    PartitionSize(out.submitted, InMemory(out), InHand(out), InSpill(out), Lost(out), out.acked);
  }

  /** After any interleaving in which no acknowledgement was lost and no delete failed, the runJob calls made are
      those executing, about to report, in memory, in a goroutine's hands, in the spill table and lost on record,
      plus the finished server rows they produced, each of another call. */
  lemma CallsAreAccountedFor(p: Pipe, steps: seq<Step>)
    requires Start(p) && Runs(p, steps) && Final(p, steps).lost == Final(p, steps).undeleted == []
    ensures var q := Final(p, steps);
      && |q.calls| == |q.executing.Values| + |q.reporting| + |InMemory(q.out)| + |InHand(q.out)| + |InSpill(q.out)|
                      + |Lost(q.out)| + |q.book.source|
      && (forall id :: id in Lost(q.out) ==> id in q.out.evicted + q.out.pruned + q.out.dropped + q.out.refused)
      && FromCalls(q) && Distinct(q.delivered)
  {
    StartIsSound(p);
    RunPlaces(p, steps);
    var q := Final(p, steps);
    CallsCount(q);
    SubmittedCount(q.out);
    DeliveredOnce(q);
    RowsAreFromCalls(q);
  }

  /** Whatever fails and gets lost, a call has one finished row at most, and one more for each of its
      acknowledgements that was lost and each delete of its row that failed. */
  lemma RowsPerCall(p: Pipe, steps: seq<Step>, id: string)
    requires Start(p) && Runs(p, steps)
    ensures var q := Final(p, steps);
      FromCalls(q) && Times(q.delivered, id) <= 1 + Times(q.lost, id) + Times(q.undeleted, id)
  {
    StartIsSound(p);
    RunPlaces(p, steps);
    RowsAreFromCalls(Final(p, steps));
    assert Repeats(Final(p, steps), id);
  }

  lemma Smaller(a: multiset<string>, b: multiset<string>)
    requires forall id :: a[id] <= b[id]
    ensures |a| <= |b|
  {
    assert b == a + (b - a);
  }

  lemma BoundedByCalls(p: Pipe)
    requires CallsPlaced(p) && Recorded(p) && forall id :: Repeats(p, id)
    ensures |p.delivered| <= |p.calls| + |p.lost| + |p.undeleted|
  {
    var d, all := multiset(p.delivered), multiset(p.calls) + multiset(p.lost) + multiset(p.undeleted);
    forall id ensures d[id] <= all[id] {
      assert Repeats(p, id);
      if id in p.delivered { var k :| 0 <= k < |p.delivered| && p.delivered[k] == id; }
    }
    Smaller(d, all);
  }

  /** So there are at most as many finished rows as calls, lost acknowledgements and failed deletes together. */
  lemma FinishedRowsAreBounded(p: Pipe, steps: seq<Step>)
    requires Start(p) && Runs(p, steps)
    ensures var q := Final(p, steps); |q.book.source| <= |q.calls| + |q.lost| + |q.undeleted|
  {
    StartIsSound(p);
    RunPlaces(p, steps);
    BoundedByCalls(Final(p, steps));
  }
}
