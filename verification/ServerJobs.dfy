/** The server's job table: a triggered backup is planned, heartbeats mark it running, and each
    report either completes the newest active row of its plan or becomes a row of its own. */
module ServerJobs {
  import opened Common

  datatype Status = Planned | Running | Success | Partial | Failure | Aborted

  predicate Active(s: Status) { s == Planned || s == Running }

  /** What an agent can report about a run. */
  type ReportStatus = s: Status | !Active(s) witness Success

  datatype RepoResult = RepoResult(repositoryId: string, repositoryName: string, status: string,
    snapshotId: Option<string>, error: Option<string>, filesNew: Option<int>, filesChanged: Option<int>,
    filesUnmodified: Option<int>, bytesAdded: Option<int>, totalBytes: Option<int>, durationMs: Option<int>)

  datatype WireResult = WireResult(repositoryId: string, repositoryName: string, status: string,
    snapshotId: string, error: string, filesNew: int, filesChanged: int,
    filesUnmodified: int, bytesAdded: int, totalBytes: int, durationMs: int)

  datatype HookResult = HookResult(name: string, phase: string, status: string, error: Option<string>, durationMs: Option<int>)

  datatype WireHook = WireHook(name: string, phase: string, status: string, error: string, durationMs: int)

  datatype Report = Report(jobId: string, agentId: string, planId: string, planName: string, trigger: string,
    status: ReportStatus, startedAt: int, finishedAt: Option<int>, logTail: Option<string>,
    results: seq<WireResult>, hooks: seq<WireHook>)

  /** A row of the jobs table with its result rows. Rows are kept in created_at order. */
  datatype Job = Job(id: string, agentId: string, planId: Option<string>, planName: string, trigger: string,
    status: Status, startedAt: int, finishedAt: Option<int>, logTail: Option<string>,
    results: seq<RepoResult>, hooks: seq<HookResult>)

  // ---- the wire format leaves zero values out of the row ----

  function NonEmpty(s: string): Option<string> { if s == "" then None else Some(s) }
  function NonZero(n: int): Option<int> { if n == 0 then None else Some(n) }
  function OrEmpty(o: Option<string>): string { if o.Some? then o.value else "" }
  function OrZero(o: Option<int>): int { if o.Some? then o.value else 0 }

  function FromWire(r: WireResult): RepoResult
  {
    RepoResult(r.repositoryId, r.repositoryName, r.status, NonEmpty(r.snapshotId), NonEmpty(r.error),
               NonZero(r.filesNew), NonZero(r.filesChanged), NonZero(r.filesUnmodified), NonZero(r.bytesAdded),
               NonZero(r.totalBytes), NonZero(r.durationMs))
  }

  function ToWire(r: RepoResult): WireResult
  {
    WireResult(r.repositoryId, r.repositoryName, r.status, OrEmpty(r.snapshotId), OrEmpty(r.error),
               OrZero(r.filesNew), OrZero(r.filesChanged), OrZero(r.filesUnmodified), OrZero(r.bytesAdded),
               OrZero(r.totalBytes), OrZero(r.durationMs))
  }

  function Results(rs: seq<WireResult>): seq<RepoResult>
  {
    seq(|rs|, i requires 0 <= i < |rs| => FromWire(rs[i]))
  }

  /** Converting the reported results field by field loses nothing. */
  method ConvertResults(rs: seq<WireResult>) returns (out: seq<RepoResult>)
    ensures |out| == |rs| && forall i :: 0 <= i < |rs| ==> ToWire(out[i]) == rs[i]
    ensures out == Results(rs)
  {
    out := [];
    for n := 0 to |rs|
      invariant |out| == n && forall i :: 0 <= i < n ==> out[i] == FromWire(rs[i])
    {
      var rr := rs[n];
      var result := RepoResult(rr.repositoryId, rr.repositoryName, rr.status, None, None, None, None, None, None, None, None);
      if rr.snapshotId != "" { result := result.(snapshotId := Some(rr.snapshotId)); }
      if rr.error != "" { result := result.(error := Some(rr.error)); }
      if rr.filesNew != 0 { result := result.(filesNew := Some(rr.filesNew)); }
      if rr.filesChanged != 0 { result := result.(filesChanged := Some(rr.filesChanged)); }
      if rr.filesUnmodified != 0 { result := result.(filesUnmodified := Some(rr.filesUnmodified)); }
      if rr.bytesAdded != 0 { result := result.(bytesAdded := Some(rr.bytesAdded)); }
      if rr.totalBytes != 0 { result := result.(totalBytes := Some(rr.totalBytes)); }
      if rr.durationMs != 0 { result := result.(durationMs := Some(rr.durationMs)); }
      out := out + [result];
    }
  }

  function FromWireHook(r: WireHook): HookResult
  {
    HookResult(r.name, r.phase, r.status, NonEmpty(r.error), NonZero(r.durationMs))
  }

  function ToWireHook(r: HookResult): WireHook
  {
    WireHook(r.name, r.phase, r.status, OrEmpty(r.error), OrZero(r.durationMs))
  }

  function Hooks(rs: seq<WireHook>): seq<HookResult>
  {
    seq(|rs|, i requires 0 <= i < |rs| => FromWireHook(rs[i]))
  }

  /** So does converting the hook results. */
  method ConvertHooks(rs: seq<WireHook>) returns (out: seq<HookResult>)
    ensures |out| == |rs| && forall i :: 0 <= i < |rs| ==> ToWireHook(out[i]) == rs[i]
    ensures out == Hooks(rs)
  {
    out := [];
    for n := 0 to |rs|
      invariant |out| == n && forall i :: 0 <= i < n ==> out[i] == FromWireHook(rs[i])
    {
      var hr := rs[n];
      var result := HookResult(hr.name, hr.phase, hr.status, None, None);
      if hr.error != "" { result := result.(error := Some(hr.error)); }
      if hr.durationMs != 0 { result := result.(durationMs := Some(hr.durationMs)); }
      out := out + [result];
    }
  }

  // ---- statements on the jobs table ----

  predicate Matches(j: Job, agentId: string, planId: string)
  {
    j.agentId == agentId && j.planId == Some(planId) && Active(j.status)
  }

  /** ORDER BY created_at DESC LIMIT 1 over the active rows of an agent's plan. */
  function Newest(rows: seq<Job>, agentId: string, planId: string): (r: Option<nat>)
    ensures r.Some? ==> r.value < |rows| && Matches(rows[r.value], agentId, planId)
    ensures r.Some? ==> forall i :: r.value < i < |rows| ==> !Matches(rows[i], agentId, planId)
    ensures r.None? ==> forall i :: 0 <= i < |rows| ==> !Matches(rows[i], agentId, planId)
  {
    if rows == [] then None
    else if Matches(rows[|rows| - 1], agentId, planId) then Some(|rows| - 1)
    else Newest(rows[..|rows| - 1], agentId, planId)
  }

  predicate HasJob(rows: seq<Job>, id: string)
  {
    exists i :: 0 <= i < |rows| && rows[i].id == id
  }

  function NewRow(id: string, r: Report): Job
  {
    Job(id, r.agentId, NonEmpty(r.planId), r.planName, r.trigger, r.status, r.startedAt, r.finishedAt, r.logTail,
        Results(r.results), Hooks(r.hooks))
  }

  /** INSERT: refused when the id is taken. */
  function Create(rows: seq<Job>, j: Job): (seq<Job>, bool)
  {
    if HasJob(rows, j.id) then (rows, false) else (rows + [j], true)
  }

  /** CompleteJob: the row keeps its id, plan and trigger; the report's outcome replaces the rest. */
  function Completed(j: Job, r: Report): Job
  {
    j.(status := r.status, startedAt := r.startedAt, finishedAt := r.finishedAt, logTail := r.logTail,
       results := j.results + Results(r.results), hooks := j.hooks + Hooks(r.hooks))
  }

  /** Which of a handler's database calls fail. */
  datatype Faults = Faults(lookup: bool, write: bool)

  /** The active row a report will complete; a failed lookup counts as none. */
  function Target(rows: seq<Job>, r: Report, f: Faults): Option<nat>
  {
    if r.status == Aborted || r.planId == "" || f.lookup then None else Newest(rows, r.agentId, r.planId)
  }

  function Store(rows: seq<Job>, r: Report, freshId: string, f: Faults): (seq<Job>, bool)
  {
    var n := Target(rows, r, f);
    if f.write then (rows, false)
    else if n.Some? then (rows[n.value := Completed(rows[n.value], r)], true)
    else Create(rows, NewRow(if r.jobId == "" then freshId else r.jobId, r))
  }

  function PlannedRow(id: string, agentId: string, planId: string, planName: string, trigger: string, now: int): Job
  {
    Job(id, agentId, Some(planId), planName, trigger, Planned, now, None, None, [], [])
  }

  /** A trigger's row, unless its insert fails. */
  function Trigger(rows: seq<Job>, j: Job, fault: bool): (seq<Job>, bool)
  {
    if fault then (rows, false) else Create(rows, j)
  }

  /** A heartbeat names the plan; the first plan of that name decides. */
  function PlanNamed(plans: seq<(string, string)>, name: string): string
  {
    if plans == [] then "" else if plans[0].1 == name then plans[0].0 else PlanNamed(plans[1..], name)
  }

  /** The newest active row of the started plan, unless a call fails. */
  function Starting(rows: seq<Job>, agentId: string, planId: string, fault: bool): Option<nat>
  {
    if fault || planId == "" then None else Newest(rows, agentId, planId)
  }

  function Started(rows: seq<Job>, agentId: string, planId: string, fault: bool): seq<Job>
  {
    var n := Starting(rows, agentId, planId, fault);
    if n.None? then rows
    else rows[n.value := rows[n.value].(status := Running, finishedAt := None, logTail := None)]
  }

  // ---- the handlers ----

  class JobStore {
    var rows: seq<Job>

    ghost predicate Valid()
      reads this
    {
      forall i, j :: 0 <= i < j < |rows| ==> rows[i].id != rows[j].id
    }

    constructor ()
      ensures Valid() && rows == []
    {
      rows := [];
    }

    method CreateJob(j: Job, fault: bool) returns (ok: bool)
      requires Valid()
      modifies this
      ensures Valid() && (rows, ok) == if fault then (old(rows), false) else Create(old(rows), j)
    {
      ok := !fault && !HasJob(rows, j.id);
      if ok {
        assert forall i :: 0 <= i < |rows| ==> rows[i].id != j.id;
        rows := rows + [j];
      }
    }

    method CreatePlannedJob(id: string, agentId: string, planId: string, planName: string, trigger: string, now: int, fault: bool)
      returns (ok: bool)
      requires Valid()
      modifies this
      ensures Valid() && (rows, ok) == Trigger(old(rows), PlannedRow(id, agentId, planId, planName, trigger, now), fault)
    {
      ok := CreateJob(PlannedRow(id, agentId, planId, planName, trigger, now), fault);
    }

    method FindPlannedJob(agentId: string, planId: string, fault: bool) returns (n: Option<nat>)
      ensures n == if fault then None else Newest(rows, agentId, planId)
    {
      n := if fault then None else Newest(rows, agentId, planId);
    }

    method CompleteJob(n: nat, r: Report, fault: bool) returns (ok: bool)
      requires Valid() && n < |rows|
      modifies this
      ensures Valid() && ok == !fault
      ensures rows == if ok then old(rows)[n := Completed(old(rows)[n], r)] else old(rows)
    {
      if fault {
        return false;
      }
      ok := true;
      var converted := ConvertResults(r.results);
      var hooks := ConvertHooks(r.hooks);
      var j := rows[n];
      rows := rows[n := j.(status := r.status, startedAt := r.startedAt, finishedAt := r.finishedAt,
                           logTail := r.logTail, results := j.results + converted, hooks := j.hooks + hooks)];
    }

    /** ReportJob: an aborted report never touches an existing row. */
    method StoreJobReport(r: Report, freshId: string, f: Faults) returns (ok: bool)
      requires Valid()
      modifies this
      ensures Valid() && (rows, ok) == Store(old(rows), r, freshId, f)
    {
      var id := r.jobId;
      if id == "" {
        id := freshId;
      }
      var converted := ConvertResults(r.results);
      var hooks := ConvertHooks(r.hooks);
      var job := Job(id, r.agentId, NonEmpty(r.planId), r.planName, r.trigger, r.status, r.startedAt, r.finishedAt,
                     r.logTail, converted, hooks);
      if r.status == Aborted {
        ok := CreateJob(job, f.write);
        return;
      }
      if r.planId != "" {
        var planned := FindPlannedJob(r.agentId, r.planId, f.lookup);
        if planned.Some? {
          ok := CompleteJob(planned.value, r, f.write);
          return;
        }
      }
      ok := CreateJob(job, f.write);
    }

    /** The handler only logs errors: each of its three calls may fail, and then no row changes. */
    method HandleJobStarted(agentId: string, plans: seq<(string, string)>, planName: string, list: bool, find: bool, update: bool)
      requires Valid()
      modifies this
      ensures Valid() && rows == Started(old(rows), agentId, PlanNamed(plans, planName), list || find || update)
    {
      if list {
        return;
      }
      var planId := FindPlan(plans, planName);
      if planId == "" {
        return;
      }
      var planned := FindPlannedJob(agentId, planId, find);
      if planned.Some? && !update {
        rows := rows[planned.value := rows[planned.value].(status := Running, finishedAt := None, logTail := None)];
      }
    }

    method FindPlan(plans: seq<(string, string)>, planName: string) returns (planId: string)
      ensures planId == PlanNamed(plans, planName)
    {
      planId := "";
      for i := 0 to |plans|
        invariant planId == "" && PlanNamed(plans[i..], planName) == PlanNamed(plans, planName)
      {
        if plans[i].1 == planName {
          return plans[i].0;
        }
        assert plans[i..][1..] == plans[i + 1..];
      }
    }
  }

  // ---- accounting over whole runs ----

  datatype Event =
    | Triggered(id: string, agentId: string, planId: string, planName: string, trigger: string, now: int, fault: bool)
    | JobStarted(agentId: string, planId: string, fault: bool)
    | Reported(report: Report, freshId: string, faults: Faults)

  /** The table with, for every accepted report, the row it produced or completed. */
  datatype Book = Book(rows: seq<Job>, accepted: seq<Report>, source: seq<nat>)

  function Handle(b: Book, e: Event): Book
  {
    match e
    case Triggered(id, agentId, planId, planName, trigger, now, fault) =>
      b.(rows := Trigger(b.rows, PlannedRow(id, agentId, planId, planName, trigger, now), fault).0)
    case JobStarted(agentId, planId, fault) => b.(rows := Started(b.rows, agentId, planId, fault))
    case Reported(r, freshId, f) =>
      var (rows, ok) := Store(b.rows, r, freshId, f);
      var n := Target(b.rows, r, f);
      if ok then Book(rows, b.accepted + [r], b.source + [if n.Some? then n.value else |b.rows|]) else b
  }

  function HandleAll(b: Book, es: seq<Event>): Book
    decreases |es|
  {
    if es == [] then b else HandleAll(Handle(b, es[0]), es[1..])
  }

  const EMPTY := Book([], [], [])

  /** planned, then running, then a final status that never changes again. */
  function Rank(s: Status): nat { match s case Planned => 0 case Running => 1 case _ => 2 }

  ghost predicate Advances(before: seq<Job>, after: seq<Job>)
  {
    && |before| <= |after|
    && (forall i :: 0 <= i < |before| ==> Rank(before[i].status) <= Rank(after[i].status) && before[i].id == after[i].id)
    && (forall i :: 0 <= i < |before| && !Active(before[i].status) ==> after[i] == before[i])
    && (forall i :: |before| <= i < |after| ==> after[i].status != Running)
  }

  lemma HandleAdvances(b: Book, e: Event)
    ensures Advances(b.rows, Handle(b, e).rows)
  {
  }

  /** Over any run a row only moves forward, and a finished row is never touched again. */
  lemma {:induction false} RowsOnlyMoveForward(b: Book, es: seq<Event>)
    ensures var rows := HandleAll(b, es).rows;
      && |b.rows| <= |rows|
      && (forall i :: 0 <= i < |b.rows| ==> Rank(b.rows[i].status) <= Rank(rows[i].status) && b.rows[i].id == rows[i].id)
      && (forall i :: 0 <= i < |b.rows| && !Active(b.rows[i].status) ==> rows[i] == b.rows[i])
    decreases |es|
  {
    if es != [] {
      HandleAdvances(b, es[0]);
      RowsOnlyMoveForward(Handle(b, es[0]), es[1..]);
    }
  }

  /** An accepted aborted report adds one row and changes none. */
  lemma AbortedTouchesNothing(rows: seq<Job>, r: Report, freshId: string, f: Faults)
    requires r.status == Aborted
    ensures var (rows', ok) := Store(rows, r, freshId, f);
      rows' == if ok then rows + [NewRow(if r.jobId == "" then freshId else r.jobId, r)] else rows
  {
  }

  predicate Bare(j: Job) { j.results == [] && j.hooks == [] }

  /** Finished rows and accepted reports are in bijection, and each row carries its report's outcome. */
  ghost predicate Reconciled(b: Book)
  {
    && |b.source| == |b.accepted|
    && (forall k :: 0 <= k < |b.source| ==> b.source[k] < |b.rows|)
    && (forall k, l :: 0 <= k < l < |b.source| ==> b.source[k] != b.source[l])
    && (forall i :: 0 <= i < |b.rows| ==> (!Active(b.rows[i].status) <==> i in b.source))
    && (forall k :: 0 <= k < |b.source| ==> Carries(b.rows[b.source[k]], b.accepted[k]))
    && (forall i :: 0 <= i < |b.rows| && Active(b.rows[i].status) ==> Bare(b.rows[i]))
  }

  /** The row belongs to the report's agent and plan and shows what was reported. */
  ghost predicate Carries(j: Job, r: Report)
  {
    && j.agentId == r.agentId && j.planId == NonEmpty(r.planId)
    && j.status == r.status && j.startedAt == r.startedAt && j.finishedAt == r.finishedAt && j.logTail == r.logTail
    && |j.results| == |r.results| && (forall i :: 0 <= i < |j.results| ==> ToWire(j.results[i]) == r.results[i])
    && |j.hooks| == |r.hooks| && (forall i :: 0 <= i < |j.hooks| ==> ToWireHook(j.hooks[i]) == r.hooks[i])
  }

  /** Settling one open row, old or new, with a report keeps the books. */
  lemma SettleReconciles(b: Book, rows: seq<Job>, n: nat, r: Report)
    requires Reconciled(b) && n < |rows| && |b.rows| <= |rows| <= |b.rows| + 1
    requires forall i :: 0 <= i < |b.rows| && i != n ==> rows[i] == b.rows[i]
    requires if n < |b.rows| then |rows| == |b.rows| && Active(b.rows[n].status) else |rows| == |b.rows| + 1
    requires Carries(rows[n], r)
    ensures Reconciled(Book(rows, b.accepted + [r], b.source + [n]))
  {
    assert n !in b.source;
    SourceGrows(b.source, n);
    SettledRows(b, rows, n, r);
  }

  lemma SourceGrows(source: seq<nat>, n: nat)
    requires n !in source && forall k, l :: 0 <= k < l < |source| ==> source[k] != source[l]
    ensures forall k, l :: 0 <= k < l < |source + [n]| ==> (source + [n])[k] != (source + [n])[l]
    ensures forall i :: i in source + [n] <==> i in source || i == n
  {
  }

  lemma SettledRows(b: Book, rows: seq<Job>, n: nat, r: Report)
    requires Reconciled(b) && n < |rows| && |b.rows| <= |rows| && n !in b.source && Carries(rows[n], r)
    requires forall i :: 0 <= i < |b.rows| && i != n ==> rows[i] == b.rows[i]
    ensures forall k :: 0 <= k < |b.source + [n]| ==>
      (b.source + [n])[k] < |rows| && Carries(rows[(b.source + [n])[k]], (b.accepted + [r])[k])
  {
    forall k | 0 <= k < |b.source|
      ensures (b.source + [n])[k] < |rows| && Carries(rows[(b.source + [n])[k]], (b.accepted + [r])[k])
    {
      assert (b.source + [n])[k] == b.source[k] && (b.accepted + [r])[k] == b.accepted[k] && b.source[k] in b.source;
    }
  }

  /** The row shows the report's own fields and its converted results. */
  predicate Shows(j: Job, r: Report)
  {
    && j.agentId == r.agentId && j.planId == NonEmpty(r.planId)
    && j.status == r.status && j.startedAt == r.startedAt && j.finishedAt == r.finishedAt && j.logTail == r.logTail
    && j.results == Results(r.results) && j.hooks == Hooks(r.hooks)
  }

  lemma ShowsCarries(j: Job, r: Report)
    requires Shows(j, r)
    ensures Carries(j, r)
  {
    forall i | 0 <= i < |r.results| ensures ToWire(Results(r.results)[i]) == r.results[i] {}
    forall i | 0 <= i < |r.hooks| ensures ToWireHook(Hooks(r.hooks)[i]) == r.hooks[i] {}
  }

  lemma NewRowCarries(id: string, r: Report)
    ensures Carries(NewRow(id, r), r)
  {
    ShowsCarries(NewRow(id, r), r);
  }

  lemma CompletedCarries(j: Job, r: Report)
    requires j.agentId == r.agentId && j.planId == NonEmpty(r.planId) && Bare(j)
    ensures Carries(Completed(j, r), r)
  {
    assert [] + Results(r.results) == Results(r.results) && [] + Hooks(r.hooks) == Hooks(r.hooks);
    ShowsCarries(Completed(j, r), r);
  }

  lemma StoreReconciles(b: Book, r: Report, freshId: string, f: Faults)
    requires Reconciled(b)
    ensures Reconciled(Handle(b, Reported(r, freshId, f)))
  {
    var (rows, ok) := Store(b.rows, r, freshId, f);
    var n := Target(b.rows, r, f);
    if ok && n.Some? {
      CompletedCarries(b.rows[n.value], r);
      SettleReconciles(b, rows, n.value, r);
    } else if ok {
      NewRowCarries(if r.jobId == "" then freshId else r.jobId, r);
      SettleReconciles(b, rows, |b.rows|, r);
    }
  }

  lemma TriggerReconciles(b: Book, rows: seq<Job>)
    requires Reconciled(b) && |rows| == |b.rows| + 1 && rows[..|b.rows|] == b.rows
    requires Active(rows[|b.rows|].status) && Bare(rows[|b.rows|])
    ensures Reconciled(b.(rows := rows))
  {
    assert forall i :: 0 <= i < |b.rows| ==> rows[i] == rows[..|b.rows|][i];
    assert |b.rows| !in b.source;
  }

  lemma StartReconciles(b: Book, n: nat, j: Job)
    requires Reconciled(b) && n < |b.rows| && Active(b.rows[n].status) && Active(j.status) && Bare(j)
    ensures Reconciled(b.(rows := b.rows[n := j]))
  {
    assert n !in b.source;
  }

  lemma HandleReconciles(b: Book, e: Event)
    requires Reconciled(b)
    ensures Reconciled(Handle(b, e))
  {
    match e
    case Triggered(_, _, _, _, _, _, _) =>
      if Handle(b, e) != b {
        TriggerReconciles(b, Handle(b, e).rows);
      }
    case JobStarted(agentId, planId, fault) =>
      var n := Starting(b.rows, agentId, planId, fault);
      if n.Some? {
        StartReconciles(b, n.value, b.rows[n.value].(status := Running, finishedAt := None, logTail := None));
      }
    case Reported(r, freshId, f) => StoreReconciles(b, r, freshId, f);
  }

  lemma {:induction false} RunReconciles(b: Book, es: seq<Event>)
    requires Reconciled(b)
    ensures Reconciled(HandleAll(b, es))
    decreases |es|
  {
    if es != [] {
      HandleReconciles(b, es[0]);
      RunReconciles(Handle(b, es[0]), es[1..]);
    }
  }

  /** From an empty table, after any triggers, heartbeats and reports, with any failures. */
  lemma FinishedRowsAreAcceptedReports(es: seq<Event>)
    ensures Reconciled(HandleAll(EMPTY, es))
  {
    RunReconciles(EMPTY, es);
  }

  // ---- how many rows of a plan are active ----

  function ActiveRows(rows: seq<Job>, agentId: string, planId: string): nat
  {
    if rows == [] then 0
    else ActiveRows(rows[..|rows| - 1], agentId, planId) + (if Matches(rows[|rows| - 1], agentId, planId) then 1 else 0)
  }

  lemma {:induction false} ActiveUpdate(rows: seq<Job>, i: nat, j: Job, agentId: string, planId: string)
    requires i < |rows|
    ensures ActiveRows(rows[i := j], agentId, planId) + (if Matches(rows[i], agentId, planId) then 1 else 0)
         == ActiveRows(rows, agentId, planId) + (if Matches(j, agentId, planId) then 1 else 0)
  {
    var n := |rows| - 1;
    if i == n {
      assert rows[i := j][..n] == rows[..n];
    } else {
      assert rows[i := j][..n] == rows[..n][i := j];
      ActiveUpdate(rows[..n], i, j, agentId, planId);
    }
  }

  lemma {:induction false} NoneActive(rows: seq<Job>, agentId: string, planId: string)
    ensures ActiveRows(rows, agentId, planId) == 0 <==> Newest(rows, agentId, planId).None?
  {
    if rows != [] {
      NoneActive(rows[..|rows| - 1], agentId, planId);
    }
  }

  /** The law: a stored trigger adds one, an accepted report whose lookup worked takes one away if there is one. */
  function Expected(before: nat, b: Book, e: Event, agentId: string, planId: string): nat
  {
    match e
    case Triggered(id, a, p, _, _, _, fault) =>
      before + if !fault && a == agentId && p == planId && !HasJob(b.rows, id) then 1 else 0
    case JobStarted(_, _, _) => before
    case Reported(r, freshId, f) =>
      if Store(b.rows, r, freshId, f).1 && r.status != Aborted && !f.lookup
         && r.agentId == agentId && r.planId == planId && before > 0
      then before - 1 else before
  }

  lemma ActiveCountLaw(b: Book, e: Event, agentId: string, planId: string)
    requires planId != ""
    ensures ActiveRows(Handle(b, e).rows, agentId, planId) == Expected(ActiveRows(b.rows, agentId, planId), b, e, agentId, planId)
  {
    var rows := b.rows;
    NoneActive(rows, agentId, planId);
    match e
    case Triggered(id, a, p, name, trigger, now, fault) =>
      assert fault || HasJob(rows, id) || Handle(b, e).rows[..|rows|] == rows;
    case JobStarted(a, p, fault) =>
      var n := Starting(rows, a, p, fault);
      if n.Some? {
        ActiveUpdate(rows, n.value, rows[n.value].(status := Running, finishedAt := None, logTail := None), agentId, planId);
      }
    case Reported(r, freshId, f) =>
      var n := Target(rows, r, f);
      if n.Some? {
        ActiveUpdate(rows, n.value, Completed(rows[n.value], r), agentId, planId);
      } else {
        assert Store(rows, r, freshId, f).0[..|rows|] == rows;
      }
  }

  function ExpectedAfter(before: nat, b: Book, es: seq<Event>, agentId: string, planId: string): nat
    decreases |es|
  {
    if es == [] then before
    else ExpectedAfter(Expected(before, b, es[0], agentId, planId), Handle(b, es[0]), es[1..], agentId, planId)
  }

  lemma {:induction false} ActiveCountOverRuns(b: Book, es: seq<Event>, agentId: string, planId: string)
    requires planId != ""
    ensures ActiveRows(HandleAll(b, es).rows, agentId, planId)
         == ExpectedAfter(ActiveRows(b.rows, agentId, planId), b, es, agentId, planId)
    decreases |es|
  {
    if es != [] {
      ActiveCountLaw(b, es[0], agentId, planId);
      ActiveCountOverRuns(Handle(b, es[0]), es[1..], agentId, planId);
    }
  }

  // ---- what the handlers come to ----

  lemma {:induction false} NewestIs(rows: seq<Job>, agentId: string, planId: string, n: nat)
    requires n < |rows| && Matches(rows[n], agentId, planId) && forall i :: n < i < |rows| ==> !Matches(rows[i], agentId, planId)
    ensures Newest(rows, agentId, planId) == Some(n)
  {
    var r := Newest(rows, agentId, planId);
    assert r.Some? && r.value < |rows| && Matches(rows[r.value], agentId, planId);
  }

  /** The plan's last row that is planned or running, if it has one. */
  ghost predicate LastOpen(rows: seq<Job>, agentId: string, planId: string, n: nat)
  {
    && n < |rows| && rows[n].agentId == agentId && rows[n].planId == Some(planId)
    && (rows[n].status == Planned || rows[n].status == Running)
    && forall i :: n < i < |rows| && rows[i].agentId == agentId && rows[i].planId == Some(planId) ==>
         rows[i].status != Planned && rows[i].status != Running
  }

  ghost predicate NoneOpen(rows: seq<Job>, agentId: string, planId: string)
  {
    forall i :: 0 <= i < |rows| && rows[i].agentId == agentId && rows[i].planId == Some(planId) ==>
      rows[i].status != Planned && rows[i].status != Running
  }

  /** A started plan's last open row becomes running, its other columns of the update are cleared, and no other row changes. */
  lemma StartedRowRuns(rows: seq<Job>, agentId: string, planId: string, n: nat)
    requires planId != "" && LastOpen(rows, agentId, planId, n)
    ensures var rows' := Started(rows, agentId, planId, false);
      && |rows'| == |rows| && (forall i :: 0 <= i < |rows| && i != n ==> rows'[i] == rows[i])
      && rows'[n].status == Running && rows'[n].finishedAt == None && rows'[n].logTail == None
      && rows'[n].id == rows[n].id && rows'[n].agentId == agentId && rows'[n].planId == Some(planId)
      && rows'[n].planName == rows[n].planName && rows'[n].trigger == rows[n].trigger && rows'[n].startedAt == rows[n].startedAt
      && rows'[n].results == rows[n].results && rows'[n].hooks == rows[n].hooks
  {
    NewestIs(rows, agentId, planId, n);
  }

  lemma NothingStarts(rows: seq<Job>, agentId: string, planId: string, fault: bool)
    requires fault || planId == "" || NoneOpen(rows, agentId, planId)
    ensures Started(rows, agentId, planId, fault) == rows
  {
    var r := Newest(rows, agentId, planId);
    assert r.Some? ==> Matches(rows[r.value], agentId, planId);
  }

  /** A heartbeat's plan name stands for the first plan of that name. */
  lemma {:induction false} FirstPlanOfName(plans: seq<(string, string)>, name: string, k: nat)
    requires k < |plans| && plans[k].1 == name && forall i :: 0 <= i < k ==> plans[i].1 != name
    ensures PlanNamed(plans, name) == plans[k].0
  {
    if k > 0 {
      assert forall i :: 0 <= i < k - 1 ==> plans[1..][i] == plans[i + 1];
      FirstPlanOfName(plans[1..], name, k - 1);
    }
  }

  lemma {:induction false} NoPlanOfName(plans: seq<(string, string)>, name: string)
    requires forall i :: 0 <= i < |plans| ==> plans[i].1 != name
    ensures PlanNamed(plans, name) == ""
  {
    if plans != [] {
      assert forall i :: 0 <= i < |plans| - 1 ==> plans[1..][i] == plans[i + 1];
      NoPlanOfName(plans[1..], name);
    }
  }

  /** A report that is not aborted finishes its plan's last open row, which keeps what it was made with. */
  lemma ReportFinishesRow(rows: seq<Job>, r: Report, freshId: string, n: nat)
    requires r.status != Aborted && r.planId != "" && LastOpen(rows, r.agentId, r.planId, n)
    ensures var (rows', ok) := Store(rows, r, freshId, Faults(false, false));
      && ok && |rows'| == |rows| && (forall i :: 0 <= i < |rows| && i != n ==> rows'[i] == rows[i])
      && rows'[n].status == r.status && rows'[n].startedAt == r.startedAt
      && rows'[n].finishedAt == r.finishedAt && rows'[n].logTail == r.logTail
      && rows'[n].id == rows[n].id && rows'[n].agentId == r.agentId && rows'[n].planId == Some(r.planId)
      && rows'[n].planName == rows[n].planName && rows'[n].trigger == rows[n].trigger
      && rows'[n].results == rows[n].results + Results(r.results) && rows'[n].hooks == rows[n].hooks + Hooks(r.hooks)
  {
    NewestIs(rows, r.agentId, r.planId, n);
  }

  /** Any other report becomes a row of its own under its job id, or a fresh one when it has none. */
  lemma ReportMakesRow(rows: seq<Job>, r: Report, freshId: string, lookup: bool)
    requires r.status == Aborted || r.planId == "" || lookup || NoneOpen(rows, r.agentId, r.planId)
    ensures var (rows', ok) := Store(rows, r, freshId, Faults(lookup, false));
      var id := if r.jobId != "" then r.jobId else freshId;
      && (ok <==> forall i :: 0 <= i < |rows| ==> rows[i].id != id)
      && (!ok ==> rows' == rows)
      && (ok ==> |rows'| == |rows| + 1 && rows'[..|rows|] == rows && IsReportRow(rows'[|rows|], id, r))
  {
    var n := Newest(rows, r.agentId, r.planId);
    assert n.Some? ==> Matches(rows[n.value], r.agentId, r.planId);
  }

  predicate IsReportRow(j: Job, id: string, r: Report)
  {
    && j.id == id && j.agentId == r.agentId && j.planName == r.planName && j.trigger == r.trigger && j.status == r.status
    && j.planId == (if r.planId == "" then None else Some(r.planId))
    && j.startedAt == r.startedAt && j.finishedAt == r.finishedAt && j.logTail == r.logTail
    && j.results == Results(r.results) && j.hooks == Hooks(r.hooks)
  }

  /** A report whose write fails changes nothing. */
  lemma FailedReport(rows: seq<Job>, r: Report, freshId: string, lookup: bool)
    ensures Store(rows, r, freshId, Faults(lookup, true)) == (rows, false)
  {
  }

  /** A trigger adds one open row of its plan at the end, unless its id is taken or the insert fails. */
  lemma TriggerAddsPlanned(rows: seq<Job>, id: string, agentId: string, planId: string, planName: string,
                           trigger: string, now: int, fault: bool)
    ensures var (rows', ok) := Trigger(rows, PlannedRow(id, agentId, planId, planName, trigger, now), fault);
      && (ok <==> !fault && forall i :: 0 <= i < |rows| ==> rows[i].id != id)
      && (!ok ==> rows' == rows)
      && (ok ==> rows' == rows + [Job(id, agentId, Some(planId), planName, trigger, Planned, now, None, None, [], [])])
  {
  }

  predicate Holds<T(==)>(o: Option<T>, x: T, zero: T) { o == if x == zero then None else Some(x) }

  /** Every reported number and text of a repository arrives in its own column, and a missing one as NULL. */
  lemma ResultColumns(rs: seq<WireResult>, i: nat)
    requires i < |rs|
    ensures |Results(rs)| == |rs|
    ensures var c, r := Results(rs)[i], rs[i];
      && c.repositoryId == r.repositoryId && c.repositoryName == r.repositoryName && c.status == r.status
      && Holds(c.snapshotId, r.snapshotId, "") && Holds(c.error, r.error, "")
      && Holds(c.filesNew, r.filesNew, 0) && Holds(c.filesChanged, r.filesChanged, 0)
      && Holds(c.filesUnmodified, r.filesUnmodified, 0) && Holds(c.bytesAdded, r.bytesAdded, 0)
      && Holds(c.totalBytes, r.totalBytes, 0) && Holds(c.durationMs, r.durationMs, 0)
  {
  }

  lemma HookColumns(rs: seq<WireHook>, i: nat)
    requires i < |rs|
    ensures |Hooks(rs)| == |rs|
    ensures var c, r := Hooks(rs)[i], rs[i];
      && c.name == r.name && c.phase == r.phase && c.status == r.status
      && Holds(c.error, r.error, "") && Holds(c.durationMs, r.durationMs, 0)
  {
  }
}
