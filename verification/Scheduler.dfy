/** The agent's scheduler: the index of cron entries, and one running slot per plan. */
module Scheduler {
  import opened Common

  datatype Plan = Plan(id: string, name: string, enabled: bool, schedule: string)

  // ---- the cron index ----

  /** Live cron entries with the plan each one runs, and the entry remembered for each plan id. */
  datatype Index = Index(entries: map<int, Plan>, entryIDs: map<string, int>, next: int)

  const EMPTY_INDEX := Index(map[], map[], 1)

  /** Whether an update gives the plan a cron entry; parses is the cron library's verdict. */
  predicate Schedulable(parses: string -> bool, p: Plan) { p.enabled && p.schedule != "" && parses(p.schedule) }

  function Chosen(parses: string -> bool, plans: seq<Plan>): seq<Plan>
  {
    if plans == [] then []
    else
      var n := |plans| - 1;
      if Schedulable(parses, plans[n]) then Chosen(parses, plans[..n]) + [plans[n]] else Chosen(parses, plans[..n])
  }

  function RemoveAll(x: Index): Index { Index(x.entries - x.entryIDs.Values, map[], x.next) }

  function Add(x: Index, p: Plan): Index { Index(x.entries[x.next := p], x.entryIDs[p.id := x.next], x.next + 1) }

  function AddAll(x: Index, ps: seq<Plan>): Index
  {
    if ps == [] then x else Add(AddAll(x, ps[..|ps| - 1]), ps[|ps| - 1])
  }

  function Update(parses: string -> bool, x: Index, plans: seq<Plan>): Index
  {
    AddAll(RemoveAll(x), Chosen(parses, plans))
  }

  /** The index after a sequence of updates. */
  function After(parses: string -> bool, updates: seq<seq<Plan>>): Index
  {
    if updates == [] then EMPTY_INDEX
    else Update(parses, After(parses, updates[..|updates| - 1]), updates[|updates| - 1])
  }

  /** One entry per plan, numbered upwards from base. */
  function Fresh(base: int, ps: seq<Plan>): map<int, Plan>
  {
    if ps == [] then map[] else Fresh(base, ps[..|ps| - 1])[base + |ps| - 1 := ps[|ps| - 1]]
  }

  lemma {:induction false} FreshEntry(base: int, ps: seq<Plan>, e: int)
    ensures e in Fresh(base, ps) <==> base <= e < base + |ps|
    ensures e in Fresh(base, ps) ==> Fresh(base, ps)[e] == ps[e - base]
  {
    if ps != [] {
      FreshEntry(base, ps[..|ps| - 1], e);
    }
  }

  predicate DistinctIds(ps: seq<Plan>) { forall i, j :: 0 <= i < j < |ps| ==> ps[i].id != ps[j].id }

  /** No later plan of the same update has this one's id. */
  predicate Latest(ps: seq<Plan>, k: int)
    requires 0 <= k < |ps|
  {
    forall j :: k < j < |ps| ==> ps[j].id != ps[k].id
  }

  predicate Numbered(x: Index)
  {
    && (forall e :: e in x.entries ==> e < x.next)
    && (forall p :: p in x.entryIDs ==> x.entryIDs[p] in x.entries && x.entries[x.entryIDs[p]].id == p)
  }

  /** A live entry the index does not remember, so that no update can remove it. */
  predicate Orphan(x: Index, e: int) { e in x.entries && e !in x.entryIDs.Values }

  ghost predicate NoOrphans(x: Index) { forall e :: !Orphan(x, e) }

  lemma {:induction false} AddAllEntries(x: Index, ps: seq<Plan>)
    ensures AddAll(x, ps).next == x.next + |ps|
    ensures AddAll(x, ps).entries == x.entries + Fresh(x.next, ps)
  {
    if ps != [] {
      AddAllEntries(x, ps[..|ps| - 1]);
    }
  }

  lemma {:induction false} AddAllNumbered(x: Index, ps: seq<Plan>)
    requires Numbered(x)
    ensures Numbered(AddAll(x, ps))
  {
    if ps != [] {
      AddAllNumbered(x, ps[..|ps| - 1]);
    }
  }

  lemma UpdateNumbered(parses: string -> bool, x: Index, plans: seq<Plan>)
    requires Numbered(x)
    ensures Numbered(Update(parses, x, plans))
  {
    AddAllNumbered(RemoveAll(x), Chosen(parses, plans));
  }

  /** The index remembers, for each plan id, the last entry added under it. */
  lemma {:induction false} RemembersLast(x: Index, ps: seq<Plan>, p: string)
    requires x.entryIDs == map[] && p in AddAll(x, ps).entryIDs
    ensures var k := AddAll(x, ps).entryIDs[p] - x.next; 0 <= k < |ps| && ps[k].id == p && Latest(ps, k)
  {
    if ps != [] {
      var n := |ps| - 1;
      AddAllEntries(x, ps[..n]);
      if p != ps[n].id {
        RemembersLast(x, ps[..n], p);
        var k := AddAll(x, ps[..n]).entryIDs[p] - x.next;
        forall j | k < j < |ps| ensures ps[j].id != ps[k].id {
          if j < n { assert ps[..n][j].id != ps[..n][k].id; }
        }
      }
    }
  }

  lemma {:induction false} RemembersEach(x: Index, ps: seq<Plan>, k: int)
    requires 0 <= k < |ps|
    ensures ps[k].id in AddAll(x, ps).entryIDs
  {
    if k < |ps| - 1 {
      RemembersEach(x, ps[..|ps| - 1], k);
    }
  }

  /** An update leaves the old orphans, and remembers of its own entries the latest for each id. */
  lemma UpdateOrphans(parses: string -> bool, x: Index, plans: seq<Plan>, e: int)
    requires Numbered(x)
    ensures var ps := Chosen(parses, plans);
      Orphan(Update(parses, x, plans), e) <==>
      Orphan(x, e) || (0 <= e - x.next < |ps| && !Latest(ps, e - x.next))
  {
    var ps := Chosen(parses, plans);
    AddAllEntries(RemoveAll(x), ps);
    FreshEntry(x.next, ps, e);
    RememberedAre(RemoveAll(x), ps, e);
  }

  lemma RememberedAre(r: Index, ps: seq<Plan>, e: int)
    requires r.entryIDs == map[]
    ensures e in AddAll(r, ps).entryIDs.Values <==> 0 <= e - r.next < |ps| && Latest(ps, e - r.next)
  {
    var y := AddAll(r, ps);
    if e in y.entryIDs.Values {
      var p :| p in y.entryIDs && y.entryIDs[p] == e;
      RemembersLast(r, ps, p);
    }
    if 0 <= e - r.next < |ps| && Latest(ps, e - r.next) {
      var k := e - r.next;
      RemembersEach(r, ps, k);
      RemembersLast(r, ps, ps[k].id);
      assert ps[k].id in y.entryIDs;
    }
  }

  lemma {:induction false} AfterIsNumbered(parses: string -> bool, updates: seq<seq<Plan>>)
    ensures Numbered(After(parses, updates))
  {
    if updates != [] {
      AfterIsNumbered(parses, updates[..|updates| - 1]);
      UpdateNumbered(parses, After(parses, updates[..|updates| - 1]), updates[|updates| - 1]);
    }
  }

  lemma {:induction false} OrphansCome(parses: string -> bool, updates: seq<seq<Plan>>)
    ensures NoOrphans(After(parses, updates)) <==>
      forall k :: 0 <= k < |updates| ==> DistinctIds(Chosen(parses, updates[k]))
  {
    if updates != [] {
      var n := |updates| - 1;
      var before, last := updates[..n], updates[n];
      var x := After(parses, before);
      var ps := Chosen(parses, last);
      OrphansCome(parses, before);
      AfterIsNumbered(parses, before);
      forall e { UpdateOrphans(parses, x, last, e); }
      if NoOrphans(After(parses, updates)) {
        forall i, j | 0 <= i < j < |ps| ensures ps[i].id != ps[j].id {
          assert !Orphan(After(parses, updates), x.next + i);
        }
        assert forall e :: Orphan(x, e) ==> Orphan(After(parses, updates), e);
        forall k | 0 <= k < |updates| ensures DistinctIds(Chosen(parses, updates[k])) {
          if k < n { assert before[k] == updates[k]; }
        }
      }
      if forall k :: 0 <= k < |updates| ==> DistinctIds(Chosen(parses, updates[k])) {
        assert DistinctIds(Chosen(parses, updates[n]));
        forall k | 0 <= k < n ensures DistinctIds(Chosen(parses, before[k])) {
          assert before[k] == updates[k];
        }
      }
    }
  }

  /** After any updates, the live entries are exactly one per schedulable plan of the last update if and
      only if no earlier update had two schedulable plans with the same id. */
  lemma LiveEntries(parses: string -> bool, updates: seq<seq<Plan>>)
    requires updates != []
    ensures var x := After(parses, updates);
      var ps := Chosen(parses, updates[|updates| - 1]);
      x.entries == Fresh(x.next - |ps|, ps) <==>
      forall k :: 0 <= k < |updates| - 1 ==> DistinctIds(Chosen(parses, updates[k]))
  {
    var n := |updates| - 1;
    var before := updates[..n];
    var x, y := After(parses, before), After(parses, updates);
    var ps := Chosen(parses, updates[n]);
    AfterIsNumbered(parses, before);
    AddAllEntries(RemoveAll(x), ps);
    OrphansCome(parses, before);
    assert forall k :: 0 <= k < n ==> before[k] == updates[k];
    assert forall e :: e in RemoveAll(x).entries <==> Orphan(x, e);
    if NoOrphans(x) {
      forall e ensures e !in RemoveAll(x).entries { assert !Orphan(x, e); }
      assert RemoveAll(x).entries == map[];
    } else {
      var e :| Orphan(x, e);
      FreshEntry(x.next, ps, e);
      assert e in y.entries;
    }
  }

  /** An entry orphaned by a repeated id keeps firing through every later update. */
  lemma {:induction false} OrphansStay(parses: string -> bool, updates: seq<seq<Plan>>, more: seq<seq<Plan>>, e: int)
    requires Orphan(After(parses, updates), e)
    ensures Orphan(After(parses, updates + more), e)
    ensures After(parses, updates + more).entries[e] == After(parses, updates).entries[e]
  {
    if more == [] {
      assert updates + more == updates;
    } else {
      var n := |more| - 1;
      OrphansStay(parses, updates, more[..n], e);
      var all := updates + more;
      assert all[..|all| - 1] == updates + more[..n] && all[|all| - 1] == more[n];
      var x := After(parses, updates + more[..n]);
      AfterIsNumbered(parses, updates + more[..n]);
      UpdateOrphans(parses, x, more[n], e);
      AddAllEntries(RemoveAll(x), Chosen(parses, more[n]));
      FreshEntry(x.next, Chosen(parses, more[n]), e);
    }
  }

  // ---- one slot per plan, many runJob calls at once ----

  /** Where a runJob call stands: a refused call has its aborted report to send; a reported job still holds its slot. */
  datatype Phase = Refused | Running | Reported | Done

  datatype Call = Call(planId: string, phase: Phase, wasHeld: bool)

  datatype Report = Report(call: int, planId: string, aborted: bool)

  datatype Slots = Slots(current: map<string, int>, calls: map<int, Call>, reports: seq<Report>)

  datatype Step =
    | TryStart(planId: string, call: int)
    | ReportAborted(call: int)
    | ReportJob(call: int)
    | Clear(call: int)

  predicate At(s: Slots, call: int, phase: Phase) { call in s.calls && s.calls[call].phase == phase }

  predicate Enabled(s: Slots, step: Step)
  {
    match step
    case TryStart(_, call) => call !in s.calls
    case ReportAborted(call) => At(s, call, Refused)
    case ReportJob(call) => At(s, call, Running)
    case Clear(call) => At(s, call, Reported)
  }

  function Move(s: Slots, call: int, phase: Phase): Slots
    requires call in s.calls
  {
    s.(calls := s.calls[call := s.calls[call].(phase := phase)])
  }

  function Do(s: Slots, step: Step): Slots
    requires Enabled(s, step)
  {
    match step
    case TryStart(planId, call) =>
      if planId in s.current then s.(calls := s.calls[call := Call(planId, Refused, true)])
      else s.(current := s.current[planId := call], calls := s.calls[call := Call(planId, Running, false)])
    case ReportAborted(call) =>
      Move(s, call, Done).(reports := s.reports + [Report(call, s.calls[call].planId, true)])
    case ReportJob(call) =>
      Move(s, call, Reported).(reports := s.reports + [Report(call, s.calls[call].planId, false)])
    case Clear(call) =>
      Move(s, call, Done).(current := s.current - {s.calls[call].planId})
  }

  predicate InProgress(s: Slots, call: int) { At(s, call, Running) || At(s, call, Reported) }

  predicate HasReported(s: Slots, call: int) { At(s, call, Reported) || At(s, call, Done) }

  function ReportsOf(reports: seq<Report>, call: int): nat
  {
    if reports == [] then 0
    else ReportsOf(reports[..|reports| - 1], call) + if reports[|reports| - 1].call == call then 1 else 0
  }

  /** The slots are held by exactly the jobs in progress, each for its own plan. */
  ghost predicate Exclusive(s: Slots)
  {
    && (forall c :: InProgress(s, c) ==> s.calls[c].planId in s.current && s.current[s.calls[c].planId] == c)
    && (forall p :: p in s.current ==> InProgress(s, s.current[p]) && s.calls[s.current[p]].planId == p)
  }

  /** What a call reports was settled when it asked for the slot. */
  ghost predicate Settled(s: Slots)
  {
    && (forall c :: InProgress(s, c) ==> !s.calls[c].wasHeld)
    && (forall c :: At(s, c, Refused) ==> s.calls[c].wasHeld)
    && (forall r :: r in s.reports ==> ReportSettled(s, r))
  }

  predicate ReportSettled(s: Slots, r: Report)
  {
    r.call in s.calls && r.planId == s.calls[r.call].planId && (r.aborted <==> s.calls[r.call].wasHeld)
  }

  ghost predicate Counted(s: Slots)
  {
    forall c :: ReportsOf(s.reports, c) == if HasReported(s, c) then 1 else 0
  }

  ghost predicate Fair(s: Slots) { Exclusive(s) && Settled(s) && Counted(s) }

  lemma StepExclusive(s: Slots, step: Step)
    requires Exclusive(s) && Enabled(s, step)
    ensures Exclusive(Do(s, step))
  {
    var t := Do(s, step);
    if step.Clear? {
      forall p | p in t.current ensures InProgress(t, t.current[p]) && t.calls[t.current[p]].planId == p {
        assert p in s.current && s.current[p] != step.call;
        assert InProgress(s, s.current[p]);
      }
    }
    forall c | InProgress(t, c) ensures t.calls[c].planId in t.current && t.current[t.calls[c].planId] == c {
      assert InProgress(s, c) || (step.TryStart? && c == step.call);
    }
  }

  lemma StepSettled(s: Slots, step: Step)
    requires Settled(s) && Enabled(s, step)
    ensures Settled(Do(s, step))
  {
    var t := Do(s, step);
    forall r | r in t.reports ensures ReportSettled(t, r) {
      assert r in s.reports ==> ReportSettled(s, r);
    }
  }

  lemma StepCounted(s: Slots, step: Step)
    requires Counted(s) && Enabled(s, step)
    ensures Counted(Do(s, step))
  {
    var t := Do(s, step);
    forall c ensures ReportsOf(t.reports, c) == if HasReported(t, c) then 1 else 0 {
      assert step.ReportAborted? || step.ReportJob? ==> t.reports[..|t.reports| - 1] == s.reports;
    }
  }

  ghost predicate Runs(s: Slots, steps: seq<Step>)
    decreases |steps|
  {
    steps == [] || (Enabled(s, steps[0]) && Runs(Do(s, steps[0]), steps[1..]))
  }

  ghost function Final(s: Slots, steps: seq<Step>): Slots
    requires Runs(s, steps)
    decreases |steps|
  {
    if steps == [] then s else Final(Do(s, steps[0]), steps[1..])
  }

  lemma {:induction false} RunKeepsFair(s: Slots, steps: seq<Step>)
    requires Fair(s) && Runs(s, steps)
    ensures Fair(Final(s, steps))
    decreases |steps|
  {
    if steps != [] {
      StepExclusive(s, steps[0]);
      StepSettled(s, steps[0]);
      StepCounted(s, steps[0]);
      RunKeepsFair(Do(s, steps[0]), steps[1..]);
    }
  }

  /** In every interleaving: two jobs in progress are for different plans; a runJob call past its report has
      made exactly one and no other call has made any; a report is aborted exactly when its call found the slot held. */
  lemma OneJobPerPlan(steps: seq<Step>)
    requires Runs(Slots(map[], map[], []), steps)
    ensures var t := Final(Slots(map[], map[], []), steps);
      && (forall c, d :: InProgress(t, c) && InProgress(t, d) && t.calls[c].planId == t.calls[d].planId ==> c == d)
      && (forall c :: ReportsOf(t.reports, c) == if HasReported(t, c) then 1 else 0)
      && (forall r :: r in t.reports ==> ReportSettled(t, r))
  {
    RunKeepsFair(Slots(map[], map[], []), steps);
  }

  /** The slot a call is refused for belongs to a job of that plan in progress at that moment, and only then. */
  lemma RefusedExactlyWhenBusy(steps: seq<Step>, planId: string, call: int)
    requires Runs(Slots(map[], map[], []), steps)
    requires Enabled(Final(Slots(map[], map[], []), steps), TryStart(planId, call))
    ensures var t := Final(Slots(map[], map[], []), steps);
      At(Do(t, TryStart(planId, call)), call, Refused) <==>
      exists c :: InProgress(t, c) && t.calls[c].planId == planId
  {
    RunKeepsFair(Slots(map[], map[], []), steps);
    var t := Final(Slots(map[], map[], []), steps);
    if planId in t.current {
      assert InProgress(t, t.current[planId]);
    }
  }

  // ---- the scheduler object ----

  datatype JobStatus = JobStatus(planName: string, startedAt: int)

  class Scheduler {
    var entries: map<int, Plan>      // the cron library's live entries
    var nextEntry: int
    var entryIDs: map<string, int>
    var currentJobs: map<string, JobStatus>
    var reports: seq<(string, bool)>   // what the reporter was given: plan id, aborted

    function State(): Index
      reads this
    {
      Index(entries, entryIDs, nextEntry)
    }

    constructor ()
      ensures State() == EMPTY_INDEX && currentJobs == map[] && reports == []
    {
      entries, nextEntry, entryIDs, currentJobs, reports := map[], 1, map[], map[], [];
    }

    method UpdateSchedule(parses: string -> bool, plans: seq<Plan>)
      modifies this
      ensures State() == Update(parses, old(State()), plans)
      ensures currentJobs == old(currentJobs) && reports == old(reports)
    {
      while entryIDs != map[]
        invariant entries - entryIDs.Values == RemoveAll(old(State())).entries
        invariant nextEntry == old(nextEntry) && currentJobs == old(currentJobs) && reports == old(reports)
        decreases entryIDs.Keys
      {
        var planId :| planId in entryIDs;
        ghost var left := entryIDs - {planId};
        RemoveOne(entries, entryIDs, planId);
        entries := entries - {entryIDs[planId]};
        entryIDs := entryIDs - {planId};
      }
      assert entries == entries - entryIDs.Values;
      for i := 0 to |plans|
        invariant State() == AddAll(RemoveAll(old(State())), Chosen(parses, plans[..i]))
        invariant currentJobs == old(currentJobs) && reports == old(reports)
      {
        var p := plans[i];
        ChosenSnoc(parses, plans, i);
        if !p.enabled { continue; }
        if p.schedule == "" { continue; }
        if !parses(p.schedule) { continue; }
        entries := entries[nextEntry := p];
        entryIDs := entryIDs[p.id := nextEntry];
        nextEntry := nextEntry + 1;
      }
      assert plans[..|plans|] == plans;
    }

    method TryStartJob(planId: string, planName: string, now: int) returns (ok: bool)
      modifies this`currentJobs
      ensures ok <==> planId !in old(currentJobs)
      ensures currentJobs == if ok then old(currentJobs)[planId := JobStatus(planName, now)] else old(currentJobs)
    {
      if planId in currentJobs { return false; }
      currentJobs := currentJobs[planId := JobStatus(planName, now)];
      return true;
    }

    method ClearCurrentJob(planId: string)
      modifies this`currentJobs
      ensures currentJobs == old(currentJobs) - {planId}
    {
      currentJobs := currentJobs - {planId};
    }

    /** Undisturbed, a call makes exactly one report and leaves the slots as it found them. */
    method RunJob(plan: Plan, now: int)
      modifies this`currentJobs, this`reports
      ensures currentJobs == old(currentJobs)
      ensures reports == old(reports) + [(plan.id, plan.id in old(currentJobs))]
    {
      var ok := TryStartJob(plan.id, plan.name, now);
      if !ok {
        reports := reports + [(plan.id, true)];
        return;
      }
      reports := reports + [(plan.id, false)];
      ClearCurrentJob(plan.id);
    }

    /** The job the heartbeat shows: none when idle, otherwise one that started first. */
    method EarliestJob() returns (job: Option<JobStatus>)
      ensures job.None? <==> currentJobs == map[]
      ensures job.Some? ==> job.value in currentJobs.Values
      ensures job.Some? ==> forall p :: p in currentJobs ==> job.value.startedAt <= currentJobs[p].startedAt
    {
      job := None;
      var left := currentJobs.Keys;
      while left != {}
        invariant left <= currentJobs.Keys
        invariant job.None? <==> left == currentJobs.Keys
        invariant job.Some? ==> job.value in currentJobs.Values
        invariant job.Some? ==>
          forall p :: p in currentJobs && p !in left ==> job.value.startedAt <= currentJobs[p].startedAt
      {
        var p :| p in left;
        if job.None? || currentJobs[p].startedAt < job.value.startedAt {
          job := Some(currentJobs[p]);
        }
        left := left - {p};
      }
    }
  }

  lemma RemoveOne(entries: map<int, Plan>, ids: map<string, int>, planId: string)
    requires planId in ids
    ensures (entries - {ids[planId]}) - (ids - {planId}).Values == entries - ids.Values
  {
    var after := (entries - {ids[planId]}) - (ids - {planId}).Values;
    forall e ensures e in ids.Values <==> e == ids[planId] || e in (ids - {planId}).Values {
      if e in ids.Values {
        var p :| p in ids && ids[p] == e;
        if p != planId { assert (ids - {planId})[p] == e; }
      }
      if e in (ids - {planId}).Values {
        var p :| p in ids - {planId} && (ids - {planId})[p] == e;
        assert ids[p] == e;
      }
    }
    assert after.Keys == (entries - ids.Values).Keys;
  }

  lemma ChosenSnoc(parses: string -> bool, plans: seq<Plan>, i: int)
    requires 0 <= i < |plans|
    ensures Chosen(parses, plans[..i + 1]) ==
      if Schedulable(parses, plans[i]) then Chosen(parses, plans[..i]) + [plans[i]] else Chosen(parses, plans[..i])
  {
    assert plans[..i + 1][..i] == plans[..i] && plans[..i + 1][i] == plans[i];
  }

  // ---- what an update schedules ----

  lemma {:induction false} ChosenAre(parses: string -> bool, plans: seq<Plan>)
    ensures forall p :: p in Chosen(parses, plans) <==> p in plans && p.enabled && p.schedule != "" && parses(p.schedule)
  {
    if plans != [] {
      var n := |plans| - 1;
      ChosenAre(parses, plans[..n]);
      assert plans == plans[..n] + [plans[n]];
    }
  }

  /** Without orphans, an update leaves entries for exactly its enabled plans whose schedule is there and parses. */
  lemma EntriesAreSchedulable(parses: string -> bool, x: Index, plans: seq<Plan>, p: Plan)
    requires Numbered(x) && NoOrphans(x)
    ensures p in Update(parses, x, plans).entries.Values <==>
      p in plans && p.enabled && p.schedule != "" && parses(p.schedule)
  {
    var ps, y := Chosen(parses, plans), Update(parses, x, plans);
    ChosenAre(parses, plans);
    AddAllEntries(RemoveAll(x), ps);
    forall e ensures e !in RemoveAll(x).entries { assert !Orphan(x, e); }
    forall e { FreshEntry(x.next, ps, e); }
    if p in ps {
      var k :| 0 <= k < |ps| && ps[k] == p;
      assert y.entries[x.next + k] == p;
    }
  }
}
