/** One backup job from its pre-backup hooks to its report, as the trace of what it ran. */
module BackupLifecycle {
  import opened Common

  datatype HookEvent = PreBackup | PostBackup | OnSuccess | OnFailure | OtherEvent(name: string)

  datatype Hook = Hook(name: string, event: HookEvent, sortOrder: int, abortOnError: bool)

  datatype Repository = Repository(id: string, name: string)

  datatype Plan = Plan(repositoryIds: seq<string>, hooks: seq<Hook>, retention: Option<int>, forget: bool, prune: bool)

  datatype Stats = Stats(snapshotId: string, filesNew: int, filesChanged: int, bytesAdded: int)

  datatype RepoStatus = RepoSuccess | RepoFailed | RepoSkipped

  datatype JobStatus = Unset | Success | Partial | Failed

  datatype RepoResult = RepoResult(id: string, name: string, status: RepoStatus, stats: Stats)

  /** What a hook is told. */
  datatype Context = Context(status: JobStatus, error: string, snapshotId: string, bytesAdded: int, filesNew: int, filesChanged: int)

  datatype Event =
    | HookRan(hook: Hook, ctx: Context, failed: bool)
    | NotFound(id: string)
    | Ensured(id: string, ok: bool)
    | BackedUp(id: string, ok: bool)
    | Forgot(id: string, policy: int, ok: bool)
    | Pruned(id: string, ok: bool)

  datatype HookResult = HookResult(name: string, phase: HookEvent, failed: bool)

  datatype Report = Report(status: JobStatus, repos: seq<RepoResult>, hooks: seq<HookResult>)

  /** The outside world: how the n-th thing the job runs turns out, and the library's unstable sort. */
  datatype World = World(
    hookFails: (int, Hook, Context) -> bool,
    prepares: (int, string) -> bool,
    backsUp: (int, string) -> Option<Stats>,
    forgets: (int, string) -> bool,
    prunes: (int, string) -> bool,
    sort: seq<Hook> -> seq<Hook>)

  const NO_STATS := Stats("", 0, 0, 0)
  const BEFORE := Context(Unset, "", "", 0, 0, 0)
  const ABORTED := Context(Failed, "pre_backup hook aborted", "", 0, 0, 0)

  // ---- a phase of hooks ----

  function Matching(hooks: seq<Hook>, event: HookEvent): seq<Hook>
  {
    if hooks == [] then []
    else
      var n := |hooks| - 1;
      Matching(hooks[..n], event) + if hooks[n].event == event then [hooks[n]] else []
  }

  predicate InOrder(hooks: seq<Hook>) { forall i, j :: 0 <= i < j < |hooks| ==> hooks[i].sortOrder <= hooks[j].sortOrder }

  /** The same hooks, each as often. */
  ghost predicate Rearranges(a: seq<Hook>, b: seq<Hook>) { forall h :: multiset(a)[h] == multiset(b)[h] }

  ghost predicate Sorts(w: World) { forall s :: InOrder(w.sort(s)) && Rearranges(w.sort(s), s) }

  /** The hook failed and stops its phase. */
  predicate Stops(e: Event) { e.HookRan? && e.failed && e.hook.abortOnError }

  predicate Stopped(part: seq<Event>) { part != [] && Stops(part[|part| - 1]) }

  /** The hooks of an order run one after the other from time `from`, cut short only right after one that stops it. */
  predicate RunsThrough(w: World, order: seq<Hook>, ctx: Context, from: int, part: seq<Event>)
  {
    && |part| <= |order|
    && (forall i :: 0 <= i < |part| ==> part[i] == HookRan(order[i], ctx, w.hookFails(from + i, order[i], ctx)))
    && (forall i :: 0 <= i < |part| - 1 ==> !Stops(part[i]))
    && (|part| < |order| ==> Stopped(part))
  }

  /** A phase: some arrangement of all its hooks by sort order, run through. */
  ghost predicate Phase(w: World, hooks: seq<Hook>, event: HookEvent, ctx: Context, from: int, part: seq<Event>)
  {
    exists order :: Arranges(hooks, event, order) && RunsThrough(w, order, ctx, from, part)
  }

  ghost predicate Arranges(hooks: seq<Hook>, event: HookEvent, order: seq<Hook>)
  {
    Rearranges(order, Matching(hooks, event)) && InOrder(order)
  }

  method RunHooks(w: World, hooks: seq<Hook>, event: HookEvent, ctx: Context, from: int)
    returns (part: seq<Event>, aborted: bool)
    requires Sorts(w)
    ensures Phase(w, hooks, event, ctx, from, part)
    ensures aborted <==> Stopped(part)
  {
    var matching := [];
    for i := 0 to |hooks|
      invariant matching == Matching(hooks[..i], event)
    {
      assert hooks[..i + 1][..i] == hooks[..i];
      if hooks[i].event == event { matching := matching + [hooks[i]]; }
    }
    assert hooks[..|hooks|] == hooks;
    var order := w.sort(matching);
    assert Arranges(hooks, event, order);
    part := [];
    for i := 0 to |order|
      invariant |part| == i
      invariant forall k :: 0 <= k < i ==> part[k] == HookRan(order[k], ctx, w.hookFails(from + k, order[k], ctx))
      invariant forall k :: 0 <= k < i ==> !Stops(part[k])
    {
      var failed := w.hookFails(from + i, order[i], ctx);
      part := part + [HookRan(order[i], ctx, failed)];
      if failed && order[i].abortOnError {
        assert RunsThrough(w, order, ctx, from, part);
        return part, true;
      }
    }
    assert RunsThrough(w, order, ctx, from, part);
    return part, false;
  }

  // ---- one repository ----

  function ResolveRetention(plan: Option<int>, fallback: Option<int>): Option<int>
  {
    if plan.Some? then plan else fallback
  }

  /** Forget and prune after a successful backup; neither outcome changes the result. */
  function Upkeep(w: World, plan: Plan, fallback: Option<int>, id: string, from: int): seq<Event>
  {
    var policy := ResolveRetention(plan.retention, fallback);
    if !plan.forget || policy.None? then []
    else
      [Forgot(id, policy.value, w.forgets(from, id))] +
      if plan.prune then [Pruned(id, w.prunes(from + 1, id))] else []
  }

  /** A repository is prepared, then backed up, then kept up; the first of the first two to fail ends it. */
  predicate Segment(w: World, plan: Plan, fallback: Option<int>, id: string, from: int,
                    part: seq<Event>, status: RepoStatus, stats: Stats)
  {
    if !w.prepares(from, id)
    then part == [Ensured(id, false)] && status == RepoFailed && stats == NO_STATS
    else if w.backsUp(from + 1, id).None?
    then part == [Ensured(id, true), BackedUp(id, false)] && status == RepoFailed && stats == NO_STATS
    else
      && part == [Ensured(id, true), BackedUp(id, true)] + Upkeep(w, plan, fallback, id, from + 2)
      && status == RepoSuccess && stats == w.backsUp(from + 1, id).value
  }

  method BackupToRepo(w: World, plan: Plan, fallback: Option<int>, id: string, from: int)
    returns (part: seq<Event>, status: RepoStatus, stats: Stats)
    ensures Segment(w, plan, fallback, id, from, part, status, stats)
  {
    status, stats := RepoSuccess, NO_STATS;
    var ready := w.prepares(from, id);
    part := [Ensured(id, ready)];
    if !ready { return part, RepoFailed, stats; }
    var saved := w.backsUp(from + 1, id);
    part := part + [BackedUp(id, saved.Some?)];
    if saved.None? { return part, RepoFailed, stats; }
    stats := saved.value;
    if plan.forget {
      var policy := if plan.retention.Some? then plan.retention else fallback;
      if policy.Some? {
        part := part + [Forgot(id, policy.value, w.forgets(from + 2, id))];
        if plan.prune {
          part := part + [Pruned(id, w.prunes(from + 3, id))];
        }
      }
    }
  }

  // ---- all repositories ----

  /** The name a repository id stands for: the last one configured under it. */
  function NameOf(repos: seq<Repository>, id: string): Option<string>
  {
    if repos == [] then None
    else if repos[|repos| - 1].id == id then Some(repos[|repos| - 1].name)
    else NameOf(repos[..|repos| - 1], id)
  }

  predicate OneRepo(w: World, plan: Plan, fallback: Option<int>, repos: seq<Repository>, id: string, from: int,
                    part: seq<Event>, result: RepoResult)
  {
    match NameOf(repos, id)
    case None => part == [NotFound(id)] && result == RepoResult(id, "unknown", RepoSkipped, NO_STATS)
    case Some(name) =>
      result.id == id && result.name == name && Segment(w, plan, fallback, id, from, part, result.status, result.stats)
  }

  /** Where the stretches of n repositories begin and end in their part of the trace. */
  predicate Cuts(cuts: seq<int>, n: int, length: int)
  {
    0 <= n && |cuts| == n + 1 && cuts[0] == 0 && cuts[n] == length && forall i, j :: 0 <= i <= j <= n ==> cuts[i] <= cuts[j]
  }

  predicate Stretch(w: World, plan: Plan, fallback: Option<int>, repos: seq<Repository>, ids: seq<string>, from: int,
                    part: seq<Event>, results: seq<RepoResult>, cuts: seq<int>, i: int)
    requires 0 <= i < |ids| == |results| && Cuts(cuts, |ids|, |part|)
  {
    OneRepo(w, plan, fallback, repos, ids[i], from + cuts[i], part[cuts[i]..cuts[i + 1]], results[i])
  }

  /** One stretch of the trace, and one result, per repository id in the plan's order. */
  ghost predicate AllRepos(w: World, plan: Plan, fallback: Option<int>, repos: seq<Repository>, ids: seq<string>,
                           from: int, part: seq<Event>, results: seq<RepoResult>, cuts: seq<int>)
  {
    && |results| == |ids| && Cuts(cuts, |ids|, |part|)
    && forall i :: 0 <= i < |ids| ==> Stretch(w, plan, fallback, repos, ids, from, part, results, cuts, i)
  }

  method BackupRepositories(w: World, plan: Plan, fallback: Option<int>, repos: seq<Repository>, from: int)
    returns (part: seq<Event>, results: seq<RepoResult>, successes: nat, failures: nat, ghost cuts: seq<int>)
    ensures AllRepos(w, plan, fallback, repos, plan.repositoryIds, from, part, results, cuts)
    ensures successes == Successes(results) && failures == |results| - Successes(results)
  {
    var lookup := map[];
    for i := 0 to |repos|
      invariant forall id :: NameOf(repos[..i], id) == if id in lookup then Some(lookup[id]) else None
    {
      assert repos[..i + 1][..i] == repos[..i];
      lookup := lookup[repos[i].id := repos[i].name];
    }
    assert repos[..|repos|] == repos;
    part, results, successes, failures, cuts := [], [], 0, 0, [0];
    var ids := plan.repositoryIds;
    for i := 0 to |ids|
      invariant AllRepos(w, plan, fallback, repos, ids[..i], from, part, results, cuts)
      invariant successes == Successes(results) && failures == i - Successes(results)
    {
      var more, result := BackupOne(w, plan, fallback, repos, lookup, ids[i], from + |part|);
      OneMoreRepo(w, plan, fallback, repos, ids, i, from, part, results, cuts, more, result);
      part, results, cuts := part + more, results + [result], cuts + [|part| + |more|];
      if result.status == RepoSuccess { successes := successes + 1; } else { failures := failures + 1; }
    }
    assert ids[..|ids|] == ids;
  }

  method BackupOne(w: World, plan: Plan, fallback: Option<int>, ghost repos: seq<Repository>,
                   lookup: map<string, string>, id: string, from: int)
    returns (part: seq<Event>, result: RepoResult)
    requires NameOf(repos, id) == if id in lookup then Some(lookup[id]) else None
    ensures OneRepo(w, plan, fallback, repos, id, from, part, result)
  {
    if id !in lookup { return [NotFound(id)], RepoResult(id, "unknown", RepoSkipped, NO_STATS); }
    var status, stats;
    part, status, stats := BackupToRepo(w, plan, fallback, id, from);
    result := RepoResult(id, lookup[id], status, stats);
  }

  lemma PrefixSlice(part: seq<Event>, more: seq<Event>, a: int, b: int)
    requires 0 <= a <= b <= |part|
    ensures (part + more)[a..b] == part[a..b]
  {
  }

  lemma CutsGrow(cuts: seq<int>, n: int, length: int, more: nat)
    requires Cuts(cuts, n, length)
    ensures Cuts(cuts + [length + more], n + 1, length + more)
  {
  }

  lemma OneMoreRepo(w: World, plan: Plan, fallback: Option<int>, repos: seq<Repository>, ids: seq<string>, n: int,
                    from: int, part: seq<Event>, results: seq<RepoResult>, cuts: seq<int>,
                    more: seq<Event>, result: RepoResult)
    requires 0 <= n < |ids| && AllRepos(w, plan, fallback, repos, ids[..n], from, part, results, cuts)
    requires OneRepo(w, plan, fallback, repos, ids[n], from + |part|, more, result)
    ensures AllRepos(w, plan, fallback, repos, ids[..n + 1], from, part + more, results + [result], cuts + [|part| + |more|])
    ensures Successes(results + [result]) == Successes(results) + if result.status == RepoSuccess then 1 else 0
  {
    var ids', part', results', cuts' := ids[..n + 1], part + more, results + [result], cuts + [|part| + |more|];
    assert results'[..n] == results;
    CutsGrow(cuts, n, |part|, |more|);
    forall i | 0 <= i < n + 1 ensures Stretch(w, plan, fallback, repos, ids', from, part', results', cuts', i) {
      if i < n {
        assert Stretch(w, plan, fallback, repos, ids[..n], from, part, results, cuts, i);
        assert cuts[i] <= cuts[i + 1] <= cuts[n] && cuts'[i] == cuts[i] && cuts'[i + 1] == cuts[i + 1];
        assert ids'[i] == ids[..n][i] && results'[i] == results[i];
        PrefixSlice(part, more, cuts[i], cuts[i + 1]);
      } else {
        assert part'[cuts'[n]..cuts'[n + 1]] == more;
      }
    }
  }

  // ---- totals and status ----

  function Successes(results: seq<RepoResult>): nat
  {
    if results == [] then 0
    else Successes(results[..|results| - 1]) + if results[|results| - 1].status == RepoSuccess then 1 else 0
  }

  lemma {:induction false} SuccessesBounds(results: seq<RepoResult>)
    ensures Successes(results) <= |results|
    ensures Successes(results) == |results| <==> forall r :: r in results ==> r.status == RepoSuccess
    ensures Successes(results) == 0 <==> forall r :: r in results ==> r.status != RepoSuccess
  {
    if results != [] {
      var n := |results| - 1;
      SuccessesBounds(results[..n]);
      assert results == results[..n] + [results[n]];
    }
  }

  predicate AllSucceeded(results: seq<RepoResult>) { forall r :: r in results ==> r.status == RepoSuccess }
  predicate NoneSucceeded(results: seq<RepoResult>) { forall r :: r in results ==> r.status != RepoSuccess }

  /** Success when all did, an empty plan included; failed when none did; partial otherwise. */
  function StatusOf(results: seq<RepoResult>): JobStatus
  {
    if AllSucceeded(results) then Success else if NoneSucceeded(results) then Failed else Partial
  }

  /** The context after the backups: totals over the successful repositories, and their last snapshot. */
  function Totals(results: seq<RepoResult>): Context
  {
    if results == [] then BEFORE
    else
      var t, r := Totals(results[..|results| - 1]), results[|results| - 1];
      if r.status != RepoSuccess then t
      else t.(bytesAdded := t.bytesAdded + r.stats.bytesAdded,
              filesNew := t.filesNew + r.stats.filesNew,
              filesChanged := t.filesChanged + r.stats.filesChanged,
              snapshotId := if r.stats.snapshotId != "" then r.stats.snapshotId else t.snapshotId)
  }

  function After(results: seq<RepoResult>): Context
  {
    Totals(results).(status := StatusOf(results),
                     error := if StatusOf(results) == Failed then "all repositories failed" else "")
  }

  method Summarize(results: seq<RepoResult>, successes: nat, failures: nat) returns (ctx: Context)
    requires successes == Successes(results) && failures == |results| - Successes(results)
    ensures ctx == After(results)
  {
    SuccessesBounds(results);
    var status := if failures == 0 then Success else if successes == 0 then Failed else Partial;
    ctx := BEFORE;
    for i := 0 to |results|
      invariant ctx == Totals(results[..i])
    {
      assert results[..i + 1][..i] == results[..i];
      var r := results[i];
      if r.status == RepoSuccess {
        ctx := ctx.(bytesAdded := ctx.bytesAdded + r.stats.bytesAdded,
                    filesNew := ctx.filesNew + r.stats.filesNew,
                    filesChanged := ctx.filesChanged + r.stats.filesChanged);
        if r.stats.snapshotId != "" { ctx := ctx.(snapshotId := r.stats.snapshotId); }
      }
    }
    assert results[..|results|] == results;
    ctx := ctx.(status := status, error := "");
    if status == Failed { ctx := ctx.(error := "all repositories failed"); }
  }

  // ---- the job ----

  /** The hook results of a trace, in order. */
  function HooksOf(trace: seq<Event>): seq<HookResult>
  {
    if trace == [] then []
    else
      var e := trace[|trace| - 1];
      HooksOf(trace[..|trace| - 1]) + if e.HookRan? then [HookResult(e.hook.name, e.hook.event, e.failed)] else []
  }

  function Outcome(results: seq<RepoResult>): HookEvent { if StatusOf(results) == Success then OnSuccess else OnFailure }

  /** The stretches of a job's trace; a job cut short has only the first and the last. */
  datatype Parts = Parts(pre: seq<Event>, repos: seq<Event>, post: seq<Event>, last: seq<Event>, cuts: seq<int>) {
    function Trace(): seq<Event> { pre + repos + post + last }
  }

  /** The pre-backup phase was stopped: only the failure hooks follow. */
  ghost predicate CutShort(w: World, plan: Plan, p: Parts, report: Report)
  {
    && Phase(w, plan.hooks, PreBackup, BEFORE, 0, p.pre) && Stopped(p.pre)
    && p.repos == [] && p.post == []
    && Phase(w, plan.hooks, OnFailure, ABORTED, |p.pre|, p.last)
    && report.status == Failed && report.repos == []
  }

  /** Pre hooks, every repository, post hooks, then one outcome phase. */
  ghost predicate FullRun(w: World, plan: Plan, fallback: Option<int>, repos: seq<Repository>, p: Parts, report: Report)
  {
    && Phase(w, plan.hooks, PreBackup, BEFORE, 0, p.pre) && !Stopped(p.pre)
    && AllRepos(w, plan, fallback, repos, plan.repositoryIds, |p.pre|, p.repos, report.repos, p.cuts)
    && Phase(w, plan.hooks, PostBackup, After(report.repos), |p.pre| + |p.repos|, p.post)
    && Phase(w, plan.hooks, Outcome(report.repos), After(report.repos), |p.pre| + |p.repos| + |p.post|, p.last)
    && report.status == StatusOf(report.repos)
  }

  ghost predicate JobRun(w: World, plan: Plan, fallback: Option<int>, repos: seq<Repository>, p: Parts, report: Report)
  {
    && (CutShort(w, plan, p, report) || FullRun(w, plan, fallback, repos, p, report))
    && report.hooks == HooksOf(p.Trace())
  }

  /** The trace splits into the parts of a run that ended in the report. */
  ghost predicate Fits(w: World, plan: Plan, fallback: Option<int>, repos: seq<Repository>, trace: seq<Event>, report: Report)
  {
    exists p: Parts :: p.Trace() == trace && JobRun(w, plan, fallback, repos, p, report)
  }

  /** Every run of a job fits the grammar of its phases, whatever the hooks and the repositories do. */
  method ExecuteBackupJob(w: World, plan: Plan, fallback: Option<int>, repos: seq<Repository>)
    returns (trace: seq<Event>, report: Report)
    requires Sorts(w)
    ensures Fits(w, plan, fallback, repos, trace, report)
  {
    ghost var p;
    var pre, aborted := RunHooks(w, plan.hooks, PreBackup, BEFORE, 0);
    if aborted {
      trace, report, p := FailEarly(w, plan, pre);
    } else {
      trace, report, p := BackUpAndReport(w, plan, fallback, repos, pre);
    }
    assert p.Trace() == trace && JobRun(w, plan, fallback, repos, p, report);
  }

  method FailEarly(w: World, plan: Plan, pre: seq<Event>) returns (trace: seq<Event>, report: Report, ghost p: Parts)
    requires Sorts(w) && Phase(w, plan.hooks, PreBackup, BEFORE, 0, pre) && Stopped(pre)
    ensures trace == p.Trace() && CutShort(w, plan, p, report) && report.hooks == HooksOf(trace)
  {
    var failure, aborted := RunHooks(w, plan.hooks, OnFailure, ABORTED, |pre|);
    trace, p := pre + failure, Parts(pre, [], [], failure, []);
    assert pre + [] + [] + failure == trace;
    var hooks := ConvertHookResults(trace);
    report := Report(Failed, [], hooks);
  }

  method BackUpAndReport(w: World, plan: Plan, fallback: Option<int>, repos: seq<Repository>, pre: seq<Event>)
    returns (trace: seq<Event>, report: Report, ghost p: Parts)
    requires Sorts(w) && Phase(w, plan.hooks, PreBackup, BEFORE, 0, pre) && !Stopped(pre)
    ensures trace == p.Trace() && FullRun(w, plan, fallback, repos, p, report) && report.hooks == HooksOf(trace)
  {
    var part, post, last, results, status;
    part, post, last, results, status, p := BackUp(w, plan, fallback, repos, pre);
    var hooks := ConvertHookResults(pre + post + last);
    SkipRepos(pre, part, post, last);
    trace, report := pre + part + post + last, Report(status, results, hooks);
    HooksDoNotMatter(w, plan, fallback, repos, p, report);
  }

  lemma HooksDoNotMatter(w: World, plan: Plan, fallback: Option<int>, repos: seq<Repository>, p: Parts, report: Report)
    requires FullRun(w, plan, fallback, repos, p, report.(hooks := []))
    ensures FullRun(w, plan, fallback, repos, p, report)
  {
  }

  method BackUp(w: World, plan: Plan, fallback: Option<int>, repos: seq<Repository>, pre: seq<Event>)
    returns (part: seq<Event>, post: seq<Event>, last: seq<Event>, results: seq<RepoResult>, status: JobStatus, ghost p: Parts)
    requires Sorts(w) && Phase(w, plan.hooks, PreBackup, BEFORE, 0, pre) && !Stopped(pre)
    ensures p == Parts(pre, part, post, last, p.cuts) && (forall e :: e in part ==> !e.HookRan?)
    ensures FullRun(w, plan, fallback, repos, p, Report(status, results, []))
  {
    part, post, last, results, status, p := RunParts(w, plan, fallback, repos, pre);
    ReposHaveNoHooks(w, plan, fallback, repos, |pre|, part, results, p.cuts);
    Assembled(w, plan, fallback, repos, p, results);
  }

  /** The parts after the pre hooks, with their results. */
  ghost predicate Rest(w: World, plan: Plan, fallback: Option<int>, repos: seq<Repository>, p: Parts, results: seq<RepoResult>)
  {
    && AllRepos(w, plan, fallback, repos, plan.repositoryIds, |p.pre|, p.repos, results, p.cuts)
    && Closes(w, plan, results, |p.pre| + |p.repos|, p.post, p.last)
  }

  lemma Assembled(w: World, plan: Plan, fallback: Option<int>, repos: seq<Repository>, p: Parts, results: seq<RepoResult>)
    requires Phase(w, plan.hooks, PreBackup, BEFORE, 0, p.pre) && !Stopped(p.pre)
    requires Rest(w, plan, fallback, repos, p, results)
    ensures FullRun(w, plan, fallback, repos, p, Report(StatusOf(results), results, []))
  {
  }

  method RunParts(w: World, plan: Plan, fallback: Option<int>, repos: seq<Repository>, pre: seq<Event>)
    returns (part: seq<Event>, post: seq<Event>, last: seq<Event>, results: seq<RepoResult>, status: JobStatus, ghost p: Parts)
    requires Sorts(w)
    ensures p == Parts(pre, part, post, last, p.cuts) && Rest(w, plan, fallback, repos, p, results)
    ensures status == StatusOf(results)
  {
    var successes, failures;
    ghost var cuts;
    part, results, successes, failures, cuts := BackupRepositories(w, plan, fallback, repos, |pre|);
    post, last, status := RunClosingHooks(w, plan, results, successes, failures, |pre| + |part|);
    p := Parts(pre, part, post, last, cuts);
    RestOf(w, plan, fallback, repos, p, results);
  }

  lemma RestOf(w: World, plan: Plan, fallback: Option<int>, repos: seq<Repository>, p: Parts, results: seq<RepoResult>)
    requires AllRepos(w, plan, fallback, repos, plan.repositoryIds, |p.pre|, p.repos, results, p.cuts)
    requires Closes(w, plan, results, |p.pre| + |p.repos|, p.post, p.last)
    ensures Rest(w, plan, fallback, repos, p, results)
  {
  }

  /** The post hooks and then the hooks of the outcome. */
  ghost predicate Closes(w: World, plan: Plan, results: seq<RepoResult>, from: int, post: seq<Event>, last: seq<Event>)
  {
    && Phase(w, plan.hooks, PostBackup, After(results), from, post)
    && Phase(w, plan.hooks, Outcome(results), After(results), from + |post|, last)
  }

  method RunClosingHooks(w: World, plan: Plan, results: seq<RepoResult>, successes: nat, failures: nat, from: int)
    returns (post: seq<Event>, last: seq<Event>, status: JobStatus)
    requires Sorts(w) && successes == Successes(results) && failures == |results| - Successes(results)
    ensures Closes(w, plan, results, from, post, last) && status == StatusOf(results)
  {
    var ctx := Summarize(results, successes, failures);
    status := ctx.status;
    post, last := RunHooksAfter(w, plan.hooks, ctx, from);
  }

  method RunHooksAfter(w: World, hooks: seq<Hook>, ctx: Context, from: int) returns (post: seq<Event>, last: seq<Event>)
    requires Sorts(w)
    ensures Phase(w, hooks, PostBackup, ctx, from, post)
    ensures Phase(w, hooks, if ctx.status == Success then OnSuccess else OnFailure, ctx, from + |post|, last)
  {
    var aborted;
    post, aborted := RunHooks(w, hooks, PostBackup, ctx, from);
    last := RunOutcomeHooks(w, hooks, ctx, from + |post|);
  }

  method RunOutcomeHooks(w: World, hooks: seq<Hook>, ctx: Context, from: int) returns (last: seq<Event>)
    requires Sorts(w)
    ensures Phase(w, hooks, if ctx.status == Success then OnSuccess else OnFailure, ctx, from, last)
  {
    var aborted;
    if ctx.status == Success {
      last, aborted := RunHooks(w, hooks, OnSuccess, ctx, from);
    } else {
      last, aborted := RunHooks(w, hooks, OnFailure, ctx, from);
    }
  }

  /** The repositories' part of a trace has no hook results in it. */
  lemma SkipRepos(pre: seq<Event>, part: seq<Event>, post: seq<Event>, last: seq<Event>)
    requires forall e :: e in part ==> !e.HookRan?
    ensures HooksOf(pre + part + post + last) == HooksOf(pre + post + last)
  {
    NoHooks(part);
    HooksConcat(pre, part);
    HooksConcat(pre + part, post);
    HooksConcat(pre + part + post, last);
    HooksConcat(pre, post);
    HooksConcat(pre + post, last);
  }

  method ConvertHookResults(part: seq<Event>) returns (out: seq<HookResult>)
    ensures out == HooksOf(part)
  {
    out := [];
    for i := 0 to |part|
      invariant out == HooksOf(part[..i])
    {
      assert part[..i + 1][..i] == part[..i];
      if part[i].HookRan? { out := out + [HookResult(part[i].hook.name, part[i].hook.event, part[i].failed)]; }
    }
    assert part[..|part|] == part;
  }

  lemma {:induction false} HooksConcat(a: seq<Event>, b: seq<Event>)
    ensures HooksOf(a + b) == HooksOf(a) + HooksOf(b)
  {
    if b == [] {
      assert a + b == a;
    } else {
      assert (a + b)[..|a + b| - 1] == a + b[..|b| - 1];
      HooksConcat(a, b[..|b| - 1]);
    }
  }

  lemma ReposHaveNoHooks(w: World, plan: Plan, fallback: Option<int>, repos: seq<Repository>, from: int,
                         part: seq<Event>, results: seq<RepoResult>, cuts: seq<int>)
    requires AllRepos(w, plan, fallback, repos, plan.repositoryIds, from, part, results, cuts)
    ensures forall e :: e in part ==> !e.HookRan?
  {
    var ids := plan.repositoryIds;
    forall e | e in part ensures !e.HookRan? {
      var t :| 0 <= t < |part| && part[t] == e;
      var i := FindStretch(cuts, |ids|, |part|, t);
      assert Stretch(w, plan, fallback, repos, ids, from, part, results, cuts, i);
      OneRepoHasNoHooks(w, plan, fallback, repos, ids[i], from + cuts[i], part[cuts[i]..cuts[i + 1]], results[i]);
      assert part[cuts[i]..cuts[i + 1]][t - cuts[i]] == e;
    }
  }

  lemma FindStretch(cuts: seq<int>, n: int, length: int, t: int) returns (i: int)
    requires Cuts(cuts, n, length) && 0 <= t < length
    ensures 0 <= i < n && cuts[i] <= t < cuts[i + 1]
  {
    i := 0;
    while cuts[i + 1] <= t
      invariant 0 <= i < n && cuts[i] <= t
      decreases n - i
    {
      i := i + 1;
    }
  }

  lemma OneRepoHasNoHooks(w: World, plan: Plan, fallback: Option<int>, repos: seq<Repository>, id: string,
                          from: int, part: seq<Event>, result: RepoResult)
    requires OneRepo(w, plan, fallback, repos, id, from, part, result)
    ensures forall e :: e in part ==> !e.HookRan?
  {
  }

  lemma {:induction false} NoHooks(part: seq<Event>)
    requires forall e :: e in part ==> !e.HookRan?
    ensures HooksOf(part) == []
  {
    if part != [] {
      NoHooks(part[..|part| - 1]);
      assert part[|part| - 1] in part;
    }
  }

  // ---- what the grammar means ----

  /** Which of the four stages an event belongs to. */
  function Stage(e: Event): int
  {
    if !e.HookRan? then 1
    else if e.hook.event == PreBackup then 0
    else if e.hook.event == PostBackup then 2
    else 3
  }

  lemma {:induction false} MatchingIsEvent(hooks: seq<Hook>, event: HookEvent)
    ensures forall h :: h in Matching(hooks, event) <==> h in hooks && h.event == event
  {
    if hooks != [] {
      var n := |hooks| - 1;
      MatchingIsEvent(hooks[..n], event);
      assert hooks == hooks[..n] + [hooks[n]];
    }
  }

  lemma PhaseEvents(w: World, hooks: seq<Hook>, event: HookEvent, ctx: Context, from: int, part: seq<Event>)
    requires Phase(w, hooks, event, ctx, from, part)
    ensures forall i :: 0 <= i < |part| ==> part[i].HookRan? && part[i].hook.event == event && part[i].ctx == ctx
    ensures forall i, j :: 0 <= i < j < |part| ==> part[i].hook.sortOrder <= part[j].hook.sortOrder
    ensures !Stopped(part) ==> |part| == |Matching(hooks, event)|
  {
    var order :| Arranges(hooks, event, order) && RunsThrough(w, order, ctx, from, part);
    MatchingIsEvent(hooks, event);
    assert multiset(order) == multiset(Matching(hooks, event));
    forall i | 0 <= i < |part| ensures part[i].HookRan? && part[i].hook.event == event && part[i].ctx == ctx {
      assert order[i] in multiset(order);
    }
    assert |order| == |multiset(order)| == |Matching(hooks, event)|;
  }

  lemma ReposAreStageOne(w: World, plan: Plan, fallback: Option<int>, repos: seq<Repository>, from: int,
                         part: seq<Event>, results: seq<RepoResult>, cuts: seq<int>)
    requires AllRepos(w, plan, fallback, repos, plan.repositoryIds, from, part, results, cuts)
    ensures AllStage(part, 1)
  {
    ReposHaveNoHooks(w, plan, fallback, repos, from, part, results, cuts);
    forall i | 0 <= i < |part| ensures Stage(part[i]) == 1 { assert part[i] in part; }
  }

  predicate AllStage(part: seq<Event>, stage: int) { forall i :: 0 <= i < |part| ==> Stage(part[i]) == stage }

  /** Events of a phase belong to the stage its hooks' event stands for. */
  lemma PhaseStage(w: World, hooks: seq<Hook>, event: HookEvent, ctx: Context, from: int, part: seq<Event>)
    requires Phase(w, hooks, event, ctx, from, part)
    ensures AllStage(part, if event == PreBackup then 0 else if event == PostBackup then 2 else 3)
  {
    PhaseEvents(w, hooks, event, ctx, from, part);
  }

  lemma StagesInOrder(p: Parts)
    requires AllStage(p.pre, 0) && AllStage(p.repos, 1) && AllStage(p.post, 2) && AllStage(p.last, 3)
    ensures forall i, j :: 0 <= i < j < |p.Trace()| ==> Stage(p.Trace()[i]) <= Stage(p.Trace()[j])
  {
    var a, b, c := |p.pre|, |p.pre| + |p.repos|, |p.pre| + |p.repos| + |p.post|;
    forall i | 0 <= i < |p.Trace()|
      ensures Stage(p.Trace()[i]) == (if i < a then 0 else if i < b then 1 else if i < c then 2 else 3)
    {
    }
  }

  lemma StagesOfFullRun(w: World, plan: Plan, fallback: Option<int>, repos: seq<Repository>, p: Parts, report: Report)
    requires FullRun(w, plan, fallback, repos, p, report)
    ensures AllStage(p.pre, 0) && AllStage(p.repos, 1) && AllStage(p.post, 2)
  {
    PhaseStage(w, plan.hooks, PreBackup, BEFORE, 0, p.pre);
    ReposAreStageOne(w, plan, fallback, repos, |p.pre|, p.repos, report.repos, p.cuts);
    PhaseStage(w, plan.hooks, PostBackup, After(report.repos), |p.pre| + |p.repos|, p.post);
  }

  lemma OutcomeOfFullRun(w: World, plan: Plan, fallback: Option<int>, repos: seq<Repository>, p: Parts, report: Report)
    requires FullRun(w, plan, fallback, repos, p, report)
    ensures forall e :: e in p.last ==> e.HookRan? && e.hook.event == if report.status == Success then OnSuccess else OnFailure
    ensures forall e :: e in p.pre ==> !Stops(e)
  {
    PhaseEvents(w, plan.hooks, Outcome(report.repos), After(report.repos), |p.pre| + |p.repos| + |p.post|, p.last);
    NoStopBefore(w, plan.hooks, PreBackup, BEFORE, p.pre);
  }

  lemma StagesOfCutShort(w: World, plan: Plan, p: Parts, report: Report)
    requires CutShort(w, plan, p, report)
    ensures AllStage(p.pre, 0) && AllStage(p.repos, 1) && AllStage(p.post, 2)
    ensures forall e :: e in p.last ==> e.HookRan? && e.hook.event == OnFailure
  {
    PhaseStage(w, plan.hooks, PreBackup, BEFORE, 0, p.pre);
    PhaseEvents(w, plan.hooks, OnFailure, ABORTED, |p.pre|, p.last);
  }

  lemma NoStopBefore(w: World, hooks: seq<Hook>, event: HookEvent, ctx: Context, part: seq<Event>)
    requires Phase(w, hooks, event, ctx, 0, part) && !Stopped(part)
    ensures forall e :: e in part ==> !Stops(e)
  {
    var order :| Arranges(hooks, event, order) && RunsThrough(w, order, ctx, 0, part);
    forall e | e in part ensures !Stops(e) {
      var i :| 0 <= i < |part| && part[i] == e;
    }
  }

  /** In every run the stages come in order, success hooks run only when every repository succeeded and
      failure hooks only when not, and a failing pre hook that aborts means no repository and no post hook. */
  lemma LifecycleOrder(w: World, plan: Plan, fallback: Option<int>, repos: seq<Repository>, p: Parts, report: Report)
    requires JobRun(w, plan, fallback, repos, p, report)
    ensures forall i, j :: 0 <= i < j < |p.Trace()| ==> Stage(p.Trace()[i]) <= Stage(p.Trace()[j])
    ensures forall e :: e in p.Trace() && Stage(e) == 3 ==>
      e.hook.event == if report.status == Success then OnSuccess else OnFailure
    ensures (exists e :: e in p.pre && Stops(e)) ==> report.status == Failed && p.repos == [] && p.post == []
  {
    if FullRun(w, plan, fallback, repos, p, report) {
      StagesOfFullRun(w, plan, fallback, repos, p, report);
      OutcomeOfFullRun(w, plan, fallback, repos, p, report);
    } else {
      StagesOfCutShort(w, plan, p, report);
    }
    OnlyLastIsThree(p, if report.status == Success then OnSuccess else OnFailure);
    StagesInOrder(p);
  }

  lemma OnlyLastIsThree(p: Parts, event: HookEvent)
    requires AllStage(p.pre, 0) && AllStage(p.repos, 1) && AllStage(p.post, 2)
    requires (event == OnSuccess || event == OnFailure) && forall e :: e in p.last ==> e.HookRan? && e.hook.event == event
    ensures AllStage(p.last, 3)
    ensures forall e :: e in p.Trace() && Stage(e) == 3 ==> e.hook.event == event
  {
  }

  // ---- when post hooks run ----

  /** The job was stopped by a pre hook. */
  predicate StoppedBefore(p: Parts) { exists e :: e in p.pre && Stops(e) }

  predicate HasHook(plan: Plan, event: HookEvent) { exists h :: h in plan.hooks && h.event == event }

  predicate RanHook(trace: seq<Event>, event: HookEvent) { exists e :: e in trace && e.HookRan? && e.hook.event == event }

  /** A run is cut short exactly when a pre hook that aborts failed. */
  lemma CutShortExactly(w: World, plan: Plan, fallback: Option<int>, repos: seq<Repository>, p: Parts, report: Report)
    requires JobRun(w, plan, fallback, repos, p, report)
    ensures CutShort(w, plan, p, report) <==> StoppedBefore(p)
    ensures StoppedBefore(p) <==> exists e :: e in p.pre && e.HookRan? && e.failed && e.hook.abortOnError
  {
    if FullRun(w, plan, fallback, repos, p, report) {
      OutcomeOfFullRun(w, plan, fallback, repos, p, report);
    } else {
      assert p.pre[|p.pre| - 1] in p.pre;
    }
  }

  /** A phase runs some hook exactly when one matches. */
  lemma PhaseRunsSome(w: World, hooks: seq<Hook>, event: HookEvent, ctx: Context, from: int, part: seq<Event>)
    requires Phase(w, hooks, event, ctx, from, part)
    ensures part != [] <==> exists h :: h in hooks && h.event == event
    ensures forall e :: e in part ==> e.HookRan? && e.hook.event == event
  {
    PhaseEvents(w, hooks, event, ctx, from, part);
    MatchingIsEvent(hooks, event);
    if part == [] {
      assert !Stopped(part);
    } else {
      assert part[0].hook in hooks by { PhaseIsOfHooks(w, hooks, event, ctx, from, part); }
    }
    if h :| h in hooks && h.event == event { assert h in Matching(hooks, event); }
  }

  lemma PhaseIsOfHooks(w: World, hooks: seq<Hook>, event: HookEvent, ctx: Context, from: int, part: seq<Event>)
    requires Phase(w, hooks, event, ctx, from, part) && part != []
    ensures part[0].HookRan? && part[0].hook in hooks && part[0].hook.event == event
  {
    var order :| Arranges(hooks, event, order) && RunsThrough(w, order, ctx, from, part);
    MatchingIsEvent(hooks, event);
    assert multiset(order)[order[0]] > 0;
    assert multiset(Matching(hooks, event))[order[0]] > 0;
  }

  /** A post hook runs exactly when the plan has one and no pre hook stopped the job. */
  lemma PostHooksExactly(w: World, plan: Plan, fallback: Option<int>, repos: seq<Repository>, p: Parts, report: Report)
    requires JobRun(w, plan, fallback, repos, p, report)
    ensures RanHook(p.Trace(), PostBackup) <==> HasHook(plan, PostBackup) && !StoppedBefore(p)
  {
    CutShortExactly(w, plan, fallback, repos, p, report);
    OnlyPostIsPost(w, plan, fallback, repos, p, report);
    if FullRun(w, plan, fallback, repos, p, report) {
      PhaseRunsSome(w, plan.hooks, PostBackup, After(report.repos), |p.pre| + |p.repos|, p.post);
      if p.post != [] { assert p.post[0] in p.post; }
    }
  }

  lemma OnlyPostIsPost(w: World, plan: Plan, fallback: Option<int>, repos: seq<Repository>, p: Parts, report: Report)
    requires JobRun(w, plan, fallback, repos, p, report)
    ensures forall e :: e in p.Trace() && e.HookRan? && e.hook.event == PostBackup ==> e in p.post
    ensures forall e :: e in p.post ==> e in p.Trace() && e.HookRan? && e.hook.event == PostBackup
  {
    if FullRun(w, plan, fallback, repos, p, report) {
      StagesOfFullRun(w, plan, fallback, repos, p, report);
      OutcomeOfFullRun(w, plan, fallback, repos, p, report);
    } else {
      StagesOfCutShort(w, plan, p, report);
    }
    forall e | e in p.Trace() ensures e in p.pre || e in p.repos || e in p.post || e in p.last {}
    forall e | e in p.pre + p.repos ensures Stage(e) <= 1 {}
  }

  // ---- a run without its post hook ----

  function Insert(h: Hook, hooks: seq<Hook>): seq<Hook>
  {
    if hooks == [] || h.sortOrder <= hooks[0].sortOrder then [h] + hooks else [hooks[0]] + Insert(h, hooks[1..])
  }

  function SortHooks(hooks: seq<Hook>): seq<Hook>
  {
    if hooks == [] then [] else Insert(hooks[0], SortHooks(hooks[1..]))
  }

  lemma {:induction false} InsertAdds(h: Hook, hooks: seq<Hook>)
    ensures forall x :: x in Insert(h, hooks) <==> x == h || x in hooks
    ensures multiset(Insert(h, hooks)) == multiset(hooks) + multiset{h}
  {
    if hooks != [] {
      assert hooks == [hooks[0]] + hooks[1..];
      if h.sortOrder > hooks[0].sortOrder { InsertAdds(h, hooks[1..]); }
    }
  }

  lemma {:induction false} InsertKeepsOrder(h: Hook, hooks: seq<Hook>)
    requires InOrder(hooks)
    ensures InOrder(Insert(h, hooks))
  {
    if hooks != [] && h.sortOrder > hooks[0].sortOrder {
      var tail := Insert(h, hooks[1..]);
      InsertKeepsOrder(h, hooks[1..]);
      InsertAdds(h, hooks[1..]);
      forall j | 0 <= j < |tail| ensures hooks[0].sortOrder <= tail[j].sortOrder {
        assert tail[j] in tail;
      }
    }
  }

  /** Such a sort exists. */
  lemma {:induction false} SortHooksSorts(hooks: seq<Hook>)
    ensures InOrder(SortHooks(hooks)) && multiset(SortHooks(hooks)) == multiset(hooks)
  {
    if hooks != [] {
      SortHooksSorts(hooks[1..]);
      InsertKeepsOrder(hooks[0], SortHooks(hooks[1..]));
      InsertAdds(hooks[0], SortHooks(hooks[1..]));
      assert hooks == [hooks[0]] + hooks[1..];
    }
  }

  lemma MatchingOfTwo(pre: Hook, post: Hook)
    requires pre.event == PreBackup && post.event == PostBackup
    ensures Matching([pre] + [post], PreBackup) == [pre]
    ensures Matching([pre] + [post], OnFailure) == []
  {
    var hooks := [pre] + [post];
    assert hooks[..1] == [pre] && [pre][..0] == [] && Matching([pre][..0], PreBackup) == [];
    assert Matching([pre], PreBackup) == [pre];
    assert Matching([pre][..0], OnFailure) == [] && Matching([pre], OnFailure) == [];
    assert hooks[1] == post;
  }

  /** Every hook and every command fails. */
  function FailingWorld(): World
  {
    World((n, h, c) => true, (n, id) => true, (n, id) => None, (n, id) => true, (n, id) => true, s => SortHooks(s))
  }

  lemma FailingWorldSorts()
    ensures Sorts(FailingWorld())
  {
    forall s: seq<Hook> ensures InOrder(FailingWorld().sort(s)) && Rearranges(FailingWorld().sort(s), s) {
      SortHooksSorts(s);
    }
  }

  /** With both a pre and a post hook, the pre phase is the pre hook and no failure hook runs. */
  lemma SkippingPhases(pre: Hook, post: Hook)
    requires pre.event == PreBackup && post.event == PostBackup
    ensures Phase(FailingWorld(), [pre] + [post], PreBackup, BEFORE, 0, [HookRan(pre, BEFORE, true)])
    ensures Phase(FailingWorld(), [pre] + [post], OnFailure, ABORTED, 1, [])
  {
    var w, hooks := FailingWorld(), [pre] + [post];
    MatchingOfTwo(pre, post);
    assert Arranges(hooks, PreBackup, [pre]) && RunsThrough(w, [pre], BEFORE, 0, [HookRan(pre, BEFORE, true)]);
    assert Arranges(hooks, OnFailure, []) && RunsThrough(w, [], ABORTED, 1, []);
  }

  /** A plan with a pre hook that aborts and a post hook, and a run of it without the post hook. */
  lemma PostHookSkipped() returns (w: World, plan: Plan, p: Parts, report: Report)
    ensures Sorts(w) && HasHook(plan, PostBackup) && JobRun(w, plan, None, [], p, report)
    ensures !RanHook(p.Trace(), PostBackup)
  {
    var pre, post := Hook("check", PreBackup, 0, true), Hook("mount", PostBackup, 0, false);
    w, plan := FailingWorld(), Plan([], [pre] + [post], None, false, false);
    p := Parts([HookRan(pre, BEFORE, true)], [], [], [], []);
    report := Report(Failed, [], HooksOf(p.Trace()));
    FailingWorldSorts();
    SkippingPhases(pre, post);
    assert plan.hooks[1] == post;
    assert Stops(p.pre[0]);
    PostHooksExactly(w, plan, None, [], p, report);
  }

  /** The reported status is success, partial or failed exactly by all, some or none of the plan's repositories,
      one result per repository id in the plan's order; a job stopped by its pre hooks failed without trying any. */
  lemma StatusRule(w: World, plan: Plan, fallback: Option<int>, repos: seq<Repository>, p: Parts, report: Report)
    requires FullRun(w, plan, fallback, repos, p, report)
    ensures |report.repos| == |plan.repositoryIds|
    ensures forall i :: 0 <= i < |report.repos| ==> report.repos[i].id == plan.repositoryIds[i]
    ensures report.status == Success <==> forall r :: r in report.repos ==> r.status == RepoSuccess
    ensures report.status == Failed <==> report.repos != [] && forall r :: r in report.repos ==> r.status != RepoSuccess
    ensures report.status == Success || report.status == Failed || report.status == Partial
    ensures report.status == Success <==> Successes(report.repos) == |plan.repositoryIds|
    ensures report.status == Failed <==> Successes(report.repos) == 0 && plan.repositoryIds != []
    ensures report.status == Partial <==> 0 < Successes(report.repos) < |plan.repositoryIds|
  {
    ResultPerRepository(w, plan, fallback, repos, |p.pre|, p.repos, report.repos, p.cuts);
    SuccessesBounds(report.repos);
  }

  lemma ResultPerRepository(w: World, plan: Plan, fallback: Option<int>, repos: seq<Repository>, from: int,
                            part: seq<Event>, results: seq<RepoResult>, cuts: seq<int>)
    requires AllRepos(w, plan, fallback, repos, plan.repositoryIds, from, part, results, cuts)
    ensures |results| == |plan.repositoryIds|
    ensures forall i :: 0 <= i < |results| ==> results[i].id == plan.repositoryIds[i]
  {
    forall i | 0 <= i < |results| ensures results[i].id == plan.repositoryIds[i] {
      assert Stretch(w, plan, fallback, repos, plan.repositoryIds, from, part, results, cuts, i);
    }
  }

  // ---- what a phase and a repository come to ----

  /** A phase runs every hook of its event, unless the last hook that ran failed and aborts. */
  lemma PhaseIsComplete(w: World, hooks: seq<Hook>, event: HookEvent, ctx: Context, from: int, part: seq<Event>, h: Hook)
    requires Phase(w, hooks, event, ctx, from, part) && h in hooks && h.event == event
    requires forall e :: e in part ==> e.HookRan? && !(e.failed && e.hook.abortOnError)
    ensures exists e :: e in part && e.hook == h
  {
    var order :| Arranges(hooks, event, order) && RunsThrough(w, order, ctx, from, part);
    MatchingIsEvent(hooks, event);
    assert part != [] ==> part[|part| - 1] in part;
    assert |part| == |order|;
    assert multiset(order)[h] == multiset(Matching(hooks, event))[h] > 0;
    var i :| 0 <= i < |order| && order[i] == h;
    assert part[i] in part && part[i].hook == h;
  }

  /** Each hook that ran is configured for the event, was told the context, and did not stop the phase before the last. */
  lemma HookOutcomes(w: World, hooks: seq<Hook>, event: HookEvent, ctx: Context, from: int, part: seq<Event>, i: nat)
    requires Phase(w, hooks, event, ctx, from, part) && i < |part|
    ensures part[i].HookRan? && part[i].failed == w.hookFails(from + i, part[i].hook, ctx) && part[i].ctx == ctx
    ensures part[i].hook.event == event && part[i].hook in hooks
    ensures i < |part| - 1 ==> !(part[i].failed && part[i].hook.abortOnError)
  {
    var order :| Arranges(hooks, event, order) && RunsThrough(w, order, ctx, from, part);
    MatchingIsEvent(hooks, event);
    assert i < |part| - 1 ==> !Stops(part[i]);
    assert multiset(order)[order[i]] > 0;
    assert multiset(Matching(hooks, event))[order[i]] > 0;
  }

  /** A repository succeeds exactly when preparing it and backing it up both do. */
  lemma RepositorySucceeds(w: World, plan: Plan, fallback: Option<int>, id: string, from: int,
                           part: seq<Event>, status: RepoStatus, stats: Stats)
    requires Segment(w, plan, fallback, id, from, part, status, stats)
    ensures part != [] && part[0] == Ensured(id, w.prepares(from, id))
    ensures status == RepoSuccess <==> w.prepares(from, id) && w.backsUp(from + 1, id).Some?
    ensures status == RepoSuccess ==> |part| >= 2 && part[1] == BackedUp(id, true) && w.backsUp(from + 1, id) == Some(stats)
    ensures status != RepoSuccess ==> status == RepoFailed && stats == Stats("", 0, 0, 0)
    ensures status != RepoSuccess ==>
      part == if w.prepares(from, id) then [Ensured(id, true), BackedUp(id, false)] else [Ensured(id, false)]
  {
  }

  /** After a backup snapshots are forgotten when the plan says so and there is a policy, the plan's own before
      the default one, and pruned only then and when the plan says so. */
  lemma RetentionApplied(w: World, plan: Plan, fallback: Option<int>, id: string, from: int,
                         part: seq<Event>, stats: Stats, policy: int)
    requires Segment(w, plan, fallback, id, from, part, RepoSuccess, stats)
    ensures !plan.forget || (plan.retention == None && fallback == None) ==> |part| == 2
    ensures plan.forget && (plan.retention == Some(policy) || (plan.retention == None && fallback == Some(policy))) ==>
      && |part| == (if plan.prune then 4 else 3) && part[2] == Forgot(id, policy, w.forgets(from + 2, id))
      && (plan.prune ==> part[3] == Pruned(id, w.prunes(from + 3, id)))
  {
  }

  /** Of several repositories under one id the last counts; an id without one is skipped as unknown. */
  lemma {:induction false} LastOfId(repos: seq<Repository>, id: string, k: nat)
    requires k < |repos| && repos[k].id == id && forall i :: k < i < |repos| ==> repos[i].id != id
    ensures NameOf(repos, id) == Some(repos[k].name)
  {
    var n := |repos| - 1;
    if k < n {
      assert repos[n].id != id;
      LastOfId(repos[..n], id, k);
    }
  }

  lemma {:induction false} NoneOfId(repos: seq<Repository>, id: string)
    requires forall i :: 0 <= i < |repos| ==> repos[i].id != id
    ensures NameOf(repos, id) == None
  {
    if repos != [] { NoneOfId(repos[..|repos| - 1], id); }
  }

  lemma UnknownIsSkipped(w: World, plan: Plan, fallback: Option<int>, repos: seq<Repository>, id: string, from: int,
                         part: seq<Event>, result: RepoResult)
    requires OneRepo(w, plan, fallback, repos, id, from, part, result)
    requires forall i :: 0 <= i < |repos| ==> repos[i].id != id
    ensures part == [NotFound(id)] && result == RepoResult(id, "unknown", RepoSkipped, Stats("", 0, 0, 0))
  {
    NoneOfId(repos, id);
  }

  // ---- what the hooks are told ----

  /** Totals add up, and the last snapshot wins; only successful repositories count. */
  lemma {:induction false} TotalsAddUp(a: seq<RepoResult>, b: seq<RepoResult>)
    ensures var x, y, z := Totals(a), Totals(b), Totals(a + b);
      && z.bytesAdded == x.bytesAdded + y.bytesAdded && z.filesNew == x.filesNew + y.filesNew
      && z.filesChanged == x.filesChanged + y.filesChanged
      && z.snapshotId == if y.snapshotId != "" then y.snapshotId else x.snapshotId
  {
    if b == [] {
      assert a + b == a;
    } else {
      assert (a + b)[..|a + b| - 1] == a + b[..|b| - 1];
      TotalsAddUp(a, b[..|b| - 1]);
    }
  }

  lemma TotalsOfOne(r: RepoResult)
    ensures var x, s := Totals([r]), if r.status == RepoSuccess then r.stats else Stats("", 0, 0, 0);
      x.bytesAdded == s.bytesAdded && x.filesNew == s.filesNew && x.filesChanged == s.filesChanged && x.snapshotId == s.snapshotId
  {
    assert [r][..0] == [];
  }

  /** The hooks after the backups are told the job's outcome, with an error exactly when everything failed;
      pre hooks are told nothing yet, and after an abort the failure hooks are told why. */
  lemma HooksAreTold(w: World, plan: Plan, fallback: Option<int>, repos: seq<Repository>, p: Parts, report: Report)
    requires JobRun(w, plan, fallback, repos, p, report)
    ensures forall e :: e in p.pre ==> e.HookRan? && e.ctx == Context(Unset, "", "", 0, 0, 0)
    ensures forall e :: e in p.post + p.last ==> e.HookRan? && e.ctx.status == report.status
    ensures FullRun(w, plan, fallback, repos, p, report) ==> forall e :: e in p.post + p.last ==>
      e.ctx.error == (if report.status == Failed then "all repositories failed" else "") && TellsTotals(e.ctx, report.repos)
    ensures CutShort(w, plan, p, report) ==> forall e :: e in p.last ==>
      e.ctx == Context(Failed, "pre_backup hook aborted", "", 0, 0, 0)
  {
    PhaseEvents(w, plan.hooks, PreBackup, BEFORE, 0, p.pre);
    if FullRun(w, plan, fallback, repos, p, report) {
      PhaseEvents(w, plan.hooks, PostBackup, After(report.repos), |p.pre| + |p.repos|, p.post);
      PhaseEvents(w, plan.hooks, Outcome(report.repos), After(report.repos), |p.pre| + |p.repos| + |p.post|, p.last);
    }
    if CutShort(w, plan, p, report) {
      PhaseEvents(w, plan.hooks, OnFailure, ABORTED, |p.pre|, p.last);
    }
  }

  predicate TellsTotals(ctx: Context, results: seq<RepoResult>)
  {
    var t := Totals(results);
    ctx.bytesAdded == t.bytesAdded && ctx.filesNew == t.filesNew && ctx.filesChanged == t.filesChanged && ctx.snapshotId == t.snapshotId
  }

  /** Each hook that ran is reported under its name, phase and outcome, in order, and nothing else is. */
  lemma HooksReported(a: seq<Event>, b: seq<Event>, hook: Hook, ctx: Context, failed: bool, e: Event)
    ensures HooksOf([]) == [] && HooksOf(a + b) == HooksOf(a) + HooksOf(b)
    ensures HooksOf([HookRan(hook, ctx, failed)]) == [HookResult(hook.name, hook.event, failed)]
    ensures !e.HookRan? ==> HooksOf([e]) == []
  {
    HooksConcat(a, b);
    assert [HookRan(hook, ctx, failed)][..0] == [] && [e][..0] == [];
  }
}
