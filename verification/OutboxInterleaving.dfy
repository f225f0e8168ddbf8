/** The outbox under concurrency. Submitters, the worker and the pruner interleave one SQL
    statement, one channel operation or one RPC at a time; any statement may fail. */
module OutboxInterleaving {
  import opened TextOrder
  import opened SpillStore
  import Outbox

  /** A goroutine inside the count / evict / insert sequence. Slot 0 belongs to the worker's
      spillWithEviction, which carries on after a failed count or evict; the others to submit,
      which gives the item back. */
  datatype Spiller =
    | Idle
    | Counting(item: SpillItem, cap: int)
    | Evicting(item: SpillItem, over: int)
    | Inserting(item: SpillItem)

  /** What the worker is in the middle of. */
  datatype Job =
    | NoJob
    | Delivering(item: SpillItem, fromSpill: bool)
    | Deleting(id: string)
    | Recording(id: string, err: string)

  datatype State = State(
    memMax: nat, cap: int, maxAttempts: int,
    mem: seq<SpillItem>, table: Table,
    spillers: seq<Spiller>, job: Job,
    paging: bool, cursor: Key, page: Table,
    // history, for stating what happened
    submitted: set<string>, stored: set<string>,
    acked: set<string>, evicted: set<string>, pruned: set<string>, dropped: set<string>, refused: set<string>,
    handed: seq<SpillItem>,   // rows the current drain gave to deliver
    steady: set<Key>)         // keys in the table in every state since the current drain began paging

  datatype Step =
    | SubmitMem(item: SpillItem)
    | SubmitSpill(slot: nat, item: SpillItem)
    | CountRows(slot: nat, fault: bool)
    | EvictRows(slot: nat, fault: bool)
    | InsertItem(slot: nat, now: string, fault: bool)
    | TakeMem
    | StartPaging
    | ReadPage
    | NextRow
    | Abandon
    | SendItem(outcome: Outbox.Outcome)
    | FinishDelete(fault: bool)
    | FinishRecord(fault: bool)
    | PruneAge(cutoff: string)
    | PruneCount(keep: int)
    | Configure(cap: int, maxAttempts: int)

  function IdSet(t: seq<SpillItem>): set<string> { set x | x in t :: x.id }
  function KeySet(t: seq<SpillItem>): set<Key> { set x | x in t :: KeyOf(x) }

  predicate WorkerFree(s: State) { s.job.NoJob? && |s.spillers| > 0 && s.spillers[0].Idle? }

  predicate FreshItem(s: State, item: SpillItem) { item.id != "" && item.id !in s.submitted }

  predicate Enabled(s: State, step: Step)
  {
    match step
    case SubmitMem(item) => FreshItem(s, item) && |s.mem| < s.memMax
    case SubmitSpill(i, item) => FreshItem(s, item) && |s.mem| >= s.memMax && 0 < i < |s.spillers| && s.spillers[i].Idle?
    case CountRows(i, _) => i < |s.spillers| && s.spillers[i].Counting?
    case EvictRows(i, _) => i < |s.spillers| && s.spillers[i].Evicting?
    case InsertItem(i, _, _) => i < |s.spillers| && s.spillers[i].Inserting?
    case TakeMem => WorkerFree(s) && !s.paging && s.mem != []
    case StartPaging => WorkerFree(s) && !s.paging && s.mem == []
    case ReadPage => WorkerFree(s) && s.paging && s.page == []
    case NextRow => WorkerFree(s) && s.paging && s.page != []
    case Abandon => WorkerFree(s) && s.paging
    case SendItem(_) => s.job.Delivering? && |s.spillers| > 0 && s.spillers[0].Idle?
    case FinishDelete(_) => s.job.Deleting?
    case FinishRecord(_) => s.job.Recording?
    case PruneAge(_) => true
    case PruneCount(_) => true
    case Configure(cap, maxAttempts) => cap > 0 && maxAttempts > 0
  }

  /** Replace the table, keeping track of which keys were there all along. */
  function SetTable(s: State, t: Table): State
  {
    s.(table := t, steady := s.steady * KeySet(t))
  }

  function SetSpiller(s: State, i: nat, p: Spiller): State
    requires i < |s.spillers|
  {
    s.(spillers := s.spillers[i := p])
  }

  /** A failed statement: submit returns an error, spillWithEviction goes on to the insert. */
  function GiveUp(s: State, i: nat, item: SpillItem): State
    requires i < |s.spillers|
  {
    if i == 0 then SetSpiller(s, i, Inserting(item))
    else SetSpiller(s, i, Idle).(refused := s.refused + {item.id})
  }

  function Attempt(s: State, item: SpillItem, fromSpill: bool, outcome: Outbox.Outcome): State
    requires |s.spillers| > 0
  {
    if item.attempts >= s.maxAttempts then
      s.(dropped := s.dropped + {item.id}, job := if fromSpill then Deleting(item.id) else NoJob)
    else match outcome
      case Acked => s.(acked := s.acked + {item.id}, job := if fromSpill then Deleting(item.id) else NoJob)
      case Canceled => if fromSpill then s.(job := NoJob) else SetSpiller(s.(job := NoJob), 0, Counting(item, s.cap))
      case Failed(e) =>
        if fromSpill then s.(job := Recording(item.id, e))
        else SetSpiller(s.(job := NoJob), 0, Counting(item.(attempts := item.attempts + 1, lastError := e), s.cap))
  }

  function Do(s: State, step: Step): State
    requires Enabled(s, step)
  {
    match step
    case SubmitMem(item) => s.(mem := s.mem + [item], submitted := s.submitted + {item.id})
    case SubmitSpill(i, item) => SetSpiller(s, i, Counting(item, s.cap)).(submitted := s.submitted + {item.id})
    case CountRows(i, fault) =>
      var p := s.spillers[i];
      if fault then GiveUp(s, i, p.item)
      else if |s.table| >= p.cap then SetSpiller(s, i, Evicting(p.item, |s.table| - p.cap + 1))
      else SetSpiller(s, i, Inserting(p.item))
    case EvictRows(i, fault) =>
      var p := s.spillers[i];
      if fault then GiveUp(s, i, p.item)
      else
        var kept := DropOldest(s.table, p.over);
        SetTable(SetSpiller(s, i, Inserting(p.item)), kept).(evicted := s.evicted + (IdSet(s.table) - IdSet(kept)))
    case InsertItem(i, now, fault) =>
      var item := s.spillers[i].item;
      var s1 := SetSpiller(s, i, Idle);
      if fault || HasId(s.table, item.id) then s1.(refused := s.refused + {item.id})
      else SetTable(s1, InsertRow(s.table, item.(createdAt := now))).(stored := s.stored + {item.id})
    case TakeMem => s.(job := Delivering(s.mem[0], false), mem := s.mem[1..])
    case StartPaging => s.(paging := true, cursor := Key("", ""), page := [], handed := [], steady := KeySet(s.table))
    case ReadPage =>
      var page := Page(s.table, Outbox.PAGE_SIZE, s.cursor);
      s.(page := page, paging := page != [])
    case NextRow =>
      var r := s.page[0];
      s.(job := Delivering(r, true), cursor := KeyOf(r), page := s.page[1..], handed := s.handed + [r])
    case Abandon => s.(paging := false, page := [])
    case SendItem(outcome) => Attempt(s, s.job.item, s.job.fromSpill, outcome)
    case FinishDelete(fault) => SetTable(s, if fault then s.table else Delete(s.table, s.job.id)).(job := NoJob)
    case FinishRecord(fault) =>
      SetTable(s, if fault then s.table else Increment(s.table, s.job.id, s.job.err)).(job := NoJob)
    case PruneAge(cutoff) => Prune(s, PruneOlder(s.table, cutoff))
    case PruneCount(keep) => Prune(s, KeepNewest(s.table, keep))
    case Configure(cap, maxAttempts) => s.(cap := cap, maxAttempts := maxAttempts)
  }

  function Prune(s: State, kept: Table): State
  {
    SetTable(s, kept).(pruned := s.pruned + (IdSet(s.table) - IdSet(kept)))
  }

  // ---- runs ----

  /** Nothing has happened yet over the rows on disk. */
  ghost predicate Opens(s: State)
  {
    && s.cap > 0 && s.maxAttempts > 0 && s.memMax > 0
    && s.mem == [] && IsTable(s.table)
    && |s.spillers| > 0 && (forall i :: 0 <= i < |s.spillers| ==> s.spillers[i].Idle?)
    && s.job.NoJob? && !s.paging && s.page == [] && s.handed == []
    && s.submitted == s.stored == IdSet(s.table)
    && s.acked == s.evicted == s.pruned == s.dropped == s.refused == {}
  }

  ghost predicate Init(s: State) { Opens(s) && Outbox.NamedIds(s.table) }

  predicate Runs(s: State, steps: seq<Step>)
    decreases |steps|
  {
    steps == [] || (Enabled(s, steps[0]) && Runs(Do(s, steps[0]), steps[1..]))
  }

  function Final(s: State, steps: seq<Step>): State
    requires Runs(s, steps)
    decreases |steps|
  {
    if steps == [] then s else Final(Do(s, steps[0]), steps[1..])
  }

  /** What the steps of a run add up to. */
  function Count(s: State, steps: seq<Step>, f: (State, Step) -> nat): nat
    requires Runs(s, steps)
    decreases |steps|
  {
    if steps == [] then 0 else f(s, steps[0]) + Count(Do(s, steps[0]), steps[1..], f)
  }

  predicate Faulty(step: Step)
  {
    match step
    case CountRows(_, fault) => fault
    case EvictRows(_, fault) => fault
    case InsertItem(_, _, fault) => fault
    case FinishDelete(fault) => fault
    case FinishRecord(fault) => fault
    case _ => false
  }

  // ---- the row bound ----

  function Ready(ps: seq<Spiller>): nat
  {
    if ps == [] then 0 else (if ps[0].Inserting? then 1 else 0) + Ready(ps[1..])
  }

  lemma {:induction false} ReadyUpdate(ps: seq<Spiller>, i: nat, p: Spiller)
    requires i < |ps|
    ensures Ready(ps[i := p]) == Ready(ps) - (if ps[i].Inserting? then 1 else 0) + (if p.Inserting? then 1 else 0)
    ensures Ready(ps) <= |ps| && (!ps[i].Inserting? ==> Ready(ps) < |ps|)
  {
    if i == 0 {
      assert ps[i := p][1..] == ps[1..];
      ReadyAtMost(ps[1..]);
    } else {
      assert ps[i := p][1..] == ps[1..][i - 1 := p];
      ReadyUpdate(ps[1..], i - 1, p);
    }
  }

  lemma {:induction false} ReadyAtMost(ps: seq<Spiller>)
    ensures Ready(ps) <= |ps|
    ensures (forall i :: 0 <= i < |ps| ==> !ps[i].Inserting?) ==> Ready(ps) == 0
  {
    if ps != [] {
      ReadyAtMost(ps[1..]);
    }
  }

  /** Rows plus spillers about to insert never exceed the cap by more than the other spillers. */
  ghost predicate Bounded(s: State, c: nat)
  {
    && 0 < s.cap <= c
    && (forall i :: 0 <= i < |s.spillers| && s.spillers[i].Counting? ==> s.spillers[i].cap <= c)
    && (forall i :: 0 <= i < |s.spillers| && s.spillers[i].Evicting? ==> s.spillers[i].over > 0)
    && |s.table| + Ready(s.spillers) <= c - 1 + |s.spillers|
  }

  function Weight(p: Spiller): nat { if p.Inserting? then 1 else 0 }

  /** A spiller's move keeps the bound if it adds no row-or-claim, or leaves the table below the cap. */
  lemma SpillerKeepsBound(s: State, i: nat, p: Spiller, s': State, c: nat)
    requires Bounded(s, c) && i < |s.spillers| && s'.spillers == s.spillers[i := p] && s'.cap == s.cap
    requires (p.Counting? ==> p.cap <= c) && (p.Evicting? ==> p.over > 0)
    requires |s'.table| + Weight(p) <= |s.table| + Weight(s.spillers[i]) || |s'.table| < c
    ensures Bounded(s', c)
  {
    ReadyUpdate(s.spillers, i, p);
    ReadyAtMost(s'.spillers);
  }

  lemma AttemptKeepsBound(s: State, outcome: Outbox.Outcome, c: nat)
    requires Enabled(s, SendItem(outcome)) && Bounded(s, c)
    ensures Bounded(Do(s, SendItem(outcome)), c) && |Do(s, SendItem(outcome)).spillers| == |s.spillers|
  {
    var s' := Do(s, SendItem(outcome));
    if s'.spillers != s.spillers {
      SpillerKeepsBound(s, 0, s'.spillers[0], s', c);
    }
  }

  lemma TableStepKeepsBound(s: State, step: Step, c: nat)
    requires step.FinishDelete? || step.FinishRecord? || step.PruneAge? || step.PruneCount?
    requires Enabled(s, step) && Bounded(s, c)
    ensures Bounded(Do(s, step), c) && |Do(s, step).spillers| == |s.spillers|
  {
    match step
    case FinishDelete(_) => WhereMembers(s.table, (x: SpillItem) => x.id != s.job.id);
    case FinishRecord(_) => IncrementShape(s.table, s.job.id, s.job.err);
    case PruneAge(cutoff) => WhereMembers(s.table, (x: SpillItem) => !Less(x.createdAt, cutoff));
    case PruneCount(_) =>
  }

  predicate IsSpillerStep(step: Step) { step.SubmitSpill? || step.CountRows? || step.EvictRows? || step.InsertItem? }

  lemma SpillerStepKeepsBound(s: State, step: Step, c: nat)
    requires IsSpillerStep(step) && Enabled(s, step) && !Faulty(step) && Bounded(s, c)
    ensures Bounded(Do(s, step), c) && |Do(s, step).spillers| == |s.spillers|
  {
    var s' := Do(s, step);
    if step.InsertItem? { InsertRowMembers(s.table, s.spillers[step.slot].item.(createdAt := step.now)); }
    SpillerKeepsBound(s, step.slot, s'.spillers[step.slot], s', c);
  }

  lemma WorkerStepKeepsBound(s: State, step: Step, c: nat)
    requires step.TakeMem? || step.StartPaging? || step.ReadPage? || step.NextRow? || step.Abandon? || step.SubmitMem? || step.Configure?
    requires Enabled(s, step) && Bounded(s, c) && (step.Configure? ==> step.cap <= c)
    ensures Bounded(Do(s, step), c) && |Do(s, step).spillers| == |s.spillers|
  {
  }

  lemma StepKeepsBound(s: State, step: Step, c: nat)
    requires Enabled(s, step) && !Faulty(step) && Bounded(s, c) && (step.Configure? ==> step.cap <= c)
    ensures Bounded(Do(s, step), c) && |Do(s, step).spillers| == |s.spillers|
  {
    if IsSpillerStep(step) {
      SpillerStepKeepsBound(s, step, c);
    } else if step.FinishDelete? || step.FinishRecord? || step.PruneAge? || step.PruneCount? {
      TableStepKeepsBound(s, step, c);
    } else if step.SendItem? {
      AttemptKeepsBound(s, step.outcome, c);
    } else {
      WorkerStepKeepsBound(s, step, c);
    }
  }

  lemma {:induction false} RunKeepsBound(s: State, steps: seq<Step>, c: nat)
    requires Runs(s, steps) && Bounded(s, c)
    requires forall step :: step in steps ==> !Faulty(step) && (step.Configure? ==> step.cap <= c)
    ensures Bounded(Final(s, steps), c) && |Final(s, steps).spillers| == |s.spillers|
    decreases |steps|
  {
    if steps != [] {
      assert steps[0] in steps && forall x :: x in steps[1..] ==> x in steps;
      StepKeepsBound(s, steps[0], c);
      RunKeepsBound(Do(s, steps[0]), steps[1..], c);
    }
  }

  /** With N goroutines able to spill and no database faults, the table never holds more than
      C + N - 1 rows, where C bounds every configured cap; with N = 1 that is the cap. */
  lemma SpillNeverExceeds(s: State, steps: seq<Step>, c: nat)
    requires Init(s) && s.cap <= c && |s.table| <= c && Runs(s, steps)
    requires forall step :: step in steps ==> !Faulty(step) && (step.Configure? ==> step.cap <= c)
    ensures |Final(s, steps).table| <= c + |s.spillers| - 1
  {
    ReadyAtMost(s.spillers);
    RunKeepsBound(s, steps, c);
  }

  // ---- the bound is attained ----

  lemma {:induction false} RunsConcat(s: State, a: seq<Step>, b: seq<Step>)
    requires Runs(s, a) && Runs(Final(s, a), b)
    ensures Runs(s, a + b) && Final(s, a + b) == Final(Final(s, a), b)
    decreases |a|
  {
    if a == [] {
      assert a + b == b;
    } else {
      assert (a + b)[1..] == a[1..] + b;
      RunsConcat(Do(s, a[0]), a[1..], b);
    }
  }

  lemma OneStep(s: State, step: Step)
    requires Enabled(s, step)
    ensures Runs(s, [step]) && Final(s, [step]) == Do(s, step)
  {
    assert [step][1..] == [];
    assert Runs(Do(s, step), []);
  }

  /** A run extended by one step. */
  lemma ThenStep(s: State, a: seq<Step>, step: Step)
    requires Runs(s, a) && Enabled(Final(s, a), step)
    ensures Runs(s, a + [step]) && Final(s, a + [step]) == Do(Final(s, a), step)
  {
    OneStep(Final(s, a), step);
    RunsConcat(s, a, [step]);
  }

  lemma {:induction false} CountConcat(s: State, a: seq<Step>, b: seq<Step>, f: (State, Step) -> nat)
    requires Runs(s, a) && Runs(Final(s, a), b)
    ensures Runs(s, a + b) && Count(s, a + b, f) == Count(s, a, f) + Count(Final(s, a), b, f)
    decreases |a|
  {
    RunsConcat(s, a, b);
    if a == [] {
      assert a + b == b;
    } else {
      assert (a + b)[1..] == a[1..] + b;
      CountConcat(Do(s, a[0]), a[1..], b, f);
    }
  }

  lemma CountThen(s: State, a: seq<Step>, step: Step, f: (State, Step) -> nat)
    requires Runs(s, a) && Enabled(Final(s, a), step)
    ensures Runs(s, a + [step]) && Final(s, a + [step]) == Do(Final(s, a), step)
    ensures Count(s, a + [step], f) == Count(s, a, f) + f(Final(s, a), step)
  {
    ThenStep(s, a, step);
    OneStep(Final(s, a), step);
    CountConcat(s, a, [step], f);
    assert [step][1..] == [];
    assert Count(Do(Final(s, a), step), [], f) == 0;
  }

  function Tag(n: nat): (t: string)
    ensures |t| == n
  {
    seq(n, _ => 'a')
  }

  function TagItem(n: nat): SpillItem { SpillItem(Tag(n), Outbox.JOB_REPORT, "", 0, "", "") }

  lemma {:induction false} TagsIncrease(m: nat, n: nat)
    requires m < n
    ensures Less(Tag(m), Tag(n))
  {
    if m > 0 {
      assert Tag(m)[1..] == Tag(m - 1) && Tag(n)[1..] == Tag(n - 1);
      TagsIncrease(m - 1, n - 1);
    }
  }

  function TagTable(n: nat): Table { seq(n, i requires 0 <= i < n => TagItem(i + 1)) }

  lemma TagTableIsTable(n: nat)
    ensures IsTable(TagTable(n)) && Outbox.NamedIds(TagTable(n)) && |TagTable(n)| == n
    ensures forall x :: x in TagTable(n) ==> |x.id| <= n
  {
    forall i, j | 0 <= i < j < n
      ensures Before(KeyOf(TagTable(n)[i]), KeyOf(TagTable(n)[j])) && TagTable(n)[i].id != TagTable(n)[j].id
    {
      TagsIncrease(i + 1, j + 1);
      LessIrreflexive(Tag(j + 1));
    }
  }

  /** Submitters 1 to k - 1 are about to count, the rest are idle, and memory is full. */
  ghost predicate Submitting(s: State, k: nat, c: nat)
  {
    && 0 < k <= |s.spillers| && s.cap == c > 0 && s.memMax == 1 && |s.mem| == 1
    && s.job == Delivering(TagItem(c), false) && s.maxAttempts > 0
    && s.spillers[0].Idle? && (forall i :: k <= i < |s.spillers| ==> s.spillers[i].Idle?)
    && (forall i :: 1 <= i < k ==> s.spillers[i] == Counting(TagItem(c + i), c))
    && (forall id :: id in s.submitted ==> |id| < c + k || |id| == c + |s.spillers|)
    && |s.table| == c - 1 && forall x :: x in s.table ==> |x.id| < c
  }

  /** Spillers below k are ready to insert, the rest about to count; the table is one below its cap. */
  ghost predicate CountingFrom(s: State, k: nat, c: nat)
  {
    && k <= |s.spillers| && c > 0
    && (forall i :: 0 <= i < k ==> s.spillers[i].Inserting? && |s.spillers[i].item.id| == c + i)
    && (forall i :: k <= i < |s.spillers| ==>
          s.spillers[i].Counting? && s.spillers[i].cap == c && |s.spillers[i].item.id| == c + i)
    && |s.table| == c - 1 && forall x :: x in s.table ==> |x.id| < c
  }

  /** Spillers below k have inserted; the rest are ready to. */
  ghost predicate InsertingFrom(s: State, k: nat, c: nat)
  {
    && k <= |s.spillers|
    && (forall i :: k <= i < |s.spillers| ==> s.spillers[i].Inserting? && |s.spillers[i].item.id| == c + i)
    && |s.table| == c - 1 + k && forall x :: x in s.table ==> |x.id| < c + k
  }

  ghost predicate Faultless(steps: seq<Step>) { forall step :: step in steps ==> !Faulty(step) && !step.Configure? }

  lemma {:induction false} AllSubmit(s: State, k: nat, c: nat) returns (steps: seq<Step>)
    requires Submitting(s, k, c)
    ensures Runs(s, steps) && Faultless(steps) && Submitting(Final(s, steps), |s.spillers|, c)
    ensures |Final(s, steps).spillers| == |s.spillers|
    decreases |s.spillers| - k
  {
    if k == |s.spillers| {
      steps := [];
    } else {
      var step := SubmitSpill(k, TagItem(c + k));
      var rest := AllSubmit(Do(s, step), k + 1, c);
      steps := [step] + rest;
      assert steps[1..] == rest;
    }
  }

  lemma {:induction false} AllCount(s: State, k: nat, c: nat) returns (steps: seq<Step>)
    requires CountingFrom(s, k, c)
    ensures Runs(s, steps) && Faultless(steps) && CountingFrom(Final(s, steps), |s.spillers|, c)
    ensures |Final(s, steps).spillers| == |s.spillers|
    decreases |s.spillers| - k
  {
    if k == |s.spillers| {
      steps := [];
    } else {
      var rest := AllCount(Do(s, CountRows(k, false)), k + 1, c);
      steps := [CountRows(k, false)] + rest;
      assert steps[1..] == rest;
    }
  }

  lemma {:induction false} AllInsert(s: State, k: nat, c: nat) returns (steps: seq<Step>)
    requires InsertingFrom(s, k, c) && c > 0
    ensures Runs(s, steps) && Faultless(steps) && |Final(s, steps).table| == c - 1 + |s.spillers|
    decreases |s.spillers| - k
  {
    if k == |s.spillers| {
      steps := [];
    } else {
      var item := s.spillers[k].item;
      assert !HasId(s.table, item.id);
      InsertRowMembers(s.table, item.(createdAt := ""));
      var rest := AllInsert(Do(s, InsertItem(k, "", false)), k + 1, c);
      steps := [InsertItem(k, "", false)] + rest;
      assert steps[1..] == rest;
    }
  }

  lemma {:induction false} OpenAndSubmit(n: nat, c: nat) returns (s: State, steps: seq<Step>)
    requires n > 0 && c > 0
    ensures Init(s) && s.cap == c && |s.table| < c && |s.spillers| == n
    ensures Runs(s, steps) && Faultless(steps) && Submitting(Final(s, steps), 1, c) && |Final(s, steps).spillers| == n
  {
    TagTableIsTable(c - 1);
    var t := TagTable(c - 1);
    s := State(1, c, 1, [], t, seq(n, _ => Idle), NoJob, false, Key("", ""), [],
               IdSet(t), IdSet(t), {}, {}, {}, {}, {}, [], {});
    var a, b, d := SubmitMem(TagItem(c)), TakeMem, SubmitMem(TagItem(c + n));
    OneStep(s, a);
    ThenStep(s, [a], b);
    var s2 := Do(Do(s, a), b);
    assert Enabled(s2, d);
    ThenStep(s, [a] + [b], d);
    steps := [a] + [b] + [d];
  }

  /** After the submitters, the worker's own send fails: now every spiller is about to count. */
  lemma WorkerJoins(s: State, c: nat) returns (step: Step)
    requires Submitting(s, |s.spillers|, c)
    ensures Enabled(s, step) && !Faulty(step) && !step.Configure?
    ensures CountingFrom(Do(s, step), 0, c) && |Do(s, step).spillers| == |s.spillers|
  {
    step := SendItem(Outbox.Failed("down"));
  }

  lemma AllAboutToCount(n: nat, c: nat) returns (s: State, steps: seq<Step>)
    requires n > 0 && c > 0
    ensures Init(s) && s.cap == c && |s.table| <= c && |s.spillers| == n && Runs(s, steps) && Faultless(steps)
    ensures CountingFrom(Final(s, steps), 0, c) && |Final(s, steps).spillers| == n
  {
    s, steps := OpenAndSubmit(n, c);
    var submits := AllSubmit(Final(s, steps), 1, c);
    RunsConcat(s, steps, submits);
    steps := steps + submits;
    var send := WorkerJoins(Final(s, steps), c);
    ThenStep(s, steps, send);
    steps := steps + [send];
  }

  /** For every cap and every number of spillers there is a fault-free run that reaches C + N - 1 rows. */
  lemma SpillReachesBound(n: nat, c: nat) returns (s: State, steps: seq<Step>)
    requires n > 0 && c > 0
    ensures Init(s) && s.cap == c && |s.table| <= c && |s.spillers| == n && Runs(s, steps) && Faultless(steps)
    ensures |Final(s, steps).table| == c + n - 1
  {
    s, steps := AllAboutToCount(n, c);
    var counts := AllCount(Final(s, steps), 0, c);
    RunsConcat(s, steps, counts);
    steps := steps + counts;
    var inserts := AllInsert(Final(s, steps), 0, c);
    RunsConcat(s, steps, inserts);
    steps := steps + inserts;
  }
}
