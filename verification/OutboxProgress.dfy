/** How far one drain gets among other goroutines: it ends after a bounded number of steps, and its
    paging starts over exactly when a page ends in a row without an id. */
module OutboxProgress {
  import opened TextOrder
  import opened SpillStore
  import Outbox
  import opened OutboxInterleaving
  import opened OutboxPaging

  // ---- a measure of what a drain still has to do ----

  /** The rows the next pages can still bring. */
  function Rest(t: Table, c: Key): Table { if c.id == "" then t else Newer(t, c) }

  /** How far the rows of the current page reach. */
  function Reach(s: State): Key { if s.page == [] then s.cursor else KeyOf(s.page[|s.page| - 1]) }

  function Phase(j: Job): nat
  {
    match j
    case NoJob => 0
    case Delivering(_, fromSpill) => if fromSpill then 2 else 0
    case _ => 1
  }

  /** Rows above the cursor, rows left in the page, and the phase of the delivery in hand. */
  function Left(s: State): nat
  {
    Phase(s.job) + 3 * |s.page| + (if s.paging then 1 + 4 * |Rest(s.table, Reach(s))| else 0)
  }

  predicate IsDrainStep(s: State, step: Step)
  {
    step.ReadPage? || step.NextRow? || step.Abandon? || step.FinishDelete? || step.FinishRecord? ||
    (step.SendItem? && s.job.Delivering? && s.job.fromSpill)
  }

  /** The step stores a new row. */
  predicate AddsRow(s: State, step: Step)
    requires Enabled(s, step)
  {
    step.InsertItem? && !step.fault && !HasId(s.table, s.spillers[step.slot].item.id)
  }

  lemma {:induction false} WhereTwice(t: Table, p: SpillItem -> bool, q: SpillItem -> bool)
    ensures |Where(Where(t, p), q)| <= |Where(t, q)|
  {
    if t != [] {
      WhereTwice(t[1..], p, q);
      if p(t[0]) {
        WhereCons(t[0], Where(t[1..], p), q);
      } else {
        assert Where(t, p) == Where(t[1..], p);
      }
    }
  }

  lemma {:induction false} WhereInserted(t: Table, r: SpillItem, q: SpillItem -> bool)
    ensures |Where(InsertRow(t, r), q)| <= |Where(t, q)| + 1
  {
    if t == [] || Before(KeyOf(r), KeyOf(t[0])) {
      assert InsertRow(t, r) == [r] + t;
      WhereCons(r, t, q);
    } else {
      WhereCons(t[0], InsertRow(t[1..], r), q);
      WhereInserted(t[1..], r, q);
    }
  }

  lemma {:induction false} IncrementLeavesAll(t: Table, id: string, err: string, c: Key)
    ensures |Newer(Increment(t, id, err), c)| == |Newer(t, c)|
  {
    if t != [] {
      IncrementLeavesAll(t[1..], id, err, c);
    }
  }

  lemma {:induction false} SuffixLeavesLess(t: Table, k: nat, c: Key)
    requires k <= |t|
    ensures |Newer(t[k..], c)| <= |Newer(t, c)|
  {
    if k > 0 {
      SuffixLeavesLess(t[1..], k - 1, c);
      assert t[k..] == t[1..][k - 1..];
    }
  }

  lemma AfterRow(t: Table, i: nat)
    requires Ordered(t) && i < |t|
    ensures |Newer(t, KeyOf(t[i]))| == |t| - i - 1
  {
    var n := NewerIsSuffix(t, KeyOf(t[i]));
    BeforeIsStrictTotalOrder();
    BeforeIrreflexive(KeyOf(t[i]));
    assert i + 1 < |t| ==> Before(KeyOf(t[i]), KeyOf(t[i + 1]));
    assert n > i;
  }

  /** Beyond the last row of a page are the rows the page left out. */
  lemma PageTakes(t: Table, c: Key)
    requires IsTable(t) && Outbox.NamedIds(t)
    ensures var page := Page(t, Outbox.PAGE_SIZE, c);
      && (page == [] ==> Rest(t, c) == [])
      && (page != [] ==> |Rest(t, KeyOf(page[|page| - 1]))| == |Rest(t, c)| - |page|)
  {
    var page := Page(t, Outbox.PAGE_SIZE, c);
    var k := 0;
    if c.id != "" { k := NewerIsSuffix(t, c); }
    assert Rest(t, c) == t[k..];
    if page != [] {
      var last := k + |page| - 1;
      assert page[|page| - 1] == t[last];
      AfterRow(t, last);
    }
  }

  // ---- one step ----

  /** A change of the table alone, seen from any cursor. */
  lemma TableLeaves(s: State, step: Step, c: Key)
    requires step.EvictRows? || step.FinishDelete? || step.FinishRecord? || step.PruneAge? || step.PruneCount?
    requires Enabled(s, step)
    ensures |Rest(Do(s, step).table, c)| <= |Rest(s.table, c)|
  {
    match step
    case EvictRows(i, fault) =>
      if !fault { SuffixLeavesLess(s.table, Min(|s.table|, if s.spillers[i].over < 0 then 0 else s.spillers[i].over), c); }
    case FinishDelete(_) => WhereShrinks(s.table, (x: SpillItem) => x.id != s.job.id, c);
    case FinishRecord(_) =>
      IncrementShape(s.table, s.job.id, s.job.err);
      IncrementLeavesAll(s.table, s.job.id, s.job.err, c);
    case PruneAge(cutoff) => WhereShrinks(s.table, (x: SpillItem) => !Less(x.createdAt, cutoff), c);
    case PruneCount(keep) => KeepLeavesLess(s.table, keep, c);
  }

  lemma WhereShrinks(t: Table, p: SpillItem -> bool, c: Key)
    ensures |Rest(Where(t, p), c)| <= |Rest(t, c)|
  {
    WhereMembers(t, p);
    WhereTwice(t, p, (x: SpillItem) => Before(c, KeyOf(x)));
  }

  lemma KeepLeavesLess(t: Table, keep: int, c: Key)
    ensures |Rest(KeepNewest(t, keep), c)| <= |Rest(t, c)|
  {
    var k := if keep < 0 then 0 else keep;
    if |t| > k { SuffixLeavesLess(t, |t| - k, c); }
  }

  lemma InsertAddsOne(t: Table, r: SpillItem, c: Key)
    ensures |Rest(InsertRow(t, r), c)| <= |Rest(t, c)| + 1
  {
    InsertRowMembers(t, r);
    WhereInserted(t, r, (x: SpillItem) => Before(c, KeyOf(x)));
  }

  lemma InsertLeaves(s: State, step: Step)
    requires step.InsertItem? && Enabled(s, step)
    ensures Left(Do(s, step)) <= Left(s) + (if AddsRow(s, step) then 4 else 0)
  {
    if AddsRow(s, step) {
      var r := s.spillers[step.slot].item.(createdAt := step.now);
      InsertAddsOne(s.table, r, Reach(s));
    }
  }

  lemma ReadAdvances(s: State)
    requires Enabled(s, ReadPage) && Sound(s)
    ensures Left(Do(s, ReadPage)) < Left(s)
  {
    PageTakes(s.table, s.cursor);
  }

  lemma NextAdvances(s: State)
    requires Enabled(s, NextRow) && Sound(s)
    ensures Left(Do(s, NextRow)) < Left(s)
  {
    assert s.page[|s.page| - 1] in Seen(s);
  }

  lemma SendAdvances(s: State, step: Step)
    requires step.SendItem? && Enabled(s, step)
    ensures Left(Do(s, step)) + (if IsDrainStep(s, step) then 1 else 0) <= Left(s)
  {
  }

  lemma OtherLeaves(s: State, step: Step)
    requires step.SubmitMem? || step.SubmitSpill? || step.CountRows? || step.TakeMem? || step.Configure? || step.Abandon?
    requires Enabled(s, step)
    ensures Left(Do(s, step)) + (if IsDrainStep(s, step) then 1 else 0) <= Left(s)
  {
  }

  lemma TableAdvances(s: State, step: Step)
    requires step.EvictRows? || step.FinishDelete? || step.FinishRecord? || step.PruneAge? || step.PruneCount?
    requires Enabled(s, step)
    ensures Left(Do(s, step)) + (if IsDrainStep(s, step) then 1 else 0) <= Left(s)
  {
    TableLeaves(s, step, Reach(s));
    TableFrame(s, step);
  }

  lemma TableFrame(s: State, step: Step)
    requires step.EvictRows? || step.FinishDelete? || step.FinishRecord? || step.PruneAge? || step.PruneCount?
    requires Enabled(s, step)
    ensures var s' := Do(s, step);
      && s'.page == s.page && s'.cursor == s.cursor && s'.paging == s.paging
      && Phase(s'.job) + (if IsDrainStep(s, step) then 1 else 0) <= Phase(s.job)
  {
  }

  predicate Advances(s: State, step: Step)
    requires Enabled(s, step)
  {
    Left(Do(s, step)) + (if IsDrainStep(s, step) then 1 else 0) <= Left(s) + (if AddsRow(s, step) then 4 else 0)
  }

  /** Every worker step of a drain lowers what is left, and no other step raises it but an insert, by at most 4. */
  lemma StepAdvances(s: State, step: Step)
    requires Enabled(s, step) && Sound(s) && !step.StartPaging?
    ensures Advances(s, step)
  {
    match step
    case InsertItem(_, _, _) => InsertLeaves(s, step);
    case ReadPage => ReadAdvances(s);
    case NextRow => NextAdvances(s);
    case SendItem(_) => SendAdvances(s, step);
    case EvictRows(_, _) => TableAdvances(s, step);
    case FinishDelete(_) => TableAdvances(s, step);
    case FinishRecord(_) => TableAdvances(s, step);
    case PruneAge(_) => TableAdvances(s, step);
    case PruneCount(_) => TableAdvances(s, step);
    case _ => OtherLeaves(s, step);
  }

  // ---- one drain ----

  function DrainSteps(s: State, steps: seq<Step>): nat
    requires Runs(s, steps)
    decreases |steps|
  {
    if steps == [] then 0
    else (if IsDrainStep(s, steps[0]) then 1 else 0) + DrainSteps(Do(s, steps[0]), steps[1..])
  }

  function RowsAdded(s: State, steps: seq<Step>): nat
    requires Runs(s, steps)
    decreases |steps|
  {
    if steps == [] then 0
    else (if AddsRow(s, steps[0]) then 1 else 0) + RowsAdded(Do(s, steps[0]), steps[1..])
  }

  predicate OneDrain(steps: seq<Step>) { forall step :: step in steps ==> !step.StartPaging? }

  lemma {:induction false} RunAdvances(s: State, steps: seq<Step>)
    requires Sound(s) && Runs(s, steps) && OneDrain(steps)
    ensures Left(Final(s, steps)) + DrainSteps(s, steps) <= Left(s) + 4 * RowsAdded(s, steps)
    decreases |steps|
  {
    if steps != [] {
      assert steps[0] in steps && forall x :: x in steps[1..] ==> x in steps;
      StepAdvances(s, steps[0]);
      StepKeepsSound(s, steps[0]);
      RunAdvances(Do(s, steps[0]), steps[1..]);
    }
  }

  /** Whatever the other goroutines do, a drain takes at most four steps for each row that was there when
      its paging began or was added since, and one more; with no inserts it therefore ends. */
  lemma DrainIsBounded(s: State, before: seq<Step>, during: seq<Step>)
    requires Init(s) && s.steady == {} && Runs(s, before) && Enabled(Final(s, before), StartPaging)
    requires Runs(Do(Final(s, before), StartPaging), during) && OneDrain(during)
    ensures var s1 := Do(Final(s, before), StartPaging);
      DrainSteps(s1, during) <= 4 * (|s1.table| + RowsAdded(s1, during)) + 1
  {
    InitPages(s);
    RunKeepsSound(s, before);
    var s0 := Final(s, before);
    StepKeepsSound(s0, StartPaging);
    RunAdvances(Do(s0, StartPaging), during);
  }

  // ---- where paging starts over ----

  lemma StepKeepsOrder(s: State, step: Step)
    requires Enabled(s, step) && IsTable(s.table)
    ensures IsTable(Do(s, step).table)
  {
    match step
    case InsertItem(_, _, _) => InsertKeepsOrder(s, step);
    case FinishDelete(_) => WhereIsTable(s.table, (x: SpillItem) => x.id != s.job.id);
    case FinishRecord(_) => IncrementIsTable(s.table, s.job.id, s.job.err);
    case PruneAge(cutoff) => WhereIsTable(s.table, (x: SpillItem) => !Less(x.createdAt, cutoff));
    case _ =>
  }

  lemma InsertKeepsOrder(s: State, step: Step)
    requires step.InsertItem? && Enabled(s, step) && IsTable(s.table)
    ensures IsTable(Do(s, step).table)
  {
    if AddsRow(s, step) { InsertRowIsTable(s.table, s.spillers[step.slot].item.(createdAt := step.now)); }
  }

  lemma {:induction false} RunKeepsOrder(s: State, steps: seq<Step>)
    requires IsTable(s.table) && Runs(s, steps)
    ensures IsTable(Final(s, steps).table)
    decreases |steps|
  {
    if steps != [] {
      StepKeepsOrder(s, steps[0]);
      RunKeepsOrder(Do(s, steps[0]), steps[1..]);
    }
  }

  /** Nothing that moves the cursor: the row in hand is delivered, and the other goroutines go on. */
  predicate CursorStays(steps: seq<Step>)
  {
    forall step :: step in steps ==> !step.StartPaging? && !step.ReadPage? && !step.NextRow? && !step.Abandon?
  }

  lemma {:induction false} RunKeepsCursor(s: State, steps: seq<Step>)
    requires Runs(s, steps) && CursorStays(steps)
    ensures Final(s, steps).cursor == s.cursor
    decreases |steps|
  {
    if steps != [] {
      assert steps[0] in steps && forall x :: x in steps[1..] ==> x in steps;
      StepKeepsCursor(s, steps[0]);
      RunKeepsCursor(Do(s, steps[0]), steps[1..]);
    }
  }

  lemma StepKeepsCursor(s: State, step: Step)
    requires Enabled(s, step) && CursorStays([step])
    ensures Do(s, step).cursor == s.cursor
  {
    assert step in [step];
  }

  /** The page goes back to rows that are not after r. */
  predicate GoesBack(page: Table, r: SpillItem) { exists x :: x in page && !Before(KeyOf(r), KeyOf(x)) }

  lemma PageGoesBackExactly(t: Table, r: SpillItem)
    requires IsTable(t)
    ensures GoesBack(Page(t, Outbox.PAGE_SIZE, KeyOf(r)), r) <==>
      r.id == "" && t != [] && !Before(KeyOf(r), KeyOf(t[0]))
  {
    var page := Page(t, Outbox.PAGE_SIZE, KeyOf(r));
    PageIsNext(t, Outbox.PAGE_SIZE, KeyOf(r));
    BeforeIsStrictTotalOrder();
    if r.id == "" && t != [] {
      assert page[0] == t[0];
      assert forall i :: 0 < i < |page| ==> Before(KeyOf(t[0]), KeyOf(page[i]));
    }
  }

  /** Over any table, with ids or without: after the last row of a page the next page goes back to that
      row or before it exactly when the row has no id and the table still reaches back that far. */
  lemma PagingRestartsExactly(s: State, before: seq<Step>, between: seq<Step>)
    requires Opens(s) && Runs(s, before)
    requires Enabled(Final(s, before), NextRow) && |Final(s, before).page| == 1
    requires Runs(Do(Final(s, before), NextRow), between) && CursorStays(between)
    requires Enabled(Final(Do(Final(s, before), NextRow), between), ReadPage)
    ensures var r := Final(s, before).page[0];
      var t := Final(Do(Final(s, before), NextRow), between);
      GoesBack(Do(t, ReadPage).page, r) <==>
        r.id == "" && t.table != [] && !Before(KeyOf(r), KeyOf(t.table[0]))
  {
    var s0 := Final(s, before);
    RunKeepsOrder(s, before);
    StepKeepsOrder(s0, NextRow);
    RunKeepsOrder(Do(s0, NextRow), between);
    RunKeepsCursor(Do(s0, NextRow), between);
    PageGoesBackExactly(Final(Do(s0, NextRow), between).table, s0.page[0]);
  }

  /** A whole run from start-up that hands the same row out twice: one row without an id, as an upgrade
      from the older buffer table copies it. */
  lemma EmptyIdIsHandedTwice() returns (s: State, steps: seq<Step>)
    ensures Opens(s) && |s.table| == 1 && s.table[0].id == "" && Runs(s, steps)
    ensures |Final(s, steps).handed| == 2 && Final(s, steps).handed[0].id == Final(s, steps).handed[1].id == ""
  {
    var r := SpillItem("", Outbox.JOB_REPORT, "", 0, "", "t");
    s := State(1, 10, 10, [], [r], [Idle], NoJob, false, Key("", ""), [], {""}, {""}, {}, {}, {}, {}, {}, [], {});
    OneStep(s, StartPaging);
    var once := DrainOnceMore(Do(s, StartPaging), r);
    RunsConcat(s, [StartPaging], once);
    var start := [StartPaging] + once;
    ThenStep(s, start, ReadPage);
    ThenStep(s, start + [ReadPage], NextRow);
    steps := start + [ReadPage] + [NextRow];
  }

  lemma DrainOnceMore(s: State, r: SpillItem) returns (steps: seq<Step>)
    requires r.id == "" && r.attempts == 0 && s.table == [r] && s.maxAttempts > 1 && s.spillers == [Idle]
    requires s.job.NoJob? && s.paging && s.cursor.id == "" && s.page == [] && s.handed == []
    ensures Runs(s, steps)
    ensures var t := Final(s, steps);
      && |t.table| == 1 && t.table[0].id == "" && t.handed == [r] && t.cursor.id == "" && t.page == []
      && t.paging && t.job.NoJob? && t.spillers == [Idle]
  {
    var send, record := SendItem(Outbox.Failed("down")), FinishRecord(false);
    OneStep(s, ReadPage);
    var s1 := Do(s, ReadPage);
    assert s1.page == [r];
    ThenStep(s, [ReadPage], NextRow);
    var s2 := Do(s1, NextRow);
    ThenStep(s, [ReadPage] + [NextRow], send);
    var s3 := Do(s2, send);
    ThenStep(s, [ReadPage] + [NextRow] + [send], record);
    IncrementShape(s.table, "", "down");
    steps := [ReadPage] + [NextRow] + [send] + [record];
  }
}
