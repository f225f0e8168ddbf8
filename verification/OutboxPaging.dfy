/** The paged drain while other goroutines insert, evict, prune and the worker itself updates rows
    between its pages. */
module OutboxPaging {
  import opened TextOrder
  import opened SpillStore
  import Outbox
  import opened OutboxInterleaving
  import opened OutboxNoLoss

  /** The rows of this drain's pages: already handed out, then still waiting in the page. */
  function Seen(s: State): seq<SpillItem> { s.handed + s.page }

  /** A row keeps its key for as long as it exists. */
  ghost predicate SameKeys(a: seq<SpillItem>, t: Table)
  {
    forall x, y :: x in a && y in t && x.id == y.id ==> KeyOf(x) == KeyOf(y)
  }

  ghost predicate Named(a: seq<SpillItem>, stored: set<string>) { forall x :: x in a ==> x.id in stored && x.id != "" }

  ghost predicate AfterAll(a: seq<SpillItem>, k: Key) { a == [] || Before(KeyOf(a[|a| - 1]), k) }

  /** The cursor is the last row handed out; its empty id stands for "from the beginning". */
  ghost predicate CursorAtLast(s: State)
  {
    if s.handed == [] then s.cursor.id == "" else s.cursor == KeyOf(s.handed[|s.handed| - 1])
  }

  ghost predicate InOrder(a: seq<SpillItem>) { Ordered(a) && UniqueIds(a) }

  ghost predicate Paging(s: State)
  {
    && InOrder(Seen(s)) && Named(Seen(s), s.stored) && SameKeys(Seen(s), s.table)
    && (s.paging ==> CursorAtLast(s))
    && s.steady <= KeySet(s.table)
    && (s.paging ==> forall k :: k in s.steady ==> k in KeySet(Seen(s)) || AfterAll(Seen(s), k))
  }

  // ---- the table steps ----

  lemma WhereKeys(a: seq<SpillItem>, t: Table, p: SpillItem -> bool)
    requires SameKeys(a, t)
    ensures SameKeys(a, Where(t, p))
  {
    WhereMembers(t, p);
  }

  lemma IncrementKeys(a: seq<SpillItem>, t: Table, id: string, err: string)
    requires SameKeys(a, t)
    ensures SameKeys(a, Increment(t, id, err))
  {
    IncrementShape(t, id, err);
    var u := Increment(t, id, err);
    forall x, y | x in a && y in u && x.id == y.id ensures KeyOf(x) == KeyOf(y) {
      var i :| 0 <= i < |u| && u[i] == y;
      assert t[i] in t && KeyOf(t[i]) == KeyOf(y);
    }
  }

  lemma ChangeKeepsPaging(s: State, step: Step)
    requires step.EvictRows? || step.InsertItem? || step.FinishDelete? || step.FinishRecord? || step.PruneAge? || step.PruneCount?
    requires Enabled(s, step) && Separate(s) && Paging(s)
    ensures SameKeys(Seen(s), Do(s, step).table)
  {
    match step
    case EvictRows(i, _) =>
    case InsertItem(i, now, _) => InsertRowMembers(s.table, s.spillers[i].item.(createdAt := now));
    case FinishDelete(_) => WhereKeys(Seen(s), s.table, (x: SpillItem) => x.id != s.job.id);
    case FinishRecord(_) => IncrementKeys(Seen(s), s.table, s.job.id, s.job.err);
    case PruneAge(cutoff) => WhereKeys(Seen(s), s.table, (x: SpillItem) => !Less(x.createdAt, cutoff));
    case PruneCount(_) =>
  }

  /** Only the table, the steady keys and the stored ids matter to the drain; they change together. */
  lemma FramePaging(s: State, s': State)
    requires Paging(s) && s'.handed == s.handed && s'.page == s.page && s'.paging == s.paging && s'.cursor == s.cursor
    requires s.stored <= s'.stored && SameKeys(Seen(s), s'.table)
    requires s'.steady == s.steady * KeySet(s'.table)
    ensures Paging(s')
  {
  }

  // ---- the worker's steps ----

  lemma JoinInOrder(a: seq<SpillItem>, page: Table, t: Table, c: Key)
    requires InOrder(a) && IsTable(t) && InOrder(page) && SameKeys(a, t)
    requires a != [] ==> c == KeyOf(a[|a| - 1])
    requires forall x :: x in page ==> x in t && (a == [] || Before(c, KeyOf(x)))
    ensures InOrder(a + page)
  {
    BeforeIsStrictTotalOrder();
    forall i, j | 0 <= i < j < |a + page|
      ensures Before(KeyOf((a + page)[i]), KeyOf((a + page)[j])) && (a + page)[i].id != (a + page)[j].id
    {
      if i < |a| && j >= |a| {
        assert page[j - |a|] in page;
        assert i == |a| - 1 || Before(KeyOf(a[i]), KeyOf(a[|a| - 1]));
      }
    }
  }

  lemma PageInOrder(t: Table, limit: nat, c: Key)
    requires IsTable(t)
    ensures InOrder(Page(t, limit, c))
  {
    WhereIsTable(t, (x: SpillItem) => Before(c, KeyOf(x)));
  }

  /** After a page is read, every steady key was handed out, is in the page, or lies beyond it. */
  lemma PageCovers(a: seq<SpillItem>, t: Table, c: Key, k: Key)
    requires IsTable(t) && (if a == [] then c.id == "" else c == KeyOf(a[|a| - 1]) && c.id != "")
    requires k in KeySet(t) && (k in KeySet(a) || AfterAll(a, k))
    ensures var page := Page(t, Outbox.PAGE_SIZE, c);
      && (k in KeySet(a + page) || (page != [] && AfterAll(a + page, k)))
  {
    var page := Page(t, Outbox.PAGE_SIZE, c);
    PageIsNext(t, Outbox.PAGE_SIZE, c);
    if k !in KeySet(a) {
      var x :| x in t && KeyOf(x) == k;
      if x in page {
        assert x in a + page;
      } else {
        assert page[|page| - 1] in page;
        assert (a + page)[|a + page| - 1] == page[|page| - 1];
      }
    }
  }

  lemma ReadExtendsSeen(s: State)
    requires Enabled(s, ReadPage) && Paging(s) && KnownIds(s)
    ensures var seen := s.handed + Page(s.table, Outbox.PAGE_SIZE, s.cursor);
      InOrder(seen) && Named(seen, s.stored) && SameKeys(seen, s.table)
  {
    var page := Page(s.table, Outbox.PAGE_SIZE, s.cursor);
    assert Seen(s) == s.handed;
    PageIsNext(s.table, Outbox.PAGE_SIZE, s.cursor);
    PageInOrder(s.table, Outbox.PAGE_SIZE, s.cursor);
    if s.handed != [] {
      assert s.handed[|s.handed| - 1] in s.handed;
    }
    JoinInOrder(s.handed, page, s.table, s.cursor);
    PageSameKeys(s.handed, page, s.table);
  }

  lemma ReadCoversSteady(s: State, k: Key)
    requires Enabled(s, ReadPage) && Paging(s) && KnownIds(s) && k in s.steady
    ensures var page := Page(s.table, Outbox.PAGE_SIZE, s.cursor);
      && (k in KeySet(s.handed + page) || (page != [] && AfterAll(s.handed + page, k)))
  {
    assert Seen(s) == s.handed;
    if s.handed != [] {
      assert s.handed[|s.handed| - 1] in s.handed;
    }
    PageCovers(s.handed, s.table, s.cursor, k);
  }

  lemma ReadKeepsPaging(s: State)
    requires Enabled(s, ReadPage) && Paging(s) && KnownIds(s)
    ensures Paging(Do(s, ReadPage))
    ensures Page(s.table, Outbox.PAGE_SIZE, s.cursor) == [] ==> s.steady <= KeySet(s.handed)
  {
    ReadExtendsSeen(s);
    forall k | k in s.steady
      ensures var page := Page(s.table, Outbox.PAGE_SIZE, s.cursor);
        k in KeySet(s.handed + page) || (page != [] && AfterAll(s.handed + page, k))
    {
      ReadCoversSteady(s, k);
    }
    assert s.handed + [] == s.handed;
  }

  lemma PageSameKeys(a: seq<SpillItem>, page: Table, t: Table)
    requires SameKeys(a, t) && UniqueIds(t) && forall x :: x in page ==> x in t
    ensures SameKeys(a + page, t)
  {
    forall x, y | x in a + page && y in t && x.id == y.id ensures KeyOf(x) == KeyOf(y) {
      if x !in a {
        var i :| 0 <= i < |t| && t[i] == x;
        var j :| 0 <= j < |t| && t[j] == y;
        assert i == j;
      }
    }
  }

  lemma NextKeepsPaging(s: State)
    requires Enabled(s, NextRow) && Paging(s)
    ensures Paging(Do(s, NextRow)) && Seen(Do(s, NextRow)) == Seen(s)
  {
    assert Seen(Do(s, NextRow)) == Seen(s);
    assert Do(s, NextRow).handed[|s.handed|] == s.page[0];
  }

  lemma StartKeepsPaging(s: State)
    requires Enabled(s, StartPaging)
    ensures Paging(Do(s, StartPaging))
  {
  }

  lemma AbandonKeepsPaging(s: State)
    requires Enabled(s, Abandon) && Paging(s)
    ensures Paging(Do(s, Abandon))
  {
    assert forall x :: x in s.handed ==> x in Seen(s);
    assert forall i :: 0 <= i < |s.handed| ==> s.handed[i] == Seen(s)[i];
    assert s.handed + [] == s.handed;
  }

  lemma StepKeepsPaging(s: State, step: Step)
    requires Enabled(s, step) && Paging(s) && Separate(s) && KnownIds(s)
    ensures Paging(Do(s, step))
  {
    if step.EvictRows? || step.InsertItem? || step.FinishDelete? || step.FinishRecord? || step.PruneAge? || step.PruneCount? {
      ChangeKeepsPaging(s, step);
      TableStepFrame(s, step);
      FramePaging(s, Do(s, step));
    } else if step.ReadPage? {
      ReadKeepsPaging(s);
    } else if step.NextRow? {
      NextKeepsPaging(s);
    } else if step.StartPaging? {
      StartKeepsPaging(s);
    } else if step.Abandon? {
      AbandonKeepsPaging(s);
    } else {
      TableStepFrame(s, step);
      FramePaging(s, Do(s, step));
    }
  }

  lemma TableStepFrame(s: State, step: Step)
    requires !step.ReadPage? && !step.NextRow? && !step.StartPaging? && !step.Abandon?
    requires Enabled(s, step) && s.steady <= KeySet(s.table)
    ensures var s' := Do(s, step);
      && s'.handed == s.handed && s'.page == s.page && s'.paging == s.paging && s'.cursor == s.cursor
      && s.stored <= s'.stored && s'.steady == s.steady * KeySet(s'.table)
  {
  }

  lemma {:induction false} RunKeepsPaging(s: State, steps: seq<Step>)
    requires Runs(s, steps) && Paging(s) && Covered(s) && Separate(s) && KnownIds(s)
    ensures Paging(Final(s, steps)) && Separate(Final(s, steps)) && KnownIds(Final(s, steps))
    decreases |steps|
  {
    if steps != [] {
      StepKeepsCovered(s, steps[0]);
      StepKeepsSeparate(s, steps[0]);
      StepKeepsKnown(s, steps[0]);
      StepKeepsPaging(s, steps[0]);
      RunKeepsPaging(Do(s, steps[0]), steps[1..]);
    }
  }

  lemma InitPages(s: State)
    requires Init(s) && s.steady == {}
    ensures Paging(s) && Covered(s) && Separate(s) && KnownIds(s)
  {
    InitCovers(s);
  }

  /** What holds in every reachable state. */
  ghost predicate Sound(s: State) { Covered(s) && Separate(s) && KnownIds(s) && Paging(s) && Handing(s) }

  /** A row being delivered is one this drain handed out. */
  ghost predicate Handing(s: State) { s.job.Delivering? && s.job.fromSpill ==> s.job.item in s.handed }

  lemma StepKeepsHanding(s: State, step: Step)
    requires Enabled(s, step) && Handing(s)
    ensures Handing(Do(s, step))
  {
  }

  lemma StepKeepsSound(s: State, step: Step)
    requires Enabled(s, step) && Sound(s)
    ensures Sound(Do(s, step))
  {
    StepKeepsCovered(s, step);
    StepKeepsSeparate(s, step);
    StepKeepsKnown(s, step);
    StepKeepsPaging(s, step);
    StepKeepsHanding(s, step);
  }

  lemma {:induction false} RunKeepsSound(s: State, steps: seq<Step>)
    requires Sound(s) && Runs(s, steps)
    ensures Sound(Final(s, steps))
    decreases |steps|
  {
    if steps != [] {
      StepKeepsSound(s, steps[0]);
      RunKeepsSound(Do(s, steps[0]), steps[1..]);
    }
  }

  /** In every reachable state a drain has handed out its rows in strictly increasing
      (created_at, id) and no row twice, whatever happened to the table between its pages. */
  lemma HandedInOrderOnce(s: State, steps: seq<Step>)
    requires Init(s) && s.steady == {} && Runs(s, steps)
    ensures var handed := Final(s, steps).handed; Ordered(handed) && UniqueIds(handed)
  {
    InitPages(s);
    RunKeepsPaging(s, steps);
    var t := Final(s, steps);
    assert forall i :: 0 <= i < |t.handed| ==> t.handed[i] == Seen(t)[i];
  }

  /** The key is in the table in this state and after every step, all within one drain. */
  predicate ThereThroughout(s: State, steps: seq<Step>, k: Key)
    requires Runs(s, steps)
    decreases |steps|
  {
    && k in KeySet(s.table)
    && (steps != [] ==> !steps[0].StartPaging? && ThereThroughout(Do(s, steps[0]), steps[1..], k))
  }

  lemma StaysSteady(s: State, step: Step, k: Key)
    requires Enabled(s, step) && !step.StartPaging? && k in s.steady && k in KeySet(Do(s, step).table)
    ensures k in Do(s, step).steady
  {
  }

  lemma {:induction false} ThereIsSteady(s: State, steps: seq<Step>, k: Key)
    requires Runs(s, steps) && ThereThroughout(s, steps, k) && k in s.steady
    ensures k in Final(s, steps).steady
    decreases |steps|
  {
    if steps != [] {
      StaysSteady(s, steps[0], k);
      ThereIsSteady(Do(s, steps[0]), steps[1..], k);
    }
  }

  lemma DrainFromStart(s: State, during: seq<Step>, k: Key)
    requires Paging(s) && Covered(s) && Separate(s) && KnownIds(s) && k in s.steady
    requires Runs(s, during) && ThereThroughout(s, during, k) && Enabled(Final(s, during), ReadPage)
    requires Page(Final(s, during).table, Outbox.PAGE_SIZE, Final(s, during).cursor) == []
    ensures HandedExactlyOnce(Final(s, during).handed, k)
  {
    RunKeepsPaging(s, during);
    ThereIsSteady(s, during, k);
    var t := Final(s, during);
    ReadKeepsPaging(t);
    assert Seen(t) == t.handed;
    OnceInOrder(t.handed, k);
  }

  ghost predicate HandedExactlyOnce(handed: seq<SpillItem>, k: Key)
  {
    exists i :: 0 <= i < |handed| && KeyOf(handed[i]) == k
      && forall j :: 0 <= j < |handed| && KeyOf(handed[j]) == k ==> j == i
  }

  lemma OnceInOrder(handed: seq<SpillItem>, k: Key)
    requires Ordered(handed) && k in KeySet(handed)
    ensures HandedExactlyOnce(handed, k)
  {
    var x :| x in handed && KeyOf(x) == k;
    var i :| 0 <= i < |handed| && handed[i] == x;
    BeforeIrreflexive(k);
  }

  /** A drain that runs to an empty page has handed out, exactly once, every row that was in the
      table from the start of its paging to the end. */
  lemma DrainHandsOutEverything(s: State, before: seq<Step>, during: seq<Step>, k: Key)
    requires Init(s) && s.steady == {} && Runs(s, before) && Enabled(Final(s, before), StartPaging)
    requires var s1 := Do(Final(s, before), StartPaging);
      && Runs(s1, during) && ThereThroughout(s1, during, k)
      && Enabled(Final(s1, during), ReadPage)
      && Page(Final(s1, during).table, Outbox.PAGE_SIZE, Final(s1, during).cursor) == []
    ensures HandedExactlyOnce(Final(Do(Final(s, before), StartPaging), during).handed, k)
  {
    InitPages(s);
    RunKeepsPaging(s, before);
    RunCovers(s, before);
    var s0 := Final(s, before);
    StepKeepsCovered(s0, StartPaging);
    StepKeepsSeparate(s0, StartPaging);
    StepKeepsKnown(s0, StartPaging);
    StartKeepsPaging(s0);
    DrainFromStart(Do(s0, StartPaging), during, k);
  }
}
