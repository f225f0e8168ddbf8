/** What a whole drain does: the paged loop is one pass over a snapshot, repeated drains empty
    the outbox, and spilling into a full table keeps a sliding window. */
module OutboxDrain {
  import opened Common
  import opened TextOrder
  import opened SpillStore
  import opened OutboxConfig
  import opened Outbox
  import opened OutboxLedger

  ghost predicate Uncanceled(w: World) { forall n :: !w.canceled(n) }

  /** The sender answers yes or no; a canceled RPC belongs to shutdown. */
  ghost predicate Decisive(w: World) { forall n, item :: !w.send(n, item).Canceled? }

  /** The simple form: deliver these rows, in order, once each. */
  function OnePass(w: World, b: Box, todo: Table): Box
    decreases |todo|
  {
    if todo == [] then b else OnePass(w, Deliver(w, b, todo[0], true), todo[1..])
  }

  /** Equal but for how many statements and cancellation checks were made. */
  predicate Same(a: Box, b: Box)
  {
    a.(stmts := b.stmts, checks := b.checks) == b
  }

  lemma DeliverSame(w: World, a: Box, b: Box, item: SpillItem)
    requires FaultFree(w) && Same(a, b)
    ensures Same(Deliver(w, a, item, true), Deliver(w, b, item, true))
  {
  }

  lemma {:induction false} PassSame(w: World, a: Box, b: Box, todo: Table)
    requires FaultFree(w) && Same(a, b)
    ensures Same(OnePass(w, a, todo), OnePass(w, b, todo))
    decreases |todo|
  {
    if todo != [] {
      DeliverSame(w, a, b, todo[0]);
      PassSame(w, Deliver(w, a, todo[0], true), Deliver(w, b, todo[0], true), todo[1..]);
    }
  }

  lemma {:induction false} PassConcat(w: World, b: Box, p: Table, q: Table)
    ensures OnePass(w, b, p + q) == OnePass(w, OnePass(w, b, p), q)
    decreases |p|
  {
    if p == [] {
      assert p + q == q;
    } else {
      assert (p + q)[1..] == p[1..] + q;
      PassConcat(w, Deliver(w, b, p[0], true), p[1..], q);
    }
  }

  /** A page that was delivered to its end: one pass over it, the cursor on its last row. */
  predicate PassedOver(w: World, b: Box, page: Table, cursor: Key, r: (Box, Key, bool))
  {
    !r.2 && Same(r.0, OnePass(w, b, page)) && r.1 == if page == [] then cursor else KeyOf(page[|page| - 1])
  }

  lemma {:induction false} PageIsPass(w: World, b: Box, page: Table, cursor: Key)
    requires FaultFree(w) && Uncanceled(w)
    ensures PassedOver(w, b, page, cursor, DrainPage(w, b, page, cursor))
    decreases |page|
  {
    if page != [] {
      var b1 := b.(checks := b.checks + 1);
      PageIsPass(w, Deliver(w, b1, page[0], true), page[1..], KeyOf(page[0]));
      DeliverSame(w, b1, b, page[0]);
      PassSame(w, Deliver(w, b1, page[0], true), Deliver(w, b, page[0], true), page[1..]);
    }
  }

  /** What is left of a row after one delivery: nothing, the same row, or one more attempt counted. */
  ghost predicate Residue(mid: Table, r: SpillItem)
  {
    || mid == []
    || (|mid| == 1 && KeyOf(mid[0]) == KeyOf(r) && r.attempts <= mid[0].attempts <= r.attempts + 1)
  }

  lemma DeleteMiddle(done: Table, r: SpillItem, q: Table)
    requires UniqueIds(done + [r] + q)
    ensures Delete(done + [r] + q, r.id) == done + q
  {
    var t := done + [r] + q;
    var p := (x: SpillItem) => x.id != r.id;
    assert t[|done|] == r;
    forall x | x in done ensures p(x) {
      var i :| 0 <= i < |done| && done[i] == x;
      assert t[i] == x;
    }
    forall x | x in q ensures p(x) {
      var i :| 0 <= i < |q| && q[i] == x;
      assert t[|done| + 1 + i] == x;
    }
    WhereConcat(done + [r], q, p);
    WhereConcat(done, [r], p);
    WhereMembers(done, p);
    WhereMembers(q, p);
    WhereMembers([r], p);
  }

  lemma IncrementMiddle(done: Table, r: SpillItem, q: Table, err: string)
    requires UniqueIds(done + [r] + q)
    ensures Increment(done + [r] + q, r.id, err) == done + [r.(attempts := r.attempts + 1, lastError := err)] + q
  {
    var t := done + [r] + q;
    assert t[|done|] == r;
    IncrementShape(t, r.id, err);
  }

  /** Delivering the row after `done` touches nothing else in the table. */
  lemma DeliverHead(w: World, b: Box, done: Table, r: SpillItem, q: Table) returns (mid: Table)
    requires b.rows == done + [r] + q && IsTable(b.rows)
    ensures Deliver(w, b, r, true).rows == done + mid + q && Residue(mid, r)
    ensures FaultFree(w) && Decisive(w) ==>
      mid == [] || (r.attempts < b.cfg.maxAttempts && mid[0].attempts == r.attempts + 1)
  {
    DeliverSpillRows(w, b, r);
    DeleteMiddle(done, r, q);
    var outcome := Send(w, b, r);
    if Deliver(w, b, r, true).rows == Delete(b.rows, r.id) {
      mid := [];
      assert done + mid == done;
    } else if outcome.Failed? && Deliver(w, b, r, true).rows == Increment(b.rows, r.id, outcome.error) {
      IncrementMiddle(done, r, q, outcome.error);
      mid := [r.(attempts := r.attempts + 1, lastError := outcome.error)];
    } else {
      mid := [r];
    }
  }

  lemma ResidueKeys(done: Table, r: SpillItem, mid: Table, rest: Table, done': Table)
    requires Residue(mid, r) && KeysWithin(done', done + mid + rest)
    ensures KeysWithin(done', done + ([r] + rest))
  {
    forall x | x in done' ensures exists y :: y in done + ([r] + rest) && KeyOf(y) == KeyOf(x) {
      var y :| y in done + mid + rest && KeyOf(y) == KeyOf(x);
      if y in mid {
        assert r in done + ([r] + rest) && KeyOf(r) == KeyOf(x);
      } else {
        assert y in done + ([r] + rest);
      }
    }
  }

  lemma Regroup(done: Table, todo: Table, q: Table)
    requires todo != []
    ensures done + todo + q == done + [todo[0]] + (todo[1..] + q)
    ensures todo == [todo[0]] + todo[1..]
    ensures forall mid: Table :: done + mid + (todo[1..] + q) == (done + mid) + todo[1..] + q
  {
  }

  /** Delivering a middle stretch of the table leaves the rest alone and keeps every key where it was. */
  lemma {:induction false} PassRows(w: World, b: Box, done: Table, todo: Table, q: Table) returns (done': Table)
    requires b.rows == done + todo + q && IsTable(b.rows) && NamedIds(b.rows)
    ensures OnePass(w, b, todo).rows == done' + q && KeysWithin(done', done + todo)
    ensures IsTable(done' + q) && NamedIds(done' + q)
    decreases |todo|
  {
    if todo == [] {
      done' := done;
      assert done + todo == done;
    } else {
      var r := todo[0];
      Regroup(done, todo, q);
      var mid := DeliverHead(w, b, done, r, todo[1..] + q);
      assert b.rows[|done|] == r;
      DeliverKeepsTable(w, b, r, true);
      done' := PassRows(w, Deliver(w, b, r, true), done + mid, todo[1..], q);
      ResidueKeys(done, r, mid, todo[1..], done');
    }
  }

  /** The rows at or before the cursor are done, those after it are still to do. */
  ghost predicate Splits(done: Table, todo: Table, cursor: Key)
  {
    && (cursor.id == "" ==> done == [])
    && (cursor.id != "" ==>
          (forall x :: x in done ==> !Before(cursor, KeyOf(x))) && (forall x :: x in todo ==> Before(cursor, KeyOf(x))))
  }

  lemma PageOfSplit(done: Table, todo: Table, cursor: Key)
    requires Splits(done, todo, cursor)
    ensures Page(done + todo, PAGE_SIZE, cursor) == todo[..Min(PAGE_SIZE, |todo|)]
  {
    if cursor.id == "" {
      assert done + todo == todo;
    } else {
      var p := (x: SpillItem) => Before(cursor, KeyOf(x));
      WhereConcat(done, todo, p);
      WhereMembers(done, p);
      WhereMembers(todo, p);
      assert Newer(done + todo, cursor) == todo;
    }
  }

  lemma NextSplit(done: Table, page: Table, q: Table, done': Table)
    requires Ordered(done + page + q) && page != [] && KeysWithin(done', done + page) && page[|page| - 1].id != ""
    ensures Splits(done', q, KeyOf(page[|page| - 1]))
  {
    var t := done + page + q;
    var n := |done| + |page| - 1;
    var c := KeyOf(page[|page| - 1]);
    assert t[n] == page[|page| - 1];
    BeforeIsStrictTotalOrder();
    forall x | x in done' ensures !Before(c, KeyOf(x)) {
      var y :| y in done + page && KeyOf(y) == KeyOf(x);
      var i :| 0 <= i < |done + page| && (done + page)[i] == y;
      assert t[i] == y;
    }
    forall x | x in q ensures Before(c, KeyOf(x)) {
      var i :| 0 <= i < |q| && q[i] == x;
      assert t[n + 1 + i] == x;
    }
  }

  lemma StepSame(w: World, b: Box, page: Table, cursor: Key)
    requires FaultFree(w) && Uncanceled(w) && page == Page(b.rows, PAGE_SIZE, cursor) != []
    ensures PassedOver(w, b, page, cursor, DrainStep(w, b, cursor))
  {
    var b2 := b.(checks := b.checks + 1, stmts := b.stmts + 1);
    PageIsPass(w, b2, page, cursor);
    PassSame(w, b2, b, page);
    SamePassedOver(w, b2, b, page, cursor, DrainPage(w, b2, page, cursor));
  }

  lemma SamePassedOver(w: World, a: Box, b: Box, page: Table, cursor: Key, r: (Box, Key, bool))
    requires PassedOver(w, a, page, cursor, r) && Same(OnePass(w, a, page), OnePass(w, b, page))
    ensures PassedOver(w, b, page, cursor, r)
  {
  }

  lemma StepIsPass(w: World, b: Box, done: Table, page: Table, q: Table, cursor: Key) returns (done': Table)
    requires FaultFree(w) && Uncanceled(w)
    requires b.rows == done + page + q && IsTable(b.rows) && NamedIds(b.rows)
    requires page != [] && Page(b.rows, PAGE_SIZE, cursor) == page
    ensures PassedOver(w, b, page, cursor, DrainStep(w, b, cursor))
    ensures var (b', c', stop) := DrainStep(w, b, cursor); b'.rows == done' + q && Splits(done', q, c')
  {
    StepSame(w, b, page, cursor);
    done' := PassRows(w, b, done, page, q);
    assert b.rows[|done| + |page| - 1] == page[|page| - 1];
    assert page[|page| - 1] in b.rows;
    NextSplit(done, page, q, done');
  }

  lemma {:induction false} DrainSpillIsPass(w: World, b: Box, done: Table, todo: Table, cursor: Key)
    requires FaultFree(w) && Uncanceled(w)
    requires b.rows == done + todo && IsTable(b.rows) && NamedIds(b.rows) && Splits(done, todo, cursor)
    ensures Same(DrainSpill(w, b, cursor), OnePass(w, b, todo))
    decreases |todo|
  {
    PageOfSplit(done, todo, cursor);
    if todo != [] {
      var k := Min(PAGE_SIZE, |todo|);
      var page, q := todo[..k], todo[k..];
      assert todo == page + q;
      assert b.rows == done + page + q;
      var done' := StepIsPass(w, b, done, page, q, cursor);
      var (b3, c3, stop) := DrainStep(w, b, cursor);
      DrainStepAdvances(w, b, cursor);
      DrainSpillIsPass(w, b3, done', q, c3);
      PassInParts(w, b, b3, page, q);
    }
  }

  lemma PassInParts(w: World, b: Box, b1: Box, page: Table, q: Table)
    requires FaultFree(w) && Same(b1, OnePass(w, b, page))
    ensures Same(OnePass(w, b1, q), OnePass(w, b, page + q))
  {
    PassConcat(w, b, page, q);
    PassSame(w, b1, OnePass(w, b, page), q);
  }

  lemma {:induction false} DrainMemEmpties(w: World, b: Box)
    requires Uncanceled(w)
    ensures DrainMem(w, b).0.mem == [] && !DrainMem(w, b).1 && DrainMem(w, b).0.cfg == b.cfg
    decreases |b.mem|
  {
    if b.mem != [] {
      var b1 := Deliver(w, b.(mem := b.mem[1..]), b.mem[0], false);
      DrainMemEmpties(w, b1.(checks := b1.checks + 1));
    }
  }

  /** Paging is invisible: a drain hands each row of the table as it stood after the memory phase
      to deliver exactly once, in order, whatever deliver does to the table meanwhile. */
  lemma DrainIsOnePass(w: World, b: Box)
    requires FaultFree(w) && Uncanceled(w) && Wellformed(b)
    ensures var b1 := DrainMem(w, b).0;
      b1.mem == [] && Same(DrainOnce(w, b), OnePass(w, b1, b1.rows))
  {
    DrainMemKeepsTable(w, b);
    DrainMemEmpties(w, b);
    var b1 := DrainMem(w, b).0;
    assert b1.rows == [] + b1.rows;
    DrainSpillIsPass(w, b1, [], b1.rows, Key("", ""));
  }

  // ---- draining to empty ----

  ghost predicate Aged(t: Table, low: nat, high: int) { forall x :: x in t ==> low <= x.attempts <= high }

  /** One pass counts an attempt on every row that stays, and rows out of attempts do not stay. */
  lemma {:induction false} PassAges(w: World, b: Box, done: Table, todo: Table, k: nat)
    requires FaultFree(w) && Decisive(w) && b.rows == done + todo && IsTable(b.rows) && NamedIds(b.rows)
    requires Aged(done, k + 1, b.cfg.maxAttempts) && (forall x :: x in todo ==> k <= x.attempts)
    ensures Aged(OnePass(w, b, todo).rows, k + 1, b.cfg.maxAttempts)
    ensures OnePass(w, b, todo).mem == b.mem && OnePass(w, b, todo).cfg == b.cfg
    ensures IsTable(OnePass(w, b, todo).rows) && NamedIds(OnePass(w, b, todo).rows)
    decreases |todo|
  {
    if todo == [] {
      assert b.rows == done;
    } else {
      var done' := HeadAges(w, b, done, todo, k);
      PassAges(w, Deliver(w, b, todo[0], true), done', todo[1..], k);
    }
  }

  lemma HeadAges(w: World, b: Box, done: Table, todo: Table, k: nat) returns (done': Table)
    requires FaultFree(w) && Decisive(w) && b.rows == done + todo && IsTable(b.rows) && NamedIds(b.rows) && todo != []
    requires Aged(done, k + 1, b.cfg.maxAttempts) && (forall x :: x in todo ==> k <= x.attempts)
    ensures var b1 := Deliver(w, b, todo[0], true);
      && b1.rows == done' + todo[1..] && IsTable(b1.rows) && NamedIds(b1.rows) && b1.mem == b.mem && b1.cfg == b.cfg
      && Aged(done', k + 1, b.cfg.maxAttempts)
  {
    var mid := HeadLeaves(w, b, done, todo);
    assert todo[0] in todo;
    AgedJoin(done, mid, k + 1, b.cfg.maxAttempts);
    done' := done + mid;
    HeadKeepsTable(w, b, done, todo);
  }

  lemma AgedJoin(done: Table, mid: Table, low: nat, high: int)
    requires Aged(done, low, high) && |mid| <= 1 && (mid == [] || low <= mid[0].attempts <= high)
    ensures Aged(done + mid, low, high)
  {
  }

  lemma HeadKeepsTable(w: World, b: Box, done: Table, todo: Table)
    requires b.rows == done + todo && IsTable(b.rows) && NamedIds(b.rows) && todo != []
    ensures var b1 := Deliver(w, b, todo[0], true); IsTable(b1.rows) && NamedIds(b1.rows)
  {
    assert b.rows[|done|] == todo[0];
    DeliverKeepsTable(w, b, todo[0], true);
  }

  lemma HeadLeaves(w: World, b: Box, done: Table, todo: Table) returns (mid: Table)
    requires FaultFree(w) && Decisive(w) && b.rows == done + todo && IsTable(b.rows) && todo != []
    ensures var r, b1 := todo[0], Deliver(w, b, todo[0], true);
      && b1.rows == done + mid + todo[1..] && b1.mem == b.mem && b1.cfg == b.cfg && |mid| <= 1
      && (mid == [] || (r.attempts < b.cfg.maxAttempts && mid[0].attempts == r.attempts + 1))
  {
    assert todo == [todo[0]] + todo[1..] && b.rows == done + [todo[0]] + todo[1..];
    mid := DeliverHead(w, b, done, todo[0], todo[1..]);
  }

  lemma DrainAges(w: World, b: Box, k: nat)
    requires FaultFree(w) && Uncanceled(w) && Decisive(w) && Wellformed(b)
    requires (k == 0 || b.mem == []) && forall x :: x in b.rows ==> k <= x.attempts
    ensures var b' := DrainOnce(w, b);
      b'.mem == [] && b'.cfg == b.cfg && Wellformed(b') && Aged(b'.rows, k + 1, b.cfg.maxAttempts)
  {
    DrainIsOnePass(w, b);
    DrainMemKeepsTable(w, b);
    DrainMemEmpties(w, b);
    var b1 := DrainMem(w, b).0;
    assert b1.rows == [] + b1.rows;
    PassAges(w, b1, [], b1.rows, k);
  }

  lemma SomeAged(t: Table, low: nat, high: int)
    requires t != [] && Aged(t, low, high)
    ensures low <= high
  {
    assert t[0] in t;
  }

  ghost function Drains(w: World, b: Box, n: nat): Box
    requires Wellformed(b)
    decreases n
  {
    if n == 0 then b
    else
      ApplyKeepsWellformed(w, b, DoDrain);
      Drains(w, DrainOnce(w, b), n - 1)
  }

  lemma {:induction false} DrainsAge(w: World, b: Box, k: nat, n: nat)
    requires FaultFree(w) && Uncanceled(w) && Decisive(w) && Wellformed(b) && n > 0
    requires (k == 0 || b.mem == []) && forall x :: x in b.rows ==> k <= x.attempts
    ensures var b' := Drains(w, b, n);
      b'.mem == [] && Aged(b'.rows, k + n, b.cfg.maxAttempts)
    decreases n
  {
    DrainAges(w, b, k);
    ApplyKeepsWellformed(w, b, DoDrain);
    if n > 1 {
      DrainsAge(w, DrainOnce(w, b), k + 1, n - 1);
    } else {
      assert Drains(w, b, n) == Drains(w, DrainOnce(w, b), 0);
    }
  }

  /** MaxAttempts + 1 drains in a row leave nothing in either tier, whatever the server answers. */
  lemma DrainsEmptyOutbox(w: World, b: Box)
    requires FaultFree(w) && Uncanceled(w) && Decisive(w) && Wellformed(b) && Positive(b.cfg)
    ensures var b' := Drains(w, b, b.cfg.maxAttempts + 1); b'.mem == [] && b'.rows == []
  {
    var n := b.cfg.maxAttempts + 1;
    DrainsAge(w, b, 0, n);
    if Drains(w, b, n).rows != [] {
      SomeAged(Drains(w, b, n).rows, n, b.cfg.maxAttempts);
    }
  }

  ghost predicate Refuses(w: World)
  {
    FaultFree(w) && Uncanceled(w) && forall k, item :: w.send(k, item) == Failed("down")
  }

  lemma RefusedOnce(w: World, b: Box, r: SpillItem)
    requires Refuses(w) && b.mem == [] && b.rows == [r] && r.id != "" && r.kind == JOB_REPORT
    requires r.attempts < b.cfg.maxAttempts
    ensures Wellformed(b)
    ensures var b1 := DrainOnce(w, b);
      b1.rows == [r.(attempts := r.attempts + 1, lastError := "down")] && b1.mem == [] && b1.cfg == b.cfg
  {
    DrainIsOnePass(w, b);
    var r' := r.(attempts := r.attempts + 1, lastError := "down");
    assert [r][1..] == [];
    IncrementShape([r], r.id, "down");
    assert Increment([r], r.id, "down") == [r'];
    assert OnePass(w, b, [r]) == OnePass(w, Deliver(w, b, r, true), []);
  }

  /** One fewer is not enough: with a server that always refuses, n drains only count n attempts. */
  lemma {:induction false} RefusedRowAges(w: World, b: Box, r: SpillItem, n: nat)
    requires Refuses(w) && b.mem == [] && b.rows == [r] && r.id != "" && r.kind == JOB_REPORT
    requires r.attempts + n <= b.cfg.maxAttempts && n > 0
    ensures Wellformed(b)
    ensures Drains(w, b, n).rows == [r.(attempts := r.attempts + n, lastError := "down")]
    decreases n
  {
    RefusedOnce(w, b, r);
    var b1 := DrainOnce(w, b);
    ApplyKeepsWellformed(w, b, DoDrain);
    if n > 1 {
      RefusedRowAges(w, b1, r.(attempts := r.attempts + 1, lastError := "down"), n - 1);
    } else {
      assert Drains(w, b, n) == Drains(w, b1, 0);
    }
  }

  // ---- the sliding window ----

  /** The row a full-memory submit stores, with the timestamp of its own INSERT. */
  function StoredRow(w: World, b: Box, item: SpillItem): SpillItem
  {
    item.(createdAt := w.now(MakeRoom(w, b).0.stmts))
  }

  lemma {:induction false} InsertAtEnd(t: Table, r: SpillItem)
    requires forall x :: x in t ==> Before(KeyOf(x), KeyOf(r))
    ensures InsertRow(t, r) == t + [r]
  {
    if t != [] {
      assert t[0] in t && forall x :: x in t[1..] ==> x in t;
      BeforeAsymmetric(KeyOf(t[0]), KeyOf(r));
      InsertAtEnd(t[1..], r);
      assert t == [t[0]] + t[1..];
    }
  }

  lemma SubmitSlides(w: World, b: Box, item: SpillItem)
    requires FaultFree(w) && Positive(b.cfg) && |b.mem| >= b.cfg.memoryMax && !HasId(b.rows, item.id)
    requires forall x :: x in b.rows ==> Before(KeyOf(x), KeyOf(StoredRow(w, b, item)))
    ensures Submit(w, b, item).rows == Last(b.rows + [StoredRow(w, b, item)], b.cfg.spillMaxRows)
    ensures Submit(w, b, item).cfg == b.cfg && Submit(w, b, item).mem == b.mem
  {
    var b1 := MakeRoom(w, b).0;
    assert !HasId(b1.rows, item.id);
    InsertAtEnd(b1.rows, StoredRow(w, b, item));
  }

  function Submits(w: World, b: Box, items: seq<SpillItem>): Box
    decreases |items|
  {
    if items == [] then b else Submits(w, Submit(w, b, items[0]), items[1..])
  }

  function StoredRows(w: World, b: Box, items: seq<SpillItem>): Table
    decreases |items|
  {
    if items == [] then [] else [StoredRow(w, b, items[0])] + StoredRows(w, Submit(w, b, items[0]), items[1..])
  }

  lemma {:induction false} WindowIsSuffix(t: Table, s: Table, n: nat)
    requires IsTable(t + s)
    ensures IsTable(Last(t, n) + s) && Last(Last(t, n) + s, n) == Last(t + s, n)
  {
    if |t| > n {
      var k := |t| - n;
      assert Last(t, n) + s == (t + s)[k..];
    }
  }

  lemma WindowHead(t: Table, r: SpillItem, rest: Table)
    requires IsTable(t + ([r] + rest))
    ensures t + ([r] + rest) == t + [r] + rest
    ensures !HasId(t, r.id) && forall x :: x in t ==> Before(KeyOf(x), KeyOf(r))
  {
    var all := t + ([r] + rest);
    assert all[|t|] == r;
    assert forall i :: 0 <= i < |t| ==> all[i] == t[i];
  }

  lemma WindowKeeps(all: Table, cap: nat)
    ensures KeepNewest(all, cap) == Last(all, cap) && KeepNewest(Last(all, cap), cap) == Last(all, cap)
  {
  }

  lemma {:induction false} SpillsSlide(w: World, b: Box, items: seq<SpillItem>)
    requires FaultFree(w) && Positive(b.cfg) && |b.mem| >= b.cfg.memoryMax
    requires |b.rows| <= b.cfg.spillMaxRows && IsTable(b.rows + StoredRows(w, b, items))
    ensures Submits(w, b, items).rows == Last(b.rows + StoredRows(w, b, items), b.cfg.spillMaxRows)
    decreases |items|
  {
    if items == [] {
      assert b.rows + [] == b.rows;
    } else {
      var r := StoredRow(w, b, items[0]);
      var b1 := Submit(w, b, items[0]);
      var rest := StoredRows(w, b1, items[1..]);
      WindowHead(b.rows, r, rest);
      SubmitSlides(w, b, items[0]);
      WindowIsSuffix(b.rows + [r], rest, b.cfg.spillMaxRows);
      SpillsSlide(w, b1, items[1..]);
    }
  }

  /** Drop-oldest is a sliding window: while nothing is delivered, the table is the last
      cap rows ever stored, and pruning by count to that cap removes nothing more. */
  lemma SpillIsWindow(w: World, b: Box, items: seq<SpillItem>)
    requires FaultFree(w) && Positive(b.cfg) && |b.mem| >= b.cfg.memoryMax
    requires |b.rows| <= b.cfg.spillMaxRows && IsTable(b.rows + StoredRows(w, b, items))
    ensures var all, cap := b.rows + StoredRows(w, b, items), b.cfg.spillMaxRows;
      && Submits(w, b, items).rows == Last(all, cap)
      && KeepNewest(all, cap) == Last(all, cap)
      && KeepNewest(Submits(w, b, items).rows, cap) == Submits(w, b, items).rows
  {
    SpillsSlide(w, b, items);
    WindowKeeps(b.rows + StoredRows(w, b, items), b.cfg.spillMaxRows);
  }
}
