/** The agent outbox, run by one thread: what each operation does to the two tiers,
    as functions, and the class whose methods carry them out. */
module Outbox {
  import opened TextOrder
  import opened SpillStore
  import opened OutboxConfig

  const PAGE_SIZE: nat := 50
  const JOB_REPORT := "job_report"

  datatype Outcome = Acked | Canceled | Failed(error: string)

  /** What the outbox did with items: every send, and every way an item leaves. */
  datatype Event =
    | Sent(id: string, outcome: Outcome)
    | OverAttempts(id: string)
    | Evicted(id: string)
    | Pruned(id: string)
    | Refused(id: string)

  /** Everything outside the outbox's control, as arbitrary functions of how often it was consulted. */
  datatype World = World(
    send: (nat, SpillItem) -> Outcome,  // the server's answer to the n-th send
    fault: nat -> bool,                 // whether the n-th database statement fails
    now: nat -> string,                 // CURRENT_TIMESTAMP at the n-th statement
    canceled: nat -> bool)              // ctx.Err() != nil at the n-th check

  datatype Box = Box(
    cfg: Config, mem: seq<SpillItem>, rows: Table, sends: nat, stmts: nat, checks: nat, log: seq<Event>)

  function Log(b: Box, e: Event): Box { b.(log := b.log + [e]) }

  function Evictions(t: Table): seq<Event>
  {
    if t == [] then [] else [Evicted(t[0].id)] + Evictions(t[1..])
  }

  function Prunings(before: Table, after: Table): seq<Event>
  {
    if before == [] then []
    else (if before[0] in after then [] else [Pruned(before[0].id)]) + Prunings(before[1..], after)
  }

  // ---- single statements ----

  function Enqueue(w: World, b: Box, item: SpillItem): Box
  {
    var b1 := b.(stmts := b.stmts + 1);
    if !w.fault(b.stmts) && !HasId(b.rows, item.id)
    then b1.(rows := InsertRow(b.rows, item.(createdAt := w.now(b.stmts))))
    else Log(b1, Refused(item.id))
  }

  function DeleteRow(w: World, b: Box, id: string): Box
  {
    var b1 := b.(stmts := b.stmts + 1);
    if w.fault(b.stmts) then b1 else b1.(rows := Delete(b.rows, id))
  }

  function IncrementRow(w: World, b: Box, id: string, err: string): Box
  {
    var b1 := b.(stmts := b.stmts + 1);
    if w.fault(b.stmts) then b1 else b1.(rows := Increment(b.rows, id, err))
  }

  // ---- operations ----

  /** Count, then evict when the table is at or above its cap; false when a statement failed. */
  function MakeRoom(w: World, b: Box): (Box, bool)
  {
    var b1 := b.(stmts := b.stmts + 1);
    if w.fault(b.stmts) then (b1, false)
    else if |b.rows| >= b.cfg.spillMaxRows then
      var over := |b.rows| - b.cfg.spillMaxRows + 1;
      var b2 := b1.(stmts := b1.stmts + 1);
      if over > 0 && w.fault(b1.stmts) then (b2, false)
      else (b2.(rows := DropOldest(b.rows, over), log := b.log + Evictions(b.rows[..Min(over, |b.rows|)])), true)
    else (b1, true)
  }

  function Submit(w: World, b: Box, item: SpillItem): Box
  {
    if |b.mem| < b.cfg.memoryMax then b.(mem := b.mem + [item])
    else
      var (b1, ok) := MakeRoom(w, b);
      if ok then Enqueue(w, b1, item) else Log(b1, Refused(item.id))
  }

  function SpillWithEviction(w: World, b: Box, item: SpillItem): Box
  {
    Enqueue(w, MakeRoom(w, b).0, item)
  }

  function Send(w: World, b: Box, item: SpillItem): Outcome
  {
    if item.kind == JOB_REPORT then w.send(b.sends, item) else Failed("unsupported outbox kind")
  }

  /** The item as it goes back to the spill: a failure is counted, a cancellation is not. */
  function Retried(item: SpillItem, outcome: Outcome): SpillItem
  {
    if outcome.Failed? then item.(attempts := item.attempts + 1, lastError := outcome.error) else item
  }

  /** What becomes of an item after the sender's answer. */
  function Settle(w: World, b: Box, item: SpillItem, fromSpill: bool, outcome: Outcome): (b': Box)
    ensures b'.mem == b.mem && b'.cfg == b.cfg && b'.checks == b.checks
  {
    if !fromSpill then if outcome.Acked? then b else SpillWithEviction(w, b, Retried(item, outcome))
    else match outcome
      case Acked => DeleteRow(w, b, item.id)
      case Canceled => b
      case Failed(e) => IncrementRow(w, b, item.id, e)
  }

  function Deliver(w: World, b: Box, item: SpillItem, fromSpill: bool): (b': Box)
    ensures b'.mem == b.mem && b'.cfg == b.cfg && b'.checks == b.checks
  {
    if item.attempts >= b.cfg.maxAttempts then
      var b1 := Log(b, OverAttempts(item.id));
      if fromSpill then DeleteRow(w, b1, item.id) else b1
    else
      var outcome := Send(w, b, item);
      Settle(w, Log(b.(sends := b.sends + 1), Sent(item.id, outcome)), item, fromSpill, outcome)
  }

  /** Deliver the memory tier; true when a cancellation cut it short. */
  function DrainMem(w: World, b: Box): (Box, bool)
    decreases |b.mem|
  {
    if b.mem == [] then (b, false)
    else
      var b1 := Deliver(w, b.(mem := b.mem[1..]), b.mem[0], false);
      var b2 := b1.(checks := b1.checks + 1);
      if w.canceled(b1.checks) then (b2, true) else DrainMem(w, b2)
  }

  /** Deliver one page, moving the cursor row by row. */
  function DrainPage(w: World, b: Box, page: Table, cursor: Key): (Box, Key, bool)
    decreases |page|
  {
    if page == [] then (b, cursor, false)
    else
      var b1 := b.(checks := b.checks + 1);
      if w.canceled(b.checks) then (b1, cursor, true)
      else DrainPage(w, Deliver(w, b1, page[0], true), page[1..], KeyOf(page[0]))
  }

  function Above(t: Table, cursor: Key): nat
  {
    if cursor.id == "" then |t| else |Newer(t, cursor)|
  }

  ghost predicate NamedIds(t: seq<SpillItem>) { forall x :: x in t ==> x.id != "" }

  /** One turn of the paging loop: check, read a page, deliver it; true when the loop ends. */
  function DrainStep(w: World, b: Box, cursor: Key): (Box, Key, bool)
  {
    var b1 := b.(checks := b.checks + 1);
    if w.canceled(b.checks) then (b1, cursor, true)
    else
      var b2 := b1.(stmts := b1.stmts + 1);
      if w.fault(b1.stmts) || Page(b.rows, PAGE_SIZE, cursor) == [] then (b2, cursor, true)
      else DrainPage(w, b2, Page(b.rows, PAGE_SIZE, cursor), cursor)
  }

  /** Page through the spill table from a cursor. The rows above the cursor only shrink. */
  function DrainSpill(w: World, b: Box, cursor: Key): Box
    requires IsTable(b.rows) && NamedIds(b.rows)
    decreases Above(b.rows, cursor)
  {
    var (b1, c1, done) := DrainStep(w, b, cursor);
    DrainStepAdvances(w, b, cursor);
    if done then b1 else DrainSpill(w, b1, c1)
  }

  function DrainOnce(w: World, b: Box): Box
    requires IsTable(b.rows) && NamedIds(b.rows) && NamedIds(b.mem)
  {
    var (b1, stop) := DrainMem(w, b);
    DrainMemKeepsTable(w, b);
    if stop then b1 else DrainSpill(w, b1, Key("", ""))
  }

  function PruneAged(w: World, b: Box, cutoff: string): Box
  {
    var aged := if w.fault(b.stmts) then b.rows else PruneOlder(b.rows, cutoff);
    b.(rows := aged, stmts := b.stmts + 1, log := b.log + Prunings(b.rows, aged))
  }

  function PruneCounted(w: World, b: Box): Box
  {
    var kept := if w.fault(b.stmts) then b.rows else KeepNewest(b.rows, b.cfg.spillMaxRows);
    b.(rows := kept, stmts := b.stmts + 1, log := b.log + Prunings(b.rows, kept))
  }

  function PruneOnce(w: World, b: Box, cutoff: string): Box
  {
    PruneCounted(w, PruneAged(w, b, cutoff))
  }

  // ---- the table stays a table, and delivery from the spill only removes or updates rows ----

  /** Every row of u has the key of a row of t. */
  ghost predicate KeysWithin(u: Table, t: Table)
  {
    forall x :: x in u ==> exists y :: y in t && KeyOf(y) == KeyOf(x)
  }

  lemma {:induction false} EvictionsEvict(t: Table)
    ensures forall e :: e in Evictions(t) ==> e.Evicted?
  {
    if t != [] {
      EvictionsEvict(t[1..]);
    }
  }

  predicate LastRefused(b: Box, before: Box, id: string)
  {
    |b.log| > |before.log| && b.log[|b.log| - 1] == Refused(id)
  }

  /** Making room records evictions and nothing else. */
  lemma RoomRefusesNothing(w: World, b: Box, id: string)
    ensures |MakeRoom(w, b).0.log| >= |b.log| && !LastRefused(MakeRoom(w, b).0, b, id)
  {
    var over := |b.rows| - b.cfg.spillMaxRows + 1;
    if over > 0 {
      var ev := Evictions(b.rows[..Min(over, |b.rows|)]);
      EvictionsEvict(b.rows[..Min(over, |b.rows|)]);
      assert b.log + [] == b.log;
      assert ev != [] ==> (b.log + ev)[|b.log + ev| - 1] == ev[|ev| - 1] && ev[|ev| - 1] in ev;
    }
  }

  lemma DropOldestIsTable(t: Table, n: int)
    requires IsTable(t)
    ensures IsTable(DropOldest(t, n)) && |DropOldest(t, n)| <= |t|
    ensures forall x :: x in DropOldest(t, n) ==> x in t
  {
  }

  lemma SpillKeepsTable(w: World, b: Box, item: SpillItem)
    requires IsTable(b.rows) && NamedIds(b.rows) && item.id != ""
    ensures var b' := SpillWithEviction(w, b, item); IsTable(b'.rows) && NamedIds(b'.rows)
  {
    var b1 := MakeRoom(w, b).0;
    DropOldestIsTable(b.rows, |b.rows| - b.cfg.spillMaxRows + 1);
    var r := item.(createdAt := w.now(b1.stmts));
    InsertRowMembers(b1.rows, r);
    if !HasId(b1.rows, r.id) {
      InsertRowIsTable(b1.rows, r);
    }
  }

  lemma DeleteKeepsTable(t: Table, id: string)
    requires IsTable(t) && NamedIds(t)
    ensures IsTable(Delete(t, id)) && NamedIds(Delete(t, id))
  {
    WhereIsTable(t, (x: SpillItem) => x.id != id);
    WhereMembers(t, (x: SpillItem) => x.id != id);
  }

  lemma DeleteKeepsKeys(t: Table, id: string)
    ensures KeysWithin(Delete(t, id), t)
  {
    WhereMembers(t, (x: SpillItem) => x.id != id);
  }

  lemma IncrementKeepsTable(t: Table, id: string, err: string)
    requires IsTable(t) && NamedIds(t)
    ensures IsTable(Increment(t, id, err)) && NamedIds(Increment(t, id, err))
  {
    IncrementIsTable(t, id, err);
    var u := Increment(t, id, err);
    forall x | x in u ensures x.id != "" {
      var i :| 0 <= i < |u| && u[i] == x;
      assert t[i] in t && KeyOf(t[i]) == KeyOf(x);
    }
  }

  lemma IncrementKeepsKeys(t: Table, id: string, err: string)
    requires IsTable(t)
    ensures KeysWithin(Increment(t, id, err), t)
  {
    IncrementIsTable(t, id, err);
    var u := Increment(t, id, err);
    forall x | x in u ensures exists y :: y in t && KeyOf(y) == KeyOf(x) {
      var i :| 0 <= i < |u| && u[i] == x;
      assert t[i] in t && KeyOf(t[i]) == KeyOf(x);
    }
  }

  /** From the spill, delivery deletes the row, counts a failure on it, or leaves it. */
  lemma DeliverSpillRows(w: World, b: Box, item: SpillItem)
    ensures var rows := Deliver(w, b, item, true).rows;
      || rows == b.rows || rows == Delete(b.rows, item.id)
      || (Send(w, b, item).Failed? && rows == Increment(b.rows, item.id, Send(w, b, item).error))
  {
  }

  /** From memory, delivery ends the item or spills it, with the failure counted. */
  lemma DeliverMemoryCases(w: World, b: Box, item: SpillItem)
    ensures var outcome := Send(w, b, item);
      var sent := Log(b.(sends := b.sends + 1), Sent(item.id, outcome));
      Deliver(w, b, item, false) ==
        if item.attempts >= b.cfg.maxAttempts then Log(b, OverAttempts(item.id))
        else if outcome.Acked? then sent
        else if outcome.Canceled? then SpillWithEviction(w, sent, item)
        else SpillWithEviction(w, sent, item.(attempts := item.attempts + 1, lastError := outcome.error))
  {
  }

  lemma DeliverKeepsTable(w: World, b: Box, item: SpillItem, fromSpill: bool)
    requires IsTable(b.rows) && NamedIds(b.rows) && item.id != ""
    ensures IsTable(Deliver(w, b, item, fromSpill).rows) && NamedIds(Deliver(w, b, item, fromSpill).rows)
    ensures fromSpill ==> KeysWithin(Deliver(w, b, item, fromSpill).rows, b.rows)
  {
    var outcome := Send(w, b, item);
    if fromSpill {
      DeliverSpillRows(w, b, item);
      DeleteKeepsTable(b.rows, item.id);
      DeleteKeepsKeys(b.rows, item.id);
      if outcome.Failed? {
        IncrementKeepsTable(b.rows, item.id, outcome.error);
        IncrementKeepsKeys(b.rows, item.id, outcome.error);
      }
    } else if item.attempts < b.cfg.maxAttempts && !outcome.Acked? {
      var b1 := Log(b.(sends := b.sends + 1), Sent(item.id, outcome));
      var item' := if outcome.Failed? then item.(attempts := item.attempts + 1, lastError := outcome.error) else item;
      DeliverMemoryCases(w, b, item);
      SpillKeepsTable(w, b1, item');
    }
  }

  /** One turn of the memory loop. */
  function Turn(w: World, b: Box): Box
    requires b.mem != []
  {
    var b1 := Deliver(w, b.(mem := b.mem[1..]), b.mem[0], false);
    b1.(checks := b1.checks + 1)
  }

  lemma DrainMemTurn(w: World, b: Box)
    requires b.mem != []
    ensures DrainMem(w, b) == if w.canceled(Turn(w, b).checks - 1) then (Turn(w, b), true) else DrainMem(w, Turn(w, b))
  {
  }

  /** What every turn keeps, the memory loop keeps. */
  lemma {:induction false} DrainMemPreserves(w: World, b: Box, keeps: Box -> bool)
    requires keeps(b) && forall x: Box :: keeps(x) && x.mem != [] ==> keeps(Turn(w, x))
    ensures keeps(DrainMem(w, b).0)
    decreases |b.mem|
  {
    if b.mem != [] {
      DrainMemPreserves(w, Turn(w, b), keeps);
    }
  }

  lemma {:induction false} DrainMemKeepsTable(w: World, b: Box)
    requires IsTable(b.rows) && NamedIds(b.rows) && NamedIds(b.mem)
    ensures var b' := DrainMem(w, b).0; IsTable(b'.rows) && NamedIds(b'.rows) && NamedIds(b'.mem)
    decreases |b.mem|
  {
    if b.mem != [] {
      DeliverKeepsTable(w, b.(mem := b.mem[1..]), b.mem[0], false);
      var b1 := Deliver(w, b.(mem := b.mem[1..]), b.mem[0], false);
      DrainMemKeepsTable(w, b1.(checks := b1.checks + 1));
    }
  }

  lemma DrainPageTurn(w: World, b: Box, page: Table, cursor: Key)
    requires page != []
    ensures var b1 := b.(checks := b.checks + 1);
      DrainPage(w, b, page, cursor) ==
        if w.canceled(b.checks) then (b1, cursor, true)
        else DrainPage(w, Deliver(w, b1, page[0], true), page[1..], KeyOf(page[0]))
  {
  }

  /** A table with no more rows than t, by key. */
  ghost predicate Reduced(u: Table, t: Table) { IsTable(u) && NamedIds(u) && KeysWithin(u, t) }

  lemma ReducedAgain(u: Table, v: Table, t: Table)
    requires Reduced(u, v) && KeysWithin(v, t)
    ensures Reduced(u, t)
  {
    forall x | x in u ensures exists y :: y in t && KeyOf(y) == KeyOf(x) {
      var z :| z in v && KeyOf(z) == KeyOf(x);
      var y :| y in t && KeyOf(y) == KeyOf(z);
    }
  }

  lemma {:induction false} DrainPageRows(w: World, b: Box, page: Table, cursor: Key)
    requires IsTable(b.rows) && NamedIds(b.rows) && NamedIds(page)
    ensures Reduced(DrainPage(w, b, page, cursor).0.rows, b.rows)
    decreases |page|
  {
    if page != [] && !w.canceled(b.checks) {
      var b1 := b.(checks := b.checks + 1);
      var b2 := Deliver(w, b1, page[0], true);
      DeliverKeepsTable(w, b1, page[0], true);
      DrainPageRows(w, b2, page[1..], KeyOf(page[0]));
      DrainPageTurn(w, b, page, cursor);
      ReducedAgain(DrainPage(w, b2, page[1..], KeyOf(page[0])).0.rows, b2.rows, b.rows);
    }
  }

  lemma {:induction false} DrainPageCursor(w: World, b: Box, page: Table, cursor: Key)
    ensures !DrainPage(w, b, page, cursor).2 ==>
      DrainPage(w, b, page, cursor).1 == if page == [] then cursor else KeyOf(page[|page| - 1])
    decreases |page|
  {
    if page != [] && !w.canceled(b.checks) {
      DrainPageCursor(w, Deliver(w, b.(checks := b.checks + 1), page[0], true), page[1..], KeyOf(page[0]));
    }
  }

  lemma {:induction false} FewerKeys(u: Table, t: Table)
    requires IsTable(u) && IsTable(t) && KeysWithin(u, t)
    ensures |u| <= |t|
  {
    var ku, kt := set x | x in u :: KeyOf(x), set x | x in t :: KeyOf(x);
    KeysCount(u, ku);
    KeysCount(t, kt);
    assert ku <= kt;
    SubsetSize(ku, kt);
  }

  lemma {:induction false} SubsetSize<T>(a: set<T>, b: set<T>)
    requires a <= b
    ensures |a| <= |b|
  {
    if a != {} {
      var x :| x in a;
      SubsetSize(a - {x}, b - {x});
    }
  }

  lemma {:induction false} KeysCount(t: Table, keys: set<Key>)
    requires Ordered(t) && keys == set x | x in t :: KeyOf(x)
    ensures |keys| == |t|
  {
    if t != [] {
      var rest := set x | x in t[1..] :: KeyOf(x);
      KeysCount(t[1..], rest);
      assert t == [t[0]] + t[1..];
      assert keys == rest + {KeyOf(t[0])};
      BeforeIrreflexive(KeyOf(t[0]));
      assert KeyOf(t[0]) !in rest;
    }
  }

  lemma PageAdvances(w: World, b: Box, cursor: Key)
    requires IsTable(b.rows) && NamedIds(b.rows)
    requires Page(b.rows, PAGE_SIZE, cursor) != []
    ensures var (b', c', stop) := DrainPage(w, b, Page(b.rows, PAGE_SIZE, cursor), cursor);
      && IsTable(b'.rows) && NamedIds(b'.rows)
      && (!stop ==> c'.id != "" && Above(b'.rows, c') < Above(b.rows, cursor))
  {
    var page := Page(b.rows, PAGE_SIZE, cursor);
    PageIsNext(b.rows, PAGE_SIZE, cursor);
    DrainPageRows(w, b, page, cursor);
    DrainPageCursor(w, b, page, cursor);
    var (b', c', stop) := DrainPage(w, b, page, cursor);
    if !stop {
      var last := page[|page| - 1];
      assert last in page;
      BeforeIsStrictTotalOrder();
      var before := if cursor.id == "" then b.rows else Newer(b.rows, cursor);
      var after := Newer(b'.rows, c');
      WhereMembers(b.rows, (x: SpillItem) => Before(cursor, KeyOf(x)));
      WhereIsTable(b.rows, (x: SpillItem) => Before(cursor, KeyOf(x)));
      WhereMembers(b'.rows, (x: SpillItem) => Before(c', KeyOf(x)));
      WhereIsTable(b'.rows, (x: SpillItem) => Before(c', KeyOf(x)));
      var smaller := Delete(before, last.id);
      WhereIsTable(before, (x: SpillItem) => x.id != last.id);
      WhereMembers(before, (x: SpillItem) => x.id != last.id);
      forall x | x in after ensures exists y :: y in smaller && KeyOf(y) == KeyOf(x) {
        var y :| y in b.rows && KeyOf(y) == KeyOf(x);
        assert y in before && y.id != last.id;
      }
      FewerKeys(after, smaller);
      assert last in before && last !in smaller;
      DeleteShrinks(before, last);
    }
  }

  lemma DrainStepAdvances(w: World, b: Box, cursor: Key)
    requires IsTable(b.rows) && NamedIds(b.rows)
    ensures var (b', c', done) := DrainStep(w, b, cursor);
      && IsTable(b'.rows) && NamedIds(b'.rows)
      && (!done ==> c'.id != "" && Above(b'.rows, c') < Above(b.rows, cursor))
  {
    var b2 := b.(checks := b.checks + 1, stmts := b.stmts + 1);
    if Page(b.rows, PAGE_SIZE, cursor) != [] {
      PageAdvances(w, b2, cursor);
    }
  }

  lemma PrunedRowsAreRows(t: Table, cutoff: string)
    requires IsTable(t) && NamedIds(t)
    ensures IsTable(PruneOlder(t, cutoff)) && NamedIds(PruneOlder(t, cutoff))
  {
    WhereIsTable(t, (x: SpillItem) => !Less(x.createdAt, cutoff));
    WhereMembers(t, (x: SpillItem) => !Less(x.createdAt, cutoff));
  }

  lemma KeptRowsAreRows(t: Table, keep: int)
    requires IsTable(t) && NamedIds(t)
    ensures IsTable(KeepNewest(t, keep)) && NamedIds(KeepNewest(t, keep))
  {
  }

  lemma PageRowsAreNamed(t: Table, limit: nat, after: Key)
    requires IsTable(t) && NamedIds(t)
    ensures NamedIds(Page(t, limit, after))
  {
    WhereMembers(t, (x: SpillItem) => Before(after, KeyOf(x)));
  }

  lemma {:induction false} DeleteShrinks(t: Table, r: SpillItem)
    requires r in t
    ensures |Delete(t, r.id)| < |t|
  {
    if t[0] == r {
      WhereMembers(t[1..], (x: SpillItem) => x.id != r.id);
    } else {
      assert r in t[1..];
      DeleteShrinks(t[1..], r);
    }
  }
}
