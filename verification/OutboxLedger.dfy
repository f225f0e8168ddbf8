/** Conservation: no outbox operation loses an item without recording how it left. */
module OutboxLedger {
  import opened TextOrder
  import opened SpillStore
  import opened OutboxConfig
  import opened Outbox

  /** How many items of a tier carry an id. */
  function InTier(t: seq<SpillItem>, id: string): nat
  {
    if t == [] then 0 else (if t[0].id == id then 1 else 0) + InTier(t[1..], id)
  }

  /** Whether an event records an item leaving the outbox for good. */
  predicate Leaves(e: Event)
  {
    match e
    case Sent(_, outcome) => outcome.Acked?
    case _ => true
  }

  /** How often an id was recorded as gone. */
  function Left(log: seq<Event>, id: string): nat
  {
    if log == [] then 0 else (if Leaves(log[0]) && log[0].id == id then 1 else 0) + Left(log[1..], id)
  }

  /** Where an id is: in memory, in the spill table, or recorded as gone. */
  function Places(b: Box, id: string): nat
  {
    InTier(b.mem, id) + InTier(b.rows, id) + Left(b.log, id)
  }

  function One(a: string, b: string): nat { if a == b then 1 else 0 }

  lemma {:induction false} TierConcat(a: seq<SpillItem>, b: seq<SpillItem>, id: string)
    ensures InTier(a + b, id) == InTier(a, id) + InTier(b, id)
  {
    if a == [] {
      assert a + b == b;
    } else {
      TierConcat(a[1..], b, id);
      assert (a + b)[1..] == a[1..] + b;
    }
  }

  lemma {:induction false} LeftConcat(a: seq<Event>, b: seq<Event>, id: string)
    ensures Left(a + b, id) == Left(a, id) + Left(b, id)
  {
    if a == [] {
      assert a + b == b;
    } else {
      LeftConcat(a[1..], b, id);
      assert (a + b)[1..] == a[1..] + b;
    }
  }

  lemma LogCounts(b: Box, e: Event, id: string)
    ensures Places(Log(b, e), id) == Places(b, id) + if Leaves(e) then One(e.id, id) else 0
  {
    LeftConcat(b.log, [e], id);
  }

  lemma {:induction false} TierInsert(t: Table, r: SpillItem, id: string)
    ensures InTier(InsertRow(t, r), id) == InTier(t, id) + One(r.id, id)
  {
    if t == [] {
    } else if Before(KeyOf(r), KeyOf(t[0])) {
      assert ([r] + t)[1..] == t;
    } else {
      TierInsert(t[1..], r, id);
      assert ([t[0]] + InsertRow(t[1..], r))[1..] == InsertRow(t[1..], r);
    }
  }

  lemma {:induction false} TierIncrement(t: Table, target: string, err: string, id: string)
    ensures InTier(Increment(t, target, err), id) == InTier(t, id)
  {
    if t != [] {
      TierIncrement(t[1..], target, err, id);
      assert Increment(t, target, err)[1..] == Increment(t[1..], target, err);
    }
  }

  lemma {:induction false} TierWhere(t: Table, p: SpillItem -> bool, id: string)
    ensures (forall x :: x in t && x.id == id ==> p(x)) ==> InTier(Where(t, p), id) == InTier(t, id)
    ensures (forall x :: x in t && x.id == id ==> !p(x)) ==> InTier(Where(t, p), id) == 0
  {
    if t != [] {
      TierWhere(t[1..], p, id);
      assert t[0] in t && forall x :: x in t[1..] ==> x in t;
      var u := Where(t[1..], p);
      assert ([t[0]] + u)[1..] == u;
      assert Where(t, p) == if p(t[0]) then [t[0]] + u else u;
    }
  }

  /** The primary key: an id is in the table once or not at all. */
  lemma {:induction false} TierUnique(t: Table, id: string)
    requires UniqueIds(t)
    ensures InTier(t, id) == if HasId(t, id) then 1 else 0
  {
    if t != [] {
      var rest := t[1..];
      assert forall i :: 0 <= i < |rest| ==> rest[i] == t[i + 1];
      TierUnique(rest, id);
      if t[0].id != id && HasId(t, id) {
        var i :| 0 <= i < |t| && t[i].id == id;
        assert rest[i - 1].id == id;
      }
    }
  }

  lemma {:induction false} PlacedWhenPresent(t: seq<SpillItem>, x: SpillItem)
    requires x in t
    ensures InTier(t, x.id) > 0
  {
    if t[0] != x {
      assert x in t[1..];
      PlacedWhenPresent(t[1..], x);
    }
  }

  lemma TierDelete(t: Table, target: string, id: string)
    requires UniqueIds(t) && HasId(t, target)
    ensures InTier(t, id) == InTier(Delete(t, target), id) + One(target, id)
  {
    TierWhere(t, (x: SpillItem) => x.id != target, id);
    TierUnique(t, target);
  }

  lemma {:induction false} EvictionsLeave(t: Table, id: string)
    ensures Left(Evictions(t), id) == InTier(t, id)
  {
    if t != [] {
      EvictionsLeave(t[1..], id);
      assert Evictions(t)[1..] == Evictions(t[1..]);
    }
  }

  /** What pruning records is what it removed. */
  lemma {:induction false} PruningsLeave(t: Table, after: Table, id: string)
    ensures Left(Prunings(t, after), id) + InTier(Where(t, (x: SpillItem) => x in after), id) == InTier(t, id)
  {
    if t != [] {
      PruningsLeave(t[1..], after, id);
      var u := Where(t[1..], (x: SpillItem) => x in after);
      var l := Prunings(t[1..], after);
      if t[0] in after {
        assert Prunings(t, after) == l;
        assert ([t[0]] + u)[1..] == u;
      } else {
        assert Prunings(t, after) == [Pruned(t[0].id)] + l;
        assert ([Pruned(t[0].id)] + l)[1..] == l;
        assert [] + u == u;
      }
    }
  }

  lemma {:induction false} WhereSame(t: Table, p: SpillItem -> bool, q: SpillItem -> bool)
    requires forall x :: x in t ==> p(x) == q(x)
    ensures Where(t, p) == Where(t, q)
  {
    if t != [] {
      assert t[0] in t && forall x :: x in t[1..] ==> x in t;
      WhereSame(t[1..], p, q);
    }
  }

  lemma PruneByAgeBalances(t: Table, cutoff: string, id: string)
    ensures Left(Prunings(t, PruneOlder(t, cutoff)), id) + InTier(PruneOlder(t, cutoff), id) == InTier(t, id)
  {
    var after := PruneOlder(t, cutoff);
    PruningsLeave(t, after, id);
    var p := (x: SpillItem) => !Less(x.createdAt, cutoff);
    WhereMembers(t, p);
    WhereSame(t, p, (x: SpillItem) => x in after);
  }

  lemma NotInSuffix(t: Table, k: nat, x: SpillItem)
    requires UniqueIds(t) && k <= |t| && x in t[..k]
    ensures x !in t[k..]
  {
    var i :| 0 <= i < k && t[i] == x;
    forall j | 0 <= j < |t| - k ensures t[k..][j] != x {
      assert t[k..][j] == t[k + j];
    }
  }

  lemma WhereSecond(a: Table, c: Table, p: SpillItem -> bool)
    requires (forall x :: x in a ==> !p(x)) && (forall x :: x in c ==> p(x))
    ensures Where(a + c, p) == c
  {
    WhereConcat(a, c, p);
    WhereMembers(a, p);
    WhereMembers(c, p);
  }

  /** Selecting the members of a suffix of a table gives that suffix. */
  lemma WhereInSuffix(t: Table, k: nat)
    requires UniqueIds(t) && k <= |t|
    ensures Where(t, (x: SpillItem) => x in t[k..]) == t[k..]
  {
    forall x | x in t[..k] ensures x !in t[k..] { NotInSuffix(t, k, x); }
    WhereSecond(t[..k], t[k..], (x: SpillItem) => x in t[k..]);
    assert t == t[..k] + t[k..];
  }

  lemma PruneByCountBalances(t: Table, keep: int, id: string)
    requires UniqueIds(t)
    ensures Left(Prunings(t, KeepNewest(t, keep)), id) + InTier(KeepNewest(t, keep), id) == InTier(t, id)
  {
    var after := KeepNewest(t, keep);
    PruningsLeave(t, after, id);
    assert after == t[|t| - |after|..];
    WhereInSuffix(t, |t| - |after|);
  }

  // ---- every operation, in every world ----

  lemma EnqueueBalances(w: World, b: Box, item: SpillItem, id: string)
    ensures Places(Enqueue(w, b, item), id) == Places(b, id) + One(item.id, id)
  {
    TierInsert(b.rows, item.(createdAt := w.now(b.stmts)), id);
    LogCounts(b.(stmts := b.stmts + 1), Refused(item.id), id);
  }

  lemma MakeRoomBalances(w: World, b: Box, id: string)
    ensures Places(MakeRoom(w, b).0, id) == Places(b, id)
  {
    var over := |b.rows| - b.cfg.spillMaxRows + 1;
    if over > 0 {
      var k := Min(over, |b.rows|);
      TierConcat(b.rows[..k], b.rows[k..], id);
      assert b.rows == b.rows[..k] + b.rows[k..];
      EvictionsLeave(b.rows[..k], id);
      LeftConcat(b.log, Evictions(b.rows[..k]), id);
    }
  }

  lemma SubmitBalances(w: World, b: Box, item: SpillItem, id: string)
    ensures Places(Submit(w, b, item), id) == Places(b, id) + One(item.id, id)
  {
    if |b.mem| < b.cfg.memoryMax {
      TierConcat(b.mem, [item], id);
      assert InTier([item], id) == One(item.id, id);
    } else {
      var (b1, ok) := MakeRoom(w, b);
      MakeRoomBalances(w, b, id);
      EnqueueBalances(w, b1, item, id);
      LogCounts(b1, Refused(item.id), id);
    }
  }

  /** An item taken from memory ends in the table, acknowledged, or recorded as dropped. */
  lemma DeliverFromMemoryBalances(w: World, b: Box, item: SpillItem, id: string)
    ensures Places(Deliver(w, b, item, false), id) == Places(b, id) + One(item.id, id)
  {
    if item.attempts >= b.cfg.maxAttempts {
      LogCounts(b, OverAttempts(item.id), id);
    } else {
      var outcome := Send(w, b, item);
      var b1 := Log(b.(sends := b.sends + 1), Sent(item.id, outcome));
      LogCounts(b.(sends := b.sends + 1), Sent(item.id, outcome), id);
      if !outcome.Acked? {
        var item' := if outcome.Failed? then item.(attempts := item.attempts + 1, lastError := outcome.error) else item;
        DeliverMemoryCases(w, b, item);
        MakeRoomBalances(w, b1, id);
        EnqueueBalances(w, MakeRoom(w, b1).0, item', id);
      }
    }
  }

  /** A spilled item leaves the table exactly when it is recorded as gone, unless the delete fails. */
  lemma DeliverFromSpillBalances(w: World, b: Box, item: SpillItem, id: string)
    requires UniqueIds(b.rows) && HasId(b.rows, item.id)
    ensures Places(b, id) <= Places(Deliver(w, b, item, true), id)
    ensures !w.fault(b.stmts) ==> Places(Deliver(w, b, item, true), id) == Places(b, id)
  {
    TierDelete(b.rows, item.id, id);
    if item.attempts >= b.cfg.maxAttempts {
      LogCounts(b, OverAttempts(item.id), id);
    } else {
      var outcome := Send(w, b, item);
      LogCounts(b.(sends := b.sends + 1), Sent(item.id, outcome), id);
      if outcome.Failed? {
        TierIncrement(b.rows, item.id, outcome.error, id);
      }
    }
  }

  ghost predicate FaultFree(w: World) { forall n :: !w.fault(n) }

  lemma {:induction false} DrainMemBalances(w: World, b: Box, id: string)
    ensures Places(DrainMem(w, b).0, id) == Places(b, id)
    decreases |b.mem|
  {
    if b.mem != [] {
      var b0 := b.(mem := b.mem[1..]);
      DeliverFromMemoryBalances(w, b0, b.mem[0], id);
      var b1 := Deliver(w, b0, b.mem[0], false);
      DrainMemBalances(w, b1.(checks := b1.checks + 1), id);
    }
  }

  ghost predicate AllPresent(page: Table, t: Table)
  {
    && UniqueIds(page)
    && forall i :: 0 <= i < |page| ==> HasId(t, page[i].id)
  }

  /** Delivering one row from the spill never removes another. */
  lemma DeliverSpillKeepsOthers(w: World, b: Box, item: SpillItem, id: string)
    requires id != item.id && HasId(b.rows, id)
    ensures HasId(Deliver(w, b, item, true).rows, id)
  {
    var t := b.rows;
    var i :| 0 <= i < |t| && t[i].id == id;
    DeliverSpillRows(w, b, item);
    WhereMembers(t, (x: SpillItem) => x.id != item.id);
    assert t[i] in Delete(t, item.id);
    if Send(w, b, item).Failed? {
      IncrementShape(t, item.id, Send(w, b, item).error);
    }
    var u := Deliver(w, b, item, true).rows;
    if u == Delete(t, item.id) {
      var j :| 0 <= j < |u| && u[j] == t[i];
    } else {
      assert u[i].id == id;
    }
  }

  lemma DeliverSpillKeepsRest(w: World, b: Box, page: Table)
    requires page != [] && AllPresent(page, b.rows)
    ensures AllPresent(page[1..], Deliver(w, b, page[0], true).rows)
  {
    forall i | 0 <= i < |page[1..]| ensures HasId(Deliver(w, b, page[0], true).rows, page[1..][i].id) {
      DeliverSpillKeepsOthers(w, b, page[0], page[i + 1].id);
    }
  }

  ghost predicate Pageable(b: Box, page: Table)
  {
    IsTable(b.rows) && NamedIds(b.rows) && NamedIds(page) && AllPresent(page, b.rows)
  }

  lemma DeliverRowBalances(w: World, b: Box, page: Table, id: string)
    requires page != [] && Pageable(b, page)
    ensures Pageable(Deliver(w, b, page[0], true), page[1..])
    ensures Places(b, id) <= Places(Deliver(w, b, page[0], true), id)
    ensures FaultFree(w) ==> Places(Deliver(w, b, page[0], true), id) == Places(b, id)
  {
    DeliverFromSpillBalances(w, b, page[0], id);
    DeliverKeepsTable(w, b, page[0], true);
    DeliverSpillKeepsRest(w, b, page);
  }

  lemma {:induction false} DrainPageBalances(w: World, b: Box, page: Table, cursor: Key, id: string)
    requires Pageable(b, page)
    ensures Places(b, id) <= Places(DrainPage(w, b, page, cursor).0, id)
    ensures FaultFree(w) ==> Places(DrainPage(w, b, page, cursor).0, id) == Places(b, id)
    decreases |page|
  {
    if page != [] && !w.canceled(b.checks) {
      var b1 := b.(checks := b.checks + 1);
      var b2 := Deliver(w, b1, page[0], true);
      assert DrainPage(w, b, page, cursor) == DrainPage(w, b2, page[1..], KeyOf(page[0]));
      DeliverRowBalances(w, b1, page, id);
      assert Places(b1, id) == Places(b, id);
      DrainPageBalances(w, b2, page[1..], KeyOf(page[0]), id);
    }
  }

  lemma PageAllPresent(t: Table, limit: nat, c: Key)
    requires IsTable(t)
    ensures AllPresent(Page(t, limit, c), t)
  {
    WhereIsTable(t, (x: SpillItem) => Before(c, KeyOf(x)));
    WhereMembers(t, (x: SpillItem) => Before(c, KeyOf(x)));
    var page := Page(t, limit, c);
    forall i | 0 <= i < |page| ensures HasId(t, page[i].id) {
      assert page[i] in page;
      assert page[i] in t;
    }
  }

  lemma DrainStepBalances(w: World, b: Box, cursor: Key, id: string)
    requires IsTable(b.rows) && NamedIds(b.rows)
    ensures var b' := DrainStep(w, b, cursor).0;
      Places(b, id) <= Places(b', id) && (FaultFree(w) ==> Places(b', id) == Places(b, id))
  {
    PageAllPresent(b.rows, PAGE_SIZE, cursor);
    PageRowsAreNamed(b.rows, PAGE_SIZE, cursor);
    var b2 := b.(checks := b.checks + 1, stmts := b.stmts + 1);
    DrainPageBalances(w, b2, Page(b.rows, PAGE_SIZE, cursor), cursor, id);
  }

  lemma {:induction false} DrainSpillBalances(w: World, b: Box, cursor: Key, id: string)
    requires IsTable(b.rows) && NamedIds(b.rows)
    ensures var b' := DrainSpill(w, b, cursor);
      Places(b, id) <= Places(b', id) && (FaultFree(w) ==> Places(b', id) == Places(b, id))
    decreases Above(b.rows, cursor)
  {
    DrainStepAdvances(w, b, cursor);
    DrainStepBalances(w, b, cursor, id);
    var (b', c', done) := DrainStep(w, b, cursor);
    if !done {
      DrainSpillBalances(w, b', c', id);
    }
  }

  lemma UnprunedBalances(t: Table, id: string)
    requires UniqueIds(t)
    ensures Left(Prunings(t, t), id) == 0
  {
    PruningsLeave(t, t, id);
    WhereMembers(t, (x: SpillItem) => x in t);
  }

  /** Replacing the rows by a balanced selection of them, recording the rest, moves nothing. */
  lemma StageBalances(b: Box, after: Table, id: string)
    requires Left(Prunings(b.rows, after), id) + InTier(after, id) == InTier(b.rows, id)
    ensures Places(b.(rows := after, log := b.log + Prunings(b.rows, after)), id) == Places(b, id)
  {
    LeftConcat(b.log, Prunings(b.rows, after), id);
  }

  lemma AgedBalances(w: World, b: Box, cutoff: string, id: string)
    requires IsTable(b.rows) && NamedIds(b.rows)
    ensures Places(PruneAged(w, b, cutoff), id) == Places(b, id) && IsTable(PruneAged(w, b, cutoff).rows)
  {
    PrunedRowsAreRows(b.rows, cutoff);
    PruneByAgeBalances(b.rows, cutoff, id);
    UnprunedBalances(b.rows, id);
    StageBalances(b, PruneAged(w, b, cutoff).rows, id);
  }

  lemma CountedBalances(w: World, b: Box, id: string)
    requires IsTable(b.rows)
    ensures Places(PruneCounted(w, b), id) == Places(b, id)
  {
    PruneByCountBalances(b.rows, b.cfg.spillMaxRows, id);
    UnprunedBalances(b.rows, id);
    StageBalances(b, PruneCounted(w, b).rows, id);
  }

  lemma PruneBalances(w: World, b: Box, cutoff: string, id: string)
    requires IsTable(b.rows) && NamedIds(b.rows)
    ensures Places(PruneOnce(w, b, cutoff), id) == Places(b, id)
  {
    AgedBalances(w, b, cutoff, id);
    CountedBalances(w, PruneAged(w, b, cutoff), id);
  }

  // ---- whole runs ----

  datatype Op = DoSubmit(item: SpillItem) | DoDrain | DoPrune(cutoff: string) | DoConfig(next: Config)

  function Apply(w: World, b: Box, op: Op): Box
    requires IsTable(b.rows) && NamedIds(b.rows) && NamedIds(b.mem)
  {
    match op
    case DoSubmit(item) => Submit(w, b, item)
    case DoDrain => DrainOnce(w, b)
    case DoPrune(cutoff) => PruneOnce(w, b, cutoff)
    case DoConfig(next) => b.(cfg := Swap(b.cfg, next))
  }

  ghost predicate Wellformed(b: Box) { IsTable(b.rows) && NamedIds(b.rows) && NamedIds(b.mem) }

  ghost predicate Submittable(op: Op) { op.DoSubmit? ==> op.item.id != "" }

  lemma DrainStepFrame(w: World, b: Box, cursor: Key)
    ensures DrainStep(w, b, cursor).0.mem == b.mem && DrainStep(w, b, cursor).0.cfg == b.cfg
  {
    DrainPageFrame(w, b.(checks := b.checks + 1, stmts := b.stmts + 1), Page(b.rows, PAGE_SIZE, cursor), cursor);
  }

  lemma {:induction false} DrainSpillKeepsTable(w: World, b: Box, cursor: Key)
    requires IsTable(b.rows) && NamedIds(b.rows)
    ensures IsTable(DrainSpill(w, b, cursor).rows) && NamedIds(DrainSpill(w, b, cursor).rows)
    ensures DrainSpill(w, b, cursor).mem == b.mem && DrainSpill(w, b, cursor).cfg == b.cfg
    decreases Above(b.rows, cursor)
  {
    DrainStepAdvances(w, b, cursor);
    DrainStepFrame(w, b, cursor);
    var (b', c', done) := DrainStep(w, b, cursor);
    if !done {
      DrainSpillKeepsTable(w, b', c');
    }
  }

  lemma {:induction false} DrainPageFrame(w: World, b: Box, page: Table, cursor: Key)
    ensures DrainPage(w, b, page, cursor).0.mem == b.mem && DrainPage(w, b, page, cursor).0.cfg == b.cfg
    decreases |page|
  {
    if page != [] && !w.canceled(b.checks) {
      DrainPageFrame(w, Deliver(w, b.(checks := b.checks + 1), page[0], true), page[1..], KeyOf(page[0]));
    }
  }

  lemma ApplyKeepsWellformed(w: World, b: Box, op: Op)
    requires Wellformed(b) && Submittable(op)
    ensures Wellformed(Apply(w, b, op))
  {
    match op
    case DoSubmit(item) =>
      if |b.mem| >= b.cfg.memoryMax {
        SpillKeepsTable(w, b, item);
        DropOldestIsTable(b.rows, |b.rows| - b.cfg.spillMaxRows + 1);
      }
    case DoDrain =>
      DrainMemKeepsTable(w, b);
      DrainSpillKeepsTable(w, DrainMem(w, b).0, Key("", ""));
    case DoPrune(cutoff) =>
      PrunedRowsAreRows(b.rows, cutoff);
      KeptRowsAreRows(b.rows, b.cfg.spillMaxRows);
      KeptRowsAreRows(PruneOlder(b.rows, cutoff), b.cfg.spillMaxRows);
    case DoConfig(next) =>
  }

  /** How often a run submits an id. */
  function Submitted(ops: seq<Op>, id: string): nat
  {
    if ops == [] then 0
    else (if ops[0].DoSubmit? then One(ops[0].item.id, id) else 0) + Submitted(ops[1..], id)
  }

  ghost function Run(w: World, b: Box, ops: seq<Op>): Box
    requires Wellformed(b) && forall op :: op in ops ==> Submittable(op)
    decreases |ops|
  {
    if ops == [] then b
    else
      assert ops[0] in ops;
      ApplyKeepsWellformed(w, b, ops[0]);
      Run(w, Apply(w, b, ops[0]), ops[1..])
  }

  lemma ApplyBalances(w: World, b: Box, op: Op, id: string)
    requires Wellformed(b) && Submittable(op)
    ensures var n := Places(b, id) + if op.DoSubmit? then One(op.item.id, id) else 0;
      n <= Places(Apply(w, b, op), id) && (FaultFree(w) ==> Places(Apply(w, b, op), id) == n)
  {
    match op {
      case DoSubmit(item) => SubmitBalances(w, b, item, id);
      case DoDrain =>
        DrainMemBalances(w, b, id);
        DrainMemKeepsTable(w, b);
        DrainSpillBalances(w, DrainMem(w, b).0, Key("", ""), id);
      case DoPrune(cutoff) => PruneBalances(w, b, cutoff, id);
      case DoConfig(_) =>
    }
  }

  /** Over any run and any faults nothing vanishes unrecorded; without faults nothing is recorded twice. */
  lemma {:induction false} RunBalances(w: World, b: Box, ops: seq<Op>, id: string)
    requires Wellformed(b) && forall op :: op in ops ==> Submittable(op)
    ensures Places(b, id) + Submitted(ops, id) <= Places(Run(w, b, ops), id)
    ensures FaultFree(w) ==> Places(Run(w, b, ops), id) == Places(b, id) + Submitted(ops, id)
    decreases |ops|
  {
    if ops != [] {
      assert ops[0] in ops;
      ApplyKeepsWellformed(w, b, ops[0]);
      ApplyBalances(w, b, ops[0], id);
      RunBalances(w, Apply(w, b, ops[0]), ops[1..], id);
    }
  }

  /** Started empty and without faults, an id submitted once is in exactly one place. */
  lemma ExactlyOnePlace(w: World, cfg: Config, ops: seq<Op>, id: string)
    requires FaultFree(w) && (forall op :: op in ops ==> Submittable(op))
    requires Submitted(ops, id) == 1
    ensures var b := Run(w, Box(cfg, [], [], 0, 0, 0, []), ops);
      InTier(b.mem, id) + InTier(b.rows, id) + Left(b.log, id) == 1
  {
    RunBalances(w, Box(cfg, [], [], 0, 0, 0, []), ops, id);
  }
}
