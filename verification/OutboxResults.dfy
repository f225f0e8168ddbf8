/** What an operation of the outbox comes to, in terms of the rows, the memory and the server's answers alone. */
module OutboxResults {
  import opened TextOrder
  import opened SpillStore
  import opened OutboxConfig
  import opened Outbox
  import opened OutboxLedger
  import opened OutboxDrain

  // ---- one delivery ----

  /** A report's row that the server accepts is deleted, and no other row is. */
  lemma AcceptedRow(w: World, b: Box, r: SpillItem)
    requires r.kind == "job_report" && r.attempts < b.cfg.maxAttempts && w.send(b.sends, r) == Acked && !w.fault(b.stmts)
    ensures var b' := Deliver(w, b, r, true);
      && (forall x :: x in b'.rows <==> x in b.rows && x.id != r.id)
      && b'.rows == Delete(b.rows, r.id) && b'.mem == b.mem
      && b'.sends == b.sends + 1 && b'.log == b.log + [Sent(r.id, Acked)]
  {
    DeleteTakesOne(b.rows, r.id);
  }

  /** One that the server refuses stays with one attempt more and the server's error. */
  lemma RefusedRow(w: World, b: Box, r: SpillItem, e: string)
    requires r.kind == "job_report" && r.attempts < b.cfg.maxAttempts && w.send(b.sends, r) == Failed(e) && !w.fault(b.stmts)
    ensures var b' := Deliver(w, b, r, true);
      && |b'.rows| == |b.rows| && b'.mem == b.mem
      && (forall i :: 0 <= i < |b.rows| ==>
            b'.rows[i] == if b.rows[i].id == r.id then b.rows[i].(attempts := b.rows[i].attempts + 1, lastError := e) else b.rows[i])
      && b'.sends == b.sends + 1 && b'.log == b.log + [Sent(r.id, Failed(e))]
  {
    IncrementShape(b.rows, r.id, e);
  }

  /** One whose send is canceled by the shutdown stays as it is. */
  lemma CanceledRow(w: World, b: Box, r: SpillItem)
    requires r.kind == "job_report" && r.attempts < b.cfg.maxAttempts && w.send(b.sends, r) == Canceled
    ensures var b' := Deliver(w, b, r, true);
      b'.rows == b.rows && b'.mem == b.mem && b'.sends == b.sends + 1 && b'.log == b.log + [Sent(r.id, Canceled)]
  {
  }

  /** One out of attempts is deleted without a send. */
  lemma ExhaustedRow(w: World, b: Box, r: SpillItem)
    requires r.attempts >= b.cfg.maxAttempts && !w.fault(b.stmts)
    ensures var b' := Deliver(w, b, r, true);
      && (forall x :: x in b'.rows <==> x in b.rows && x.id != r.id)
      && b'.mem == b.mem && b'.sends == b.sends && b'.log == b.log + [OverAttempts(r.id)]
  {
    DeleteTakesOne(b.rows, r.id);
  }

  /** An item of unknown kind counts as refused, whatever the server would answer. */
  lemma UnknownKind(w: World, b: Box, r: SpillItem)
    requires r.kind != "job_report" && r.attempts < b.cfg.maxAttempts && !w.fault(b.stmts)
    ensures var b' := Deliver(w, b, r, true);
      && |b'.rows| == |b.rows| && b'.mem == b.mem
      && forall i :: 0 <= i < |b.rows| ==>
           if b.rows[i].id == r.id then b'.rows[i].id == r.id && b'.rows[i].attempts == b.rows[i].attempts + 1
           else b'.rows[i] == b.rows[i]
  {
    IncrementShape(b.rows, r.id, "unsupported outbox kind");
  }

  /** The item is in the table with these attempts and this error; its time is the statement's. */
  ghost predicate StoredAs(t: Table, item: SpillItem, attempts: nat, error: string)
  {
    exists x :: x in t && x.id == item.id && x.kind == item.kind && x.payload == item.payload
      && x.attempts == attempts && x.lastError == error
  }

  /** A spill without faults: the item is in, no more rows than the cap, and nothing goes while there is room. */
  lemma Spilled(w: World, b: Box, item: SpillItem)
    requires FaultFree(w) && IsTable(b.rows) && !HasId(b.rows, item.id) && b.cfg.spillMaxRows > 0
    ensures var b' := SpillWithEviction(w, b, item);
      && b'.mem == b.mem && StoredAs(b'.rows, item, item.attempts, item.lastError)
      && |b'.rows| == Min(|b.rows|, b.cfg.spillMaxRows - 1) + 1
      && (|b.rows| < b.cfg.spillMaxRows ==> forall x :: x in b.rows ==> x in b'.rows)
      && (forall x :: x in b'.rows ==> x in b.rows || x.id == item.id)
      && (forall x, y :: x in b.rows && x !in b'.rows && y in b.rows && y in b'.rows ==> Before(KeyOf(x), KeyOf(y)))
  {
    var over := |b.rows| - b.cfg.spillMaxRows + 1;
    var kept := if over > 0 then DropOldest(b.rows, over) else b.rows;
    var b1 := MakeRoom(w, b).0;
    assert b1.rows == kept;
    var r := item.(createdAt := w.now(b1.stmts));
    InsertRowMembers(kept, r);
    if over > 0 { KeptById(b.rows, over, item.id); }
    assert SpillWithEviction(w, b, item).rows == InsertRow(kept, r);
    if over > 0 { EvictedBefore(b.rows, over); }
  }

  lemma KeptById(t: Table, n: nat, id: string)
    requires IsTable(t) && !HasId(t, id) && n <= |t|
    ensures !HasId(DropOldest(t, n), id) && |DropOldest(t, n)| == |t| - n
  {
  }

  lemma EvictedBefore(t: Table, n: nat)
    requires Ordered(t) && n <= |t|
    ensures forall x, y :: x in t && x !in DropOldest(t, n) && y in DropOldest(t, n) ==> Before(KeyOf(x), KeyOf(y))
  {
    DropOldestTakesOldest(t, n);
    forall x | x in t && x !in DropOldest(t, n) ensures x in t[..n] {
      assert t == t[..n] + DropOldest(t, n);
    }
  }

  /** From memory: an accepted report is gone from both tiers; a refused one is spilled with one attempt more
      and the server's error, a canceled one as it was; one out of attempts is dropped without a send. */
  lemma ItemAnswered(w: World, b: Box, item: SpillItem)
    requires FaultFree(w) && IsTable(b.rows) && !HasId(b.rows, item.id) && b.cfg.spillMaxRows > 0 && item.kind == "job_report"
    ensures var b', answer := Deliver(w, b, item, false), w.send(b.sends, item);
      && b'.mem == b.mem
      && (item.attempts >= b.cfg.maxAttempts ==>
            b'.rows == b.rows && b'.sends == b.sends && b'.log == b.log + [OverAttempts(item.id)])
      && (item.attempts < b.cfg.maxAttempts ==>
            && b'.sends == b.sends + 1 && b.log + [Sent(item.id, answer)] <= b'.log
            && match answer
               case Acked => b'.rows == b.rows && b'.log == b.log + [Sent(item.id, Acked)]
               case Canceled => StoredAs(b'.rows, item, item.attempts, item.lastError)
               case Failed(e) => StoredAs(b'.rows, item, item.attempts + 1, e))
  {
    var answer := w.send(b.sends, item);
    if item.attempts < b.cfg.maxAttempts && !answer.Acked? {
      var sent := Log(b.(sends := b.sends + 1), Sent(item.id, answer));
      var again := if answer.Failed? then item.(attempts := item.attempts + 1, lastError := answer.error) else item;
      DeliverMemoryCases(w, b, item);
      Spilled(w, sent, again);
      SpillOnlyAdds(w, sent, again);
    }
  }

  lemma SpillOnlyAdds(w: World, b: Box, item: SpillItem)
    ensures b.log <= SpillWithEviction(w, b, item).log && SpillWithEviction(w, b, item).sends == b.sends
  {
  }

  // ---- submitting ----

  /** Room in memory takes the item there and nothing else changes. */
  lemma SubmitToMemory(w: World, b: Box, item: SpillItem)
    requires |b.mem| < b.cfg.memoryMax
    ensures Submit(w, b, item) == b.(mem := b.mem + [item])
  {
  }

  /** A full memory spills the item as it is. */
  lemma SubmitToSpill(w: World, b: Box, item: SpillItem)
    requires FaultFree(w) && IsTable(b.rows) && !HasId(b.rows, item.id) && b.cfg.spillMaxRows > 0
    requires |b.mem| >= b.cfg.memoryMax
    ensures var b' := Submit(w, b, item);
      && b'.mem == b.mem && StoredAs(b'.rows, item, item.attempts, item.lastError)
      && |b'.rows| == Min(|b.rows|, b.cfg.spillMaxRows - 1) + 1
  {
    Spilled(w, b, item);
    assert Submit(w, b, item) == SpillWithEviction(w, b, item);
  }

  /** A full memory refuses the item when counting, evicting or inserting fails, and on a known id; the
      rows stay, but for those already evicted. */
  lemma SubmitRefused(w: World, b: Box, item: SpillItem)
    requires |b.mem| >= b.cfg.memoryMax && b.cfg.spillMaxRows > 0
    ensures var b', full := Submit(w, b, item), |b.rows| >= b.cfg.spillMaxRows;
      && b'.mem == b.mem
      && (w.fault(b.stmts) ==> b'.rows == b.rows && b'.log == b.log + [Refused(item.id)])
      && (!w.fault(b.stmts) && full && w.fault(b.stmts + 1) ==> b'.rows == b.rows && b'.log == b.log + [Refused(item.id)])
      && (!w.fault(b.stmts) && !full && (w.fault(b.stmts + 1) || HasId(b.rows, item.id)) ==>
            b'.rows == b.rows && b'.log == b.log + [Refused(item.id)])
  {
  }

  /** The worker's own spill goes on to the insert even when counting or evicting failed. */
  lemma WorkerSpillsAnyway(w: World, b: Box, item: SpillItem)
    requires w.fault(b.stmts) && !w.fault(b.stmts + 1) && !HasId(b.rows, item.id)
    ensures var b' := SpillWithEviction(w, b, item);
      |b'.rows| == |b.rows| + 1 && StoredAs(b'.rows, item, item.attempts, item.lastError) && b'.log == b.log
  {
    InsertRowMembers(b.rows, item.(createdAt := w.now(b.stmts + 1)));
  }

  // ---- a whole drain ----

  /** The server accepts every report. */
  ghost predicate Accepts(w: World) { forall n, item :: w.send(n, item) == Acked }

  ghost predicate Deliverable(t: seq<SpillItem>, maxAttempts: int)
  {
    forall x :: x in t ==> x.kind == "job_report" && x.attempts < maxAttempts
  }

  /** One accepted send after the other. */
  function Receipts(t: seq<SpillItem>): seq<Event> { seq(|t|, i requires 0 <= i < |t| => Sent(t[i].id, Acked)) }

  lemma ReceiptsOfHead(t: seq<SpillItem>)
    requires t != []
    ensures Receipts(t) == [Sent(t[0].id, Acked)] + Receipts(t[1..])
  {
  }

  lemma {:induction false} MemoryAccepted(w: World, b: Box)
    requires Accepts(w) && Uncanceled(w) && Deliverable(b.mem, b.cfg.maxAttempts)
    ensures var b' := DrainMem(w, b).0;
      b'.mem == [] && b'.rows == b.rows && b'.cfg == b.cfg && b'.log == b.log + Receipts(b.mem)
    decreases |b.mem|
  {
    if b.mem != [] {
      assert b.mem[0] in b.mem && forall x :: x in b.mem[1..] ==> x in b.mem;
      ReceiptsOfHead(b.mem);
      var b1 := Deliver(w, b.(mem := b.mem[1..]), b.mem[0], false);
      assert b1.log == b.log + [Sent(b.mem[0].id, Acked)];
      MemoryAccepted(w, b1.(checks := b1.checks + 1));
    }
  }

  lemma HeadDeleted(t: Table)
    requires IsTable(t) && t != []
    ensures Delete(t, t[0].id) == t[1..] && IsTable(t[1..])
  {
    assert t == [] + [t[0]] + t[1..] && [] + t[1..] == t[1..];
    DeleteMiddle([], t[0], t[1..]);
    TailIsTable(t);
  }

  lemma FirstAccepted(w: World, b: Box)
    requires FaultFree(w) && Accepts(w) && IsTable(b.rows) && Deliverable(b.rows, b.cfg.maxAttempts) && b.rows != []
    ensures var b1 := Deliver(w, b, b.rows[0], true);
      && b1.rows == b.rows[1..] && IsTable(b1.rows) && Deliverable(b1.rows, b.cfg.maxAttempts)
      && b1.mem == b.mem && b1.cfg == b.cfg && b1.log == b.log + [Sent(b.rows[0].id, Acked)]
  {
    assert b.rows[0] in b.rows && forall x :: x in b.rows[1..] ==> x in b.rows;
    AcceptedRow(w, b, b.rows[0]);
    HeadDeleted(b.rows);
  }

  lemma {:induction false} PassAccepted(w: World, b: Box)
    requires FaultFree(w) && Accepts(w) && IsTable(b.rows) && Deliverable(b.rows, b.cfg.maxAttempts)
    ensures var b' := OnePass(w, b, b.rows); b'.rows == [] && b'.mem == b.mem && b'.log == b.log + Receipts(b.rows)
    decreases |b.rows|
  {
    if b.rows != [] {
      FirstAccepted(w, b);
      ReceiptsOfHead(b.rows);
      PassAccepted(w, Deliver(w, b, b.rows[0], true));
    }
  }

  /** A server that accepts everything gets, in one undisturbed drain, each report once, memory first and then
      the rows in order; afterwards nothing is left. */
  lemma AcceptedDrain(w: World, b: Box)
    requires FaultFree(w) && Uncanceled(w) && Accepts(w) && Wellformed(b)
    requires Deliverable(b.mem, b.cfg.maxAttempts) && Deliverable(b.rows, b.cfg.maxAttempts)
    ensures var b' := DrainOnce(w, b);
      b'.mem == [] && b'.rows == [] && b'.log == b.log + Receipts(b.mem) + Receipts(b.rows)
  {
    DrainIsOnePass(w, b);
    MemoryAccepted(w, b);
    var b1 := DrainMem(w, b).0;
    PassAccepted(w, b1);
  }

  /** During a shutdown a drain delivers one item of memory and no row. */
  lemma CanceledDrain(w: World, b: Box)
    requires (forall n :: w.canceled(n)) && Wellformed(b)
    ensures b.mem == [] ==> DrainOnce(w, b).rows == b.rows && DrainOnce(w, b).mem == [] && DrainOnce(w, b).sends == b.sends
    ensures b.mem != [] ==>
      DrainOnce(w, b).mem == b.mem[1..] && DrainOnce(w, b).log == Deliver(w, b.(mem := b.mem[1..]), b.mem[0], false).log
  {
  }

  /** The drain reads fifty rows at a time. */
  lemma PagesOfFifty(t: Table, after: Key)
    ensures |Page(t, PAGE_SIZE, after)| == (if after.id == "" then Min(50, |t|) else Min(50, |Newer(t, after)|))
  {
  }

  // ---- a whole prune ----

  /** A prune leaves the newest rows not older than the cutoff, up to the cap. */
  lemma Pruned(w: World, b: Box, cutoff: string)
    requires FaultFree(w) && IsTable(b.rows) && b.cfg.spillMaxRows > 0
    ensures var b' := PruneOnce(w, b, cutoff);
      && b'.mem == b.mem && b'.sends == b.sends && |b'.rows| <= b.cfg.spillMaxRows
      && (forall x :: x in b'.rows ==> x in b.rows && !Less(x.createdAt, cutoff))
      && (forall x :: x in b.rows && !Less(x.createdAt, cutoff) && x !in b'.rows ==>
            |b'.rows| == b.cfg.spillMaxRows && forall y :: y in b'.rows ==> Before(KeyOf(x), KeyOf(y)))
  {
    var aged := PruneOlder(b.rows, cutoff);
    LessIrreflexive(cutoff);
    PruneTakesOlder(b.rows, cutoff);
    WhereIsTable(b.rows, (x: SpillItem) => !Less(x.createdAt, cutoff));
    PruneTakesOldest(aged, b.cfg.spillMaxRows);
    var kept := PruneOnce(w, b, cutoff).rows;
    assert kept == KeepNewest(aged, b.cfg.spillMaxRows);
    forall x | x in b.rows && !Less(x.createdAt, cutoff) && x !in kept
      ensures |kept| == b.cfg.spillMaxRows && forall y :: y in kept ==> Before(KeyOf(x), KeyOf(y))
    {
      assert x in aged && x in aged[..|aged| - |kept|];
    }
  }
}
