/** How often an item is acknowledged: once, and once more for each time deleting its row fails. */
module OutboxAcks {
  import opened TextOrder
  import opened SpillStore
  import Outbox
  import opened OutboxInterleaving
  import opened OutboxPaging

  /** The step is an acknowledged send of this item. */
  predicate Acks(s: State, step: Step, id: string)
  {
    && step.SendItem? && step.outcome.Acked? && s.job.Delivering?
    && s.job.item.attempts < s.maxAttempts && s.job.item.id == id
  }

  /** The step fails to delete this item's row. */
  predicate DeleteFails(s: State, step: Step, id: string)
  {
    step.FinishDelete? && step.fault && s.job == Deleting(id)
  }

  function Acking(id: string): (State, Step) -> nat { (s, step) => if Acks(s, step, id) then 1 else 0 }

  function Undeleting(id: string): (State, Step) -> nat { (s, step) => if DeleteFails(s, step, id) then 1 else 0 }

  function AckCount(s: State, steps: seq<Step>, id: string): nat
    requires Runs(s, steps)
  {
    Count(s, steps, Acking(id))
  }

  function FailedDeletes(s: State, steps: seq<Step>, id: string): nat
    requires Runs(s, steps)
  {
    Count(s, steps, Undeleting(id))
  }

  // ---- nobody else holds what the worker sends ----

  lemma ItemOfRow(s: State)
    requires Sound(s) && s.job.Delivering? && s.job.fromSpill
    ensures s.job.item.id in s.stored && forall x :: x in s.page ==> x.id != s.job.item.id
  {
    var i :| 0 <= i < |s.handed| && s.handed[i] == s.job.item;
    assert Seen(s)[i] == s.job.item && s.job.item in Seen(s);
    forall x | x in s.page ensures x.id != s.job.item.id {
      var k :| 0 <= k < |s.page| && s.page[k] == x;
      assert Seen(s)[|s.handed| + k] == x;
    }
  }

  lemma ItemOfMemory(s: State)
    requires Sound(s) && s.job.Delivering? && !s.job.fromSpill
    ensures s.job.item.id !in s.stored
    ensures forall x :: x in s.mem || x in s.page || x in s.table ==> x.id != s.job.item.id
  {
    forall x | x in s.mem ensures x.id != s.job.item.id {
      var k :| 0 <= k < |s.mem| && s.mem[k] == x;
      assert HasId(s.mem, x.id);
    }
    forall x | x in s.page ensures x.id in s.stored { assert x in Seen(s); }
  }

  lemma SentIsAlone(s: State)
    requires Sound(s) && s.job.Delivering?
    ensures forall x :: x in s.mem || x in s.page ==> x.id != s.job.item.id
    ensures forall i :: 0 <= i < |s.spillers| && !s.spillers[i].Idle? ==> s.spillers[i].item.id != s.job.item.id
    ensures !s.job.fromSpill ==> forall x :: x in s.table ==> x.id != s.job.item.id
    ensures s.job.item.id in s.submitted
  {
    if s.job.fromSpill {
      ItemOfRow(s);
      forall x | x in s.mem ensures x.id !in s.stored {
        var k :| 0 <= k < |s.mem| && s.mem[k] == x;
      }
    } else {
      ItemOfMemory(s);
    }
  }

  // ---- an item that is gone stays gone ----

  /** The item is nowhere any more, but for the row that is about to be deleted. */
  ghost predicate Gone(s: State, id: string)
  {
    && id in s.submitted
    && (forall x :: x in s.mem || x in s.page ==> x.id != id)
    && (forall i :: 0 <= i < |s.spillers| && !s.spillers[i].Idle? ==> s.spillers[i].item.id != id)
    && (forall x :: x in s.table && x.id == id ==> s.job == Deleting(id))
    && (s.job.Delivering? ==> s.job.item.id != id)
  }

  lemma AckedIsGone(s: State, step: Step, id: string)
    requires Enabled(s, step) && Sound(s) && Acks(s, step, id)
    ensures Gone(Do(s, step), id)
  {
    SentIsAlone(s);
  }

  lemma SendKeepsGone(s: State, step: Step, id: string)
    requires step.SendItem? && Enabled(s, step) && Gone(s, id)
    ensures Gone(Do(s, step), id)
  {
  }

  lemma MoveKeepsGone(s: State, step: Step, id: string)
    requires step.TakeMem? || step.StartPaging? || step.ReadPage? || step.NextRow? || step.Abandon? || step.SubmitMem? || step.Configure?
    requires Enabled(s, step) && Sound(s) && Gone(s, id)
    ensures Gone(Do(s, step), id)
  {
    match step
    case TakeMem => assert s.mem[0] in s.mem;
    case NextRow => assert s.page[0] in s.page;
    case ReadPage => PageIsNext(s.table, Outbox.PAGE_SIZE, s.cursor);
    case _ =>
  }

  lemma SpillerKeepsGone(s: State, step: Step, id: string)
    requires step.SubmitSpill? || step.CountRows?
    requires Enabled(s, step) && Gone(s, id)
    ensures Gone(Do(s, step), id)
  {
  }

  lemma EvictKeepsGone(s: State, step: Step, id: string)
    requires step.EvictRows? && Enabled(s, step) && Gone(s, id)
    ensures Gone(Do(s, step), id)
  {
  }

  lemma InsertKeepsGone(s: State, step: Step, id: string)
    requires step.InsertItem? && Enabled(s, step) && Gone(s, id)
    ensures Gone(Do(s, step), id)
  {
    InsertRowMembers(s.table, s.spillers[step.slot].item.(createdAt := step.now));
  }

  lemma TableKeepsGone(s: State, step: Step, id: string)
    requires step.FinishDelete? || step.FinishRecord? || step.PruneAge? || step.PruneCount?
    requires Enabled(s, step) && Gone(s, id) && !DeleteFails(s, step, id)
    ensures Gone(Do(s, step), id)
  {
    match step
    case FinishDelete(_) => WhereMembers(s.table, (x: SpillItem) => x.id != s.job.id);
    case FinishRecord(fault) =>
      forall x | x in Do(s, step).table && x.id == id ensures false {
        if !fault { var y := RecordedRow(s.table, s.job.id, s.job.err, x); }
      }
    case PruneAge(cutoff) => WhereMembers(s.table, (x: SpillItem) => !Less(x.createdAt, cutoff));
    case PruneCount(_) =>
  }

  /** Recording a failure counts it on that id's row and leaves the others. */
  lemma RecordedRow(t: Table, id: string, err: string, x: SpillItem) returns (y: SpillItem)
    requires x in Increment(t, id, err)
    ensures y in t && y.id == x.id && x.attempts == if y.id == id then y.attempts + 1 else y.attempts
  {
    IncrementShape(t, id, err);
    var i :| 0 <= i < |t| && Increment(t, id, err)[i] == x;
    y := t[i];
  }

  /** Only a failed delete of its own row brings an item back, and a gone item is not sent. */
  lemma StepKeepsGone(s: State, step: Step, id: string)
    requires Enabled(s, step) && Sound(s) && Gone(s, id)
    ensures !Acks(s, step, id)
    ensures !DeleteFails(s, step, id) ==> Gone(Do(s, step), id)
  {
    if !DeleteFails(s, step, id) {
      match step
      case SendItem(_) => SendKeepsGone(s, step, id);
      case SubmitSpill(_, _) => SpillerKeepsGone(s, step, id);
      case CountRows(_, _) => SpillerKeepsGone(s, step, id);
      case EvictRows(_, _) => EvictKeepsGone(s, step, id);
      case InsertItem(_, _, _) => InsertKeepsGone(s, step, id);
      case FinishDelete(_) => TableKeepsGone(s, step, id);
      case FinishRecord(_) => TableKeepsGone(s, step, id);
      case PruneAge(_) => TableKeepsGone(s, step, id);
      case PruneCount(_) => TableKeepsGone(s, step, id);
      case _ => MoveKeepsGone(s, step, id);
    }
  }

  lemma {:induction false} RunAcks(s: State, steps: seq<Step>, id: string)
    requires Runs(s, steps) && Sound(s)
    ensures AckCount(s, steps, id) <= (if Gone(s, id) then 0 else 1) + FailedDeletes(s, steps, id)
    ensures id in Final(s, steps).acked <==> id in s.acked || AckCount(s, steps, id) > 0
    decreases |steps|
  {
    if steps != [] {
      var step := steps[0];
      StepKeepsSound(s, step);
      if Gone(s, id) { StepKeepsGone(s, step, id); }
      if Acks(s, step, id) { AckedIsGone(s, step, id); }
      AckedGrows(s, step, id);
      RunAcks(Do(s, step), steps[1..], id);
    }
  }

  lemma AckedGrows(s: State, step: Step, id: string)
    requires Enabled(s, step)
    ensures id in Do(s, step).acked <==> id in s.acked || Acks(s, step, id)
  {
  }

  /** Whatever fails or interleaves, an item is acknowledged at most once more than its own deletes failed. */
  lemma AckedAtMostOnce(s: State, steps: seq<Step>, id: string)
    requires Init(s) && s.steady == {} && Runs(s, steps)
    ensures AckCount(s, steps, id) <= 1 + FailedDeletes(s, steps, id)
    ensures id in Final(s, steps).acked <==> AckCount(s, steps, id) > 0
  {
    InitPages(s);
    RunAcks(s, steps, id);
  }

  // ---- while no delete fails ----

  ghost predicate Settled(s: State) { forall id :: id in s.acked ==> Gone(s, id) }

  lemma StepSettles(s: State, step: Step)
    requires Enabled(s, step) && Sound(s) && Settled(s) && !(step.FinishDelete? && step.fault)
    ensures Settled(Do(s, step))
  {
    forall id | id in Do(s, step).acked ensures Gone(Do(s, step), id) {
      AckedGrows(s, step, id);
      if Acks(s, step, id) { AckedIsGone(s, step, id); } else { StepKeepsGone(s, step, id); }
    }
  }

  // ---- the bound is attained ----

  /** At rest with one row. */
  predicate OneRowLeft(s: State, r: SpillItem)
  {
    && s.table == [r] && r.id != "" && s.mem == []
    && s.spillers == [Idle] && s.job.NoJob? && !s.paging && s.page == []
  }

  /** The worker delivers that row, the last of its page. */
  predicate RowInHand(s: State, r: SpillItem)
  {
    && s.table == [r] && r.id != "" && s.mem == [] && s.spillers == [Idle] && s.job == Delivering(r, true)
    && s.paging && s.page == [] && s.cursor == KeyOf(r)
  }

  /** And is done with it. */
  predicate RowServed(s: State, r: SpillItem)
  {
    && s.table == [r] && r.id != "" && s.mem == [] && s.spillers == [Idle] && s.job.NoJob?
    && s.paging && s.page == [] && s.cursor == KeyOf(r)
  }

  lemma NothingAfter(r: SpillItem)
    ensures Page([r], Outbox.PAGE_SIZE, Key("", "")) == [r]
    ensures r.id != "" ==> Page([r], Outbox.PAGE_SIZE, KeyOf(r)) == []
  {
    BeforeIrreflexive(KeyOf(r));
    WhereMembers([r], (x: SpillItem) => Before(KeyOf(r), KeyOf(x)));
  }

  lemma CountBoth(s: State, a: seq<Step>, step: Step, f: (State, Step) -> nat, g: (State, Step) -> nat)
    requires Runs(s, a) && Enabled(Final(s, a), step)
    ensures Runs(s, a + [step]) && Final(s, a + [step]) == Do(Final(s, a), step)
    ensures Count(s, a + [step], f) == Count(s, a, f) + f(Final(s, a), step)
    ensures Count(s, a + [step], g) == Count(s, a, g) + g(Final(s, a), step)
  {
    CountThen(s, a, step, f);
    CountThen(s, a, step, g);
  }

  /** Only sends and what follows them count. */
  ghost predicate OfDeliveries(f: (State, Step) -> nat)
  {
    forall s: State, step: Step :: !step.SendItem? && !step.FinishDelete? && !step.FinishRecord? ==> f(s, step) == 0
  }

  /** Nobody submits or reconfigures meanwhile. */
  predicate Undisturbed(steps: seq<Step>)
  {
    forall step :: step in steps ==> !step.Configure? && !step.SubmitMem? && !step.SubmitSpill?
  }

  /** A drain up to the moment the worker has the row in hand. */
  lemma TakeRow(s: State, r: SpillItem, f: (State, Step) -> nat, g: (State, Step) -> nat) returns (steps: seq<Step>)
    requires OneRowLeft(s, r)
    requires OfDeliveries(f) && OfDeliveries(g)
    ensures Runs(s, steps) && Count(s, steps, f) == 0 && Count(s, steps, g) == 0
    ensures RowInHand(Final(s, steps), r) && Final(s, steps).maxAttempts == s.maxAttempts
    ensures Undisturbed(steps)
  {
    NothingAfter(r);
    CountBoth(s, [], StartPaging, f, g);
    steps := [] + [StartPaging];
    CountBoth(s, steps, ReadPage, f, g);
    steps := steps + [ReadPage];
    CountBoth(s, steps, NextRow, f, g);
    steps := steps + [NextRow];
  }

  /** Acknowledged, but the delete fails: one drain leaves everything as it was. */
  lemma AckAndKeep(s: State, r: SpillItem) returns (steps: seq<Step>)
    requires OneRowLeft(s, r) && r.attempts < s.maxAttempts
    ensures Runs(s, steps) && OneRowLeft(Final(s, steps), r) && Final(s, steps).maxAttempts == s.maxAttempts
    ensures AckCount(s, steps, r.id) == 1 && FailedDeletes(s, steps, r.id) == 1
  {
    var f, g := Acking(r.id), Undeleting(r.id);
    steps := TakeRow(s, r, f, g);
    CountBoth(s, steps, SendItem(Outbox.Acked), f, g);
    steps := steps + [SendItem(Outbox.Acked)];
    CountBoth(s, steps, FinishDelete(true), f, g);
    steps := EndDrain(s, steps + [FinishDelete(true)], r, f, g);
  }

  /** The next page is empty. */
  lemma EndDrain(s: State, a: seq<Step>, r: SpillItem, f: (State, Step) -> nat, g: (State, Step) -> nat)
    returns (steps: seq<Step>)
    requires Runs(s, a) && RowServed(Final(s, a), r) && OfDeliveries(f) && OfDeliveries(g)
    ensures Runs(s, steps) && OneRowLeft(Final(s, steps), r) && Final(s, steps).maxAttempts == Final(s, a).maxAttempts
    ensures Count(s, steps, f) == Count(s, a, f) && Count(s, steps, g) == Count(s, a, g)
    ensures steps == a + [ReadPage]
  {
    NothingAfter(r);
    CountBoth(s, a, ReadPage, f, g);
    steps := a + [ReadPage];
  }

  lemma {:induction false} KeepAcking(n: nat) returns (s: State, steps: seq<Step>, r: SpillItem)
    ensures Init(s) && s.steady == {} && Runs(s, steps) && OneRowLeft(Final(s, steps), r)
    ensures r.attempts < Final(s, steps).maxAttempts
    ensures AckCount(s, steps, r.id) == n == FailedDeletes(s, steps, r.id)
  {
    if n == 0 {
      r := SpillItem("a", Outbox.JOB_REPORT, "", 0, "", "t");
      s := State(1, 10, 10, [], [r], [Idle], NoJob, false, Key("", ""), [], {"a"}, {"a"}, {}, {}, {}, {}, {}, [], {});
      steps := [];
    } else {
      s, steps, r := KeepAcking(n - 1);
      var more := AckAndKeep(Final(s, steps), r);
      RunsConcat(s, steps, more);
      CountConcat(s, steps, more, Acking(r.id));
      CountConcat(s, steps, more, Undeleting(r.id));
      steps := steps + more;
    }
  }

  /** For every n some run fails to delete a row n times and has it acknowledged n + 1 times. */
  lemma FailedDeletesRepeat(n: nat) returns (s: State, steps: seq<Step>, id: string)
    ensures Init(s) && s.steady == {} && Runs(s, steps)
    ensures FailedDeletes(s, steps, id) == n && AckCount(s, steps, id) == n + 1
  {
    var r;
    s, steps, r := KeepAcking(n);
    id := r.id;
    var f, g := Acking(id), Undeleting(id);
    var last := TakeRow(Final(s, steps), r, f, g);
    RunsConcat(s, steps, last);
    CountConcat(s, steps, last, f);
    CountConcat(s, steps, last, g);
    CountBoth(s, steps + last, SendItem(Outbox.Acked), f, g);
    steps := steps + last + [SendItem(Outbox.Acked)];
  }
}
