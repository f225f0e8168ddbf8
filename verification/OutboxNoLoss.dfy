/** No silent loss under concurrency and database faults: every submitted item is somewhere, or
    its loss was recorded, and it is never in both tiers. */
module OutboxNoLoss {
  import opened TextOrder
  import opened SpillStore
  import Outbox
  import opened OutboxInterleaving

  predicate Holds(p: Spiller, id: string) { !p.Idle? && p.item.id == id }

  predicate HandHolds(j: Job, id: string) { j.Delivering? && !j.fromSpill && j.item.id == id }

  /** Somewhere the item still is. */
  ghost predicate Live(s: State, id: string)
  {
    || HasId(s.mem, id) || HasId(s.table, id) || HandHolds(s.job, id)
    || exists i :: 0 <= i < |s.spillers| && Holds(s.spillers[i], id)
  }

  /** Somewhere its end was recorded. */
  predicate Recorded(s: State, id: string)
  {
    id in s.acked || id in s.evicted || id in s.pruned || id in s.dropped || id in s.refused
  }

  ghost predicate Covered(s: State) { forall id :: id in s.submitted ==> Live(s, id) || Recorded(s, id) }

  /** Items that never reached the table are held once, and not by anything the table ever held. */
  ghost predicate Separate(s: State)
  {
    && UniqueIds(s.mem)
    && (forall i :: 0 <= i < |s.mem| ==> s.mem[i].id !in s.stored)
    && (forall i :: 0 <= i < |s.spillers| && !s.spillers[i].Idle? ==>
          s.spillers[i].item.id !in s.stored && !HasId(s.mem, s.spillers[i].item.id)
          && !HandHolds(s.job, s.spillers[i].item.id))
    && (forall i, k :: 0 <= i < k < |s.spillers| && !s.spillers[i].Idle? && !s.spillers[k].Idle? ==>
          s.spillers[i].item.id != s.spillers[k].item.id)
    && (s.job.Delivering? && !s.job.fromSpill ==> s.job.item.id !in s.stored && !HasId(s.mem, s.job.item.id))
  }

  ghost predicate GoodTable(t: Table, stored: set<string>)
  {
    IsTable(t) && forall x :: x in t ==> x.id in stored && x.id != ""
  }

  /** Whatever is held outside the table was submitted under a proper id. */
  ghost predicate KnownHands(s: State)
  {
    && (forall x :: x in s.mem ==> x.id in s.submitted && x.id != "")
    && (forall i :: 0 <= i < |s.spillers| && !s.spillers[i].Idle? ==>
          s.spillers[i].item.id in s.submitted && s.spillers[i].item.id != "")
    && (s.job.Delivering? && !s.job.fromSpill ==> s.job.item.id in s.submitted && s.job.item.id != "")
    && (s.job.Deleting? ==> s.job.id in s.acked || s.job.id in s.dropped)
  }

  ghost predicate KnownIds(s: State)
  {
    GoodTable(s.table, s.stored) && s.stored <= s.submitted && |s.spillers| > 0 && KnownHands(s)
  }

  lemma InitCovers(s: State)
    requires Init(s)
    ensures Covered(s) && Separate(s) && KnownIds(s)
  {
    forall id | id in s.submitted ensures Live(s, id) {
      var x :| x in s.table && x.id == id;
      var i :| 0 <= i < |s.table| && s.table[i] == x;
    }
  }

  lemma InsertKeepsIds(t: Table, r: SpillItem, id: string)
    ensures HasId(InsertRow(t, r), id) <==> HasId(t, id) || id == r.id
  {
    InsertRowMembers(t, r);
    HasIdIsMember(t, id);
    HasIdIsMember(InsertRow(t, r), id);
  }

  lemma HasIdIsMember(t: seq<SpillItem>, id: string)
    ensures HasId(t, id) <==> exists x :: x in t && x.id == id
  {
    if HasId(t, id) {
      var i :| 0 <= i < |t| && t[i].id == id;
      assert t[i] in t;
    }
    if x :| x in t && x.id == id {
      var i :| 0 <= i < |t| && t[i] == x;
    }
  }

  /** Rows that leave the table are named by the difference of the id sets. */
  lemma RemovedIds(t: Table, kept: Table, id: string)
    requires HasId(t, id)
    ensures HasId(kept, id) || id in IdSet(t) - IdSet(kept)
  {
    HasIdIsMember(t, id);
    HasIdIsMember(kept, id);
  }

  lemma DeleteKeepsIds(t: Table, target: string, id: string)
    ensures HasId(Delete(t, target), id) <==> HasId(t, id) && id != target
  {
    WhereMembers(t, (x: SpillItem) => x.id != target);
    HasIdIsMember(t, id);
    HasIdIsMember(Delete(t, target), id);
  }

  lemma IncrementKeepsIds(t: Table, target: string, err: string, id: string)
    ensures HasId(Increment(t, target, err), id) <==> HasId(t, id)
  {
    IncrementShape(t, target, err);
    var u := Increment(t, target, err);
    if HasId(t, id) {
      var i :| 0 <= i < |t| && t[i].id == id;
      assert u[i].id == id;
    }
    if HasId(u, id) {
      var i :| 0 <= i < |u| && u[i].id == id;
      assert t[i].id == id;
    }
  }

  lemma TableStepCovers(s: State, step: Step, id: string)
    requires step.FinishDelete? || step.FinishRecord? || step.PruneAge? || step.PruneCount?
    requires Enabled(s, step) && KnownIds(s) && Live(s, id)
    ensures Live(Do(s, step), id) || Recorded(Do(s, step), id)
  {
    var s' := Do(s, step);
    match step
    case FinishDelete(_) =>
      DeleteKeepsIds(s.table, s.job.id, id);
      MemberStays(s, s', id);
    case FinishRecord(_) =>
      IncrementKeepsIds(s.table, s.job.id, s.job.err, id);
      MemberStays(s, s', id);
    case PruneAge(cutoff) =>
      if HasId(s.table, id) { RemovedIds(s.table, PruneOlder(s.table, cutoff), id); }
      MemberStays(s, s', id);
    case PruneCount(keep) =>
      if HasId(s.table, id) { RemovedIds(s.table, KeepNewest(s.table, keep), id); }
      MemberStays(s, s', id);
  }

  lemma SpillerStepCovers(s: State, step: Step, id: string)
    requires step.CountRows? || step.EvictRows? || step.InsertItem?
    requires Enabled(s, step) && Live(s, id)
    ensures Live(Do(s, step), id) || Recorded(Do(s, step), id)
  {
    var s' := Do(s, step);
    match step
    case CountRows(i, _) => SpillerMoveCovers(s, i, s', id);
    case EvictRows(i, fault) =>
      if HasId(s.table, id) && !fault {
        RemovedIds(s.table, DropOldest(s.table, s.spillers[i].over), id);
      }
      SpillerMoveCovers(s, i, s', id);
    case InsertItem(i, now, _) =>
      InsertKeepsIds(s.table, s.spillers[i].item.(createdAt := now), id);
      SpillerMoveCovers(s, i, s', id);
  }

  lemma SendCovers(s: State, outcome: Outbox.Outcome, id: string)
    requires Enabled(s, SendItem(outcome)) && Live(s, id)
    ensures Live(Do(s, SendItem(outcome)), id) || Recorded(Do(s, SendItem(outcome)), id)
  {
    SpillerMoveCovers(s, 0, Do(s, SendItem(outcome)), id);
  }

  lemma RecordedStays(s: State, step: Step, id: string)
    requires Enabled(s, step) && Recorded(s, id)
    ensures Recorded(Do(s, step), id)
  {
  }

  /** A step leaves an item where it is, moves it, or records its end. */
  lemma StepCovers(s: State, step: Step, id: string)
    requires Enabled(s, step) && KnownIds(s) && (Live(s, id) || Recorded(s, id))
    ensures Live(Do(s, step), id) || Recorded(Do(s, step), id)
  {
    if Recorded(s, id) {
      RecordedStays(s, step, id);
    } else if step.FinishDelete? || step.FinishRecord? || step.PruneAge? || step.PruneCount? {
      TableStepCovers(s, step, id);
    } else if step.CountRows? || step.EvictRows? || step.InsertItem? {
      SpillerStepCovers(s, step, id);
    } else if step.SendItem? {
      SendCovers(s, step.outcome, id);
    } else if step.SubmitSpill? {
      SpillerMoveCovers(s, step.slot, Do(s, step), id);
    } else {
      MemberStays(s, Do(s, step), id);
    }
  }

  /** Memory only gains at the end or loses its head to the worker's hand. */
  lemma MemberStays(s: State, s': State, id: string)
    requires Live(s, id) && s'.spillers == s.spillers
    requires HasId(s.table, id) ==> HasId(s'.table, id) || Recorded(s', id)
    requires HandHolds(s.job, id) ==> HandHolds(s'.job, id)
    requires s.mem <= s'.mem || (s.mem != [] && s'.mem == s.mem[1..] && HandHolds(s'.job, s.mem[0].id))
    ensures Live(s', id) || Recorded(s', id)
  {
    if i :| 0 <= i < |s.spillers| && Holds(s.spillers[i], id) {
      assert Holds(s'.spillers[i], id);
    } else if HasId(s.mem, id) {
      var i :| 0 <= i < |s.mem| && s.mem[i].id == id;
      if s.mem <= s'.mem {
        assert s'.mem[i] == s.mem[i];
      } else if i > 0 {
        assert s'.mem[i - 1] == s.mem[i];
      }
    }
  }

  /** A spiller's move keeps its item in its hands, puts it in the table, or records its end. */
  lemma SpillerMoveCovers(s: State, i: nat, s': State, id: string)
    requires i < |s.spillers| == |s'.spillers| && s'.mem == s.mem && Live(s, id)
    requires forall k :: 0 <= k < |s.spillers| && k != i ==> s'.spillers[k] == s.spillers[k]
    requires HasId(s.table, id) ==> HasId(s'.table, id) || Recorded(s', id)
    requires Holds(s.spillers[i], id) ==> Holds(s'.spillers[i], id) || HasId(s'.table, id) || Recorded(s', id)
    requires HandHolds(s.job, id) ==> HandHolds(s'.job, id) || Holds(s'.spillers[i], id) || Recorded(s', id)
    ensures Live(s', id) || Recorded(s', id)
  {
    if k :| 0 <= k < |s.spillers| && Holds(s.spillers[k], id) {
      if k != i {
        assert Holds(s'.spillers[k], id);
      }
    }
  }

  lemma StepKeepsCovered(s: State, step: Step)
    requires Enabled(s, step) && KnownIds(s) && Covered(s)
    ensures Covered(Do(s, step))
  {
    var s' := Do(s, step);
    forall id | id in s'.submitted ensures Live(s', id) || Recorded(s', id) {
      if id in s.submitted {
        StepCovers(s, step, id);
      } else {
        match step
        case SubmitMem(item) => assert s'.mem[|s.mem|].id == id;
        case SubmitSpill(i, item) => assert Holds(s'.spillers[i], id);
      }
    }
  }

  // ---- the invariants of every reachable state ----

  lemma WhereGood(t: Table, p: SpillItem -> bool, stored: set<string>)
    requires GoodTable(t, stored)
    ensures GoodTable(Where(t, p), stored)
  {
    WhereIsTable(t, p);
    WhereMembers(t, p);
  }

  lemma IncrementGood(t: Table, id: string, err: string, stored: set<string>)
    requires GoodTable(t, stored)
    ensures GoodTable(Increment(t, id, err), stored)
  {
    IncrementIsTable(t, id, err);
    IncrementShape(t, id, err);
    var u := Increment(t, id, err);
    forall x | x in u ensures x.id in stored && x.id != "" {
      var i :| 0 <= i < |u| && u[i] == x;
      assert t[i] in t;
    }
  }

  lemma InsertGood(t: Table, r: SpillItem, stored: set<string>)
    requires GoodTable(t, stored) && !HasId(t, r.id) && r.id != ""
    ensures GoodTable(InsertRow(t, r), stored + {r.id})
  {
    InsertRowIsTable(t, r);
    InsertRowMembers(t, r);
  }

  lemma StepKeepsTable(s: State, step: Step)
    requires Enabled(s, step) && KnownIds(s)
    ensures GoodTable(Do(s, step).table, Do(s, step).stored)
  {
    match step
    case InsertItem(i, now, fault) =>
      if !fault && !HasId(s.table, s.spillers[i].item.id) {
        InsertGood(s.table, s.spillers[i].item.(createdAt := now), s.stored);
      }
    case FinishDelete(_) => WhereGood(s.table, (x: SpillItem) => x.id != s.job.id, s.stored);
    case FinishRecord(_) => IncrementGood(s.table, s.job.id, s.job.err, s.stored);
    case PruneAge(cutoff) => WhereGood(s.table, (x: SpillItem) => !Less(x.createdAt, cutoff), s.stored);
    case _ =>
  }

  lemma CountKeepsHands(s: State, i: nat, fault: bool)
    requires Enabled(s, CountRows(i, fault)) && KnownHands(s)
    ensures KnownHands(Do(s, CountRows(i, fault)))
  {
  }

  lemma EvictKeepsHands(s: State, i: nat, fault: bool)
    requires Enabled(s, EvictRows(i, fault)) && KnownHands(s)
    ensures KnownHands(Do(s, EvictRows(i, fault)))
  {
  }

  lemma InsertKeepsHands(s: State, i: nat, now: string, fault: bool)
    requires Enabled(s, InsertItem(i, now, fault)) && KnownHands(s)
    ensures KnownHands(Do(s, InsertItem(i, now, fault)))
  {
  }

  lemma SubmitKeepsHands(s: State, i: nat, item: SpillItem)
    requires Enabled(s, SubmitSpill(i, item)) && KnownHands(s)
    ensures KnownHands(Do(s, SubmitSpill(i, item)))
  {
  }

  lemma SendKeepsHands(s: State, outcome: Outbox.Outcome)
    requires Enabled(s, SendItem(outcome)) && KnownHands(s)
    ensures KnownHands(Do(s, SendItem(outcome)))
  {
  }

  lemma StepKeepsHands(s: State, step: Step)
    requires Enabled(s, step) && KnownHands(s)
    ensures KnownHands(Do(s, step))
  {
    match step
    case CountRows(i, fault) => CountKeepsHands(s, i, fault);
    case EvictRows(i, fault) => EvictKeepsHands(s, i, fault);
    case InsertItem(i, now, fault) => InsertKeepsHands(s, i, now, fault);
    case SubmitSpill(i, item) => SubmitKeepsHands(s, i, item);
    case SendItem(outcome) => SendKeepsHands(s, outcome);
    case TakeMem => assert s.mem[0] in s.mem;
    case _ =>
  }

  lemma StepKeepsKnown(s: State, step: Step)
    requires Enabled(s, step) && KnownIds(s)
    ensures KnownIds(Do(s, step))
  {
    StepKeepsTable(s, step);
    StepKeepsHands(s, step);
    StoredWithin(s, step);
    SameSpillerCount(s, step);
  }

  lemma StoredWithin(s: State, step: Step)
    requires Enabled(s, step) && KnownIds(s)
    ensures Do(s, step).stored <= Do(s, step).submitted
  {
    if !step.InsertItem? { StoredOnlyByInsert(s, step); }
  }

  lemma StoredOnlyByInsert(s: State, step: Step)
    requires Enabled(s, step) && !step.InsertItem?
    ensures Do(s, step).stored == s.stored && s.submitted <= Do(s, step).submitted
  {
  }

  lemma SameSpillerCount(s: State, step: Step)
    requires Enabled(s, step)
    ensures |Do(s, step).spillers| == |s.spillers|
  {
  }

  lemma SendKeepsSeparate(s: State, outcome: Outbox.Outcome)
    requires Enabled(s, SendItem(outcome)) && Separate(s)
    ensures Separate(Do(s, SendItem(outcome)))
  {
  }

  lemma InsertKeepsSeparate(s: State, i: nat, now: string, fault: bool)
    requires Enabled(s, InsertItem(i, now, fault)) && Separate(s) && KnownIds(s)
    ensures Separate(Do(s, InsertItem(i, now, fault)))
  {
    var id := s.spillers[i].item.id;
    assert forall k :: 0 <= k < |s.mem| ==> s.mem[k].id != id;
  }

  lemma MemoryKeepsSeparate(s: State, step: Step)
    requires step.SubmitMem? || step.TakeMem? || step.SubmitSpill?
    requires Enabled(s, step) && Separate(s) && KnownIds(s)
    ensures Separate(Do(s, step))
  {
    var s' := Do(s, step);
    match step
    case SubmitMem(item) =>
      assert forall i :: 0 <= i < |s.mem| ==> s.mem[i] in s.mem;
    case SubmitSpill(i, item) =>
      assert forall k :: 0 <= k < |s.mem| ==> s.mem[k] in s.mem;
    case TakeMem =>
      assert forall i :: 0 <= i < |s'.mem| ==> s'.mem[i] == s.mem[i + 1];
      assert HasId(s.mem, s.mem[0].id);
  }

  lemma CountKeepsSeparate(s: State, i: nat, fault: bool)
    requires Enabled(s, CountRows(i, fault)) && Separate(s)
    ensures Separate(Do(s, CountRows(i, fault)))
  {
  }

  lemma EvictKeepsSeparate(s: State, i: nat, fault: bool)
    requires Enabled(s, EvictRows(i, fault)) && Separate(s)
    ensures Separate(Do(s, EvictRows(i, fault)))
  {
  }

  lemma StepKeepsSeparate(s: State, step: Step)
    requires Enabled(s, step) && Separate(s) && KnownIds(s)
    ensures Separate(Do(s, step))
  {
    if step.SubmitMem? || step.SubmitSpill? || step.TakeMem? {
      MemoryKeepsSeparate(s, step);
    } else if step.CountRows? {
      CountKeepsSeparate(s, step.slot, step.fault);
    } else if step.EvictRows? {
      EvictKeepsSeparate(s, step.slot, step.fault);
    } else if step.SendItem? {
      SendKeepsSeparate(s, step.outcome);
    } else if step.InsertItem? {
      InsertKeepsSeparate(s, step.slot, step.now, step.fault);
    }
  }

  lemma {:induction false} RunCovers(s: State, steps: seq<Step>)
    requires Runs(s, steps) && Covered(s) && Separate(s) && KnownIds(s)
    ensures Covered(Final(s, steps)) && Separate(Final(s, steps)) && KnownIds(Final(s, steps))
    decreases |steps|
  {
    if steps != [] {
      StepKeepsCovered(s, steps[0]);
      StepKeepsSeparate(s, steps[0]);
      StepKeepsKnown(s, steps[0]);
      RunCovers(Do(s, steps[0]), steps[1..]);
    }
  }

  /** In every reachable state, whatever failed on the way: each submitted item is still in memory,
      in the table or in somebody's hands, or its end is on record; and no item is in both tiers. */
  lemma NoSilentLoss(s: State, steps: seq<Step>, id: string)
    requires Init(s) && Runs(s, steps) && id in Final(s, steps).submitted
    ensures var t := Final(s, steps);
      && (Live(t, id) || Recorded(t, id))
      && !(HasId(t.mem, id) && HasId(t.table, id))
  {
    InitCovers(s);
    RunCovers(s, steps);
    HasIdIsMember(Final(s, steps).table, id);
  }
}
