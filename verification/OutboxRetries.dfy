/** How often an item is sent while submitters, the worker and the pruner interleave: MaxAttempts times,
    and once more for each send that was not counted. */
module OutboxRetries {
  import opened TextOrder
  import opened SpillStore
  import Outbox
  import opened OutboxInterleaving
  import opened OutboxPaging
  import opened OutboxAcks

  // ---- what is counted ----

  predicate Sends(s: State, step: Step, id: string)
  {
    step.SendItem? && s.job.Delivering? && s.job.item.attempts < s.maxAttempts && s.job.item.id == id
  }

  predicate Fails(s: State, step: Step, id: string) { Sends(s, step, id) && step.outcome.Failed? }

  predicate IsRecording(j: Job, id: string) { j.Recording? && j.id == id }

  /** A send leaves its count behind: it was canceled, or recording its failure or deleting its row fails. */
  predicate Uncounts(s: State, step: Step, id: string)
  {
    || (Sends(s, step, id) && step.outcome.Canceled?)
    || (step.FinishRecord? && step.fault && IsRecording(s.job, id))
    || DeleteFails(s, step, id)
  }

  function One(b: bool): nat { if b then 1 else 0 }

  function Sending(id: string): (State, Step) -> nat { (s, step) => One(Sends(s, step, id)) }
  function Failing(id: string): (State, Step) -> nat { (s, step) => One(Fails(s, step, id)) }
  function Uncounting(id: string): (State, Step) -> nat { (s, step) => One(Uncounts(s, step, id)) }

  // ---- every copy of an item shows how often it was sent ----

  predicate Within(x: SpillItem, id: string, lo: int, hi: int) { x.id == id ==> lo <= x.attempts <= hi }

  /** The row in the table lags by one while its failure is being recorded or it is being deleted. */
  predicate RowWithin(j: Job, x: SpillItem, id: string, lo: int, hi: int)
  {
    x.id == id ==>
      && lo <= x.attempts + One(IsRecording(j, id) || j == Deleting(id))
      && x.attempts + One(IsRecording(j, id)) <= hi
  }

  /** The copies outside the table. */
  ghost predicate HeldWithin(s: State, id: string, lo: int, hi: int)
  {
    && (forall x :: x in s.mem || x in s.page ==> Within(x, id, lo, hi))
    && (forall i :: 0 <= i < |s.spillers| && !s.spillers[i].Idle? ==> Within(s.spillers[i].item, id, lo, hi))
    && (s.job.Delivering? ==> Within(s.job.item, id, lo, hi))
  }

  ghost predicate RowsWithin(j: Job, t: Table, id: string, lo: int, hi: int)
  {
    forall x :: x in t ==> RowWithin(j, x, id, lo, hi)
  }

  /** Every copy has at least lo attempts and at most hi. */
  ghost predicate Tracks(s: State, id: string, lo: int, hi: int)
  {
    && (id !in s.submitted ==> lo <= 0 <= hi) && (s.job.Recording? ==> s.job.id in s.stored)
    && HeldWithin(s, id, lo, hi) && RowsWithin(s.job, s.table, id, lo, hi)
  }

  /** The bounds after a step. */
  function Low(s: State, step: Step, id: string, lo: int): int
  {
    lo + One(Sends(s, step, id)) - One(Uncounts(s, step, id))
  }

  function High(s: State, step: Step, id: string, hi: int): int { hi + One(Fails(s, step, id)) }

  predicate SubmitsFresh(step: Step) { (step.SubmitMem? || step.SubmitSpill?) ==> step.item.attempts == 0 }

  // ---- the worker's send ----

  lemma SendRow(s: State, step: Step, id: string, lo: int, hi: int)
    requires step.SendItem? && Enabled(s, step) && s.job.fromSpill && s.job.item.id == id && Sound(s) && Tracks(s, id, lo, hi)
    ensures Tracks(Do(s, step), id, Low(s, step, id, lo), High(s, step, id, hi))
  {
    SentIsAlone(s);
    ItemOfRow(s);
    forall x | x in s.table ensures RowWithin(Do(s, step).job, x, id, Low(s, step, id, lo), High(s, step, id, hi)) {
      assert RowWithin(s.job, x, id, lo, hi);
    }
  }

  lemma SendMemory(s: State, step: Step, id: string, lo: int, hi: int)
    requires step.SendItem? && Enabled(s, step) && !s.job.fromSpill && s.job.item.id == id && Sound(s) && Tracks(s, id, lo, hi)
    ensures Tracks(Do(s, step), id, Low(s, step, id, lo), High(s, step, id, hi))
  {
    SentIsAlone(s);
  }

  lemma SendOther(s: State, step: Step, id: string, lo: int, hi: int)
    requires step.SendItem? && Enabled(s, step) && s.job.item.id != id && Sound(s) && Tracks(s, id, lo, hi)
    ensures Tracks(Do(s, step), id, lo, hi)
  {
    if s.job.fromSpill {
      ItemOfRow(s);
      OtherRowHeld(s, step, id, lo, hi);
    } else {
      SpillerMoves(s.(job := NoJob), Do(s, step), 0, id, lo, hi);
    }
    forall x | x in s.table ensures RowWithin(Do(s, step).job, x, id, lo, hi) {
      assert RowWithin(s.job, x, id, lo, hi);
    }
  }

  lemma OtherRowHeld(s: State, step: Step, id: string, lo: int, hi: int)
    requires step.SendItem? && Enabled(s, step) && s.job.fromSpill && HeldWithin(s, id, lo, hi)
    ensures HeldWithin(Do(s, step), id, lo, hi)
  {
  }

  // ---- steps that leave the table alone ----

  lemma MoveTracks(s: State, step: Step, id: string, lo: int, hi: int)
    requires step.TakeMem? || step.StartPaging? || step.NextRow? || step.Abandon? || step.SubmitMem? || step.Configure?
    requires Enabled(s, step) && Tracks(s, id, lo, hi) && SubmitsFresh(step)
    ensures Tracks(Do(s, step), id, lo, hi)
  {
    if step.TakeMem? { assert s.mem[0] in s.mem; }
    if step.NextRow? { assert s.page[0] in s.page; }
    forall x | x in s.table ensures RowWithin(Do(s, step).job, x, id, lo, hi) {
      assert RowWithin(s.job, x, id, lo, hi);
    }
  }

  lemma ReadTracks(s: State, id: string, lo: int, hi: int)
    requires Enabled(s, ReadPage) && Sound(s) && Tracks(s, id, lo, hi)
    ensures Tracks(Do(s, ReadPage), id, lo, hi)
  {
    PageIsNext(s.table, Outbox.PAGE_SIZE, s.cursor);
    forall x | x in s.table ensures Within(x, id, lo, hi) { assert RowWithin(s.job, x, id, lo, hi); }
  }

  lemma SubmitTracks(s: State, step: Step, id: string, lo: int, hi: int)
    requires step.SubmitSpill? && Enabled(s, step) && Tracks(s, id, lo, hi) && SubmitsFresh(step)
    ensures Tracks(Do(s, step), id, lo, hi)
  {
    SpillerMoves(s, Do(s, step), step.slot, id, lo, hi);
  }

  lemma CountTracks(s: State, step: Step, id: string, lo: int, hi: int)
    requires step.CountRows? && Enabled(s, step) && Tracks(s, id, lo, hi)
    ensures Tracks(Do(s, step), id, lo, hi)
  {
    SpillerMoves(s, Do(s, step), step.slot, id, lo, hi);
  }

  /** One spiller moves on with an item within the bounds, or is done. */
  lemma SpillerMoves(s: State, s': State, i: nat, id: string, lo: int, hi: int)
    requires HeldWithin(s, id, lo, hi) && i < |s.spillers| && |s'.spillers| == |s.spillers|
    requires forall k :: 0 <= k < |s.spillers| && k != i ==> s'.spillers[k] == s.spillers[k]
    requires s'.spillers[i].Idle? || Within(s'.spillers[i].item, id, lo, hi)
    requires s'.mem == s.mem && s'.page == s.page && s'.job == s.job
    ensures HeldWithin(s', id, lo, hi)
  {
  }

  // ---- steps that change the table ----

  lemma FewerRows(j: Job, t: Table, t': Table, id: string, lo: int, hi: int)
    requires RowsWithin(j, t, id, lo, hi) && forall x :: x in t' ==> x in t
    ensures RowsWithin(j, t', id, lo, hi)
  {
    forall x | x in t' ensures RowWithin(j, x, id, lo, hi) { assert RowWithin(j, x, id, lo, hi); }
  }

  lemma EvictTracks(s: State, step: Step, id: string, lo: int, hi: int)
    requires step.EvictRows? && Enabled(s, step) && Tracks(s, id, lo, hi)
    ensures Tracks(Do(s, step), id, lo, hi)
  {
    SpillerMoves(s, Do(s, step), step.slot, id, lo, hi);
    FewerRows(s.job, s.table, Do(s, step).table, id, lo, hi);
  }

  lemma InsertTracks(s: State, step: Step, id: string, lo: int, hi: int)
    requires step.InsertItem? && Enabled(s, step) && Sound(s) && Tracks(s, id, lo, hi)
    ensures Tracks(Do(s, step), id, lo, hi)
  {
    var r := s.spillers[step.slot].item.(createdAt := step.now);
    SpillerMoves(s, Do(s, step), step.slot, id, lo, hi);
    InsertRowMembers(s.table, r);
    forall x | x in Do(s, step).table ensures RowWithin(s.job, x, id, lo, hi) {
      assert x == r || RowWithin(s.job, x, id, lo, hi);
    }
  }

  lemma RecordTracks(s: State, step: Step, id: string, lo: int, hi: int)
    requires step.FinishRecord? && Enabled(s, step) && Tracks(s, id, lo, hi)
    ensures Tracks(Do(s, step), id, Low(s, step, id, lo), hi)
  {
    forall x | x in Do(s, step).table ensures RowWithin(NoJob, x, id, Low(s, step, id, lo), hi) {
      if !step.fault {
        var y := RecordedRow(s.table, s.job.id, s.job.err, x);
        assert RowWithin(s.job, y, id, lo, hi);
      } else {
        assert RowWithin(s.job, x, id, lo, hi);
      }
    }
  }

  lemma DeleteTracks(s: State, step: Step, id: string, lo: int, hi: int)
    requires step.FinishDelete? && Enabled(s, step) && Tracks(s, id, lo, hi)
    ensures Tracks(Do(s, step), id, Low(s, step, id, lo), hi)
  {
    WhereMembers(s.table, (x: SpillItem) => x.id != s.job.id);
    forall x | x in Do(s, step).table ensures RowWithin(NoJob, x, id, Low(s, step, id, lo), hi) {
      assert RowWithin(s.job, x, id, lo, hi);
    }
  }

  lemma PruneTracks(s: State, step: Step, id: string, lo: int, hi: int)
    requires (step.PruneAge? || step.PruneCount?) && Enabled(s, step) && Tracks(s, id, lo, hi)
    ensures Tracks(Do(s, step), id, lo, hi)
  {
    if step.PruneAge? { WhereMembers(s.table, (x: SpillItem) => !Less(x.createdAt, step.cutoff)); }
    FewerRows(s.job, s.table, Do(s, step).table, id, lo, hi);
  }

  lemma SendTracks(s: State, step: Step, id: string, lo: int, hi: int)
    requires step.SendItem? && Enabled(s, step) && Sound(s) && Tracks(s, id, lo, hi)
    ensures Tracks(Do(s, step), id, Low(s, step, id, lo), High(s, step, id, hi))
  {
    if s.job.item.id != id { SendOther(s, step, id, lo, hi); }
    else if s.job.fromSpill { SendRow(s, step, id, lo, hi); }
    else { SendMemory(s, step, id, lo, hi); }
  }

  predicate IsTableStep(step: Step)
  {
    step.EvictRows? || step.InsertItem? || step.FinishRecord? || step.FinishDelete? || step.PruneAge? || step.PruneCount?
  }

  lemma TableTracks(s: State, step: Step, id: string, lo: int, hi: int)
    requires IsTableStep(step) && Enabled(s, step) && Sound(s) && Tracks(s, id, lo, hi)
    ensures Tracks(Do(s, step), id, Low(s, step, id, lo), hi)
  {
    match step
    case EvictRows(_, _) => EvictTracks(s, step, id, lo, hi);
    case InsertItem(_, _, _) => InsertTracks(s, step, id, lo, hi);
    case FinishRecord(_) => RecordTracks(s, step, id, lo, hi);
    case FinishDelete(_) => DeleteTracks(s, step, id, lo, hi);
    case PruneAge(_) => PruneTracks(s, step, id, lo, hi);
    case PruneCount(_) => PruneTracks(s, step, id, lo, hi);
  }

  lemma QuietTracks(s: State, step: Step, id: string, lo: int, hi: int)
    requires !IsTableStep(step) && !step.SendItem? && SubmitsFresh(step)
    requires Enabled(s, step) && Sound(s) && Tracks(s, id, lo, hi)
    ensures Tracks(Do(s, step), id, lo, hi)
  {
    match step
    case SubmitSpill(_, _) => SubmitTracks(s, step, id, lo, hi);
    case CountRows(_, _) => CountTracks(s, step, id, lo, hi);
    case ReadPage => ReadTracks(s, id, lo, hi);
    case _ => MoveTracks(s, step, id, lo, hi);
  }

  lemma StepTracks(s: State, step: Step, id: string, lo: int, hi: int)
    requires Enabled(s, step) && Sound(s) && Tracks(s, id, lo, hi) && SubmitsFresh(step)
    ensures Tracks(Do(s, step), id, Low(s, step, id, lo), High(s, step, id, hi))
  {
    if IsTableStep(step) {
      TableTracks(s, step, id, lo, hi);
    } else if step.SendItem? {
      SendTracks(s, step, id, lo, hi);
    } else {
      QuietTracks(s, step, id, lo, hi);
    }
  }

  // ---- whole runs ----

  function SendCount(s: State, steps: seq<Step>, id: string): nat
    requires Runs(s, steps)
  {
    Count(s, steps, Sending(id))
  }

  function FailCount(s: State, steps: seq<Step>, id: string): nat
    requires Runs(s, steps)
  {
    Count(s, steps, Failing(id))
  }

  function Uncounted(s: State, steps: seq<Step>, id: string): nat
    requires Runs(s, steps)
  {
    Count(s, steps, Uncounting(id))
  }

  /** Every configuration of the run allows at least l and at most c attempts. */
  predicate Configured(s: State, steps: seq<Step>, l: int, c: int)
  {
    l <= s.maxAttempts <= c && forall step :: step in steps && step.Configure? ==> l <= step.maxAttempts <= c
  }

  predicate AllFresh(steps: seq<Step>) { forall step :: step in steps ==> SubmitsFresh(step) }

  lemma StepInBudget(s: State, step: Step, id: string, lo: int, hi: int, l: int, c: int)
    requires Enabled(s, step) && Tracks(s, id, lo, hi) && l <= s.maxAttempts <= c
    ensures Sends(s, step, id) ==> lo < c
    ensures id in Do(s, step).dropped && id !in s.dropped ==> l <= hi
  {
  }

  lemma StepKeepsCaps(s: State, step: Step, l: int, c: int)
    requires Enabled(s, step) && Configured(s, [step], l, c)
    ensures l <= Do(s, step).maxAttempts <= c
  {
    assert step in [step];
  }

  lemma {:induction false} RunInBudget(s: State, steps: seq<Step>, id: string, lo: int, hi: int, l: int, c: int, most: int)
    requires Sound(s) && Runs(s, steps) && Tracks(s, id, lo, hi) && AllFresh(steps) && Configured(s, steps, l, c)
    requires lo <= most && c <= most && (id in s.dropped ==> l <= hi)
    ensures lo + SendCount(s, steps, id) <= most + Uncounted(s, steps, id)
    ensures id in Final(s, steps).dropped ==> l <= hi + FailCount(s, steps, id)
    decreases |steps|
  {
    if steps != [] {
      var step := steps[0];
      assert step in steps && forall x :: x in steps[1..] ==> x in steps;
      StepTracks(s, step, id, lo, hi);
      StepInBudget(s, step, id, lo, hi, l, c);
      StepKeepsSound(s, step);
      StepKeepsCaps(s, step, l, c);
      RunInBudget(Do(s, step), steps[1..], id, Low(s, step, id, lo), High(s, step, id, hi), l, c, most);
    }
  }

  /** The attempts an item starts with: those of its row from an earlier start of the agent. */
  function StartsWith(t: Table, id: string): nat
  {
    if t == [] then 0 else if t[0].id == id then t[0].attempts else StartsWith(t[1..], id)
  }

  lemma {:induction false} StartsWithRow(t: Table, id: string)
    requires UniqueIds(t)
    ensures forall x :: x in t && x.id == id ==> x.attempts == StartsWith(t, id)
    ensures id !in IdSet(t) ==> StartsWith(t, id) == 0
  {
    if t != [] {
      forall i, j | 0 <= i < j < |t[1..]| ensures t[1..][i].id != t[1..][j].id {
        assert t[1..][i] == t[i + 1] && t[1..][j] == t[j + 1];
      }
      StartsWithRow(t[1..], id);
      forall x | x in t[1..] ensures x.id != t[0].id {
        var k :| 0 <= k < |t[1..]| && t[1..][k] == x;
        assert t[k + 1] == x;
      }
      assert t[0] in t && t == [t[0]] + t[1..];
    }
  }

  lemma InitTracks(s: State, id: string)
    requires Init(s)
    ensures Tracks(s, id, StartsWith(s.table, id), StartsWith(s.table, id))
  {
    var a := StartsWith(s.table, id);
    StartsWithRow(s.table, id);
    forall x | x in s.table ensures RowWithin(s.job, x, id, a, a) {}
  }

  /** In every interleaving, whatever fails and however attempts are reconfigured up to c: with the attempts it
      started with an item is sent c times at most, and once more for each send that was not counted; and an
      item is dropped only after as many failures as the smallest configuration allows. */
  lemma RetryBudget(s: State, steps: seq<Step>, id: string, l: int, c: int)
    requires Init(s) && s.steady == {} && Runs(s, steps) && AllFresh(steps) && Configured(s, steps, l, c)
    ensures var a := StartsWith(s.table, id);
      && a + SendCount(s, steps, id) <= (if a > c then a else c) + Uncounted(s, steps, id)
      && (id in Final(s, steps).dropped ==> l <= a + FailCount(s, steps, id))
  {
    var a := StartsWith(s.table, id);
    InitPages(s);
    InitTracks(s, id);
    RunInBudget(s, steps, id, a, a, l, c, if a > c then a else c);
  }

  lemma {:induction false} FailsWithinSends(s: State, steps: seq<Step>, id: string)
    requires Runs(s, steps)
    ensures FailCount(s, steps, id) <= SendCount(s, steps, id)
    decreases |steps|
  {
    if steps != [] { FailsWithinSends(Do(s, steps[0]), steps[1..], id); }
  }

  /** When every send is counted and attempts are not reconfigured, a new item is sent MaxAttempts times at most,
      and one dropped for its attempts was sent exactly that often and failed each time. */
  lemma DroppedAfterExactlyMax(s: State, steps: seq<Step>, id: string)
    requires Init(s) && s.steady == {} && Runs(s, steps) && AllFresh(steps) && Configured(s, steps, s.maxAttempts, s.maxAttempts)
    requires StartsWith(s.table, id) == 0 && Uncounted(s, steps, id) == 0
    ensures SendCount(s, steps, id) <= s.maxAttempts
    ensures id in Final(s, steps).dropped ==> FailCount(s, steps, id) == SendCount(s, steps, id) == s.maxAttempts
  {
    RetryBudget(s, steps, id, s.maxAttempts, s.maxAttempts);
    FailsWithinSends(s, steps, id);
  }

  // ---- the budget is used up ----

  function Counted(r: SpillItem, fault: bool): SpillItem
  {
    if fault then r else r.(attempts := r.attempts + 1, lastError := "down")
  }

  /** Recording the failure of the row in hand, or failing to. */
  lemma RecordInHand(s: State, r: SpillItem, fault: bool)
    requires RowInHand(s.(job := Delivering(r, true)), r) && s.job == Recording(r.id, "down")
    ensures Enabled(s, FinishRecord(fault)) && RowServed(Do(s, FinishRecord(fault)), Counted(r, fault))
    ensures Do(s, FinishRecord(fault)).maxAttempts == s.maxAttempts
  {
    IncrementShape([r], r.id, "down");
  }

  /** The send fails, and so does counting it when `fault` says so. */
  lemma FailInHand(s: State, r: SpillItem, fault: bool, f: (State, Step) -> nat, g: (State, Step) -> nat)
    returns (steps: seq<Step>)
    requires RowInHand(s, r) && r.attempts < s.maxAttempts && f == Sending(r.id) && g == Uncounting(r.id)
    ensures Runs(s, steps) && OneRowLeft(Final(s, steps), Counted(r, fault)) && Final(s, steps).maxAttempts == s.maxAttempts
    ensures Count(s, steps, f) == 1 && Count(s, steps, g) == One(fault) && Undisturbed(steps)
  {
    var failed := SendItem(Outbox.Failed("down"));
    CountBoth(s, [], failed, f, g);
    steps := [] + [failed];
    RecordInHand(Do(s, failed), r, fault);
    CountBoth(s, steps, FinishRecord(fault), f, g);
    steps := EndDrain(s, steps + [FinishRecord(fault)], Counted(r, fault), f, g);
  }

  /** One drain that fails that way. */
  lemma FailOnce(s: State, r: SpillItem, fault: bool) returns (steps: seq<Step>)
    requires OneRowLeft(s, r) && r.attempts < s.maxAttempts
    ensures Runs(s, steps) && OneRowLeft(Final(s, steps), Counted(r, fault)) && Final(s, steps).maxAttempts == s.maxAttempts
    ensures SendCount(s, steps, r.id) == 1 && Uncounted(s, steps, r.id) == One(fault) && Undisturbed(steps)
  {
    var f, g := Sending(r.id), Uncounting(r.id);
    steps := TakeRow(s, r, f, g);
    var more := FailInHand(Final(s, steps), r, fault, f, g);
    CountConcat(s, steps, more, f);
    CountConcat(s, steps, more, g);
    RunsConcat(s, steps, more);
    steps := steps + more;
  }

  /** As many drains as there are attempts left, after n that are not counted. */
  lemma {:induction false} FailAll(s: State, r: SpillItem, n: nat) returns (steps: seq<Step>)
    requires OneRowLeft(s, r) && r.attempts <= s.maxAttempts && (n > 0 ==> r.attempts < s.maxAttempts)
    ensures Runs(s, steps) && Undisturbed(steps)
    ensures SendCount(s, steps, r.id) == s.maxAttempts - r.attempts + n && Uncounted(s, steps, r.id) == n
    decreases n, s.maxAttempts - r.attempts
  {
    if n == 0 && r.attempts == s.maxAttempts {
      steps := [];
    } else {
      var fault := n > 0;
      steps := FailOnce(s, r, fault);
      var t := Final(s, steps);
      var more := FailAll(t, Counted(r, fault), if fault then n - 1 else 0);
      RunsConcat(s, steps, more);
      CountConcat(s, steps, more, Sending(r.id));
      CountConcat(s, steps, more, Uncounting(r.id));
      steps := steps + more;
    }
  }

  /** For every number of attempts m and every n some run sends a new item m + n times, n of them uncounted. */
  lemma RetriesReachBudget(m: nat, n: nat) returns (s: State, steps: seq<Step>, id: string)
    requires m > 0
    ensures Init(s) && s.steady == {} && s.maxAttempts == m && StartsWith(s.table, id) == 0
    ensures Runs(s, steps) && AllFresh(steps) && Undisturbed(steps)
    ensures SendCount(s, steps, id) == m + n && Uncounted(s, steps, id) == n
  {
    id := "a";
    var r := SpillItem(id, Outbox.JOB_REPORT, "", 0, "", "t");
    s := State(1, 10, m, [], [r], [Idle], NoJob, false, Key("", ""), [], {id}, {id}, {}, {}, {}, {}, {}, [], {});
    steps := FailAll(s, r, n);
  }
}
