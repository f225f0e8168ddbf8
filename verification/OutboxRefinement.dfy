/** The one-thread outbox and the interleaved one describe the same code: each operation of the first,
    whatever the world does, is a run of the second in which nothing else happens. */
module OutboxRefinement {
  import opened TextOrder
  import opened SpillStore
  import O = Outbox
  import opened OutboxInterleaving

  /** The interleaved state shows the tiers and the configuration of the box. */
  predicate Shows(s: State, b: O.Box)
  {
    && s.mem == b.mem && s.table == b.rows
    && s.memMax == b.cfg.memoryMax && s.cap == b.cfg.spillMaxRows && s.maxAttempts == b.cfg.maxAttempts
  }

  /** Where the goroutines are. */
  datatype Place = Place(spillers: seq<Spiller>, job: Job, paging: bool, cursor: Key, page: Table)

  function At(s: State): Place { Place(s.spillers, s.job, s.paging, s.cursor, s.page) }

  /** The steps lead from s to a state that shows b, with the goroutines at p. */
  predicate Leads(s: State, steps: seq<Step>, b: O.Box, p: Place)
  {
    Runs(s, steps) && Shows(Final(s, steps), b) && At(Final(s, steps)) == p
  }

  lemma LeadsOn(s: State, a: seq<Step>, step: Step, b: O.Box, p: Place)
    requires Runs(s, a) && Enabled(Final(s, a), step)
    requires Shows(Do(Final(s, a), step), b) && At(Do(Final(s, a), step)) == p
    ensures Leads(s, a + [step], b, p)
  {
    ThenStep(s, a, step);
  }

  lemma LeadsThen(s: State, a: seq<Step>, more: seq<Step>, b: O.Box, p: Place)
    requires Runs(s, a) && Leads(Final(s, a), more, b, p)
    ensures Leads(s, a + more, b, p)
  {
    RunsConcat(s, a, more);
  }

  // ---- spilling ----

  /** What is left of a spill that began counting: the worker goes on after a failure, a submitter does not. */
  function AfterSpill(w: O.World, b: O.Box, i: nat, item: SpillItem): O.Box
  {
    var (b1, ok) := O.MakeRoom(w, b);
    if ok || i == 0 then O.Enqueue(w, b1, item) else O.Log(b1, O.Refused(item.id))
  }

  lemma InsertStep(w: O.World, b: O.Box, s: State, i: nat, item: SpillItem) returns (steps: seq<Step>)
    requires i < |s.spillers| && s.spillers[i] == Inserting(item) && Shows(s, b)
    ensures Leads(s, steps, O.Enqueue(w, b, item), At(s).(spillers := s.spillers[i := Idle]))
  {
    var step := InsertItem(i, w.now(b.stmts), w.fault(b.stmts));
    steps := [] + [step];
    LeadsOn(s, [], step, O.Enqueue(w, b, item), At(s).(spillers := s.spillers[i := Idle]));
  }

  /** Counting and evicting. */
  lemma RoomSteps(w: O.World, b: O.Box, s: State, i: nat, item: SpillItem) returns (steps: seq<Step>)
    requires i < |s.spillers| && s.spillers[i] == Counting(item, b.cfg.spillMaxRows) && Shows(s, b)
    ensures var (b1, ok) := O.MakeRoom(w, b);
      Leads(s, steps, b1, At(s).(spillers := s.spillers[i := if ok || i == 0 then Inserting(item) else Idle]))
  {
    var count := CountRows(i, w.fault(b.stmts));
    var s1 := Do(s, count);
    steps := [] + [count];
    ThenStep(s, [], count);
    var (b1, ok) := O.MakeRoom(w, b);
    var p := At(s).(spillers := s.spillers[i := if ok || i == 0 then Inserting(item) else Idle]);
    if !w.fault(b.stmts) && |b.rows| >= b.cfg.spillMaxRows {
      var evict := EvictRows(i, w.fault(b.stmts + 1));
      assert s1.spillers[i := p.spillers[i]] == p.spillers;
      LeadsOn(s, steps, evict, b1, p);
      steps := steps + [evict];
    }
  }

  lemma SpillSteps(w: O.World, b: O.Box, s: State, i: nat, item: SpillItem) returns (steps: seq<Step>)
    requires i < |s.spillers| && s.spillers[i] == Counting(item, b.cfg.spillMaxRows) && Shows(s, b)
    ensures Leads(s, steps, AfterSpill(w, b, i, item), At(s).(spillers := s.spillers[i := Idle]))
  {
    steps := RoomSteps(w, b, s, i, item);
    var (b1, ok) := O.MakeRoom(w, b);
    if ok || i == 0 {
      var s1 := Final(s, steps);
      assert s1.spillers[i := Idle] == s.spillers[i := Idle];
      var more := InsertStep(w, b1, s1, i, item);
      LeadsThen(s, steps, more, AfterSpill(w, b, i, item), At(s).(spillers := s.spillers[i := Idle]));
      steps := steps + more;
    }
  }

  /** Submit, by any goroutine but the worker, leaves the goroutines where they were. */
  lemma SubmitSteps(w: O.World, b: O.Box, s: State, i: nat, item: SpillItem) returns (steps: seq<Step>)
    requires Shows(s, b) && FreshItem(s, item) && 0 < i < |s.spillers| && s.spillers[i].Idle?
    ensures Leads(s, steps, O.Submit(w, b, item), At(s))
  {
    if |b.mem| < b.cfg.memoryMax {
      steps := [] + [SubmitMem(item)];
      LeadsOn(s, [], SubmitMem(item), O.Submit(w, b, item), At(s));
    } else {
      steps := [] + [SubmitSpill(i, item)];
      ThenStep(s, [], SubmitSpill(i, item));
      var s1 := Final(s, steps);
      var more := SpillSteps(w, b, s1, i, item);
      assert s1.spillers[i := Idle] == s.spillers;
      LeadsThen(s, steps, more, O.Submit(w, b, item), At(s));
      steps := steps + more;
    }
  }

  // ---- delivering ----

  /** One delivery, from the moment the worker has the item in hand. */
  lemma DeliverSteps(w: O.World, b: O.Box, s: State, item: SpillItem, fromSpill: bool) returns (steps: seq<Step>)
    requires Shows(s, b) && s.job == Delivering(item, fromSpill) && |s.spillers| > 0 && s.spillers[0].Idle?
    ensures Leads(s, steps, O.Deliver(w, b, item, fromSpill), At(s).(job := NoJob))
  {
    if fromSpill { steps := DeliverRowSteps(w, b, s, item); } else { steps := DeliverMemSteps(w, b, s, item); }
  }

  lemma DeliverRowSteps(w: O.World, b: O.Box, s: State, item: SpillItem) returns (steps: seq<Step>)
    requires Shows(s, b) && s.job == Delivering(item, true) && |s.spillers| > 0 && s.spillers[0].Idle?
    ensures Leads(s, steps, O.Deliver(w, b, item, true), At(s).(job := NoJob))
  {
    var send := SendItem(O.Send(w, b, item));
    var goal := At(s).(job := NoJob);
    steps := [] + [send];
    ThenStep(s, [], send);
    var s1 := Do(s, send);
    if s1.job.Deleting? {
      LeadsOn(s, steps, FinishDelete(w.fault(b.stmts)), O.Deliver(w, b, item, true), goal);
      steps := steps + [FinishDelete(w.fault(b.stmts))];
    } else if s1.job.Recording? {
      LeadsOn(s, steps, FinishRecord(w.fault(b.stmts)), O.Deliver(w, b, item, true), goal);
      steps := steps + [FinishRecord(w.fault(b.stmts))];
    }
  }

  lemma DeliverMemSteps(w: O.World, b: O.Box, s: State, item: SpillItem) returns (steps: seq<Step>)
    requires Shows(s, b) && s.job == Delivering(item, false) && |s.spillers| > 0 && s.spillers[0].Idle?
    ensures Leads(s, steps, O.Deliver(w, b, item, false), At(s).(job := NoJob))
  {
    var outcome := O.Send(w, b, item);
    var send := SendItem(outcome);
    var goal := At(s).(job := NoJob);
    steps := [] + [send];
    ThenStep(s, [], send);
    var s1 := Do(s, send);
    O.DeliverMemoryCases(w, b, item);
    if item.attempts < b.cfg.maxAttempts && !outcome.Acked? {
      var sent := O.Log(b.(sends := b.sends + 1), O.Sent(item.id, outcome));
      var item' := if outcome.Failed? then item.(attempts := item.attempts + 1, lastError := outcome.error) else item;
      var more := SpillSteps(w, sent, s1, 0, item');
      assert s1.spillers[0 := Idle] == s.spillers;
      LeadsThen(s, steps, more, O.Deliver(w, b, item, false), goal);
      steps := steps + more;
    }
  }

  // ---- draining ----

  predicate Resting(s: State) { WorkerFree(s) && !s.paging }

  lemma {:induction false} DrainMemSteps(w: O.World, b: O.Box, s: State) returns (steps: seq<Step>)
    requires Shows(s, b) && Resting(s)
    ensures Leads(s, steps, O.DrainMem(w, b).0, At(s))
    decreases |b.mem|
  {
    steps := [];
    if b.mem != [] {
      var item := b.mem[0];
      var b0 := b.(mem := b.mem[1..]);
      steps := [] + [TakeMem];
      ThenStep(s, [], TakeMem);
      var s1 := Do(s, TakeMem);
      var more := DeliverSteps(w, b0, s1, item, false);
      var b1 := O.Deliver(w, b0, item, false);
      LeadsThen(s, steps, more, b1, At(s));
      steps := steps + more;
      var b2 := b1.(checks := b1.checks + 1);
      if !w.canceled(b1.checks) {
        var rest := DrainMemSteps(w, b2, Final(s, steps));
        LeadsThen(s, steps, rest, O.DrainMem(w, b).0, At(s));
        steps := steps + rest;
      }
    }
  }

  /** Back at rest, with the tiers of b. */
  predicate Rests(s: State, t: State, b: O.Box) { Shows(t, b) && Resting(t) && t.spillers == s.spillers }

  /** Between two pages, with the tiers of b and the cursor at c. */
  predicate BetweenPages(s: State, t: State, b: O.Box, c: Key)
  {
    Shows(t, b) && WorkerFree(t) && t.paging && t.page == [] && t.cursor == c && t.spillers == s.spillers
  }

  /** What a page leads to: every row dealt with, or given up at a cancellation. */
  predicate PageDone(s: State, t: State, r: (O.Box, Key, bool))
  {
    && Shows(t, r.0) && WorkerFree(t) && t.spillers == s.spillers
    && t.page == [] && t.paging == !r.2 && t.cursor == r.1
  }

  predicate InPage(s: State, b: O.Box, page: Table, cursor: Key)
  {
    Shows(s, b) && WorkerFree(s) && s.paging && s.page == page && s.cursor == cursor
  }

  lemma GiveUpSteps(w: O.World, b: O.Box, s: State, page: Table, cursor: Key) returns (steps: seq<Step>)
    requires InPage(s, b, page, cursor) && page != [] && w.canceled(b.checks)
    ensures Runs(s, steps) && PageDone(s, Final(s, steps), O.DrainPage(w, b, page, cursor))
  {
    steps := [] + [Abandon];
    ThenStep(s, [], Abandon);
  }

  /** The page after its first row. */
  lemma FirstRowSteps(w: O.World, b: O.Box, s: State, page: Table, cursor: Key) returns (steps: seq<Step>)
    requires InPage(s, b, page, cursor) && page != [] && !w.canceled(b.checks)
    ensures var b1 := O.Deliver(w, b.(checks := b.checks + 1), page[0], true);
      Runs(s, steps) && InPage(Final(s, steps), b1, page[1..], KeyOf(page[0])) && Final(s, steps).spillers == s.spillers
  {
    steps := NextRowSteps(w, b.(checks := b.checks + 1), s);
  }

  lemma {:induction false} DrainPageSteps(w: O.World, b: O.Box, s: State, page: Table, cursor: Key)
    returns (steps: seq<Step>)
    requires InPage(s, b, page, cursor)
    ensures Runs(s, steps) && PageDone(s, Final(s, steps), O.DrainPage(w, b, page, cursor))
    decreases |page|
  {
    if page == [] {
      steps := [];
    } else if w.canceled(b.checks) {
      steps := GiveUpSteps(w, b, s, page, cursor);
    } else {
      steps := FirstRowSteps(w, b, s, page, cursor);
      var b1 := O.Deliver(w, b.(checks := b.checks + 1), page[0], true);
      var rest := DrainPageSteps(w, b1, Final(s, steps), page[1..], KeyOf(page[0]));
      RunsConcat(s, steps, rest);
      steps := steps + rest;
    }
  }

  lemma NextRowSteps(w: O.World, b: O.Box, s: State) returns (steps: seq<Step>)
    requires Shows(s, b) && WorkerFree(s) && s.paging && s.page != []
    ensures Leads(s, steps, O.Deliver(w, b, s.page[0], true), At(s).(page := s.page[1..], cursor := KeyOf(s.page[0])))
  {
    steps := [] + [NextRow];
    ThenStep(s, [], NextRow);
    var more := DeliverSteps(w, b, Do(s, NextRow), s.page[0], true);
    LeadsThen(s, steps, more, O.Deliver(w, b, s.page[0], true), At(s).(page := s.page[1..], cursor := KeyOf(s.page[0])));
    steps := steps + more;
  }

  lemma ReadSteps(w: O.World, b: O.Box, s: State, cursor: Key) returns (steps: seq<Step>)
    requires BetweenPages(s, s, b, cursor)
    ensures var page := Page(b.rows, O.PAGE_SIZE, cursor);
      Runs(s, steps) &&
      if page == [] then Rests(s, Final(s, steps), b)
      else Leads(s, steps, b, At(s).(page := page))
  {
    steps := [] + [ReadPage];
    ThenStep(s, [], ReadPage);
  }

  lemma AbandonSteps(b: O.Box, s: State, cursor: Key) returns (steps: seq<Step>)
    requires BetweenPages(s, s, b, cursor)
    ensures Runs(s, steps) && Rests(s, Final(s, steps), b)
  {
    steps := [] + [Abandon];
    ThenStep(s, [], Abandon);
  }

  /** What a turn of the paging loop leads to: rest, or the next turn. */
  predicate Turned(s: State, t: State, r: (O.Box, Key, bool))
  {
    if r.2 then Rests(s, t, r.0) else BetweenPages(s, t, r.0, r.1)
  }

  /** Reading a page that has rows, and delivering it. */
  lemma PageTurnSteps(w: O.World, b: O.Box, b2: O.Box, s: State, cursor: Key) returns (steps: seq<Step>)
    requires BetweenPages(s, s, b, cursor) && Shows(s, b2) && Page(b.rows, O.PAGE_SIZE, cursor) != []
    ensures Runs(s, steps)
    ensures Turned(s, Final(s, steps), O.DrainPage(w, b2, Page(b.rows, O.PAGE_SIZE, cursor), cursor))
  {
    steps := ReadSteps(w, b, s, cursor);
    var more := DrainPageSteps(w, b2, Final(s, steps), Page(b.rows, O.PAGE_SIZE, cursor), cursor);
    RunsConcat(s, steps, more);
    steps := steps + more;
  }

  /** One turn of the paging loop. */
  lemma TurnSteps(w: O.World, b: O.Box, s: State, cursor: Key) returns (steps: seq<Step>)
    requires BetweenPages(s, s, b, cursor)
    ensures Runs(s, steps) && Turned(s, Final(s, steps), O.DrainStep(w, b, cursor))
  {
    var b1 := b.(checks := b.checks + 1);
    if w.canceled(b.checks) || w.fault(b1.stmts) {
      steps := AbandonSteps(b, s, cursor);
    } else if Page(b.rows, O.PAGE_SIZE, cursor) == [] {
      steps := ReadSteps(w, b, s, cursor);
    } else {
      steps := PageTurnSteps(w, b, b1.(stmts := b1.stmts + 1), s, cursor);
    }
  }

  lemma {:induction false} DrainSpillSteps(w: O.World, b: O.Box, s: State, cursor: Key) returns (steps: seq<Step>)
    requires IsTable(b.rows) && O.NamedIds(b.rows) && BetweenPages(s, s, b, cursor)
    ensures Runs(s, steps) && Rests(s, Final(s, steps), O.DrainSpill(w, b, cursor))
    decreases O.Above(b.rows, cursor)
  {
    O.DrainStepAdvances(w, b, cursor);
    steps := TurnSteps(w, b, s, cursor);
    var (b1, c1, done) := O.DrainStep(w, b, cursor);
    if !done {
      var rest := DrainSpillSteps(w, b1, Final(s, steps), c1);
      RunsConcat(s, steps, rest);
      steps := steps + rest;
    }
  }

  /** A whole drain, with every fault, refusal and cancellation, is a run of the interleaved outbox in which
      only the worker moves; so what holds of all runs holds of every sequential drain. */
  lemma DrainSteps(w: O.World, b: O.Box, s: State) returns (steps: seq<Step>)
    requires IsTable(b.rows) && O.NamedIds(b.rows) && O.NamedIds(b.mem)
    requires Shows(s, b) && Resting(s)
    ensures Runs(s, steps) && Rests(s, Final(s, steps), O.DrainOnce(w, b))
  {
    steps := DrainMemSteps(w, b, s);
    var (b1, stop) := O.DrainMem(w, b);
    O.DrainMemKeepsTable(w, b);
    if !stop {
      FinishedMemoryIsEmpty(w, b);
      ThenStep(s, steps, StartPaging);
      steps := steps + [StartPaging];
      var rest := DrainSpillSteps(w, b1, Final(s, steps), Key("", ""));
      RunsConcat(s, steps, rest);
      steps := steps + rest;
    }
  }

  lemma {:induction false} FinishedMemoryIsEmpty(w: O.World, b: O.Box)
    ensures !O.DrainMem(w, b).1 ==> O.DrainMem(w, b).0.mem == []
    decreases |b.mem|
  {
    if b.mem != [] {
      var b1 := O.Deliver(w, b.(mem := b.mem[1..]), b.mem[0], false);
      FinishedMemoryIsEmpty(w, b1.(checks := b1.checks + 1));
    }
  }

  /** A prune pass; a statement that fails is a step not taken. */
  lemma PruneSteps(w: O.World, b: O.Box, s: State, cutoff: string) returns (steps: seq<Step>)
    requires Shows(s, b)
    ensures Leads(s, steps, O.PruneOnce(w, b, cutoff), At(s))
  {
    steps := [];
    if !w.fault(b.stmts) {
      ThenStep(s, steps, PruneAge(cutoff));
      steps := steps + [PruneAge(cutoff)];
    }
    if !w.fault(b.stmts + 1) {
      ThenStep(s, steps, PruneCount(b.cfg.spillMaxRows));
      steps := steps + [PruneCount(b.cfg.spillMaxRows)];
    }
  }
}
