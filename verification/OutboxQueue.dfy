/** The outbox object: the in-memory channel, the spill database it owns, and the worker's loops. */
module OutboxQueue {
  import opened TextOrder
  import opened SpillStore
  import opened OutboxConfig
  import opened Outbox

  class Queue {
    const world: World
    const db: SpillDB
    var cfg: Config
    var mem: seq<SpillItem>
    var sends: nat
    var stmts: nat
    var checks: nat
    ghost var log: seq<Event>

    ghost predicate Valid()
      reads this, db
    {
      && db.Valid() && Positive(cfg) && |mem| <= cfg.memoryMax
      && NamedIds(mem) && NamedIds(db.rows)
    }

    ghost function State(): Box
      reads this, db
    {
      Box(cfg, mem, db.rows, sends, stmts, checks, log)
    }

    constructor (world: World, db: SpillDB, config: Config)
      requires db.Valid() && NamedIds(db.rows)
      ensures Valid() && this.world == world && this.db == db
      ensures State() == Box(ApplyDefaults(config), [], db.rows, 0, 0, 0, [])
    {
      this.world, this.db := world, db;
      cfg, mem := ApplyDefaults(config), [];
      sends, stmts, checks, log := 0, 0, 0, [];
    }

    /** Hot-swap: the channel keeps the capacity it was made with. */
    method UpdateConfig(next: Config)
      requires Valid()
      modifies this
      ensures Valid() && State() == old(State()).(cfg := Swap(old(cfg), next))
      ensures cfg.memoryMax == old(cfg.memoryMax)
    {
      cfg := ApplyDefaults(next.(memoryMax := cfg.memoryMax));
    }

    method NextFault() returns (fault: bool)
      modifies this`stmts
      ensures fault == world.fault(old(stmts)) && stmts == old(stmts) + 1
    {
      fault := world.fault(stmts);
      stmts := stmts + 1;
    }

    method Canceled() returns (c: bool)
      modifies this`checks
      ensures c == world.canceled(old(checks)) && checks == old(checks) + 1
    {
      c := world.canceled(checks);
      checks := checks + 1;
    }

    method MakeRoomForOne() returns (ok: bool)
      requires Valid()
      modifies this`stmts, this`log, db
      ensures Valid() && (State(), ok) == MakeRoom(world, old(State()))
    {
      var fault := NextFault();
      var counted, count := db.SpillCount(fault);
      if !counted {
        return false;
      }
      ok := true;
      if count >= cfg.spillMaxRows {
        var over := count - cfg.spillMaxRows + 1;
        fault := NextFault();
        ghost var evicted := db.rows[..Min(over, |db.rows|)];
        DropOldestIsTable(db.rows, over);
        var deleted;
        ok, deleted := db.SpillDeleteOldest(over, fault);
        if ok {
          log := log + Evictions(evicted);
        }
      }
    }

    method EnqueueRow(item: SpillItem) returns (ok: bool)
      requires Valid() && item.id != ""
      modifies this`stmts, this`log, db
      ensures Valid() && State() == Enqueue(world, old(State()), item)
      ensures ok == (!world.fault(old(stmts)) && !HasId(old(db.rows), item.id))
    {
      var now := world.now(stmts);
      var fault := NextFault();
      InsertRowMembers(db.rows, item.(createdAt := now));
      ok := db.SpillEnqueue(item, now, fault);
      if !ok {
        log := log + [Refused(item.id)];
      }
    }

    /** Never blocks: the channel if it has room, else the spill table after making room. */
    method SubmitItem(item: SpillItem) returns (ok: bool)
      requires Valid() && item.id != ""
      modifies this, db
      ensures Valid() && State() == Submit(world, old(State()), item)
      ensures ok <==> !LastRefused(State(), old(State()), item.id)
    {
      if |mem| < cfg.memoryMax {
        mem := mem + [item];
        return true;
      }
      RoomRefusesNothing(world, State(), item.id);
      ok := MakeRoomForOne();
      if ok {
        ok := EnqueueRow(item);
      } else {
        log := log + [Refused(item.id)];
      }
    }

    method SpillItemWithEviction(item: SpillItem)
      requires Valid() && item.id != ""
      modifies this`stmts, this`log, db
      ensures Valid() && State() == SpillWithEviction(world, old(State()), item)
    {
      var _ := MakeRoomForOne();
      var _ := EnqueueRow(item);
    }

    method DeleteSpilled(id: string)
      requires Valid()
      modifies this`stmts, db
      ensures Valid() && State() == DeleteRow(world, old(State()), id)
    {
      var fault := NextFault();
      DeleteKeepsTable(db.rows, id);
      var _ := db.SpillDelete(id, fault);
    }

    method CountFailure(id: string, err: string)
      requires Valid()
      modifies this`stmts, db
      ensures Valid() && State() == IncrementRow(world, old(State()), id, err)
    {
      var fault := NextFault();
      IncrementKeepsTable(db.rows, id, err);
      var _ := db.SpillIncrementAttempts(id, err, fault);
    }

    /** One RPC; an unknown kind fails without one. */
    method SendItem(item: SpillItem) returns (outcome: Outcome)
      requires Valid()
      modifies this`sends, this`log
      ensures Valid() && outcome == Send(world, old(State()), item)
      ensures State() == Log(old(State()).(sends := old(sends) + 1), Sent(item.id, outcome))
    {
      outcome := if item.kind == JOB_REPORT then world.send(sends, item) else Failed("unsupported outbox kind");
      sends := sends + 1;
      log := log + [Sent(item.id, outcome)];
    }

    method SettleItem(item: SpillItem, fromSpill: bool, outcome: Outcome)
      requires Valid() && item.id != ""
      modifies this`stmts, this`log, db
      ensures Valid() && State() == Settle(world, old(State()), item, fromSpill, outcome)
    {
      match outcome
      case Acked =>
        if fromSpill {
          DeleteSpilled(item.id);
        }
      case Canceled =>
        if !fromSpill {
          SpillItemWithEviction(item);
        }
      case Failed(e) =>
        if fromSpill {
          CountFailure(item.id, e);
        } else {
          SpillItemWithEviction(item.(attempts := item.attempts + 1, lastError := e));
        }
    }

    method DeliverItem(item: SpillItem, fromSpill: bool)
      requires Valid() && item.id != ""
      modifies this`sends, this`stmts, this`log, db
      ensures Valid() && State() == Deliver(world, old(State()), item, fromSpill)
    {
      if item.attempts >= cfg.maxAttempts {
        log := log + [OverAttempts(item.id)];
        if fromSpill {
          DeleteSpilled(item.id);
        }
        return;
      }
      var outcome := SendItem(item);
      SettleItem(item, fromSpill, outcome);
    }

    /** One turn of the memory loop. */
    method DrainOneItem() returns (stop: bool)
      requires Valid() && mem != []
      modifies this, db
      ensures Valid() && |mem| == |old(mem)| - 1
      ensures State() == Turn(world, old(State())) && stop == world.canceled(State().checks - 1)
    {
      var item := mem[0];
      mem := mem[1..];
      DeliverItem(item, false);
      stop := Canceled();
    }

    method DrainMemory() returns (stop: bool)
      requires Valid()
      modifies this, db
      ensures Valid() && (State(), stop) == DrainMem(world, old(State()))
    {
      stop := false;
      while mem != []
        invariant Valid() && !stop
        invariant DrainMem(world, State()) == DrainMem(world, old(State()))
        decreases |mem|
      {
        DrainMemTurn(world, State());
        stop := DrainOneItem();
        if stop {
          return;
        }
      }
    }

    /** One turn of the loop over a page. */
    method DrainOneRow(row: SpillItem) returns (stop: bool)
      requires Valid() && row.id != ""
      modifies this`sends, this`stmts, this`checks, this`log, db
      ensures Valid() && stop == world.canceled(old(checks))
      ensures var b1 := old(State()).(checks := old(checks) + 1);
        State() == if stop then b1 else Deliver(world, b1, row, true)
    {
      stop := Canceled();
      if !stop {
        DeliverItem(row, true);
      }
    }

    method DeliverPage(page: Table, after: Key) returns (cursor: Key, stop: bool)
      requires Valid() && NamedIds(page)
      modifies this`sends, this`stmts, this`checks, this`log, db
      ensures Valid() && (State(), cursor, stop) == DrainPage(world, old(State()), page, after)
    {
      cursor, stop := after, false;
      var i := 0;
      while i < |page|
        invariant 0 <= i <= |page| && Valid() && !stop
        invariant DrainPage(world, State(), page[i..], cursor) == DrainPage(world, old(State()), page, after)
      {
        assert page[i..][1..] == page[i + 1..];
        DrainPageTurn(world, State(), page[i..], cursor);
        stop := DrainOneRow(page[i]);
        if stop {
          return;
        }
        cursor := KeyOf(page[i]);
        i := i + 1;
      }
    }

    method DrainNextPage(after: Key) returns (cursor: Key, done: bool)
      requires Valid()
      modifies this`sends, this`stmts, this`checks, this`log, db
      ensures Valid() && (State(), cursor, done) == DrainStep(world, old(State()), after)
    {
      cursor := after;
      done := Canceled();
      if done {
        return;
      }
      var fault := NextFault();
      var ok, page := db.SpillPage(PAGE_SIZE, cursor, fault);
      if !ok || page == [] {
        return cursor, true;
      }
      PageRowsAreNamed(db.rows, PAGE_SIZE, cursor);
      cursor, done := DeliverPage(page, cursor);
    }

    method Drain()
      requires Valid()
      modifies this, db
      ensures Valid() && State() == DrainOnce(world, old(State()))
    {
      DrainMemKeepsTable(world, State());
      var done := DrainMemory();
      if done {
        return;
      }
      ghost var start := State();
      var cursor := Key("", "");
      while !done
        invariant Valid()
        invariant if done then State() == DrainSpill(world, start, Key("", ""))
                  else DrainSpill(world, State(), cursor) == DrainSpill(world, start, Key("", ""))
        decreases !done, Above(db.rows, cursor)
      {
        DrainStepAdvances(world, State(), cursor);
        cursor, done := DrainNextPage(cursor);
      }
    }

    method PruneAge(cutoff: string)
      requires Valid()
      modifies this`stmts, this`log, db
      ensures Valid() && State() == PruneAged(world, old(State()), cutoff)
    {
      ghost var before := db.rows;
      PrunedRowsAreRows(before, cutoff);
      var fault := NextFault();
      var _, _ := db.SpillPruneByAge(cutoff, fault);
      log := log + Prunings(before, db.rows);
    }

    method PruneCount()
      requires Valid()
      modifies this`stmts, this`log, db
      ensures Valid() && State() == PruneCounted(world, old(State()))
    {
      ghost var before := db.rows;
      KeptRowsAreRows(before, cfg.spillMaxRows);
      var fault := NextFault();
      var _, _ := db.SpillPruneByCount(cfg.spillMaxRows, fault);
      log := log + Prunings(before, db.rows);
    }

    method Prune(cutoff: string)
      requires Valid()
      modifies this`stmts, this`log, db
      ensures Valid() && State() == PruneOnce(world, old(State()), cutoff)
    {
      PruneAge(cutoff);
      PruneCount();
    }
  }
}
