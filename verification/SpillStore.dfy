/** The agent's spill table: one function per SQL statement, and the class whose
    methods run those statements on one shared table. */
module SpillStore {
  import opened TextOrder

  datatype SpillItem = SpillItem(
    id: string, kind: string, payload: string, attempts: nat, lastError: string, createdAt: string)

  type Table = seq<SpillItem>

  function KeyOf(r: SpillItem): Key { Key(r.createdAt, r.id) }

  // A table is kept as its rows in ORDER BY created_at, id order; id is the primary key.

  ghost predicate Ordered(t: Table)
  {
    forall i, j :: 0 <= i < j < |t| ==> Before(KeyOf(t[i]), KeyOf(t[j]))
  }

  ghost predicate UniqueIds(t: Table)
  {
    forall i, j :: 0 <= i < j < |t| ==> t[i].id != t[j].id
  }

  ghost predicate IsTable(t: Table) { Ordered(t) && UniqueIds(t) }

  predicate HasId(t: Table, id: string)
  {
    exists i :: 0 <= i < |t| && t[i].id == id
  }

  function Min(a: int, b: int): int { if a < b then a else b }

  // ---- one function per statement ----

  /** INSERT: the new row takes CURRENT_TIMESTAMP and its place in the order. */
  function InsertRow(t: Table, r: SpillItem): Table
  {
    if t == [] then [r]
    else if Before(KeyOf(r), KeyOf(t[0])) then [r] + t
    else [t[0]] + InsertRow(t[1..], r)
  }

  /** The rows that satisfy a WHERE clause, in order. */
  function Where(t: Table, p: SpillItem -> bool): Table
  {
    if t == [] then []
    else (if p(t[0]) then [t[0]] else []) + Where(t[1..], p)
  }

  /** DELETE ... WHERE id = ? */
  function Delete(t: Table, id: string): Table
  {
    Where(t, (x: SpillItem) => x.id != id)
  }

  /** UPDATE ... SET attempts = attempts + 1, last_error = ? WHERE id = ? */
  function Increment(t: Table, id: string, err: string): Table
  {
    if t == [] then []
    else [if t[0].id == id then t[0].(attempts := t[0].attempts + 1, lastError := err) else t[0]]
         + Increment(t[1..], id, err)
  }

  /** DELETE of the first n rows in the order. */
  function DropOldest(t: Table, n: int): Table
  {
    if n <= 0 then t else if n >= |t| then [] else t[n..]
  }

  /** DELETE of all but the last `keep` rows in the order. */
  function KeepNewest(t: Table, keep: int): Table
  {
    var k := if keep < 0 then 0 else keep;
    if |t| <= k then t else t[|t| - k..]
  }

  /** DELETE ... WHERE created_at < ? */
  function PruneOlder(t: Table, cutoff: string): Table
  {
    Where(t, (x: SpillItem) => !Less(x.createdAt, cutoff))
  }

  /** The rows strictly after a cursor. */
  function Newer(t: Table, c: Key): Table
  {
    Where(t, (x: SpillItem) => Before(c, KeyOf(x)))
  }

  /** SELECT ... LIMIT ?; an empty cursor id selects from the beginning. */
  function Page(t: Table, limit: nat, after: Key): Table
  {
    var rest := if after.id == "" then t else Newer(t, after);
    rest[..Min(limit, |rest|)]
  }

  // ---- what the statements mean ----

  lemma {:induction false} InsertRowMembers(t: Table, r: SpillItem)
    ensures |InsertRow(t, r)| == |t| + 1
    ensures multiset(InsertRow(t, r)) == multiset(t) + multiset{r}
    ensures forall x :: x in InsertRow(t, r) <==> x in t || x == r
  {
    if t == [] {
    } else if Before(KeyOf(r), KeyOf(t[0])) {
    } else {
      InsertRowMembers(t[1..], r);
      assert t == [t[0]] + t[1..];
    }
  }

  /** A table whose ids do not include the new one stays ordered and keeps id a key. */
  lemma {:induction false} InsertRowIsTable(t: Table, r: SpillItem)
    requires IsTable(t) && !HasId(t, r.id)
    ensures IsTable(InsertRow(t, r))
  {
    BeforeIsStrictTotalOrder();
    var u := InsertRow(t, r);
    if t == [] {
    } else if Before(KeyOf(r), KeyOf(t[0])) {
      assert forall i :: 0 <= i < |t| ==> t[i].id != r.id;
    } else {
      assert t[0].id != r.id;
      assert forall i :: 0 <= i < |t[1..]| ==> t[1..][i] == t[i + 1];
      InsertRowIsTable(t[1..], r);
      InsertRowMembers(t[1..], r);
      forall j | 0 < j < |u| ensures Before(KeyOf(u[0]), KeyOf(u[j])) && u[0].id != u[j].id {
        assert u[j] == InsertRow(t[1..], r)[j - 1];
        assert u[j] in InsertRow(t[1..], r);
        if u[j] != r {
          assert u[j] in t[1..];
        }
      }
    }
  }

  lemma {:induction false} WhereMembers(t: Table, p: SpillItem -> bool)
    ensures forall x :: x in Where(t, p) <==> x in t && p(x)
    ensures |Where(t, p)| <= |t|
    ensures (forall x :: x in t ==> p(x)) ==> Where(t, p) == t
    ensures (forall x :: x in t ==> !p(x)) ==> Where(t, p) == []
  {
    if t != [] {
      WhereMembers(t[1..], p);
      assert t == [t[0]] + t[1..];
    }
  }

  lemma WhereCons(x: SpillItem, t: Table, p: SpillItem -> bool)
    ensures Where([x] + t, p) == (if p(x) then [x] else []) + Where(t, p)
  {
    assert ([x] + t)[1..] == t;
  }

  lemma {:induction false} WhereConcat(a: Table, b: Table, p: SpillItem -> bool)
    ensures Where(a + b, p) == Where(a, p) + Where(b, p)
  {
    if a == [] {
      assert a + b == b;
    } else {
      var x, rest := a[0], a[1..];
      WhereConcat(rest, b, p);
      WhereCons(x, rest, p);
      WhereCons(x, rest + b, p);
      assert [x] + rest == a && [x] + (rest + b) == a + b;
    }
  }

  /** Later than, and other than, every row of t. */
  ghost predicate Leads(x: SpillItem, t: Table)
  {
    forall y :: y in t ==> Before(KeyOf(x), KeyOf(y)) && x.id != y.id
  }

  lemma TailIsTable(t: Table)
    requires IsTable(t) && t != []
    ensures IsTable(t[1..]) && Leads(t[0], t[1..])
  {
    assert forall i :: 0 <= i < |t[1..]| ==> t[1..][i] == t[i + 1];
  }

  lemma ConsIsTable(x: SpillItem, t: Table)
    requires IsTable(t) && Leads(x, t)
    ensures IsTable([x] + t)
  {
    var u := [x] + t;
    assert forall j :: 0 < j < |u| ==> u[j] == t[j - 1] && u[j] in t;
  }

  lemma {:induction false} WhereIsTable(t: Table, p: SpillItem -> bool)
    requires IsTable(t)
    ensures IsTable(Where(t, p))
  {
    if t != [] {
      TailIsTable(t);
      WhereIsTable(t[1..], p);
      WhereMembers(t[1..], p);
      if p(t[0]) { ConsIsTable(t[0], Where(t[1..], p)); }
    }
  }

  lemma {:induction false} IncrementShape(t: Table, id: string, err: string)
    ensures |Increment(t, id, err)| == |t|
    ensures forall i :: 0 <= i < |t| ==>
      Increment(t, id, err)[i] == (if t[i].id == id then t[i].(attempts := t[i].attempts + 1, lastError := err) else t[i])
    ensures !HasId(t, id) ==> Increment(t, id, err) == t
  {
    if t != [] {
      IncrementShape(t[1..], id, err);
      if !HasId(t, id) {
        assert t[0].id != id;
        assert forall i :: 0 <= i < |t[1..]| ==> t[1..][i] == t[i + 1];
        assert t == [t[0]] + t[1..];
      }
    }
  }

  /** In an ordered table the rows after a cursor are a suffix, and the rest lies at or before it. */
  lemma {:induction false} NewerIsSuffix(t: Table, c: Key) returns (k: nat)
    requires Ordered(t)
    ensures k <= |t| && Newer(t, c) == t[k..]
    ensures forall i :: 0 <= i < k ==> !Before(c, KeyOf(t[i]))
    ensures forall i :: k <= i < |t| ==> Before(c, KeyOf(t[i]))
  {
    k := 0;
    if t != [] && Before(c, KeyOf(t[0])) {
      BeforeIsStrictTotalOrder();
      WhereMembers(t, (x: SpillItem) => Before(c, KeyOf(x)));
    } else if t != [] {
      var tail := t[1..];
      assert forall i :: 0 <= i < |tail| ==> tail[i] == t[i + 1];
      k := NewerIsSuffix(tail, c);
      k := k + 1;
      assert tail[k - 1..] == t[k..];
      assert forall i :: 1 <= i < |t| ==> t[i] == tail[i - 1];
    }
  }

  /** A page holds the rows right after the cursor, in order, with none skipped. */
  lemma PageIsNext(t: Table, limit: nat, after: Key)
    requires Ordered(t)
    ensures var p := Page(t, limit, after);
      && Ordered(p) && |p| <= limit
      && (forall x :: x in p ==> x in t && (after.id == "" || Before(after, KeyOf(x))))
      && (forall x :: x in t && (after.id == "" || Before(after, KeyOf(x))) && x !in p ==>
            |p| == limit && forall y :: y in p ==> Before(KeyOf(y), KeyOf(x)))
  {
    if after.id == "" {
      assert t[..Min(limit, |t|)] + t[Min(limit, |t|)..] == t;
    } else {
      var k := NewerIsSuffix(t, after);
      var rest := t[k..];
      assert rest[..Min(limit, |rest|)] + rest[Min(limit, |rest|)..] == rest;
    }
  }

  /** A deletion by id takes that id's row and no other. */
  lemma DeleteTakesOne(t: Table, id: string)
    ensures forall x :: x in Delete(t, id) <==> x in t && x.id != id
  {
    WhereMembers(t, (x: SpillItem) => x.id != id);
  }

  /** Pruning by age takes the rows created before the cutoff; one created at it stays. */
  lemma PruneTakesOlder(t: Table, cutoff: string)
    ensures forall x :: x in PruneOlder(t, cutoff) <==> x in t && (x.createdAt == cutoff || !Less(x.createdAt, cutoff))
  {
    LessIrreflexive(cutoff);
    WhereMembers(t, (x: SpillItem) => !Less(x.createdAt, cutoff));
  }

  /** Pruning by count takes the oldest rows and leaves no more than `keep`. */
  lemma PruneTakesOldest(t: Table, keep: int)
    requires Ordered(t)
    ensures var kept := KeepNewest(t, keep);
      var gone := |t| - |kept|;
      && |kept| == (if keep < 0 then 0 else Min(keep, |t|)) && t == t[..gone] + kept
      && forall x, y :: x in t[..gone] && y in kept ==> Before(KeyOf(x), KeyOf(y))
  {
    var kept := KeepNewest(t, keep);
    var gone := |t| - |kept|;
    forall x, y | x in t[..gone] && y in kept ensures Before(KeyOf(x), KeyOf(y)) {
      var i :| 0 <= i < gone && t[..gone][i] == x;
      var j :| 0 <= j < |kept| && kept[j] == y;
      assert x == t[i] && y == t[gone + j];
    }
  }

  /** Evicting n rows removes the n oldest: every evicted row precedes every survivor. */
  lemma DropOldestTakesOldest(t: Table, n: nat)
    requires Ordered(t)
    ensures var k := Min(n, |t|); |DropOldest(t, n)| == |t| - k && t == t[..k] + DropOldest(t, n)
    ensures forall x, y :: x in t[..Min(n, |t|)] && y in DropOldest(t, n) ==> Before(KeyOf(x), KeyOf(y))
  {
    var k := Min(n, |t|);
    forall x, y | x in t[..k] && y in DropOldest(t, n) ensures Before(KeyOf(x), KeyOf(y)) {
      var i :| 0 <= i < k && t[..k][i] == x;
      var j :| 0 <= j < |t[k..]| && t[k..][j] == y;
      assert x == t[i] && y == t[k + j];
    }
  }

  lemma IncrementIsTable(t: Table, id: string, err: string)
    requires IsTable(t)
    ensures |Increment(t, id, err)| == |t| && IsTable(Increment(t, id, err))
    ensures forall i :: 0 <= i < |t| ==> KeyOf(Increment(t, id, err)[i]) == KeyOf(t[i])
  {
    IncrementShape(t, id, err);
  }

  // ---- the table as the agent's database object ----

  class SpillDB {
    var rows: Table

    ghost predicate Valid() reads this { IsTable(rows) }

    constructor ()
      ensures Valid() && rows == []
    {
      rows := [];
    }

    /** A duplicate id violates the primary key; a fault leaves the table alone. */
    method SpillEnqueue(item: SpillItem, now: string, fault: bool) returns (ok: bool)
      requires Valid()
      modifies this
      ensures Valid()
      ensures ok <==> !fault && !HasId(old(rows), item.id)
      ensures rows == if ok then InsertRow(old(rows), item.(createdAt := now)) else old(rows)
    {
      ok := !fault && !HasId(rows, item.id);
      if ok {
        InsertRowIsTable(rows, item.(createdAt := now));
        rows := InsertRow(rows, item.(createdAt := now));
      }
    }

    method SpillPage(limit: nat, after: Key, fault: bool) returns (ok: bool, page: Table)
      requires Valid()
      ensures ok <==> !fault
      ensures page == if ok then Page(rows, limit, after) else []
    {
      ok := !fault;
      page := if ok then Page(rows, limit, after) else [];
    }

    method SpillDelete(id: string, fault: bool) returns (ok: bool)
      requires Valid()
      modifies this
      ensures Valid() && ok == !fault
      ensures rows == if ok then Delete(old(rows), id) else old(rows)
    {
      ok := !fault;
      if ok {
        WhereIsTable(rows, (x: SpillItem) => x.id != id);
        rows := Delete(rows, id);
      }
    }

    method SpillIncrementAttempts(id: string, err: string, fault: bool) returns (ok: bool)
      requires Valid()
      modifies this
      ensures Valid() && ok == !fault
      ensures rows == if ok then Increment(old(rows), id, err) else old(rows)
    {
      ok := !fault;
      if ok {
        IncrementIsTable(rows, id, err);
        rows := Increment(rows, id, err);
      }
    }

    method SpillCount(fault: bool) returns (ok: bool, n: nat)
      ensures ok == !fault && n == if ok then |rows| else 0
    {
      ok, n := !fault, if fault then 0 else |rows|;
    }

    method SpillDeleteOldest(n: int, fault: bool) returns (ok: bool, deleted: nat)
      requires Valid()
      modifies this
      ensures Valid() && ok == (n <= 0 || !fault)
      ensures rows == if ok then DropOldest(old(rows), n) else old(rows)
      ensures deleted == |old(rows)| - |rows|
    {
      if n <= 0 {
        return true, 0;
      }
      if fault {
        return false, 0;
      }
      ok, deleted := true, Min(n, |rows|);
      rows := DropOldest(rows, n);
    }

    method SpillPruneByCount(keep: int, fault: bool) returns (ok: bool, pruned: nat)
      requires Valid()
      modifies this
      ensures Valid() && ok == !fault
      ensures rows == if ok then KeepNewest(old(rows), keep) else old(rows)
      ensures pruned == |old(rows)| - |rows|
    {
      if fault {
        return false, 0;
      }
      ghost var before := |rows|;
      var kept := KeepNewest(rows, keep);
      ok, pruned := true, |rows| - |kept|;
      rows := kept;
    }

    method SpillPruneByAge(cutoff: string, fault: bool) returns (ok: bool, pruned: nat)
      requires Valid()
      modifies this
      ensures Valid() && ok == !fault
      ensures rows == if ok then PruneOlder(old(rows), cutoff) else old(rows)
      ensures pruned == |old(rows)| - |rows|
    {
      if fault {
        return false, 0;
      }
      WhereIsTable(rows, (x: SpillItem) => !Less(x.createdAt, cutoff));
      WhereMembers(rows, (x: SpillItem) => !Less(x.createdAt, cutoff));
      var kept := PruneOlder(rows, cutoff);
      ok, pruned := true, |rows| - |kept|;
      rows := kept;
    }
  }
}
