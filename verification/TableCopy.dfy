/** The cutover copy: drop the destination's tables children first, create the schema, and copy the
    source table by table, parents first, one row at a time. */
module TableCopy {
  import opened Common

  type Row = map<string, Option<string>>      // column to value, None for NULL
  type Db = map<string, seq<Row>>             // the tables that exist

  datatype ForeignKey = ForeignKey(child: string, column: string, parent: string)

  const COPY_TABLES: seq<string> :=
    ["agents", "repositories", "settings", "scripts", "backup_plans", "backup_plan_repositories",
     "plan_hooks", "jobs", "job_repository_results", "job_hook_results"]

  const FOREIGN_KEYS: set<ForeignKey> :=
    { ForeignKey("repositories", "agent_id", "agents"),
      ForeignKey("backup_plans", "agent_id", "agents"),
      ForeignKey("backup_plan_repositories", "backup_plan_id", "backup_plans"),
      ForeignKey("backup_plan_repositories", "repository_id", "repositories"),
      ForeignKey("plan_hooks", "backup_plan_id", "backup_plans"),
      ForeignKey("plan_hooks", "script_id", "scripts"),
      ForeignKey("jobs", "agent_id", "agents"),
      ForeignKey("jobs", "plan_id", "backup_plans"),
      ForeignKey("job_repository_results", "job_id", "jobs"),
      ForeignKey("job_repository_results", "repository_id", "repositories"),
      ForeignKey("job_hook_results", "job_id", "jobs") }

  // ---- referential integrity ----

  predicate Names(row: Row, column: string, value: string) { column in row && row[column] == Some(value) }

  predicate HasId(rows: seq<Row>, value: string) { exists i :: 0 <= i < |rows| && Names(rows[i], "id", value) }

  predicate References(row: Row, column: string) { column in row && row[column].Some? }

  /** The row's reference, if it has one, is to a row that is there. */
  predicate Resolves(db: Db, fk: ForeignKey, row: Row)
  {
    References(row, fk.column) ==> fk.parent in db && HasId(db[fk.parent], row[fk.column].value)
  }

  ghost predicate KeyHolds(db: Db, fk: ForeignKey)
  {
    fk.child in db ==> forall i :: 0 <= i < |db[fk.child]| ==> Resolves(db, fk, db[fk.child][i])
  }

  ghost predicate Intact(fks: set<ForeignKey>, db: Db) { forall fk :: fk in fks ==> KeyHolds(db, fk) }

  /** Integrity means that a row's reference names a row of the parent table by its id. */
  lemma IntactExactly(fks: set<ForeignKey>, db: Db)
    ensures Intact(fks, db) <==>
      forall fk, row, v :: fk in fks && fk.child in db && row in db[fk.child] && fk.column in row && row[fk.column] == Some(v) ==>
        fk.parent in db && exists parent :: parent in db[fk.parent] && "id" in parent && parent["id"] == Some(v)
  {
    if Intact(fks, db) {
      forall fk, row, v | fk in fks && fk.child in db && row in db[fk.child] && fk.column in row && row[fk.column] == Some(v)
        ensures fk.parent in db && exists parent :: parent in db[fk.parent] && "id" in parent && parent["id"] == Some(v)
      {
        assert KeyHolds(db, fk);
        var i :| 0 <= i < |db[fk.child]| && db[fk.child][i] == row;
        assert Resolves(db, fk, db[fk.child][i]);
        var k :| 0 <= k < |db[fk.parent]| && Names(db[fk.parent][k], "id", v);
      }
    }
    if forall fk, row, v :: fk in fks && fk.child in db && row in db[fk.child] && fk.column in row && row[fk.column] == Some(v) ==>
         fk.parent in db && exists parent :: parent in db[fk.parent] && "id" in parent && parent["id"] == Some(v)
    {
      forall fk | fk in fks ensures KeyHolds(db, fk) {
        if fk.child in db {
          forall i | 0 <= i < |db[fk.child]| ensures Resolves(db, fk, db[fk.child][i]) {
            var row := db[fk.child][i];
            if References(row, fk.column) {
              var v := row[fk.column].value;
              assert row[fk.column] == Some(v);
              var parent :| parent in db[fk.parent] && "id" in parent && parent["id"] == Some(v);
              var k :| 0 <= k < |db[fk.parent]| && db[fk.parent][k] == parent;
              assert Names(db[fk.parent][k], "id", v);
            }
          }
        }
      }
    }
  }

  // ---- the statements ----

  datatype Statement = DropTable(table: string) | CreateTable(table: string) | Insert(table: string, row: Row)

  function Exec(db: Db, st: Statement): Db
  {
    match st
    case DropTable(t) => db - {t}
    case CreateTable(t) => if t in db then db else db[t := []]
    case Insert(t, row) => if t in db then db[t := db[t] + [row]] else db
  }

  function ExecAll(db: Db, sts: seq<Statement>): Db
  {
    if sts == [] then db else Exec(ExecAll(db, sts[..|sts| - 1]), sts[|sts| - 1])
  }

  function Drops(ts: seq<string>): seq<Statement>
  {
    if ts == [] then [] else [DropTable(ts[|ts| - 1])] + Drops(ts[..|ts| - 1])
  }

  function Creates(ts: seq<string>): seq<Statement>
  {
    if ts == [] then [] else Creates(ts[..|ts| - 1]) + [CreateTable(ts[|ts| - 1])]
  }

  function Rows(t: string, rows: seq<Row>): seq<Statement>
  {
    if rows == [] then [] else Rows(t, rows[..|rows| - 1]) + [Insert(t, rows[|rows| - 1])]
  }

  /** What copying a table reads; a table the source does not have has no rows. */
  function Source(src: Db, t: string): seq<Row> { if t in src then src[t] else [] }

  function Inserts(src: Db, ts: seq<string>): seq<Statement>
  {
    if ts == [] then []
    else Inserts(src, ts[..|ts| - 1]) + Rows(ts[|ts| - 1], Source(src, ts[|ts| - 1]))
  }

  /** Everything the copy sends to the destination, in order. */
  function Script(src: Db, ts: seq<string>): seq<Statement> { Drops(ts) + Creates(ts) + Inserts(src, ts) }

  lemma {:induction false} ExecConcat(db: Db, a: seq<Statement>, b: seq<Statement>)
    ensures ExecAll(db, a + b) == ExecAll(ExecAll(db, a), b)
  {
    if b == [] {
      assert a + b == a;
    } else {
      assert (a + b)[..|a + b| - 1] == a + b[..|b| - 1];
      ExecConcat(db, a, b[..|b| - 1]);
    }
  }

  /** Creating a table that is there already keeps its rows. */
  lemma CreateKeepsRows(db: Db, t: string)
    requires t in db
    ensures Exec(db, CreateTable(t)) == db
  {
  }

  /** However far the statements get, the database is intact. */
  ghost predicate StaysIntact(fks: set<ForeignKey>, db: Db, sts: seq<Statement>)
  {
    forall k :: 0 <= k <= |sts| ==> Intact(fks, ExecAll(db, sts[..k]))
  }

  lemma StaysIntactConcat(fks: set<ForeignKey>, db: Db, a: seq<Statement>, b: seq<Statement>)
    requires StaysIntact(fks, db, a) && StaysIntact(fks, ExecAll(db, a), b)
    ensures StaysIntact(fks, db, a + b)
  {
    forall k | 0 <= k <= |a + b| ensures Intact(fks, ExecAll(db, (a + b)[..k])) {
      if k <= |a| {
        assert (a + b)[..k] == a[..k];
      } else {
        assert (a + b)[..k] == a + b[..k - |a|];
        ExecConcat(db, a, b[..k - |a|]);
      }
    }
  }

  lemma StaysIntactStep(fks: set<ForeignKey>, db: Db, sts: seq<Statement>)
    requires sts != [] && StaysIntact(fks, db, sts[..|sts| - 1]) && Intact(fks, ExecAll(db, sts))
    ensures StaysIntact(fks, db, sts)
  {
    var init := sts[..|sts| - 1];
    forall k | 0 <= k <= |sts| ensures Intact(fks, ExecAll(db, sts[..k])) {
      assert if k == |sts| then sts[..k] == sts else sts[..k] == init[..k];
    }
  }

  // ---- the order ----

  predicate At(ts: seq<string>, i: int, t: string) { 0 <= i < |ts| && ts[i] == t }

  predicate Distinct(ts: seq<string>) { forall i, j :: 0 <= i < j < |ts| ==> ts[i] != ts[j] }

  /** a is listed strictly before b. */
  ghost predicate Precedes(ts: seq<string>, a: string, b: string) { exists i, j :: i < j && At(ts, i, a) && At(ts, j, b) }

  /** Every parent is listed before its children. */
  ghost predicate ParentsFirst(fks: set<ForeignKey>, ts: seq<string>)
  {
    forall fk :: fk in fks ==> Precedes(ts, fk.parent, fk.child)
  }

  // ---- dropping ----

  lemma {:induction false} DropsStayIntact(fks: set<ForeignKey>, db: Db, ts: seq<string>)
    requires Intact(fks, db) && Distinct(ts)
    requires forall fk :: fk in fks && fk.child in db ==> Precedes(ts, fk.parent, fk.child)
    ensures StaysIntact(fks, db, Drops(ts))
    ensures forall t :: t in ExecAll(db, Drops(ts)) <==> t in db && t !in ts
    ensures forall t :: t in ExecAll(db, Drops(ts)) ==> ExecAll(db, Drops(ts))[t] == db[t]
    decreases |ts|
  {
    if ts != [] {
      var n := |ts| - 1;
      var init, last := ts[..n], ts[n];
      var first := [DropTable(last)];
      var after := db - {last};
      assert first[..0] == [] && ExecAll(db, first) == Exec(ExecAll(db, []), first[0]) == after;
      DropKeepsIntact(fks, db, ts);
      forall fk | fk in fks && fk.child in after ensures Precedes(init, fk.parent, fk.child) {
        var i, j :| i < j && At(ts, i, fk.parent) && At(ts, j, fk.child);
        assert At(init, i, fk.parent) && At(init, j, fk.child);
      }
      DropsStayIntact(fks, after, init);
      assert StaysIntact(fks, db, first[..0]);
      StaysIntactStep(fks, db, first);
      StaysIntactConcat(fks, db, first, Drops(init));
      ExecConcat(db, first, Drops(init));
      forall t ensures t in ts <==> t == last || t in init { ListedLast(ts, t); }
    }
  }

  lemma ListedLast(ts: seq<string>, t: string)
    requires ts != []
    ensures t in ts <==> t == ts[|ts| - 1] || t in ts[..|ts| - 1]
  {
    assert ts == ts[..|ts| - 1] + [ts[|ts| - 1]];
  }

  lemma DropKeepsIntact(fks: set<ForeignKey>, db: Db, ts: seq<string>)
    requires Intact(fks, db) && Distinct(ts) && ts != []
    requires forall fk :: fk in fks && fk.child in db ==> Precedes(ts, fk.parent, fk.child)
    ensures Intact(fks, db - {ts[|ts| - 1]})
  {
    var n := |ts| - 1;
    var after := db - {ts[n]};
    forall fk | fk in fks ensures KeyHolds(after, fk) {
      assert KeyHolds(db, fk);
      if fk.child in after {
        var i, j :| i < j && At(ts, i, fk.parent) && At(ts, j, fk.child);
        assert fk.parent != ts[n];
        forall r | 0 <= r < |after[fk.child]| ensures Resolves(after, fk, after[fk.child][r]) {
          assert Resolves(db, fk, db[fk.child][r]);
        }
      }
    }
  }

  // ---- creating ----

  lemma NoRowsNoReferences(fks: set<ForeignKey>, db: Db)
    requires forall fk :: fk in fks && fk.child in db ==> db[fk.child] == []
    ensures Intact(fks, db)
  {
  }

  lemma {:induction false} CreatesStayIntact(fks: set<ForeignKey>, db: Db, ts: seq<string>)
    requires forall t :: t in ts ==> t !in db
    requires forall fk :: fk in fks ==> fk.child !in db
    ensures StaysIntact(fks, db, Creates(ts))
    ensures forall t :: t in ExecAll(db, Creates(ts)) <==> t in db || t in ts
    ensures forall t :: t in ExecAll(db, Creates(ts)) ==>
      ExecAll(db, Creates(ts))[t] == if t in db then db[t] else []
  {
    if ts == [] {
      NoRowsNoReferences(fks, db);
      assert Creates(ts)[..0] == [];
    } else {
      var n := |ts| - 1;
      forall t ensures t in ts <==> t == ts[n] || t in ts[..n] { ListedLast(ts, t); }
      CreatesStayIntact(fks, db, ts[..n]);
      var sts := Creates(ts);
      assert sts[..|sts| - 1] == Creates(ts[..n]) && sts[|sts| - 1] == CreateTable(ts[n]);
      NoRowsNoReferences(fks, ExecAll(db, sts));
      StaysIntactStep(fks, db, sts);
    }
  }

  // ---- copying ----

  /** A database whose tables are the source's where copied and empty elsewhere is intact if parents are
      copied before children; the table being copied may hold any first part of its rows. */
  lemma PartlyCopiedIsIntact(fks: set<ForeignKey>, src: Db, ts: seq<string>, n: int, db: Db)
    requires Intact(fks, src) && ParentsFirst(fks, ts) && Distinct(ts) && 0 <= n < |ts|
    requires forall i :: 0 <= i < |ts| ==> ts[i] in db
    requires forall i :: 0 <= i < n ==> db[ts[i]] == Source(src, ts[i])
    requires db[ts[n]] <= Source(src, ts[n])
    requires forall i :: n < i < |ts| ==> db[ts[i]] == []
    ensures Intact(fks, db)
  {
    forall fk | fk in fks ensures KeyHolds(db, fk) {
      var i, j :| i < j && At(ts, i, fk.parent) && At(ts, j, fk.child);
      assert KeyHolds(src, fk);
      if j <= n {
        forall r | 0 <= r < |db[fk.child]| ensures Resolves(db, fk, db[fk.child][r]) {
          assert db[ts[j]][r] == Source(src, ts[j])[r];
          assert Resolves(src, fk, src[fk.child][r]);
        }
      }
    }
  }

  lemma {:induction false} RowsAppend(db: Db, t: string, rows: seq<Row>)
    requires t in db
    ensures ExecAll(db, Rows(t, rows)) == db[t := db[t] + rows]
  {
    if rows == [] {
      assert db[t] + rows == db[t];
    } else {
      var n := |rows| - 1;
      var sts := Rows(t, rows);
      RowsAppend(db, t, rows[..n]);
      assert sts[..|sts| - 1] == Rows(t, rows[..n]);
      assert rows == rows[..n] + [rows[n]];
      assert db[t] + rows[..n] + [rows[n]] == db[t] + rows;
    }
  }

  lemma RowsLength(t: string, rows: seq<Row>, k: nat)
    requires k <= |rows|
    ensures |Rows(t, rows)| == |rows| && Rows(t, rows)[..k] == Rows(t, rows[..k])
    decreases |rows|
  {
    if rows != [] {
      var n := |rows| - 1;
      if k <= n {
        RowsLength(t, rows[..n], k);
        assert rows[..n][..k] == rows[..k];
        assert Rows(t, rows)[..k] == Rows(t, rows[..n])[..k];
      } else {
        RowsLength(t, rows[..n], n);
        assert rows[..k] == rows && rows[..n][..n] == rows[..n];
      }
    }
  }

  /** What the tables hold after the inserts for the first n tables. */
  ghost predicate Holds(src: Db, base: Db, ts: seq<string>, n: int, db: Db)
    requires 0 <= n <= |ts|
  {
    && db.Keys == base.Keys
    && (forall i :: 0 <= i < n ==> ts[i] in db && db[ts[i]] == Source(src, ts[i]))
    && (forall i :: n <= i < |ts| ==> ts[i] in db && db[ts[i]] == [])
    && (forall t :: t in base && t !in ts ==> db[t] == base[t])
  }

  lemma FilledTable(src: Db, base: Db, ts: seq<string>, n: int, db: Db, rows: seq<Row>)
    requires Distinct(ts) && 0 <= n < |ts| && Holds(src, base, ts, n, db)
    ensures ExecAll(db, Rows(ts[n], rows)) == db[ts[n] := rows]
  {
    RowsAppend(db, ts[n], rows);
    assert [] + rows == rows;
  }

  lemma CopyTableHolds(src: Db, base: Db, ts: seq<string>, n: int, db: Db)
    requires Distinct(ts) && 0 <= n < |ts| && Holds(src, base, ts, n, db)
    ensures Holds(src, base, ts, n + 1, ExecAll(db, Rows(ts[n], Source(src, ts[n]))))
  {
    FilledTable(src, base, ts, n, db, Source(src, ts[n]));
  }

  lemma CopyTableIntact(fks: set<ForeignKey>, src: Db, base: Db, ts: seq<string>, n: int, db: Db)
    requires Intact(fks, src) && ParentsFirst(fks, ts) && Distinct(ts) && 0 <= n < |ts|
    requires Holds(src, base, ts, n, db)
    ensures StaysIntact(fks, db, Rows(ts[n], Source(src, ts[n])))
  {
    var rows := Source(src, ts[n]);
    RowsLength(ts[n], rows, |rows|);
    forall k | 0 <= k <= |rows| ensures Intact(fks, ExecAll(db, Rows(ts[n], rows)[..k])) {
      RowsLength(ts[n], rows, k);
      FilledTable(src, base, ts, n, db, rows[..k]);
      PartlyCopiedIsIntact(fks, src, ts, n, db[ts[n] := rows[..k]]);
    }
  }

  lemma {:induction false} InsertsStayIntact(fks: set<ForeignKey>, src: Db, base: Db, ts: seq<string>, n: int)
    requires Intact(fks, src) && ParentsFirst(fks, ts) && Distinct(ts) && 0 <= n <= |ts|
    requires Holds(src, base, ts, 0, base) && Intact(fks, base)
    ensures Holds(src, base, ts, n, ExecAll(base, Inserts(src, ts[..n])))
    ensures StaysIntact(fks, base, Inserts(src, ts[..n]))
  {
    if n == 0 {
      assert Inserts(src, ts[..0])[..0] == [];
    } else {
      var init := ts[..n - 1];
      assert ts[..n][..n - 1] == init && ts[..n][n - 1] == ts[n - 1];
      InsertsStayIntact(fks, src, base, ts, n - 1);
      var db := ExecAll(base, Inserts(src, init));
      var rows := Rows(ts[n - 1], Source(src, ts[n - 1]));
      CopyTableHolds(src, base, ts, n - 1, db);
      CopyTableIntact(fks, src, base, ts, n - 1, db);
      StaysIntactConcat(fks, base, Inserts(src, init), rows);
      ExecConcat(base, Inserts(src, init), rows);
    }
  }

  // ---- the whole copy ----

  /** The state between dropping and creating, and the one the inserts start from. */
  lemma SchemaIsReady(fks: set<ForeignKey>, src: Db, dest: Db, ts: seq<string>)
    requires Intact(fks, dest) && ParentsFirst(fks, ts) && Distinct(ts)
    ensures var ready := ExecAll(dest, Drops(ts) + Creates(ts));
      && StaysIntact(fks, dest, Drops(ts) + Creates(ts))
      && Holds(src, ready, ts, 0, ready)
      && (forall t :: t !in ts ==> (t in ready <==> t in dest) && (t in dest ==> ready[t] == dest[t]))
  {
    DropsStayIntact(fks, dest, ts);
    var bare := ExecAll(dest, Drops(ts));
    assert forall fk :: fk in fks ==> fk.child in ts;
    CreatesStayIntact(fks, bare, ts);
    StaysIntactConcat(fks, dest, Drops(ts), Creates(ts));
    ExecConcat(dest, Drops(ts), Creates(ts));
  }

  /** From any intact destination and source, every state the copy passes through is intact; at the end each
      table holds exactly the source's rows in order, and tables outside the schema are untouched. */
  lemma CopyIsSafe(fks: set<ForeignKey>, src: Db, dest: Db, ts: seq<string>)
    requires Intact(fks, src) && Intact(fks, dest) && ParentsFirst(fks, ts) && Distinct(ts)
    ensures StaysIntact(fks, dest, Script(src, ts))
    ensures var after := ExecAll(dest, Script(src, ts));
      && (forall t :: t in ts ==> t in after && after[t] == if t in src then src[t] else [])
      && (forall t :: t !in ts ==> (t in after <==> t in dest) && (t in dest ==> after[t] == dest[t]))
  {
    var schema := Drops(ts) + Creates(ts);
    var ready := ExecAll(dest, schema);
    SchemaIsReady(fks, src, dest, ts);
    assert schema[..|schema|] == schema;
    InsertsStayIntact(fks, src, ready, ts, |ts|);
    assert ts[..|ts|] == ts;
    StaysIntactConcat(fks, dest, schema, Inserts(src, ts));
    ExecConcat(dest, schema, Inserts(src, ts));
  }

  // ---- the order matters ----

  predicate NoSelfReference(fks: set<ForeignKey>) { forall fk :: fk in fks ==> fk.child != fk.parent }

  predicate Within(fks: set<ForeignKey>, ts: seq<string>)
  {
    forall fk :: fk in fks ==> fk.child in ts && fk.parent in ts
  }

  /** A row that refers to itself under every foreign key. */
  function EveryKey(fks: set<ForeignKey>): Row
  {
    var columns := Columns(fks);
    (map c | c in columns :: Some("x"))["id" := Some("x")]
  }

  function Columns(fks: set<ForeignKey>): set<string> { set fk | fk in fks :: fk.column }

  function OneRowEach(fks: set<ForeignKey>, ts: seq<string>): Db { map t | t in ts :: [EveryKey(fks)] }

  lemma OneRowEachIsIntact(fks: set<ForeignKey>, ts: seq<string>)
    requires Within(fks, ts)
    ensures Intact(fks, OneRowEach(fks, ts))
  {
    var db := OneRowEach(fks, ts);
    forall fk | fk in fks ensures KeyHolds(db, fk) {
      assert Names(db[fk.parent][0], "id", "x");
      assert HasId(db[fk.parent], "x");
    }
  }

  /** If a child comes before its parent, its row arrives while the parent table is still empty. */
  lemma WrongOrderBreaks(fks: set<ForeignKey>, ts: seq<string>, fk: ForeignKey)
    requires Distinct(ts) && Within(fks, ts) && NoSelfReference(fks) && fk in fks
    requires !Precedes(ts, fk.parent, fk.child)
    ensures Intact(fks, OneRowEach(fks, ts))
    ensures !StaysIntact(fks, map[], Script(OneRowEach(fks, ts), ts))
  {
    OneRowEachIsIntact(fks, ts);
    FindTable(ts, fk.child);
    FindTable(ts, fk.parent);
    var c :| At(ts, c, fk.child);
    var p :| At(ts, p, fk.parent);
    if p < c { ListedBefore(ts, fk.parent, fk.child, p, c); }
    ChildArrivesFirst(fks, ts, c, p, fk);
    PartOfScript(fks, OneRowEach(fks, ts), ts, c + 1);
  }

  lemma PartOfScript(fks: set<ForeignKey>, src: Db, ts: seq<string>, n: int)
    requires 0 <= n <= |ts| && !Intact(fks, ExecAll(map[], Drops(ts) + Creates(ts) + Inserts(src, ts[..n])))
    ensures !StaysIntact(fks, map[], Script(src, ts))
  {
    var sts := Drops(ts) + Creates(ts) + Inserts(src, ts[..n]);
    InsertsPrefix(src, ts, n);
    assert sts == Script(src, ts)[..|sts|];
  }

  lemma ChildArrivesFirst(fks: set<ForeignKey>, ts: seq<string>, c: int, p: int, fk: ForeignKey)
    requires Distinct(ts) && Within(fks, ts) && fk in fks && c < p && At(ts, c, fk.child) && At(ts, p, fk.parent)
    ensures var src := OneRowEach(fks, ts);
      !Intact(fks, ExecAll(map[], Drops(ts) + Creates(ts) + Inserts(src, ts[..c + 1])))
  {
    var src := OneRowEach(fks, ts);
    LoadedSoFar(src, ts, c + 1);
    var db := ExecAll(map[], Drops(ts) + Creates(ts) + Inserts(src, ts[..c + 1]));
    assert db[fk.child] == Source(src, ts[c]);
    assert db[fk.parent] == [];
    DanglingReference(fks, fk, db);
  }

  lemma DanglingReference(fks: set<ForeignKey>, fk: ForeignKey, db: Db)
    requires fk in fks && fk.child in db && fk.parent in db
    requires db[fk.child] == [EveryKey(fks)] && db[fk.parent] == []
    ensures !Intact(fks, db)
  {
    assert fk.column in Columns(fks);
    assert !Resolves(db, fk, db[fk.child][0]);
    assert !KeyHolds(db, fk);
  }

  lemma ListedBefore(ts: seq<string>, a: string, b: string, i: int, j: int)
    requires i < j && At(ts, i, a) && At(ts, j, b)
    ensures Precedes(ts, a, b)
  {
  }

  lemma FindTable(ts: seq<string>, t: string)
    requires t in ts
    ensures exists i :: At(ts, i, t)
  {
    var i :| 0 <= i < |ts| && ts[i] == t;
    assert At(ts, i, t);
  }

  lemma {:induction false} InsertsPrefix(src: Db, ts: seq<string>, n: int)
    requires 0 <= n <= |ts|
    ensures Inserts(src, ts[..n]) <= Inserts(src, ts)
    decreases |ts|
  {
    if n == |ts| {
      assert ts[..n] == ts;
    } else {
      InsertsPrefix(src, ts[..|ts| - 1], n);
      assert ts[..|ts| - 1][..n] == ts[..n];
    }
  }

  /** Into an empty database, the first n tables are copied whatever the order of the tables. */
  lemma LoadedSoFar(src: Db, ts: seq<string>, n: int)
    requires Distinct(ts) && 0 <= n <= |ts|
    ensures var schema := Drops(ts) + Creates(ts);
      Holds(src, ExecAll(map[], schema), ts, n, ExecAll(map[], schema + Inserts(src, ts[..n])))
  {
    var schema := Drops(ts) + Creates(ts);
    SchemaIsReady({}, src, map[], ts);
    InsertsStayIntact({}, src, ExecAll(map[], schema), ts, n);
    ExecConcat(map[], schema, Inserts(src, ts[..n]));
  }

  /** An order of the tables is safe for every intact source and destination exactly when it lists
      every parent before its children. */
  lemma SafeOrderExactly(fks: set<ForeignKey>, ts: seq<string>)
    requires Distinct(ts) && Within(fks, ts) && NoSelfReference(fks)
    ensures ParentsFirst(fks, ts) <==>
      forall src, dest :: Intact(fks, src) && Intact(fks, dest) ==> StaysIntact(fks, dest, Script(src, ts))
  {
    if ParentsFirst(fks, ts) {
      forall src, dest | Intact(fks, src) && Intact(fks, dest)
        ensures StaysIntact(fks, dest, Script(src, ts))
      {
        CopyIsSafe(fks, src, dest, ts);
      }
    } else {
      var fk :| fk in fks && !Precedes(ts, fk.parent, fk.child);
      WrongOrderBreaks(fks, ts, fk);
      assert Intact(fks, map[]);
    }
  }

  /** The repository's own order is a safe one for its own schema. */
  lemma CopyTablesAreOrdered()
    ensures ParentsFirst(FOREIGN_KEYS, COPY_TABLES) && Distinct(COPY_TABLES)
  {
    var ts := COPY_TABLES;
    assert At(ts, 0, "agents") && At(ts, 1, "repositories") && At(ts, 3, "scripts") && At(ts, 4, "backup_plans");
    assert At(ts, 5, "backup_plan_repositories") && At(ts, 6, "plan_hooks") && At(ts, 7, "jobs");
    assert At(ts, 8, "job_repository_results") && At(ts, 9, "job_hook_results");
    LengthsAndInitials();
  }

  lemma LengthsAndInitials()
    ensures Distinct(COPY_TABLES)
  {
    var ts := COPY_TABLES;
    forall i, j | 0 <= i < j < |ts| ensures ts[i] != ts[j] {
      assert |ts[i]| != |ts[j]| || ts[i][0] != ts[j][0];
    }
  }

  // ---- the destination ----

  class Remote {
    var tables: Db

    constructor (tables: Db)
      ensures this.tables == tables
    {
      this.tables := tables;
    }

    /** Runs the copy until a statement fails. Without force, a destination that has any of the tables is
        left alone. Wherever it stops, the destination is intact, and a finished copy is the source. */
    method ImportToRemote(src: Db, force: bool, fails: int -> bool) returns (ok: bool)
      requires Intact(FOREIGN_KEYS, src) && Intact(FOREIGN_KEYS, tables)
      modifies this
      ensures Intact(FOREIGN_KEYS, tables)
      ensures ok ==> forall t :: t in COPY_TABLES ==> t in tables && tables[t] == if t in src then src[t] else []
      ensures !force && (exists t :: t in COPY_TABLES && t in old(tables)) ==> !ok && tables == old(tables)
    {
      CopyTablesAreOrdered();
      ok := Import(FOREIGN_KEYS, COPY_TABLES, src, force, fails);
    }

    method Import(ghost fks: set<ForeignKey>, ts: seq<string>, src: Db, force: bool, fails: int -> bool)
      returns (ok: bool)
      requires Intact(fks, src) && Intact(fks, tables) && ParentsFirst(fks, ts) && Distinct(ts)
      modifies this
      ensures Intact(fks, tables)
      ensures ok ==> forall t :: t in ts ==> t in tables && tables[t] == if t in src then src[t] else []
      ensures !force && (exists t :: t in ts && t in old(tables)) ==> !ok && tables == old(tables)
    {
      var existing := HasAppTable(ts);
      if existing && !force { return false; }
      CopyIsSafe(fks, src, tables, ts);
      ghost var done;
      ok, done := RunScript(ts, src, fails);
      assert done == Script(src, ts)[..|done|];
    }

    method RunScript(ts: seq<string>, src: Db, fails: int -> bool) returns (ok: bool, ghost done: seq<Statement>)
      modifies this
      ensures done <= Script(src, ts) && tables == ExecAll(old(tables), done) && (ok ==> done == Script(src, ts))
    {
      var k;
      ok, k, done := DropTables(ts, fails);
      if !ok { return; }
      ghost var part;
      ok, k, part := CreateSchema(ts, fails, k);
      ExecConcat(old(tables), done, part);
      done := done + part;
      if !ok { return; }
      ok, part := CopyTables(src, ts, fails, k);
      ExecConcat(old(tables), done, part);
      done := done + part;
    }

    method HasAppTable(ts: seq<string>) returns (found: bool)
      ensures found <==> exists t :: t in ts && t in tables
    {
      for i := 0 to |ts|
        invariant forall j :: 0 <= j < i ==> ts[j] !in tables
      {
        if ts[i] in tables { return true; }
      }
      return false;
    }

    method DropTables(ts: seq<string>, fails: int -> bool) returns (ok: bool, k: int, ghost done: seq<Statement>)
      modifies this
      ensures done <= Drops(ts) && tables == ExecAll(old(tables), done) && (ok ==> done == Drops(ts))
    {
      done, k := [], 0;
      var i := |ts|;
      assert ts[..|ts|] == ts && [] + Drops(ts) == Drops(ts);
      while i > 0
        invariant 0 <= i <= |ts| && tables == ExecAll(old(tables), done)
        invariant done + Drops(ts[..i]) == Drops(ts)
      {
        if fails(k) { return false, k, done; }
        assert ts[..i][..i - 1] == ts[..i - 1];
        i := i - 1;
        ghost var next := done + [DropTable(ts[i])];
        assert next[..|next| - 1] == done;
        tables := tables - {ts[i]};
        done := next;
        k := k + 1;
      }
      return true, k, done;
    }

    method CreateSchema(ts: seq<string>, fails: int -> bool, from: int)
      returns (ok: bool, k: int, ghost done: seq<Statement>)
      modifies this
      ensures done <= Creates(ts) && tables == ExecAll(old(tables), done) && (ok ==> done == Creates(ts))
    {
      done, k := [], from;
      for j := 0 to |ts|
        invariant tables == ExecAll(old(tables), done) && done == Creates(ts[..j])
      {
        CreatesPrefix(ts, j);
        if fails(k) { return false, k, done; }
        assert ts[..j + 1][..j] == ts[..j];
        ghost var next := done + [CreateTable(ts[j])];
        assert next[..|next| - 1] == done;
        if ts[j] !in tables { tables := tables[ts[j] := []]; }
        done := next;
        k := k + 1;
      }
      assert ts[..|ts|] == ts;
      return true, k, done;
    }

    method CopyTables(src: Db, ts: seq<string>, fails: int -> bool, from: int)
      returns (ok: bool, ghost done: seq<Statement>)
      modifies this
      ensures done <= Inserts(src, ts) && tables == ExecAll(old(tables), done) && (ok ==> done == Inserts(src, ts))
    {
      done := [];
      var k := from;
      for j := 0 to |ts|
        invariant tables == ExecAll(old(tables), done) && done == Inserts(src, ts[..j])
      {
        InsertsPrefix(src, ts, j + 1);
        assert ts[..j + 1][..j] == ts[..j];
        ghost var part;
        ok, k, part := CopyTable(src, ts[j], fails, k);
        ExecConcat(old(tables), done, part);
        done := done + part;
        if !ok { return false, done; }
      }
      assert ts[..|ts|] == ts;
      return true, done;
    }

    method CopyTable(src: Db, t: string, fails: int -> bool, from: int)
      returns (ok: bool, k: int, ghost done: seq<Statement>)
      modifies this
      ensures var all := Rows(t, Source(src, t));
        done <= all && tables == ExecAll(old(tables), done) && (ok ==> done == all)
    {
      if t !in src { return true, from, []; }
      ok, k, done := CopyRows(t, src[t], fails, from);
    }

    method CopyRows(t: string, rows: seq<Row>, fails: int -> bool, from: int)
      returns (ok: bool, k: int, ghost done: seq<Statement>)
      modifies this
      ensures done <= Rows(t, rows) && tables == ExecAll(old(tables), done) && (ok ==> done == Rows(t, rows))
    {
      done, k := [], from;
      for r := 0 to |rows|
        invariant tables == ExecAll(old(tables), done) && done == Rows(t, rows[..r])
      {
        RowsLength(t, rows, r);
        if fails(k) { return false, k, done; }
        assert rows[..r + 1][..r] == rows[..r];
        done := done + [Insert(t, rows[r])];
        if t in tables { tables := tables[t := tables[t] + [rows[r]]]; }
        assert done[..|done| - 1] == Rows(t, rows[..r]);
        k := k + 1;
      }
      assert rows[..|rows|] == rows;
      return true, k, done;
    }
  }

  lemma {:induction false} CreatesPrefix(ts: seq<string>, n: int)
    requires 0 <= n <= |ts|
    ensures Creates(ts[..n]) <= Creates(ts)
    decreases |ts|
  {
    if n == |ts| {
      assert ts[..n] == ts;
    } else {
      CreatesPrefix(ts[..|ts| - 1], n);
      assert ts[..|ts| - 1][..n] == ts[..n];
    }
  }
}
