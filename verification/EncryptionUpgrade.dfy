/** Secrets at rest: the prefix discipline around an abstract cipher, and the upgrade that encrypts
    existing rows one at a time when a key is first configured. */
module EncryptionUpgrade {
  import opened Common

  datatype Result<+T> = Ok(value: T) | Err

  const PREFIX := "enc:"
  const KEY_SIZE := 32

  /** A configured key: its length, and the cipher (with base64) under it. */
  datatype Vault = Vault(keyLen: nat, seal: (int, string) -> string, open: string -> Result<string>)

  /** All that is assumed of the cipher: it opens what it sealed, whatever the nonce. */
  ghost predicate Opens(v: Vault) { forall n, p :: Reopened(v, n, p) == Ok(p) }

  function Reopened(v: Vault, nonce: int, p: string): Result<string> { v.open(v.seal(nonce, p)) }

  predicate IsEncrypted(s: string) { PREFIX <= s }

  // ---- crypto.go ----

  function Encrypt(v: Vault, nonce: Option<int>, plain: string): Result<string>
  {
    if v.keyLen != KEY_SIZE || nonce.None? then Err else Ok(PREFIX + v.seal(nonce.value, plain))
  }

  function Decrypt(v: Vault, s: string): Result<string>
  {
    if !IsEncrypted(s) then Ok(s)
    else if v.keyLen != KEY_SIZE then Err
    else v.open(s[|PREFIX|..])
  }

  // ---- the column accessors of db.go ----

  function Write(v: Vault, nonce: Option<int>, plain: string): Result<string>
  {
    if v.keyLen != KEY_SIZE || plain == "" then Ok(plain) else Encrypt(v, nonce, plain)
  }

  function Read(v: Vault, s: string): Result<string>
  {
    if v.keyLen != KEY_SIZE || s == "" then Ok(s) else Decrypt(v, s)
  }

  function WriteNullable(v: Vault, nonce: Option<int>, plain: Option<string>): Result<Option<string>>
  {
    if plain.None? then Ok(None)
    else match Write(v, nonce, plain.value) case Ok(s) => Ok(Some(s)) case Err => Err
  }

  function ReadNullable(v: Vault, s: Option<string>): Result<Option<string>>
  {
    if s.None? then Ok(None)
    else match Read(v, s.value) case Ok(p) => Ok(Some(p)) case Err => Err
  }

  /** What is written is what is read, null and every text included, and under a key only null and the
      empty text are stored as they are. */
  lemma WriteThenRead(v: Vault, nonce: Option<int>, plain: Option<string>)
    requires Opens(v)
    ensures var w := WriteNullable(v, nonce, plain);
      && (w.Ok? ==> ReadNullable(v, w.value) == Ok(plain))
      && (w.Err? <==> v.keyLen == KEY_SIZE && nonce.None? && plain.Some? && plain.value != "")
      && (w.Ok? && v.keyLen == 32 && plain.Some? && plain.value != "" ==> w.value.Some? && "enc:" <= w.value.value)
      && (v.keyLen != 32 ==> w == Ok(plain))
  {
    if plain.Some? && v.keyLen == KEY_SIZE && plain.value != "" && nonce.Some? {
      var sealed := v.seal(nonce.value, plain.value);
      assert IsEncrypted(PREFIX + sealed) && (PREFIX + sealed)[|PREFIX|..] == sealed;
      assert Reopened(v, nonce.value, plain.value) == Ok(plain.value);
    }
  }

  // ---- the upgrade ----

  datatype Row = Row(id: string, value: Option<string>)
  datatype Change = Change(id: string, value: string)

  /** Neither null, empty, nor already prefixed. */
  predicate Legacy(r: Row) { r.value.Some? && r.value.value != "" && !IsEncrypted(r.value.value) }

  predicate UniqueIds(rows: seq<Row>) { forall i, j :: 0 <= i < j < |rows| ==> rows[i].id != rows[j].id }

  /** The changes for the legacy rows in order, or an error when one cannot be encrypted; nonces are per row. */
  function Collect(v: Vault, nonces: string -> Option<int>, rows: seq<Row>): Result<seq<Change>>
  {
    if rows == [] then Ok([])
    else
      var r := rows[|rows| - 1];
      match Collect(v, nonces, rows[..|rows| - 1])
      case Err => Err
      case Ok(cs) =>
        if !Legacy(r) then Ok(cs)
        else match Encrypt(v, nonces(r.id), r.value.value)
          case Err => Err
          case Ok(s) => Ok(cs + [Change(r.id, s)])
  }

  /** UPDATE ... WHERE id = ? */
  function Update(rows: seq<Row>, c: Change): seq<Row>
  {
    seq(|rows|, i requires 0 <= i < |rows| => if rows[i].id == c.id then Row(c.id, Some(c.value)) else rows[i])
  }

  function UpdateAll(rows: seq<Row>, cs: seq<Change>): seq<Row>
  {
    if cs == [] then rows else Update(UpdateAll(rows, cs[..|cs| - 1]), cs[|cs| - 1])
  }

  function ReadRow(v: Vault, r: Row): Result<Option<string>> { ReadNullable(v, r.value) }

  /** Every row reads as before, and keeps its id and its place. */
  ghost predicate SameReads(v: Vault, before: seq<Row>, after: seq<Row>)
  {
    && |after| == |before|
    && forall i :: 0 <= i < |before| ==> after[i].id == before[i].id && ReadRow(v, after[i]) == ReadRow(v, before[i])
  }

  /** A change that only seals what its row holds. */
  ghost predicate Seals(v: Vault, rows: seq<Row>, c: Change)
  {
    IsEncrypted(c.value) &&
    forall i :: 0 <= i < |rows| && rows[i].id == c.id ==> ReadRow(v, Row(c.id, Some(c.value))) == ReadRow(v, rows[i])
  }

  lemma {:induction false} CollectSeals(v: Vault, nonces: string -> Option<int>, rows: seq<Row>, part: seq<Row>)
    requires Opens(v) && UniqueIds(rows) && part <= rows
    requires Collect(v, nonces, part).Ok?
    ensures forall c :: c in Collect(v, nonces, part).value ==> Seals(v, rows, c)
  {
    if part != [] {
      var n := |part| - 1;
      CollectSeals(v, nonces, rows, part[..n]);
      var r := part[n];
      if Legacy(r) {
        WriteThenRead(v, nonces(r.id), r.value);
        assert rows[n] == r;
      }
    }
  }

  lemma {:induction false} PrefixKeepsReads(v: Vault, rows: seq<Row>, cs: seq<Change>)
    requires forall c :: c in cs ==> Seals(v, rows, c)
    ensures SameReads(v, rows, UpdateAll(rows, cs))
  {
    if cs != [] {
      var n := |cs| - 1;
      PrefixKeepsReads(v, rows, cs[..n]);
      assert Seals(v, rows, cs[n]);
    }
  }

  /** Stopped after any number of its updates, the upgrade has changed no row's decrypted value. */
  lemma CrashKeepsReads(v: Vault, nonces: string -> Option<int>, rows: seq<Row>, k: nat)
    requires Opens(v) && UniqueIds(rows)
    requires Collect(v, nonces, rows).Ok? && k <= |Collect(v, nonces, rows).value|
    ensures SameReads(v, rows, UpdateAll(rows, Collect(v, nonces, rows).value[..k]))
  {
    CollectSeals(v, nonces, rows, rows);
    PrefixKeepsReads(v, rows, Collect(v, nonces, rows).value[..k]);
  }

  lemma {:induction false} CollectCovers(v: Vault, nonces: string -> Option<int>, rows: seq<Row>, i: int)
    requires Collect(v, nonces, rows).Ok? && 0 <= i < |rows| && Legacy(rows[i])
    ensures exists c :: c in Collect(v, nonces, rows).value && c.id == rows[i].id
  {
    var n := |rows| - 1;
    var cs := Collect(v, nonces, rows[..n]).value;
    if i < n {
      CollectCovers(v, nonces, rows[..n], i);
      var c :| c in cs && c.id == rows[i].id;
      assert c in Collect(v, nonces, rows).value;
    } else {
      var s := Encrypt(v, nonces(rows[i].id), rows[i].value.value).value;
      assert Change(rows[i].id, s) in Collect(v, nonces, rows).value;
    }
  }

  /** A row keeps its value unless a change names it, and then holds a prefixed one. */
  lemma {:induction false} UpdateAllAt(rows: seq<Row>, cs: seq<Change>, i: int)
    requires 0 <= i < |rows| && forall c :: c in cs ==> IsEncrypted(c.value)
    ensures |UpdateAll(rows, cs)| == |rows| && UpdateAll(rows, cs)[i].id == rows[i].id
    ensures (exists c :: c in cs && c.id == rows[i].id) ==> !Legacy(UpdateAll(rows, cs)[i])
    ensures (forall c :: c in cs ==> c.id != rows[i].id) ==> UpdateAll(rows, cs)[i] == rows[i]
  {
    if cs != [] {
      var n := |cs| - 1;
      UpdateAllAt(rows, cs[..n], i);
      assert cs[n] in cs && forall c :: c in cs[..n] ==> c in cs;
      if exists c :: c in cs && c.id == rows[i].id {
        var c :| c in cs && c.id == rows[i].id;
        assert c == cs[n] || c in cs[..n];
      }
    }
  }

  /** Completed, the upgrade leaves every value that is neither null nor empty prefixed. */
  lemma CompletedIsPrefixed(v: Vault, nonces: string -> Option<int>, rows: seq<Row>)
    requires Opens(v) && UniqueIds(rows) && Collect(v, nonces, rows).Ok?
    ensures forall r :: r in UpdateAll(rows, Collect(v, nonces, rows).value) ==> !Legacy(r)
    ensures forall r :: r in UpdateAll(rows, Collect(v, nonces, rows).value) && r.value.Some? && r.value.value != "" ==>
      "enc:" <= r.value.value
  {
    var cs := Collect(v, nonces, rows).value;
    CollectSeals(v, nonces, rows, rows);
    assert forall c :: c in cs ==> Seals(v, rows, c);
    if rows != [] { UpdateAllAt(rows, cs, 0); }
    forall i | 0 <= i < |UpdateAll(rows, cs)| && i < |rows| ensures !Legacy(UpdateAll(rows, cs)[i]) {
      UpdateAllAt(rows, cs, i);
      if Legacy(rows[i]) {
        CollectCovers(v, nonces, rows, i);
      }
    }
    PrefixKeepsReads(v, rows, cs);
  }

  /** A text without the prefix reads as itself, with or without a key; a prefixed one is opened under a key. */
  lemma ReadsByPrefix(v: Vault, s: string)
    ensures !("enc:" <= s) || v.keyLen != 32 ==> Read(v, s) == Ok(s)
    ensures "enc:" <= s && v.keyLen == 32 ==> Read(v, s) == v.open(s[4..])
  {
  }

  /** The upgrade seals exactly the rows that hold a text without the prefix, and fails exactly when one of
      them cannot be sealed. */
  lemma {:induction false} UpgradeSealsExactly(v: Vault, nonces: string -> Option<int>, rows: seq<Row>)
    ensures Collect(v, nonces, rows).Err? <==> exists r :: r in rows && NeedsSeal(r) && (v.keyLen != 32 || nonces(r.id).None?)
    ensures Collect(v, nonces, rows).Ok? ==> forall c :: c in Collect(v, nonces, rows).value <==>
      exists r :: r in rows && NeedsSeal(r) && nonces(r.id).Some? && c == Change(r.id, "enc:" + v.seal(nonces(r.id).value, r.value.value))
  {
    if rows != [] {
      var n := |rows| - 1;
      UpgradeSealsExactly(v, nonces, rows[..n]);
      assert rows == rows[..n] + [rows[n]];
    }
  }

  predicate NeedsSeal(r: Row) { r.value.Some? && r.value.value != "" && !("enc:" <= r.value.value) }

  /** With nothing legacy left, another upgrade has nothing to do. */
  lemma {:induction false} RerunChangesNothing(v: Vault, nonces: string -> Option<int>, rows: seq<Row>)
    requires forall r :: r in rows ==> !Legacy(r)
    ensures Collect(v, nonces, rows) == Ok([])
  {
    if rows != [] {
      RerunChangesNothing(v, nonces, rows[..|rows| - 1]);
      assert rows[|rows| - 1] in rows;
    }
  }

  // ---- crash after crash ----

  /** One start of the server: its nonces, and how many updates it gets through. */
  datatype Attempt = Attempt(nonces: string -> Option<int>, reached: nat)

  /** The table after an attempt; one that cannot encrypt some row writes nothing. */
  function Try(v: Vault, rows: seq<Row>, a: Attempt): seq<Row>
  {
    match Collect(v, a.nonces, rows)
    case Err => rows
    case Ok(cs) => UpdateAll(rows, cs[..if a.reached < |cs| then a.reached else |cs|])
  }

  function TryAll(v: Vault, rows: seq<Row>, attempts: seq<Attempt>): seq<Row>
  {
    if attempts == [] then rows else Try(v, TryAll(v, rows, attempts[..|attempts| - 1]), attempts[|attempts| - 1])
  }

  lemma TryKeepsReads(v: Vault, rows: seq<Row>, a: Attempt)
    requires Opens(v) && UniqueIds(rows)
    ensures SameReads(v, rows, Try(v, rows, a)) && UniqueIds(Try(v, rows, a))
  {
    var c := Collect(v, a.nonces, rows);
    if c.Ok? {
      CrashKeepsReads(v, a.nonces, rows, if a.reached < |c.value| then a.reached else |c.value|);
    }
  }

  /** However often the upgrade is cut short, no secret is lost or garbled; once an attempt completes,
      every value is prefixed and later starts change nothing. */
  lemma {:induction false} UpgradeSurvivesCrashes(v: Vault, rows: seq<Row>, attempts: seq<Attempt>)
    requires Opens(v) && UniqueIds(rows)
    ensures var after := TryAll(v, rows, attempts);
      && SameReads(v, rows, after) && UniqueIds(after)
      && (forall a: Attempt :: Collect(v, a.nonces, after).Ok? && a.reached >= |Collect(v, a.nonces, after).value| ==>
            Finished(v, Try(v, after, a)))
  {
    var after := TryAll(v, rows, attempts);
    if attempts != [] {
      var n := |attempts| - 1;
      UpgradeSurvivesCrashes(v, rows, attempts[..n]);
      TryKeepsReads(v, TryAll(v, rows, attempts[..n]), attempts[n]);
    }
    forall a: Attempt | Collect(v, a.nonces, after).Ok? && a.reached >= |Collect(v, a.nonces, after).value|
      ensures Finished(v, Try(v, after, a))
    {
      var cs := Collect(v, a.nonces, after).value;
      assert cs[..|cs|] == cs;
      CompletedIsPrefixed(v, a.nonces, after);
      CompletedStays(v, Try(v, after, a));
    }
  }

  /** Nothing left to encrypt, now or at any later start. */
  ghost predicate Finished(v: Vault, rows: seq<Row>)
  {
    (forall r :: r in rows ==> !Legacy(r)) && forall b: Attempt :: Try(v, rows, b) == rows
  }

  lemma CompletedStays(v: Vault, rows: seq<Row>)
    requires forall r :: r in rows ==> !Legacy(r)
    ensures Finished(v, rows)
  {
    forall b: Attempt ensures Try(v, rows, b) == rows {
      RerunChangesNothing(v, b.nonces, rows);
    }
  }

  /** What is opened is shorter than its base64 of nonce, ciphertext and tag. */
  ghost predicate Shortens(v: Vault) { forall s :: v.open(s).Ok? ==> |v.open(s).value| < |s| }

  /** Both assumptions can hold together. */
  lemma SomeCipherFits() returns (v: Vault)
    ensures Opens(v) && Shortens(v) && v.keyLen == KEY_SIZE
  {
    v := Vault(KEY_SIZE, (n, p) => "=" + p, s => if s == "" then Err else Ok(s[1..]));
    forall n: int, p: string ensures Reopened(v, n, p) == Ok(p) {
      assert ("=" + p)[1..] == p;
    }
  }

  /** A value stored before any key existed is still read, after any upgrade attempts under the key, exactly
      when it does not carry the prefix by accident. */
  lemma KeylessValueSurvives(v: Vault, rows: seq<Row>, attempts: seq<Attempt>, i: int)
    requires Opens(v) && Shortens(v) && UniqueIds(rows) && v.keyLen == KEY_SIZE && 0 <= i < |rows|
    ensures |TryAll(v, rows, attempts)| == |rows|
    ensures var stored := rows[i].value;
      ReadRow(v, TryAll(v, rows, attempts)[i]) == Ok(stored) <==> stored.None? || !("enc:" <= stored.value)
  {
    UpgradeSurvivesCrashes(v, rows, attempts);
    var stored := rows[i].value;
    if stored.Some? && IsEncrypted(stored.value) {
      var sealed := stored.value[|PREFIX|..];
      assert |sealed| < |stored.value|;
      assert v.open(sealed).Ok? ==> |v.open(sealed).value| < |sealed|;
    }
  }

  // ---- the database object ----

  class Database {
    var repositories: seq<Row>     // id and password
    var agents: seq<Row>           // id and rclone_config
    const vault: Vault

    constructor (vault: Vault, repositories: seq<Row>, agents: seq<Row>)
      ensures this.vault == vault && this.repositories == repositories && this.agents == agents
    {
      this.vault, this.repositories, this.agents := vault, repositories, agents;
    }

    /** The read pass over one column. */
    method CollectChanges(nonces: string -> Option<int>, rows: seq<Row>) returns (r: Result<seq<Change>>)
      ensures r == Collect(vault, nonces, rows)
    {
      var changes := [];
      for i := 0 to |rows|
        invariant Collect(vault, nonces, rows[..i]) == Ok(changes)
      {
        assert rows[..i + 1][..i] == rows[..i] && rows[..i + 1][i] == rows[i];
        if rows[i].value.Some? && rows[i].value.value != "" && !IsEncrypted(rows[i].value.value) {
          var sealed := Encrypt(vault, nonces(rows[i].id), rows[i].value.value);
          if sealed.Err? {
            CollectStops(vault, nonces, rows, i + 1);
            return Err;
          }
          changes := changes + [Change(rows[i].id, sealed.value)];
        }
      }
      assert rows[..|rows|] == rows;
      return Ok(changes);
    }

    /** The two passes over the repositories; fails says which UPDATE the database refuses. */
    method MigrateRepositoryPasswords(nonces: string -> Option<int>, fails: int -> bool) returns (ok: bool)
      modifies this`repositories
      ensures exists k: nat :: repositories == Try(vault, old(repositories), Attempt(nonces, k))
      ensures ok ==> Collect(vault, nonces, old(repositories)).Ok?
      ensures ok ==> repositories == UpdateAll(old(repositories), Collect(vault, nonces, old(repositories)).value)
    {
      var r := CollectChanges(nonces, repositories);
      if r.Err? {
        assert repositories == Try(vault, old(repositories), Attempt(nonces, 0));
        return false;
      }
      var cs := r.value;
      for i := 0 to |cs|
        invariant repositories == UpdateAll(old(repositories), cs[..i])
      {
        if fails(i) {
          assert repositories == Try(vault, old(repositories), Attempt(nonces, i));
          return false;
        }
        repositories := Update(repositories, cs[i]);
        assert cs[..i + 1][..i] == cs[..i] && cs[..i + 1][i] == cs[i];
      }
      assert cs[..|cs|] == cs;
      assert repositories == Try(vault, old(repositories), Attempt(nonces, |cs|));
      return true;
    }

    /** The same for the agents' nullable column. */
    method MigrateAgentRcloneConfigs(nonces: string -> Option<int>, fails: int -> bool) returns (ok: bool)
      modifies this`agents
      ensures exists k: nat :: agents == Try(vault, old(agents), Attempt(nonces, k))
      ensures ok ==> Collect(vault, nonces, old(agents)).Ok?
      ensures ok ==> agents == UpdateAll(old(agents), Collect(vault, nonces, old(agents)).value)
    {
      var r := CollectChanges(nonces, agents);
      if r.Err? {
        assert agents == Try(vault, old(agents), Attempt(nonces, 0));
        return false;
      }
      var cs := r.value;
      for i := 0 to |cs|
        invariant agents == UpdateAll(old(agents), cs[..i])
      {
        if fails(i) {
          assert agents == Try(vault, old(agents), Attempt(nonces, i));
          return false;
        }
        agents := Update(agents, cs[i]);
        assert cs[..i + 1][..i] == cs[..i] && cs[..i + 1][i] == cs[i];
      }
      assert cs[..|cs|] == cs;
      assert agents == Try(vault, old(agents), Attempt(nonces, |cs|));
      return true;
    }

    /** Passwords first, then rclone configs: whatever fails on the way, every secret still reads as before,
        and on success everything that can be encrypted is. */
    method MigrateEncryption(nonces: string -> Option<int>, fails: int -> bool, failsLater: int -> bool) returns (ok: bool)
      requires Opens(vault) && UniqueIds(repositories) && UniqueIds(agents)
      modifies this`repositories, this`agents
      ensures SameReads(vault, old(repositories), repositories) && SameReads(vault, old(agents), agents)
      ensures ok ==> Finished(vault, repositories) && Finished(vault, agents)
      ensures ok ==> forall r :: (r in repositories || r in agents) && r.value.Some? && r.value.value != "" ==>
        "enc:" <= r.value.value
    {
      ok := MigrateRepositoryPasswords(nonces, fails);
      ghost var k: nat :| repositories == Try(vault, old(repositories), Attempt(nonces, k));
      TryKeepsReads(vault, old(repositories), Attempt(nonces, k));
      if !ok { return; }
      CompletedIsPrefixed(vault, nonces, old(repositories));
      CompletedStays(vault, repositories);
      ok := MigrateAgentRcloneConfigs(nonces, failsLater);
      ghost var j: nat :| agents == Try(vault, old(agents), Attempt(nonces, j));
      TryKeepsReads(vault, old(agents), Attempt(nonces, j));
      if ok {
        CompletedIsPrefixed(vault, nonces, old(agents));
        CompletedStays(vault, agents);
      }
    }
  }

  lemma {:induction false} CollectStops(v: Vault, nonces: string -> Option<int>, rows: seq<Row>, i: int)
    requires 0 <= i <= |rows| && Collect(v, nonces, rows[..i]).Err?
    ensures Collect(v, nonces, rows).Err?
    decreases |rows| - i
  {
    if i < |rows| {
      assert rows[..i + 1][..i] == rows[..i];
      CollectStops(v, nonces, rows, i + 1);
    } else {
      assert rows[..i] == rows;
    }
  }
}
