/** Settings from the server's tables to what the agent runs with: a per-agent override over a global
    setting over a built-in default, for the outbox tunables and the command timeouts. */
module Settings {
  import opened Common
  import opened OutboxConfig

  type int32 = x: int | -0x8000_0000 <= x < 0x8000_0000

  datatype Field =
    | SpillMaxRows | SpillRetention | FlushInterval | DeliveryTimeout | MaxAttempts
    | Backup | Restore | ListSnapshots | BrowseSnapshot | BrowseFilesystem | Default

  const OUTBOX_FIELDS: set<Field> := {SpillMaxRows, SpillRetention, FlushInterval, DeliveryTimeout, MaxAttempts}
  const TIMEOUT_FIELDS: set<Field> := {Backup, Restore, ListSnapshots, BrowseSnapshot, BrowseFilesystem, Default}

  /** A row of the settings table as the resolver finds it. */
  datatype Stored = Missing | Unreadable | Number(n: int32) | QueryFailed

  /** The agent's override column: absent or empty, not JSON, or a value per field with 0 for a missing one. */
  datatype Override = NoOverride | Malformed | Values(of: Field -> int32)

  /** A config message as pushed: no message at all, or one value per field. */
  type Pushed = Option<map<Field, int32>>

  datatype Resolved = Resolved(value: Pushed) | Failed

  // ---- the server's side ----

  function Load(s: Stored): int32 { if s.Number? && s.n > 0 then s.n else 0 }

  function Overridden(o: Override, f: Field): int32 { if o.Values? then o.of(f) else 0 }

  /** The first positive of two candidates, or 0. */
  function Layer(over: int32, under: int32): int32 { if over > 0 then over else under }

  predicate AllZero(m: map<Field, int32>) { forall f :: f in m ==> m[f] == 0 }

  /** Loads every global setting in any order, lays the override over it, and pushes nothing if nothing is set. */
  method Resolve(fields: set<Field>, settings: Field -> Stored, override: Override) returns (r: Resolved)
    ensures r.Failed? <==> exists f :: f in fields && settings(f).QueryFailed?
    ensures r.Resolved? && r.value.Some? ==> r.value.value.Keys == fields && !AllZero(r.value.value)
    ensures r.Resolved? ==> forall f :: f in fields ==>
      Got(r.value, f) == Layer(Overridden(override, f), Load(settings(f)))
  {
    var merged: map<Field, int32> := map[];
    var left := fields;
    while left != {}
      invariant left <= fields && merged.Keys == fields - left
      invariant forall f :: f in merged ==> !settings(f).QueryFailed? && merged[f] == Load(settings(f))
    {
      var f :| f in left;
      if settings(f).QueryFailed? { return Failed; }
      merged := merged[f := Load(settings(f))];
      left := left - {f};
    }
    if override.Values? {
      var todo := fields;
      ghost var loaded := merged;
      while todo != {}
        invariant todo <= fields && merged.Keys == fields
        invariant forall f :: f in fields ==>
          merged[f] == if f in todo then loaded[f] else Layer(override.of(f), loaded[f])
      {
        var f :| f in todo;
        if override.of(f) > 0 { merged := merged[f := override.of(f)]; }
        todo := todo - {f};
      }
    }
    if forall f :: f in merged ==> merged[f] == 0 { return Resolved(None); }
    return Resolved(Some(merged));
  }

  // ---- the agent's side ----

  /** The getter of a pushed field: 0 when there is no message. */
  function Got(p: Pushed, f: Field): int32 { if p.Some? && f in p.value then p.value[f] else 0 }

  /** The signed 64-bit product time.Duration computes, wrap-around included. */
  function Wrap64(x: int): int
  {
    var m := x % 0x1_0000_0000_0000_0000;
    if m >= 0x8000_0000_0000_0000 then m - 0x1_0000_0000_0000_0000 else m
  }

  function Seconds(s: int32): int { Wrap64(s * SECOND) }

  /** No 32-bit number of seconds overflows a 64-bit count of nanoseconds. */
  lemma SecondsDoNotOverflow(s: int32)
    ensures Seconds(s) == s * SECOND
    ensures -0x8000_0000_0000_0000 <= s * SECOND < 0x8000_0000_0000_0000
  {
    var p := s * SECOND;
    assert -0x8000_0000 * SECOND <= p <= 0x7fff_ffff * SECOND;
    if p < 0 {
      assert p % 0x1_0000_0000_0000_0000 == p + 0x1_0000_0000_0000_0000;
    }
  }

  function PositiveSeconds(s: int32): int { if s > 0 then Seconds(s) else 0 }

  function FromProto(p: Pushed): Config
  {
    Config(0, Got(p, SpillMaxRows), PositiveSeconds(Got(p, SpillRetention)), PositiveSeconds(Got(p, FlushInterval)),
           PositiveSeconds(Got(p, DeliveryTimeout)), Got(p, MaxAttempts), 0, 0, 0)
  }

  /** What the agent uses of the outbox configuration that the server sets, in the server's units. */
  function Effective(c: Config, f: Field): int
    requires f in OUTBOX_FIELDS
  {
    match f
    case SpillMaxRows => c.spillMaxRows
    case SpillRetention => c.spillRetention
    case FlushInterval => c.flushInterval
    case DeliveryTimeout => c.deliveryTimeout
    case MaxAttempts => c.maxAttempts
  }

  predicate IsDuration(f: Field) { f != SpillMaxRows && f != MaxAttempts }

  function InUnits(f: Field, n: int): int { if IsDuration(f) then n * SECOND else n }

  /** The precedence rule: the first positive of override, global setting and built-in default. */
  function FirstPositive(f: Field, over: int, global: int, default: int): int
  {
    if over > 0 then InUnits(f, over) else if global > 0 then InUnits(f, global) else default
  }

  lemma SwapTakesPushed(current: Config, p: Pushed, f: Field)
    requires f in OUTBOX_FIELDS
    ensures Effective(Swap(current, FromProto(p)), f) ==
      if Got(p, f) > 0 then InUnits(f, Got(p, f)) else Effective(DEFAULTS, f)
  {
    SecondsDoNotOverflow(Got(p, f));
  }

  /** End to end, each server-settable outbox tunable is the first positive of override, global and default,
      whatever the agent ran with before; a missing message and one of zeros mean the same. */
  lemma OutboxPrecedence(settings: Field -> Stored, override: Override, p: Pushed, current: Config, f: Field)
    requires f in OUTBOX_FIELDS
    requires forall g :: g in OUTBOX_FIELDS ==> Got(p, g) == Layer(Overridden(override, g), Load(settings(g)))
    ensures Effective(Swap(current, FromProto(p)), f) ==
      FirstPositive(f, Overridden(override, f), Load(settings(f)), Effective(DEFAULTS, f))
  {
    SwapTakesPushed(current, p, f);
  }

  /** Pushing nothing instead of zeros changes nothing. */
  lemma NothingMeansZeros(current: Config, zeros: map<Field, int32>)
    requires AllZero(zeros)
    ensures Swap(current, FromProto(Some(zeros))) == Swap(current, FromProto(None))
  {
    assert forall f :: Got(Some(zeros), f) == 0;
  }

  /** The configuration after a series of pushes. */
  function SwapAll(start: Config, pushes: seq<Pushed>): Config
  {
    if pushes == [] then start else Swap(SwapAll(start, pushes[..|pushes| - 1]), FromProto(pushes[|pushes| - 1]))
  }

  /** Over any series of pushes the memory capacity never changes, every field stays positive, and only the
      last push counts. */
  lemma {:induction false} OnlyLastPushCounts(start: Config, pushes: seq<Pushed>)
    requires Positive(start)
    ensures Positive(SwapAll(start, pushes)) && SwapAll(start, pushes).memoryMax == start.memoryMax
    ensures pushes != [] ==> SwapAll(start, pushes) == Swap(start, FromProto(pushes[|pushes| - 1]))
  {
    if pushes != [] {
      OnlyLastPushCounts(start, pushes[..|pushes| - 1]);
      SwapKeepsPositive(SwapAll(start, pushes[..|pushes| - 1]), FromProto(pushes[|pushes| - 1]));
    }
  }

  lemma SwapKeepsPositive(current: Config, next: Config)
    requires Positive(current)
    ensures Positive(Swap(current, next)) && Swap(current, next).memoryMax == current.memoryMax
  {
  }

  /** The first of the override, the stored setting and the default that is positive, in nanoseconds per unit. */
  predicate FirstOf(x: int, s: Stored, o: Override, f: Field, unit: int, default: int)
  {
    if o.Values? && o.of(f) > 0 then x == o.of(f) * unit
    else if s.Number? && s.n > 0 then x == s.n * unit
    else x == default
  }

  // ---- command timeouts ----

  function BuiltIn(f: Field): int
    requires f in TIMEOUT_FIELDS
  {
    match f
    case Backup => 24 * 3600 * SECOND
    case Restore => 24 * 3600 * SECOND
    case ListSnapshots => 300 * SECOND
    case BrowseSnapshot => 300 * SECOND
    case BrowseFilesystem => 30 * SECOND
    case Default => 300 * SECOND
  }

  class StreamHandler {
    var cmdTimeouts: Pushed

    constructor ()
      ensures cmdTimeouts == None
    {
      cmdTimeouts := None;
    }

    method ApplyCommandTimeouts(t: Pushed)
      modifies this
      ensures cmdTimeouts == t
    {
      cmdTimeouts := t;
    }

    /** The deadline of a command kind: the last push's value if positive, otherwise the built-in one. */
    method CommandTimeout(f: Field) returns (d: int)
      requires f in TIMEOUT_FIELDS
      ensures d == (if Got(cmdTimeouts, f) > 0 then InUnits(f, Got(cmdTimeouts, f)) else BuiltIn(f)) && d > 0
    {
      var override := Got(cmdTimeouts, f);
      SecondsDoNotOverflow(override);
      d := if override > 0 then Seconds(override) else BuiltIn(f);
    }
  }

  /** From the server's tables to a command's deadline: resolve, push, apply, ask. */
  method DeadlineEndToEnd(settings: Field -> Stored, override: Override, handler: StreamHandler, f: Field)
    returns (d: Option<int>)
    requires f in TIMEOUT_FIELDS
    modifies handler
    ensures d.None? <==> exists g :: g in TIMEOUT_FIELDS && settings(g).QueryFailed?
    ensures d.Some? ==>
      d.value == FirstPositive(f, Overridden(override, f), Load(settings(f)), BuiltIn(f))
    ensures d.Some? && (f.Backup? || f.Restore?) ==> FirstOf(d.value, settings(f), override, f, 1_000_000_000, 86_400_000_000_000)
    ensures d.Some? && (f.ListSnapshots? || f.BrowseSnapshot? || f.Default?) ==>
      FirstOf(d.value, settings(f), override, f, 1_000_000_000, 300_000_000_000)
    ensures d.Some? && f.BrowseFilesystem? ==> FirstOf(d.value, settings(f), override, f, 1_000_000_000, 30_000_000_000)
  {
    var r := Resolve(TIMEOUT_FIELDS, settings, override);
    if r.Failed? { return None; }
    handler.ApplyCommandTimeouts(r.value);
    var t := handler.CommandTimeout(f);
    return Some(t);
  }

  /** The same for the outbox, over whatever configuration the agent has. */
  method TunablesEndToEnd(settings: Field -> Stored, override: Override, current: Config) returns (next: Option<Config>)
    requires Positive(current)
    ensures next.None? <==> exists g :: g in OUTBOX_FIELDS && settings(g).QueryFailed?
    ensures next.Some? ==> Positive(next.value) && next.value.memoryMax == current.memoryMax
    ensures next.Some? ==> forall f :: f in OUTBOX_FIELDS ==>
      Effective(next.value, f) == FirstPositive(f, Overridden(override, f), Load(settings(f)), Effective(DEFAULTS, f))
    ensures next.Some? ==>
      && FirstOf(next.value.spillMaxRows, settings(SpillMaxRows), override, SpillMaxRows, 1, 20_000)
      && FirstOf(next.value.spillRetention, settings(SpillRetention), override, SpillRetention, 1_000_000_000, 604_800_000_000_000)
      && FirstOf(next.value.flushInterval, settings(FlushInterval), override, FlushInterval, 1_000_000_000, 60_000_000_000)
      && FirstOf(next.value.deliveryTimeout, settings(DeliveryTimeout), override, DeliveryTimeout, 1_000_000_000, 10_000_000_000)
      && FirstOf(next.value.maxAttempts, settings(MaxAttempts), override, MaxAttempts, 1, 10)
      && next.value.backoffInitial == 1_000_000_000 && next.value.backoffMax == 30_000_000_000
      && next.value.pruneInterval == 86_400_000_000_000
  {
    var r := Resolve(OUTBOX_FIELDS, settings, override);
    if r.Failed? { return None; }
    next := Some(Swap(current, FromProto(r.value)));
    SwapKeepsPositive(current, FromProto(r.value));
    forall f | f in OUTBOX_FIELDS
      ensures Effective(next.value, f) ==
        FirstPositive(f, Overridden(override, f), Load(settings(f)), Effective(DEFAULTS, f))
    {
      OutboxPrecedence(settings, override, r.value, current, f);
    }
    assert {SpillMaxRows, SpillRetention, FlushInterval, DeliveryTimeout, MaxAttempts} <= OUTBOX_FIELDS;
  }
}
