/** Outbox tunables. Durations are nanoseconds, as Go's time.Duration counts them. */
module OutboxConfig {

  const SECOND: int := 1_000_000_000

  datatype Config = Config(
    memoryMax: int, spillMaxRows: int, spillRetention: int, flushInterval: int, deliveryTimeout: int,
    maxAttempts: int, backoffInitial: int, backoffMax: int, pruneInterval: int)

  const DEFAULTS := Config(2000, 20000, 7 * 24 * 3600 * SECOND, 60 * SECOND, 10 * SECOND,
                           10, 1 * SECOND, 30 * SECOND, 24 * 3600 * SECOND)

  function OrDefault(x: int, d: int): int { if x <= 0 then d else x }

  function ApplyDefaults(c: Config): Config
  {
    Config(OrDefault(c.memoryMax, DEFAULTS.memoryMax), OrDefault(c.spillMaxRows, DEFAULTS.spillMaxRows),
           OrDefault(c.spillRetention, DEFAULTS.spillRetention), OrDefault(c.flushInterval, DEFAULTS.flushInterval),
           OrDefault(c.deliveryTimeout, DEFAULTS.deliveryTimeout), OrDefault(c.maxAttempts, DEFAULTS.maxAttempts),
           OrDefault(c.backoffInitial, DEFAULTS.backoffInitial), OrDefault(c.backoffMax, DEFAULTS.backoffMax),
           OrDefault(c.pruneInterval, DEFAULTS.pruneInterval))
  }

  predicate Positive(c: Config)
  {
    c.memoryMax > 0 && c.spillMaxRows > 0 && c.spillRetention > 0 && c.flushInterval > 0 && c.deliveryTimeout > 0
    && c.maxAttempts > 0 && c.backoffInitial > 0 && c.backoffMax > 0 && c.pruneInterval > 0
  }

  /** UpdateConfig: everything is swapped except the channel capacity fixed at start. */
  function Swap(current: Config, next: Config): Config
  {
    ApplyDefaults(next.(memoryMax := current.memoryMax))
  }

  /** A field that is not positive takes its documented default, any other is kept. */
  lemma DefaultsFillGaps(c: Config)
    ensures var d := ApplyDefaults(c);
      && d.memoryMax == (if c.memoryMax > 0 then c.memoryMax else 2_000)
      && d.spillMaxRows == (if c.spillMaxRows > 0 then c.spillMaxRows else 20_000)
      && d.spillRetention == (if c.spillRetention > 0 then c.spillRetention else 604_800_000_000_000)
      && d.flushInterval == (if c.flushInterval > 0 then c.flushInterval else 60_000_000_000)
      && d.deliveryTimeout == (if c.deliveryTimeout > 0 then c.deliveryTimeout else 10_000_000_000)
      && d.maxAttempts == (if c.maxAttempts > 0 then c.maxAttempts else 10)
      && d.backoffInitial == (if c.backoffInitial > 0 then c.backoffInitial else 1_000_000_000)
      && d.backoffMax == (if c.backoffMax > 0 then c.backoffMax else 30_000_000_000)
      && d.pruneInterval == (if c.pruneInterval > 0 then c.pruneInterval else 86_400_000_000_000)
  {
  }
}
