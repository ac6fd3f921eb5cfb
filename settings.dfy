/**
 * The module's configuration: the options object, the defaults that replace
 * falsy options, and the `x || fallback` rule that also defaults lifetimes.
 */
module Settings {
  import opened JsValues

  /** Default lifetime of an entry, in seconds. */
  const DefaultLifetime: int := 90
  /** Default period of the background refresh timer, in milliseconds. */
  const DefaultRefreshInterval: int := 60000
  /** Default remaining-lifetime threshold under which a key is refreshed, in milliseconds. */
  const DefaultRefreshMinTtl: int := 70000

  /** The recognised options. A numeric option is an integer and 0 stands
      for every falsy value (absent, undefined, null, 0). The interval-check
      option keeps its JavaScript value because only a boolean is honoured. */
  datatype Options = Options(
    defaultLifetime: int,
    backgroundRefreshIntervalCheck: Value,
    backgroundRefreshInterval: int,
    backgroundRefreshMinTtl: int)

  /** `options || {}` when the caller passes no options at all. */
  const NoOptions := Options(0, Undefined, 0, 0)

  /** The configuration fields the constructor sets. */
  datatype Config = Config(
    defaultLifetime: int,
    intervalCheck: bool,
    interval: int,
    minTtl: int)

  /** `x || fallback` for a number: a falsy `x` is replaced. */
  function OrElse(x: int, fallback: int): (r: int)
    ensures x != 0 ==> r == x
    ensures x == 0 ==> r == fallback
    ensures fallback != 0 ==> r != 0
  {
    if x != 0 then x else fallback
  }

  /** The constructor's option defaulting. */
  function Configure(o: Options): (c: Config)
    ensures c.defaultLifetime != 0 && c.interval != 0 && c.minTtl != 0
    ensures o.defaultLifetime != 0 ==> c.defaultLifetime == o.defaultLifetime
    ensures o.backgroundRefreshInterval != 0 ==> c.interval == o.backgroundRefreshInterval
    ensures o.backgroundRefreshMinTtl != 0 ==> c.minTtl == o.backgroundRefreshMinTtl
    ensures o.defaultLifetime == 0 ==> c.defaultLifetime == 90
    ensures o.backgroundRefreshInterval == 0 ==> c.interval == 60000
    ensures o.backgroundRefreshMinTtl == 0 ==> c.minTtl == 70000
    ensures !c.intervalCheck <==> o.backgroundRefreshIntervalCheck == Bool(false)
  {
    Config(
      OrElse(o.defaultLifetime, DefaultLifetime),
      if o.backgroundRefreshIntervalCheck.Bool? then o.backgroundRefreshIntervalCheck.b else true,
      OrElse(o.backgroundRefreshInterval, DefaultRefreshInterval),
      OrElse(o.backgroundRefreshMinTtl, DefaultRefreshMinTtl))
  }

  /** The configuration the scheduler refuses: the check is on and the
      timer period exceeds the refresh threshold. */
  predicate Misconfigured(c: Config) {
    c.intervalCheck && c.interval > c.minTtl
  }

  /** With no options the module is configured with the documented defaults,
      and that configuration passes the interval check. */
  lemma DefaultsWithoutOptions()
    ensures Configure(NoOptions) == Config(90, true, 60000, 70000)
    ensures !Misconfigured(Configure(NoOptions))
  {
  }
}
