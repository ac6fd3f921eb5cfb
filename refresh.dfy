/**
 * The refresh registry (key to refresh record) and the two-flag background
 * refresh scheduler, as functions over values. The class in MemcachedCache
 * keeps both as fields and its methods are specified by these functions.
 */
module Refresh {
  import opened JsValues
  import opened Settings

  /** The identity of a caller-supplied function. */
  type FnId = nat

  /** What `set` records for a key registered for background refresh.
      `expirationDate` is in milliseconds, `lifeSpan` in seconds. */
  datatype RefreshRecord = RefreshRecord(expirationDate: int, lifeSpan: int, refreshCb: FnId)

  type Registry = map<string, RefreshRecord>

  /** The registration rule of `set`: only a five-argument call whose fourth
      argument is truthy, and only once the store write has succeeded. */
  predicate Registers(argCount: nat, fourth: Option<FnId>, write: Reply) {
    argCount == 5 && fourth.Some? && write.Success?
  }

  /** The registry after `set(key, value, lifetime, ...)` with the effective
      lifetime `life` (seconds) at time `now` (milliseconds). */
  function AfterSet(reg: Registry, key: string, life: int, argCount: nat, fourth: Option<FnId>,
                    write: Reply, now: int): (r: Registry)
    ensures Registers(argCount, fourth, write) ==>
              key in r && r[key] == RefreshRecord(life * 1000 + now, life, fourth.value)
    ensures !Registers(argCount, fourth, write) ==> r == reg
    ensures forall k :: k != key ==> (k in r <==> k in reg)
    ensures forall k :: k != key && k in r ==> r[k] == reg[k]
  {
    if Registers(argCount, fourth, write) then
      reg[key := RefreshRecord(life * 1000 + now, life, fourth.value)]
    else
      reg
  }

  /** Eligibility on a refresh tick: the record expires within `minTtl`. */
  predicate Due(rec: RefreshRecord, now: int, minTtl: int) {
    rec.expirationDate - now < minTtl
  }

  /** The keys a tick at `now` hands to their refresh callbacks. */
  function DueKeys(reg: Registry, now: int, minTtl: int): set<string> {
    set k | k in reg && Due(reg[k], now, minTtl)
  }

  /** Once due, a record stays due as time goes on. */
  lemma DueStaysDue(rec: RefreshRecord, now: int, later: int, minTtl: int)
    requires Due(rec, now, minTtl) && now <= later
    ensures Due(rec, later, minTtl)
  {
  }

  /** The registry after `_handleRefreshResponse(key, data, err, response)`
      as written: on success it calls `set(key, response, data.lifeSpan,
      data.refresh, noop)`, and `data.refresh` is undefined, so the fourth
      argument is falsy. */
  function AfterRefreshResponse(reg: Registry, key: string, data: RefreshRecord, callback: Reply,
                                write: Reply, defaultLifetime: int, now: int): Registry
  {
    if callback.Success? then
      AfterSet(reg, key, OrElse(data.lifeSpan, defaultLifetime), 5, None, write, now)
    else
      reg
  }

  /** As written, a refresh response never changes the registry. */
  lemma ResponseLeavesRegistry(reg: Registry, key: string, data: RefreshRecord, callback: Reply,
                               write: Reply, defaultLifetime: int, now: int)
    ensures AfterRefreshResponse(reg, key, data, callback, write, defaultLifetime, now) == reg
  {
  }

  /** The same handler as evidently intended: the record's own callback is
      passed back, so a successful refresh renews the record. */
  function AfterRefreshResponseIntended(reg: Registry, key: string, data: RefreshRecord, callback: Reply,
                                        write: Reply, defaultLifetime: int, now: int): Registry
  {
    if callback.Success? then
      AfterSet(reg, key, OrElse(data.lifeSpan, defaultLifetime), 5, Some(data.refreshCb), write, now)
    else
      reg
  }

  /** The intended handler renews the record: its expiration moves to
      `now + lifeSpan` and, when the lifespan exceeds the threshold, the key
      is not due again right away. */
  lemma IntendedResponseRenews(reg: Registry, key: string, data: RefreshRecord, write: Reply,
                               defaultLifetime: int, now: int, minTtl: int)
    requires write.Success? && data.lifeSpan != 0
    requires data.lifeSpan * 1000 >= minTtl
    ensures var r := AfterRefreshResponseIntended(reg, key, data, Success, write, defaultLifetime, now);
            key in r && r[key] == RefreshRecord(data.lifeSpan * 1000 + now, data.lifeSpan, data.refreshCb)
            && key !in DueKeys(r, now, minTtl)
  {
  }

  /** A concrete run that separates the two handlers: a key registered at
      time 0 for 90 seconds is due at 30000 (the default threshold is 70000);
      after a successful refresh at 30000 it is due again at 31000 as
      written, and not due as intended. */
  lemma AsWrittenResponseKeepsKeyDue()
    ensures var data := RefreshRecord(90000, 90, 7);
            var reg := map["k" := data];
            var asWritten := AfterRefreshResponse(reg, "k", data, Success, Success, 90, 30000);
            var intended := AfterRefreshResponseIntended(reg, "k", data, Success, Success, 90, 30000);
            "k" in DueKeys(reg, 30000, 70000)
            && "k" in DueKeys(asWritten, 31000, 70000)
            && "k" !in DueKeys(intended, 31000, 70000)
  {
  }

  // The scheduler: `_backgroundRefreshEnabled` and whether `_refreshInterval`
  // has ever been assigned a timer.

  datatype Scheduler = Scheduler(enabled: bool, timerStarted: bool)

  const Stopped := Scheduler(false, false)

  /** The timer fires only while both flags are set. */
  predicate Running(s: Scheduler) {
    s.enabled && s.timerStarted
  }

  /** The result of `_backgroundRefreshInit`: the new flags and whether it threw. */
  datatype InitStep = InitStep(state: Scheduler, threw: bool)

  /** `_backgroundRefreshInit` with the configuration's verdict `misconfigured`. */
  function Init(s: Scheduler, misconfigured: bool): (r: InitStep)
    ensures s.enabled ==> r == InitStep(s, false)
    ensures !s.enabled ==> r.state.enabled
    ensures !s.enabled ==> (r.threw <==> misconfigured)
    ensures !s.enabled ==> (r.state.timerStarted <==> s.timerStarted || !misconfigured)
    ensures !s.enabled && !s.timerStarted ==> (Running(r.state) <==> !misconfigured)
  {
    if s.enabled then InitStep(s, false)
    else if misconfigured then InitStep(Scheduler(true, s.timerStarted), true)
    else InitStep(Scheduler(true, true), false)
  }

  /** `flush`: the enabled flag is reset only when a timer was ever started. */
  function Flushed(s: Scheduler): (r: Scheduler)
    ensures !Running(r) && r.timerStarted == s.timerStarted
    ensures s.timerStarted ==> !r.enabled
    ensures !s.timerStarted ==> r == s
  {
    if s.timerStarted then Scheduler(false, true) else s
  }

  /** The states reachable from `Stopped` for a fixed configuration: a timer
      is started only when the configuration passes the check, and a set
      enabled flag without a timer means the check failed. */
  predicate Consistent(s: Scheduler, misconfigured: bool) {
    (s.timerStarted ==> !misconfigured) && (s.enabled && !s.timerStarted ==> misconfigured)
  }

  datatype Step = InitCall | FlushCall

  datatype RunResult = RunResult(state: Scheduler, throws: nat)

  /** The flags after a sequence of scheduler calls, and how many of them threw. */
  function Run(s: Scheduler, steps: seq<Step>, misconfigured: bool): RunResult
    decreases |steps|
  {
    if steps == [] then RunResult(s, 0)
    else
      var next := match steps[0]
        case InitCall => Init(s, misconfigured)
        case FlushCall => InitStep(Flushed(s), false);
      var rest := Run(next.state, steps[1..], misconfigured);
      RunResult(rest.state, rest.throws + if next.threw then 1 else 0)
  }

  /** Over any sequence of initialisations and flushes the configuration
      error is raised at most once, and only from a never-enabled scheduler;
      a misconfigured scheduler never runs, a well-configured one never
      throws. */
  lemma {:induction false} RunThrowsAtMostOnce(s: Scheduler, steps: seq<Step>, misconfigured: bool)
    requires Consistent(s, misconfigured)
    ensures Consistent(Run(s, steps, misconfigured).state, misconfigured)
    ensures Run(s, steps, misconfigured).throws <= if misconfigured && !s.enabled then 1 else 0
    ensures misconfigured ==> !Running(Run(s, steps, misconfigured).state)
    decreases |steps|
  {
    if steps != [] {
      var next := match steps[0]
        case InitCall => Init(s, misconfigured)
        case FlushCall => InitStep(Flushed(s), false);
      RunThrowsAtMostOnce(next.state, steps[1..], misconfigured);
    }
  }
}
