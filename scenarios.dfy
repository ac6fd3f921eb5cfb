/**
 * The behaviours the repository's tests drive, stated as client methods on
 * a freshly constructed module over empty servers (the tests flush before
 * each case). Each client call succeeds unless a parameter says otherwise.
 */
module Scenarios {
  import opened JsValues
  import opened Settings
  import opened Refresh
  import opened Batches
  import opened MemcachedCache

  /** Getting a key that was never set gives null. */
  method AbsentKeyIsNull(key: string) returns (result: Value)
    ensures result == Null
  {
    var m := new MemcachedCacheModule(NoOptions, map[]);
    var err;
    err, result := m.Get(key, "", Success);
  }

  /** `set(key, value, 1, cb)` then `get(key)` gives the value back, except
      that a falsy value comes back as null. */
  method SetThenGet(key: string, value: Value) returns (result: Value)
    ensures result == if Truthy(value) then value else Null
  {
    var m := new MemcachedCacheModule(NoOptions, map[]);
    var o := m.Set(key, value, 1, Some(0), 4, Success, 0);
    var err;
    err, result := m.Get(key, "", Success);
  }

  /** `set(key, value)` with neither a lifetime nor a callback stores the
      value with the default lifetime, registers nothing and completes
      through the no-op callback. */
  method SetWithoutCallback(key: string, value: Value) returns (outcome: Outcome, stored: Entry, registered: bool, result: Value)
    ensures outcome == Called(Success)
    ensures stored == Entry(value, 90) && !registered
    ensures result == if Truthy(value) then value else Null
  {
    var m := new MemcachedCacheModule(NoOptions, map[]);
    DefaultsWithoutOptions();
    outcome := m.Set(key, value, 0, None, 2, Success, 0);
    stored, registered := m.store[key], key in m.refreshKeys;
    var err;
    err, result := m.Get(key, "", Success);
  }

  /** Set, then delete, then get gives null. */
  method SetDelGet(key: string, value: Value) returns (result: Value)
    ensures result == Null
  {
    var m := new MemcachedCacheModule(NoOptions, map[]);
    var o := m.Set(key, value, 1, Some(0), 4, Success, 0);
    var r := m.Del(Str(key), (k: string) => Success);
    var err;
    err, result := m.Get(key, "", Success);
  }

  /** After setting three keys and flushing, `mget` gives null for each. */
  method FlushThenMget(k1: string, k2: string, k3: string, json: Json) returns (response: map<string, Value>)
    requires k1 != k2 && k2 != k3 && k1 != k3
    ensures k1 in response && k2 in response && k3 in response
    ensures response[k1] == Null && response[k2] == Null && response[k3] == Null
  {
    var m := new MemcachedCacheModule(NoOptions, map[]);
    var o := m.Set(k1, Str("value"), 1, Some(0), 4, Success, 0);
    o := m.Set(k2, Str("value2"), 1, Some(0), 4, Success, 0);
    o := m.Set(k3, Str("value3"), 1, Some(0), 4, Success, 0);
    var f := m.Flush(Success);
    var keys := [k1, k2, k3];
    assert multiset(keys)[k1] == 1 && multiset(keys)[k2] == 1 && multiset(keys)[k3] == 1;
    var err, idx;
    err, response, idx := m.Mget(keys, json, Success, Undefined);
  }

  /** `mset({a: v1, b: v2}, null)` then `mget([a, b, c])` gives v1, v2 and
      null, when the codec decodes what it encodes. */
  method MsetThenMget(a: string, b: string, c: string, v1: Value, v2: Value, json: Json)
    returns (response: map<string, Value>)
    requires a != b && b != c && a != c
    requires v1 != Null && v2 != Null && !IsWrapper(v1) && !IsWrapper(v2)
    requires json.stringify(v1).Some? && json.parse(json.stringify(v1).value) == Some(v1)
    requires json.stringify(v2).Some? && json.parse(json.stringify(v2).value) == Some(v2)
    ensures a in response && b in response && c in response
    ensures response[a] == v1 && response[b] == v2 && response[c] == Null
  {
    var m := new MemcachedCacheModule(NoOptions, map[]);
    var entries := [(a, v1), (b, v2)];
    assert Processed(entries) == 2;
    assert entries[..2] == entries;
    WrittenExactly(entries, 0, 90, json, (k: string) => Success);
    var o := m.Mset(entries, 0, json, (k: string) => Success, 0);
    var keys := [a, b, c];
    assert multiset(keys)[a] == 1 && multiset(keys)[b] == 1 && multiset(keys)[c] == 1;
    var err, idx;
    err, response, idx := m.Mget(keys, json, Success, Undefined);
  }

  /** A key set with a refresh callback is due on the next tick; once the
      callback answers, `get` gives the refreshed value, and the key is due
      again on every later tick because its record was not renewed. */
  method RefreshReplacesValue(key: string, value: Value, refreshValue: Value, now: int, tick: int, later: int)
    returns (result: Value, dueLater: bool)
    requires Truthy(refreshValue)
    requires now <= tick <= later
    ensures result == refreshValue
    ensures dueLater
  {
    var m := new MemcachedCacheModule(NoOptions, map[]);
    DefaultsWithoutOptions();
    var o := m.Set(key, value, 1, Some(1), 5, Success, now);
    assert Running(m.Flags());
    var calls := m.BackgroundRefresh(tick);
    m.HandleRefreshResponse(key, calls[key], Success, refreshValue, Success, tick);
    var err;
    err, result := m.Get(key, "", Success);
    assert Running(m.Flags());
    var again := m.BackgroundRefresh(later);
    dueLater := key in again;
  }

  /** One completed refresh callback: the key, the record bound at tick time,
      the callback's own outcome and answer, the outcome of the store write,
      and the time. */
  datatype Response = Response(key: string, data: RefreshRecord, callback: Reply, response: Value,
                               write: Reply, now: int)

  /** A key that is due on one tick is due on every later tick, whatever
      refresh responses complete in between: the handler never renews a
      record. */
  method RefreshedKeyStaysDue(key: string, value: Value, rs: seq<Response>, now: int, tick: int, later: int)
    returns (dueLater: bool)
    requires now <= tick <= later
    ensures dueLater
  {
    var m := new MemcachedCacheModule(NoOptions, map[]);
    DefaultsWithoutOptions();
    var o := m.Set(key, value, 1, Some(1), 5, Success, now);
    assert Running(m.Flags());
    var calls := m.BackgroundRefresh(tick);
    assert key in calls;
    ghost var registry := m.refreshKeys;
    var i := 0;
    while i < |rs|
      invariant 0 <= i <= |rs|
      invariant m.Valid() && m.refreshKeys == registry && Running(m.Flags())
      invariant m.backgroundRefreshMinTtl == 70000
    {
      var r := rs[i];
      m.HandleRefreshResponse(r.key, r.data, r.callback, r.response, r.write, r.now);
      i := i + 1;
    }
    DueStaysDue(registry[key], tick, later, m.backgroundRefreshMinTtl);
    var again := m.BackgroundRefresh(later);
    dueLater := key in again;
  }

  /** Deleting a key does not unregister it: the next tick refreshes it and
      puts it back. */
  method DeletedKeyIsRepopulated(key: string, value: Value, refreshValue: Value, now: int, tick: int)
    returns (afterDel: Value, afterRefresh: Value)
    requires Truthy(refreshValue)
    requires now <= tick
    ensures afterDel == Null
    ensures afterRefresh == refreshValue
  {
    var m := new MemcachedCacheModule(NoOptions, map[]);
    DefaultsWithoutOptions();
    var o := m.Set(key, value, 1, Some(1), 5, Success, now);
    var r := m.Del(Str(key), (k: string) => Success);
    var err;
    err, afterDel := m.Get(key, "", Success);
    assert Running(m.Flags());
    var calls := m.BackgroundRefresh(tick);
    m.HandleRefreshResponse(key, calls[key], Success, refreshValue, Success, tick);
    err, afterRefresh := m.Get(key, "", Success);
  }

  /** Two keys with their own refresh answers each get their own value. */
  method TwoKeysRefreshIndependently(now: int, tick: int) returns (one: Value, two: Value)
    requires now <= tick
    ensures one == Num(1) && two == Num(2)
  {
    var m := new MemcachedCacheModule(NoOptions, map[]);
    DefaultsWithoutOptions();
    var o := m.Set("one", Str("value"), 1, Some(1), 5, Success, now);
    o := m.Set("two", Str("value"), 1, Some(1), 5, Success, now);
    assert Running(m.Flags());
    var calls := m.BackgroundRefresh(tick);
    m.HandleRefreshResponse("one", calls["one"], Success, Num(1), Success, tick);
    m.HandleRefreshResponse("two", calls["two"], Success, Num(2), Success, tick);
    var err;
    err, one := m.Get("one", "", Success);
    err, two := m.Get("two", "", Success);
  }

  /** With the check on and a timer period above the threshold, the first
      registering `set` throws; the flag is already set, so the next one
      completes normally, and no timer ever runs, not even after a flush. */
  method MisconfiguredRefreshThrowsOnce(key: string, value: Value, interval: int, minTtl: int, now: int)
    returns (first: Outcome, second: Outcome, running: bool)
    requires minTtl != 0 && interval > minTtl
    ensures first == Thrown(IntervalMessage)
    ensures second == Called(Success)
    ensures !running
  {
    var m := new MemcachedCacheModule(Options(0, Undefined, interval, minTtl), map[]);
    first := m.Set(key, value, 1, Some(1), 5, Success, now);
    second := m.Set(key, value, 1, Some(1), 5, Success, now);
    var f := m.Flush(Success);
    var third := m.Set(key, value, 1, Some(1), 5, Success, now);
    running := Running(m.Flags());
  }
}
