/**
 * MemcachedCacheModule: the cache facade. The memcached client is replaced
 * by the `store` field (what the servers hold); every client call's outcome,
 * the JSON codec and the clock are parameters. Completion callbacks become
 * returned values; an exception escaping a callback becomes `Thrown`.
 */
module MemcachedCache {
  import opened JsValues
  import opened Settings
  import opened Refresh
  import opened Batches

  /** The message of the configuration error `_backgroundRefreshInit` throws. */
  const IntervalMessage := "BACKGROUND_REFRESH_INTERVAL_EXCEPTION"
  /** The memcached protocol's reply when `add` finds the key present. */
  const NotStored := "NOT_STORED"
  /** Reading `cacheValue` of a null `mset` entry throws a TypeError. */
  const NullEntryMessage := "TypeError"

  /** How a call ends: its completion callback receives a reply, or an
      exception escapes and the callback is never called. */
  datatype Outcome = Called(reply: Reply) | Thrown(message: string)

  class MemcachedCacheModule {
    /** What the memcached servers hold. */
    var store: Store
    /** `_refreshKeys`. */
    var refreshKeys: Registry
    /** `_backgroundRefreshEnabled`. */
    var backgroundRefreshEnabled: bool
    /** Whether `_refreshInterval` has ever been assigned a timer (it is never cleared). */
    var refreshIntervalStarted: bool

    const defaultLifetime: int
    const backgroundRefreshIntervalCheck: bool
    const backgroundRefreshInterval: int
    const backgroundRefreshMinTtl: int

    /** The scheduler flags: `_backgroundRefreshEnabled` and whether a timer was started. */
    function Flags(): Scheduler
      reads this
    {
      Scheduler(backgroundRefreshEnabled, refreshIntervalStarted)
    }

    /** The four configuration values fixed by the constructor. */
    function Configuration(): Config {
      Config(defaultLifetime, backgroundRefreshIntervalCheck, backgroundRefreshInterval, backgroundRefreshMinTtl)
    }

    /** The object invariant: configured values are truthy, every record has
        a truthy lifespan, the scheduler flags are reachable for this
        configuration, and the scheduler was only ever touched after a
        registration (records are never removed). */
    ghost predicate Valid()
      reads this
    {
      && defaultLifetime != 0 && backgroundRefreshInterval != 0 && backgroundRefreshMinTtl != 0
      && (forall k :: k in refreshKeys ==> refreshKeys[k].lifeSpan != 0)
      && Consistent(Flags(), Misconfigured(Configuration()))
      && (backgroundRefreshEnabled || refreshIntervalStarted ==> refreshKeys != map[])
    }

    /** `new MemcachedCacheModule(locations, options)` connected to servers
        that already hold `contents`. */
    constructor (options: Options, contents: Store)
      ensures Valid()
      ensures Configuration() == Configure(options)
      ensures store == contents && refreshKeys == map[] && Flags() == Stopped
    {
      var c := Configure(options);
      backgroundRefreshEnabled := false;
      defaultLifetime := c.defaultLifetime;
      refreshKeys := map[];
      backgroundRefreshIntervalCheck := c.intervalCheck;
      backgroundRefreshInterval := c.interval;
      backgroundRefreshMinTtl := c.minTtl;
      refreshIntervalStarted := false;
      store := contents;
    }

    /** `add(key, value, lifetime, cb)`; `net` is the client's transport outcome. */
    method Add(key: string, value: Value, lifetime: int, net: Reply) returns (reply: Reply)
      requires Valid()
      modifies this`store
      ensures Valid()
      ensures reply == if net.Failure? then net else if key in old(store) then Failure(NotStored) else Success
      ensures store == if reply.Success? then old(store)[key := Entry(value, OrElse(lifetime, defaultLifetime))]
                       else old(store)
    {
      var life := OrElse(lifetime, defaultLifetime);
      if net.Failure? {
        reply := net;
      } else if key in store {
        reply := Failure(NotStored);
      } else {
        store := store[key := Entry(value, life)];
        reply := Success;
      }
    }

    /** `get(key, cb, cleanKey)`; an empty `cleanKey` is the falsy one.
        `read` is the client's outcome. A falsy or missing value comes back
        as null. */
    method Get(key: string, cleanKey: string, read: Reply) returns (err: Reply, result: Value)
      ensures err == read
      ensures var k := if cleanKey != "" then cleanKey else key;
              && (Truthy(result) || result == Null)
              && (result != Null ==> read.Success? && k in store && result == store[k].value)
              && (read.Success? && k in store && Truthy(store[k].value) ==> result == store[k].value)
    {
      var cacheKey := if cleanKey != "" then cleanKey else key;
      var found := if read.Success? && cacheKey in store then store[cacheKey].value else Undefined;
      err := read;
      if Truthy(found) {
        result := found;
      } else {
        result := Null;
      }
    }

    /** `mget(keys, cb, index)`: every requested key ends up in the response;
        a held value is JSON-decoded once per occurrence of its key (kept raw
        when decoding throws), a missing key is set to null. */
    method Mget(keys: seq<string>, json: Json, read: Reply, index: Value)
      returns (err: Reply, response: map<string, Value>, idx: Value)
      ensures err == read && idx == index
      ensures forall k :: k in response <==> k in keys
      ensures forall k :: k in keys ==>
                response[k] == if k in store then ParsedTimes(json, store[k].value, multiset(keys)[k])
                               else ParsedTimes(json, Null, multiset(keys)[k] - 1)
      ensures forall k :: k in keys && multiset(keys)[k] == 1 ==>
                response[k] == if k in store then Parsed(json, store[k].value) else Null
    {
      var got := ClientGetMulti(store, keys);
      response := got;
      var i := 0;
      while i < |keys|
        invariant 0 <= i <= |keys|
        invariant response == MgetResponse(got, keys[..i], json)
      {
        var key := keys[i];
        assert keys[..i + 1][..i] == keys[..i];
        if key in response {
          response := response[key := Parsed(json, response[key])];
        } else {
          response := response[key := Null];
        }
        i := i + 1;
      }
      assert keys[..|keys|] == keys;
      MgetResponseDecodes(got, keys, json);
      err, idx := read, index;
    }

    /** `set(key, value, lifetime, [refreshCb,] cb)` called with `argCount`
        arguments, `fourth` being the fourth; `write` is the client's outcome.
        An argument the call leaves out is falsy: `lifetime` is 0 and
        `fourth` is `None` then. A missing or non-function completion
        callback is replaced by a no-op, which does not change the outcome. */
    method Set(key: string, value: Value, lifetime: int, fourth: Option<FnId>, argCount: nat,
               write: Reply, now: int) returns (outcome: Outcome)
      requires Valid()
      requires argCount >= 2
      modifies this
      ensures Valid()
      ensures store == if write.Success? then old(store)[key := Entry(value, OrElse(lifetime, defaultLifetime))]
                       else old(store)
      ensures refreshKeys == AfterSet(old(refreshKeys), key, OrElse(lifetime, defaultLifetime),
                                      argCount, fourth, write, now)
      ensures var step := Init(old(Flags()), Misconfigured(Configuration()));
              if Registers(argCount, fourth, write) then
                Flags() == step.state
                && outcome == if step.threw then Thrown(IntervalMessage) else Called(write)
              else
                Flags() == old(Flags()) && outcome == Called(write)
    {
      var life := OrElse(lifetime, defaultLifetime);
      var refreshCb := if argCount == 5 then fourth else None;
      if write.Success? {
        store := store[key := Entry(value, life)];
        if refreshCb.Some? {
          refreshKeys := refreshKeys[key := RefreshRecord(life * 1000 + now, life, refreshCb.value)];
          assert key in refreshKeys;
          var threw := BackgroundRefreshInit();
          if threw {
            return Thrown(IntervalMessage);
          }
        }
      }
      outcome := Called(write);
    }

    /** `mset(obj, lifetime, cb)`: `entries` are the object's own keys and
        values in iteration order, `writes` each key's client outcome. */
    method Mset(entries: seq<(string, Value)>, lifetime: int, json: Json, writes: string -> Reply, now: int)
      returns (outcome: Outcome)
      requires Valid()
      modifies this
      ensures Valid()
      ensures refreshKeys == old(refreshKeys) && Flags() == old(Flags())
      ensures store == old(store) + Written(entries[..Processed(entries)], lifetime, defaultLifetime, json, writes)
      ensures outcome == if Processed(entries) < |entries| then Thrown(NullEntryMessage)
                         else Called(FirstFailure(MsetReplies(entries, writes)))
    {
      var reply := Success;
      var i := 0;
      while i < |entries|
        invariant 0 <= i <= |entries|
        invariant Valid()
        invariant forall j :: 0 <= j < i ==> entries[j].1 != Null
        invariant refreshKeys == old(refreshKeys) && Flags() == old(Flags())
        invariant store == old(store) + Written(entries[..i], lifetime, defaultLifetime, json, writes)
        invariant reply == FirstFailure(MsetReplies(entries[..i], writes))
      {
        var key, value := entries[i].0, entries[i].1;
        if value == Null {
          ProcessedAt(entries, i);
          return Thrown(NullEntryMessage);
        }
        var r := Resolve(value, lifetime, defaultLifetime).value;
        WrittenStep(old(store), entries, i, lifetime, defaultLifetime, json, writes);
        MsetRepliesStep(entries, i, writes);
        var written := SetEntry(key, r, json, writes(key), now);
        if reply.Success? && written.Failure? {
          reply := written;
        }
        i := i + 1;
      }
      ProcessedAt(entries, i);
      assert entries[..i] == entries;
      outcome := Called(reply);
    }

    /** One `set` issued by `mset` for a resolved entry: the value is
        encoded, and the fourth argument is the per-key completion callback,
        so nothing is registered. */
    method SetEntry(key: string, r: Resolved, json: Json, write: Reply, now: int) returns (reply: Reply)
      requires Valid() && r.lifetime != 0
      modifies this
      ensures Valid()
      ensures refreshKeys == old(refreshKeys) && Flags() == old(Flags())
      ensures store == if write.Success? then old(store)[key := Entry(Stringified(json, r.value), r.lifetime)]
                       else old(store)
      ensures reply == write
    {
      var o := Set(key, Stringified(json, r.value), r.lifetime, Some(0), 4, write, now);
      reply := o.reply;
    }

    /** `del(key, cb)`: a string, an array of keys (each dispatched by `del`
        itself), or anything else, which is an error. */
    method Del(key: Value, deletes: string -> Reply) returns (reply: Reply)
      requires Valid()
      modifies this`store
      ensures Valid()
      ensures store == DelStore(old(store), key, deletes)
      ensures reply == DelReply(key, deletes)
      decreases key
    {
      match key
      case Str(s) =>
        reply := deletes(s);
        if reply.Success? {
          store := store - {s};
        }
      case Arr(items) =>
        reply := Success;
        var i := 0;
        while i < |items|
          invariant 0 <= i <= |items|
          invariant Valid()
          invariant store == DelStoreAll(old(store), items[..i], deletes)
          invariant reply == DelReplyAll(items[..i], deletes)
        {
          assert items[..i + 1][..i] == items[..i];
          var r := Del(items[i], deletes);
          if reply.Success? && r.Failure? {
            reply := r;
          }
          i := i + 1;
        }
        assert items[..i] == items;
      case _ =>
        reply := Failure(KeyTypeMessage);
    }

    /** `flush(cb)`; `net` is the client's outcome. */
    method Flush(net: Reply) returns (reply: Reply)
      requires Valid()
      modifies this
      ensures Valid()
      ensures reply == net
      ensures store == if net.Success? then map[] else old(store)
      ensures refreshKeys == old(refreshKeys)
      ensures Flags() == Flushed(old(Flags()))
    {
      if refreshIntervalStarted {
        backgroundRefreshEnabled := false;
      }
      if net.Success? {
        store := map[];
      }
      reply := net;
    }

    /** `_handleRefreshResponse(key, data, err, response)`: `callback` is
        the refresh callback's outcome, `write` the client's. */
    method HandleRefreshResponse(key: string, data: RefreshRecord, callback: Reply, response: Value,
                                 write: Reply, now: int)
      requires Valid()
      modifies this
      ensures Valid()
      ensures refreshKeys == old(refreshKeys) && Flags() == old(Flags())
      ensures store == if callback.Success? && write.Success?
                       then old(store)[key := Entry(response, OrElse(data.lifeSpan, defaultLifetime))]
                       else old(store)
    {
      if callback.Success? {
        // `data.refresh` names no field of the record: the fourth argument is undefined
        var ignored := Set(key, response, data.lifeSpan, None, 5, write, now);
      }
    }

    /** The handler as evidently intended, passing `data.refreshCb`: a
        successful refresh renews the record. */
    method HandleRefreshResponseIntended(key: string, data: RefreshRecord, callback: Reply, response: Value,
                                         write: Reply, now: int) returns (outcome: Outcome)
      requires Valid()
      modifies this
      ensures Valid()
      ensures refreshKeys == AfterRefreshResponseIntended(old(refreshKeys), key, data, callback, write,
                                                          defaultLifetime, now)
      ensures callback.Success? && write.Success? ==>
                key in refreshKeys
                && refreshKeys[key].expirationDate == OrElse(data.lifeSpan, defaultLifetime) * 1000 + now
      ensures store == if callback.Success? && write.Success?
                       then old(store)[key := Entry(response, OrElse(data.lifeSpan, defaultLifetime))]
                       else old(store)
      ensures var step := Init(old(Flags()), Misconfigured(Configuration()));
              if callback.Failure? then
                Flags() == old(Flags()) && outcome == Called(Success)
              else if write.Failure? then
                Flags() == old(Flags()) && outcome == Called(write)
              else
                Flags() == step.state
                && outcome == if step.threw then Thrown(IntervalMessage) else Called(Success)
    {
      outcome := Called(Success);
      if callback.Success? {
        outcome := Set(key, response, data.lifeSpan, Some(data.refreshCb), 5, write, now);
      }
    }

    /** `_backgroundRefresh`: one tick at time `now`. Returns the keys whose
        refresh callback it invokes, each with the record bound to its
        handler; the registry is not changed. */
    method BackgroundRefresh(now: int) returns (calls: map<string, RefreshRecord>)
      ensures forall k :: k in calls <==> k in refreshKeys && Due(refreshKeys[k], now, backgroundRefreshMinTtl)
      ensures forall k :: k in calls ==> calls[k] == refreshKeys[k]
    {
      var keys := refreshKeys.Keys;
      calls := map[];
      while keys != {}
        invariant keys <= refreshKeys.Keys
        invariant forall k :: k in calls <==>
                    k in refreshKeys && k !in keys && Due(refreshKeys[k], now, backgroundRefreshMinTtl)
        invariant forall k :: k in calls ==> calls[k] == refreshKeys[k]
        decreases keys
      {
        var key :| key in keys;
        var cachedItemMetadata := refreshKeys[key];
        if cachedItemMetadata.expirationDate - now < backgroundRefreshMinTtl {
          calls := calls[key := cachedItemMetadata];
        }
        keys := keys - {key};
      }
    }

    /** `_backgroundRefreshInit`. */
    method BackgroundRefreshInit() returns (threw: bool)
      requires Consistent(Flags(), Misconfigured(Configuration()))
      modifies this`backgroundRefreshEnabled, this`refreshIntervalStarted
      ensures Consistent(Flags(), Misconfigured(Configuration()))
      ensures InitStep(Flags(), threw) == Init(old(Flags()), Misconfigured(Configuration()))
    {
      threw := false;
      if !backgroundRefreshEnabled {
        backgroundRefreshEnabled := true;
        if backgroundRefreshIntervalCheck {
          if backgroundRefreshInterval > backgroundRefreshMinTtl {
            return true;
          }
        }
        refreshIntervalStarted := true;
      }
    }
  }
}
