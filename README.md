# MemcachedCacheModule in Dafny

A model of `MemcachedCacheModule`, the cache facade of cache-service-memcached.
The facade keeps the memcached client behind `add`/`get`/`mget`/`set`/`mset`/`del`/`flush`
and adds a background refresh mechanism. A `set` with a refresh callback registers the key
in `_refreshKeys` and starts a periodic timer. Each tick hands every key whose record is about
to expire to its callback, and writes the callback's answer back to the store.

The memcached servers are an abstract store (`store: map<string, Entry>`), and every client
call's outcome is a parameter (`Reply`). So are the clock (`now`, in milliseconds) and
JSON.stringify/JSON.parse, which form a partial codec (`Json`). A completion callback becomes
a returned value. An exception that escapes the call becomes `Thrown`.

Files and modules:

- `values.dfy` (`JsValues`): JavaScript values, truthiness, `Reply`, the codec.
- `settings.dfy` (`Settings`): options, the defaults 90 s / 60000 ms / 70000 ms, `x || fallback`.
- `refresh.dfy` (`Refresh`): the registry update of `set`, tick eligibility, the refresh-response
  handler, and the two-flag scheduler with a lemma over every run of initialisations and flushes.
- `batches.dfy` (`Batches`): the store entry, the specification functions of `mget`, `mset` and
  `del`, and their lemmas.
- `memcached_cache.dfy` (`MemcachedCache`): the class `MemcachedCacheModule`. Its fields are the
  store, `_refreshKeys`, `_backgroundRefreshEnabled`, whether `_refreshInterval` was ever
  assigned a timer, and the four configuration values. Its methods are proved against the
  functions above, and each of its public operations that changes state keeps the object invariant `Valid()`.
- `scenarios.dfy` (`Scenarios`): the behaviours the repository's tests exercise, as client methods.

The model keeps these behaviours of the code as written:

- `flush` does not clear `_refreshKeys`. It resets the enabled flag only when a timer had
  been started.
- `del` never unregisters a key, so the next tick puts a deleted key back
  (`Scenarios.DeletedKeyIsRepopulated`).
- A refresh does not re-attach the callback, so the record is never renewed (see Findings).
- `get` returns null for a stored falsy value (`""`, `0`, `false`), not the value.
- The `mset` wrapper object is recognised by a truthy `cacheValue` property, with an optional
  `lifetime` property.
- An `mset` entry that is `null` makes `mset` throw a TypeError after the earlier entries'
  writes were issued. The callback is never called.
- On success, `mset` and an array `del` pass a list of the per-key callbacks' falsy error
  arguments, not their results, because `resolve` is called with two arguments.
- A failed interval check leaves `_backgroundRefreshEnabled` set and no timer. No later call
  throws again, and no timer ever runs, not even after `flush`
  (`Refresh.RunThrowsAtMostOnce`, `Scenarios.MisconfiguredRefreshThrowsOnce`).

## Model

| member | source | states |
|---|---|---|
| `Settings.OrElse` | cache-module-memcached.js:73 | JavaScript's `or` default on a number: a truthy value is kept, a falsy one replaced, and the result is truthy whenever the fallback is (the lifetime defaulting of add, set and mset) |
| `Settings.Configure` | cache-module-memcached.js:34-39 | falsy options become 90 / 60000 / 70000 and truthy ones are kept; all three configured numbers are truthy; the interval check is off exactly when the boolean `false` was given |
| `Settings.DefaultsWithoutOptions` | cache-module-memcached.js:24-39 | with no options the configuration is (90, check on, 60000, 70000), and it passes the interval check |
| `MemcachedCache.MemcachedCacheModule.constructor` | cache-module-memcached.js:23-41 | fields configured by `Configure`, empty registry, scheduler disabled and no timer, `Valid()` |
| `MemcachedCache.MemcachedCacheModule.Add` | cache-module-memcached.js:71-83 | a write with the defaulted lifetime only when the key is absent and the client succeeds; otherwise the store is unchanged and the error is reported |
| `MemcachedCache.MemcachedCacheModule.Get` | cache-module-memcached.js:85-99 | the result is null or truthy; a non-null result is the value held under `cleanKey`, or `key` when `cleanKey` is falsy; a truthy held value is returned; the client error is passed through |
| `MemcachedCache.MemcachedCacheModule.Mget` | cache-module-memcached.js:101-118 | the response holds exactly the requested keys; for a key requested once, the decoded held value (raw when decoding throws) or null when absent; for repeated keys, one decode per occurrence; error and index passed through |
| `Batches.MgetResponseDecodes` | cache-module-memcached.js:104-115 | the key-by-key rewrite of the response covers every requested key and decodes a returned value once per occurrence of its key |
| `MemcachedCache.MemcachedCacheModule.Set` | cache-module-memcached.js:120-149 | a successful write stores the value with the defaulted lifetime; the registry changes as `AfterSet` says; the scheduler is initialised only when a record was registered; the callback gets the client's reply unless the initialisation threw |
| `Refresh.AfterSet` | cache-module-memcached.js:136-144 | a record `{lifetime*1000 + now, lifetime, refreshCb}` is added or overwritten only for a five-argument call with a truthy fourth argument whose write succeeded; otherwise the registry is unchanged; other keys are never touched |
| `MemcachedCache.MemcachedCacheModule.Mset` | cache-module-memcached.js:151-187 | registry and scheduler unchanged; the store gains the encoded, resolved entries processed before any null entry; the call throws on a null entry, else reports the first failing write or success |
| `MemcachedCache.MemcachedCacheModule.SetEntry` | cache-module-memcached.js:168-177 | `mset`'s per-key `set` has four arguments, so it writes the encoded value with the resolved lifetime on success, registers nothing, leaves the scheduler flags alone, and reports the client's reply |
| `Batches.Resolve` | cache-module-memcached.js:155-162 | a null entry throws; a wrapper's truthy `cacheValue` is the stored value; lifetime precedence is wrapper `lifetime`, then batch lifetime, then default; the resolved lifetime is truthy |
| `Batches.Processed` | cache-module-memcached.js:155-162 | the entries before the first null are processed, and processing stops at a null entry |
| `Batches.WrittenExactly` | cache-module-memcached.js:155-179 | for distinct keys, `mset` writes exactly the entries whose write succeeded, each encoded (raw when encoding throws) with its resolved lifetime, and nothing else |
| `Batches.FirstFailureIsEarliest` | cache-module-memcached.js:180-186 | a batch succeeds exactly when every per-key write succeeded; otherwise it reports the earliest failing one |
| `MemcachedCache.MemcachedCacheModule.Del` | cache-module-memcached.js:189-215 | the store and the reply are those of `DelStore` and `DelReply`; only the store may change, so the registry and the scheduler are never touched and `Valid()` is kept |
| `Batches.DelStore` | cache-module-memcached.js:189-215 | `del` never adds or alters an entry: the store afterwards is a sub-map of the store before |
| `Batches.DelStoreAll` | cache-module-memcached.js:195-205 | an array `del` dispatches each item through `del` and only removes entries |
| `Batches.DelStoreAllStrings` | cache-module-memcached.js:195-205 | for an array of key strings, exactly the listed keys whose deletion succeeded are removed |
| `Batches.DelReplyAllSucceeds` | cache-module-memcached.js:195-214 | an array `del` succeeds exactly when every item's own `del` succeeds; a non-string, non-array item makes it fail |
| `MemcachedCache.MemcachedCacheModule.Flush` | cache-module-memcached.js:217-224 | on success the store is emptied; the registry is kept; the scheduler goes to `Flushed`, which resets the enabled flag only if a timer was started |
| `Refresh.Flushed` | cache-module-memcached.js:219-222 | after a flush no timer runs; the enabled flag is cleared exactly when a timer had been started, otherwise nothing changes |
| `MemcachedCache.MemcachedCacheModule.HandleRefreshResponse` | cache-module-memcached.js:234-238 | a failed callback writes nothing; a successful one writes the response with the record's lifespan; the registry and scheduler are never changed |
| `Refresh.ResponseLeavesRegistry` | cache-module-memcached.js:234-238 | as written, a refresh response leaves the registry exactly as it was, whatever the callback's and the write's outcome |
| `Refresh.AsWrittenResponseKeepsKeyDue` | cache-module-memcached.js:236 | concrete run: a 90 s key refreshed at 30000 is still due at 31000 as written, and not due with the intended handler |
| `MemcachedCache.MemcachedCacheModule.HandleRefreshResponseIntended` | cache-module-memcached.js:234-238 | the corrected handler: a successful refresh writes the response and renews the record's expiration to `now + lifeSpan*1000`; a failed callback or write leaves the flags alone and reports success or the write's error; a renewal initialises the scheduler as `Init` says and throws exactly when that step does |
| `Refresh.IntendedResponseRenews` | cache-module-memcached.js:234-238 | with the corrected handler, the renewed record is not due again at once when its lifespan exceeds the threshold |
| `MemcachedCache.MemcachedCacheModule.BackgroundRefresh` | cache-module-memcached.js:243-256 | a tick invokes the callback of exactly the registered keys with `expirationDate - now < minTtl`, each bound to its own record; the registry is not modified |
| `Refresh.DueStaysDue` | cache-module-memcached.js:249 | eligibility is monotone in time |
| `MemcachedCache.MemcachedCacheModule.BackgroundRefreshInit` | cache-module-memcached.js:261-282 | the flags change as `Init` says, and the reachable-state invariant is kept |
| `Refresh.Init` | cache-module-memcached.js:261-282 | a no-op that never throws when already enabled; otherwise enabled is set first, it throws exactly when misconfigured, and it starts a timer exactly when it does not throw |
| `Refresh.RunThrowsAtMostOnce` | cache-module-memcached.js:217-282 | over any sequence of initialisations and flushes, the configuration error is raised at most once and only from a never-enabled scheduler; a misconfigured scheduler never runs |
| `Scenarios.AbsentKeyIsNull` | test/server/cache-module-memcached.js:18-23 | getting a key never set gives null |
| `Scenarios.SetThenGet` | test/server/cache-module-memcached.js:24-31 | set then get gives the value back, or null for a falsy value |
| `Scenarios.SetWithoutCallback` | cache-module-memcached.js:120-129 | `set(key, value)` without lifetime or callback stores the value with the default 90 s lifetime, registers nothing, completes normally, and `get` gives the value back (null for a falsy one) |
| `Scenarios.SetDelGet` | test/server/cache-module-memcached.js:32-41 | set, delete, get gives null |
| `Scenarios.FlushThenMget` | test/server/cache-module-memcached.js:42-62 | after a flush, `mget` gives null for every key set before |
| `Scenarios.MsetThenMget` | test/server/cache-module-memcached.js:78-88 | `mset` of two values, then `mget` of them and a third key, gives the two values and null, for a codec that decodes what it encodes |
| `Scenarios.RefreshReplacesValue` | test/server/cache-module-memcached.js:107-121 | a key set with a refresh callback starts the timer and is refreshed on the next tick, `get` then returns the callback's value, and the key stays due afterwards |
| `Scenarios.TwoKeysRefreshIndependently` | test/server/cache-module-memcached.js:122-169 | with the timer running, two keys refreshed on one tick each end up with their own callback's value |
| `Scenarios.RefreshedKeyStaysDue` | cache-module-memcached.js:234-256 | a key due on one tick, with the timer running, is due on every later tick whatever refresh responses complete in between, because the handler as written keeps the registry |
| `Scenarios.DeletedKeyIsRepopulated` | cache-module-memcached.js:189-256 | a deleted key that was registered for refresh reads null; the timer still runs, and the key holds the callback's value again after the next tick |
| `Scenarios.MisconfiguredRefreshThrowsOnce` | cache-module-memcached.js:261-282 | with interval above the threshold, the first registering `set` throws, the next completes normally, and no timer runs even after a flush |

## Left out

- The memcached connection and its `failure`/`reconnecting`/`issue`/`reconnect`/`remove` handlers, including the throw on server failure (cache-module-memcached.js:44-68). This is network I/O in a foreign library; the store and the `Reply` parameters stand in for it.
- Debug logging and the `verbose` option. They are side effects with no behaviour.
- Real JSON encoding and decoding. The codec is a caller-supplied partial pair; only the rule "keep the raw value when it throws" is modelled.
- Real timers. `setInterval`'s period and `clearTimeout` are not modelled. A tick is an explicit call to `BackgroundRefresh`, which the timer makes only while `Running`.
- Concurrency. The `Promise.all` batches run sequentially, so the error a batch reports is the first in key order rather than the first in time. Races between refresh callbacks in flight and `del`/`flush` are not modelled.
- Server-side expiry. An entry records its lifetime but never expires.
- `mget` when the client returns an error and no response object (cache-module-memcached.js:103-106). This crashes in JavaScript. In the model the client always answers from the store.
- Numbers are integers, so NaN, -0 and fractional lifetimes are not modelled. A numeric option or lifetime of 0 stands for every falsy value (absent, undefined, null, 0).
- MemcachedCache.MemcachedCacheModule.Set: a call with fewer than two arguments (no key) is not modelled, nor a three-argument call whose third argument is the completion callback (a function in the lifetime position).
- MemcachedCache.MemcachedCacheModule.Set: the refresh argument is a function identity. A truthy non-function fourth argument, which would throw on the next tick, is not modelled.
- MemcachedCache.MemcachedCacheModule.Mset: the object is a list of its own keys and values in iteration order. A non-numeric `lifetime` property of a wrapper is treated as absent, and a non-object first argument is not modelled.
- MemcachedCache.MemcachedCacheModule.Mset: on success the reply carries no list. The source's list holds only the per-key callbacks' falsy error arguments.
- MemcachedCache.MemcachedCacheModule.Del: on success of an array `del` the reply carries no list, for the same reason.
- MemcachedCache.MemcachedCacheModule.Get: when the client reports an error it is taken to return no value, so the result is null. A client that returns both an error and a value is not modelled.
- MemcachedCache.MemcachedCacheModule.Add: the rejection of an existing key is the memcached server's rule, reported as `NOT_STORED`. Every other client failure is passed through as given.
- The configuration fields are constants. The tests' direct assignment to `_backgroundRefreshInterval` is not an operation of the module.

## Findings

| source | as written | input that shows it | evidently intended | confidence | as-written member | corrected member |
|---|---|---|---|---|---|---|
| cache-module-memcached.js:236 | the refresh write passes `data.refresh`, a field the record does not have, so the five-argument `set` gets an undefined refresh callback and the record's `expirationDate` is never renewed; the key is refreshed again on every tick | `set("k", v, 90, cb, done)` at time 0; tick and successful refresh at 30000; tick at 31000: still due (90000 - 31000 < 70000) | pass `data.refreshCb`, so the record is renewed to `now + lifeSpan*1000` and the key rests until it nears expiry again | high; not executed | `Refresh.AsWrittenResponseKeepsKeyDue` | `MemcachedCache.MemcachedCacheModule.HandleRefreshResponseIntended` |

The module's own methods and the scenarios use the handler as written
(`HandleRefreshResponse`), because that is what the code does. The corrected handler and
`Refresh.IntendedResponseRenews` sit beside it, so the two can be compared.
