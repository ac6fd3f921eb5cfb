/**
 * The store that stands in for the memcached servers and the specification
 * functions of the batch operations: what `mget` hands back, what `mset`
 * writes and reports, and what `del` removes and reports.
 */
module Batches {
  import opened JsValues
  import opened Settings

  /** An entry held by the servers: the stored value and the lifetime
      (seconds) it was written with. Server-side expiry is not modelled. */
  datatype Entry = Entry(value: Value, lifetime: int)

  type Store = map<string, Entry>

  // ---------------------------------------------------------------- mget

  /** The client's multi-get: the requested keys the servers hold. */
  function ClientGetMulti(store: Store, keys: seq<string>): map<string, Value> {
    map k | k in keys && k in store :: store[k].value
  }

  /** `n` rounds of `try { v = JSON.parse(v) } catch { }`. */
  function ParsedTimes(json: Json, v: Value, n: nat): Value {
    if n == 0 then v else Parsed(json, ParsedTimes(json, v, n - 1))
  }

  /** The response `mget` hands back for the client response `got`: the
      keys are visited in order and each visit either decodes the value
      held under the key or, when there is none, sets it to null. */
  function MgetResponse(got: map<string, Value>, keys: seq<string>, json: Json): map<string, Value>
    decreases |keys|
  {
    if keys == [] then got
    else
      var before := MgetResponse(got, keys[..|keys| - 1], json);
      var key := keys[|keys| - 1];
      if key in before then before[key := Parsed(json, before[key])] else before[key := Null]
  }

  /** Every requested key is in the response; a value the client returned
      is decoded once per occurrence of its key, and a missing key is null
      (decoded once per further occurrence). */
  lemma {:induction false} MgetResponseDecodes(got: map<string, Value>, keys: seq<string>, json: Json)
    ensures var r := MgetResponse(got, keys, json);
            && (forall k :: k in r <==> k in got || k in keys)
            && (forall k :: k in got ==> r[k] == ParsedTimes(json, got[k], multiset(keys)[k]))
            && (forall k :: k !in got && k in keys ==> r[k] == ParsedTimes(json, Null, multiset(keys)[k] - 1))
    decreases |keys|
  {
    if keys != [] {
      var init := keys[..|keys| - 1];
      var key := keys[|keys| - 1];
      MgetResponseDecodes(got, init, json);
      assert keys == init + [key];
      var before := MgetResponse(got, init, json);
      var r := MgetResponse(got, keys, json);
      assert r == if key in before then before[key := Parsed(json, before[key])] else before[key := Null];
      forall k | k in got
        ensures r[k] == ParsedTimes(json, got[k], multiset(keys)[k])
      {
        if k == key {
          assert multiset(keys)[k] == multiset(init)[k] + 1;
        } else {
          assert multiset(keys)[k] == multiset(init)[k];
        }
      }
      forall k | k !in got && k in keys
        ensures r[k] == ParsedTimes(json, Null, multiset(keys)[k] - 1)
      {
        if k == key {
          assert multiset(keys)[k] == multiset(init)[k] + 1;
        } else {
          assert k in init;
          assert multiset(keys)[k] == multiset(init)[k];
        }
      }
    }
  }

  // ---------------------------------------------------------------- mset

  /** The lifetime a wrapper entry carries; a non-numeric property counts as absent. */
  function WrapperLifetime(entry: Value): int
    requires entry.Obj?
  {
    match Prop(entry, "lifetime")
    case Num(n) => n
    case _ => 0
  }

  /** `typeof value === 'object' && value.cacheValue` for a value that is not null. */
  predicate IsWrapper(entry: Value) {
    entry.Obj? && Truthy(Prop(entry, "cacheValue"))
  }

  /** The value and lifetime `mset` passes to `set` for one entry. */
  datatype Resolved = Resolved(value: Value, lifetime: int)

  /** `mset`'s per-entry resolution before encoding. `None` is the TypeError
      thrown when the entry is `null`, whose `typeof` is 'object'. */
  function Resolve(entry: Value, batchLifetime: int, defaultLifetime: int): (r: Option<Resolved>)
    ensures r.None? <==> entry == Null
    ensures r.Some? && IsWrapper(entry) ==> r.value.value == Prop(entry, "cacheValue")
    ensures r.Some? && !IsWrapper(entry) ==> r.value.value == entry
    ensures r.Some? && IsWrapper(entry) && WrapperLifetime(entry) != 0 ==>
              r.value.lifetime == WrapperLifetime(entry)
    ensures r.Some? && (!IsWrapper(entry) || WrapperLifetime(entry) == 0) && batchLifetime != 0 ==>
              r.value.lifetime == batchLifetime
    ensures r.Some? && (!IsWrapper(entry) || WrapperLifetime(entry) == 0) && batchLifetime == 0 ==>
              r.value.lifetime == defaultLifetime
    ensures r.Some? && defaultLifetime != 0 ==> r.value.lifetime != 0
  {
    if entry == Null then None
    else
      var tempExpiration := OrElse(batchLifetime, defaultLifetime);
      if IsWrapper(entry) then
        Some(Resolved(Prop(entry, "cacheValue"), OrElse(WrapperLifetime(entry), tempExpiration)))
      else
        Some(Resolved(entry, tempExpiration))
  }

  /** The number of entries `mset` gets through before one throws. */
  function Processed(entries: seq<(string, Value)>): (n: nat)
    ensures n <= |entries|
    ensures forall j :: 0 <= j < n ==> entries[j].1 != Null
    ensures n < |entries| ==> entries[n].1 == Null
  {
    if entries == [] then 0
    else if entries[0].1 == Null then 0
    else 1 + Processed(entries[1..])
  }

  /** `mset` stops at `i` when every earlier entry is processed and entry
      `i` is null or there is none. */
  lemma ProcessedAt(entries: seq<(string, Value)>, i: nat)
    requires i <= |entries|
    requires forall j :: 0 <= j < i ==> entries[j].1 != Null
    requires i < |entries| ==> entries[i].1 == Null
    ensures Processed(entries) == i
  {
  }

  /** The entries the servers hold after `mset` wrote `entries` in order;
      `writes` gives each key's client outcome. */
  function Written(entries: seq<(string, Value)>, batchLifetime: int, defaultLifetime: int,
                   json: Json, writes: string -> Reply): Store
    decreases |entries|
  {
    if entries == [] then map[]
    else
      var before := Written(entries[..|entries| - 1], batchLifetime, defaultLifetime, json, writes);
      var (key, v) := entries[|entries| - 1];
      match Resolve(v, batchLifetime, defaultLifetime)
      case Some(r) =>
        if writes(key).Success? then before[key := Entry(Stringified(json, r.value), r.lifetime)] else before
      case None => before
  }

  /** One more entry written by `mset`, over servers that held `base` before. */
  lemma WrittenStep(base: Store, entries: seq<(string, Value)>, i: nat, batchLifetime: int, defaultLifetime: int,
                    json: Json, writes: string -> Reply)
    requires i < |entries| && entries[i].1 != Null
    ensures var r := Resolve(entries[i].1, batchLifetime, defaultLifetime).value;
            var before := base + Written(entries[..i], batchLifetime, defaultLifetime, json, writes);
            base + Written(entries[..i + 1], batchLifetime, defaultLifetime, json, writes) ==
              if writes(entries[i].0).Success? then before[entries[i].0 := Entry(Stringified(json, r.value), r.lifetime)]
              else before
  {
    assert entries[..i + 1][..i] == entries[..i];
  }

  predicate DistinctKeys(entries: seq<(string, Value)>) {
    forall i, j :: 0 <= i < j < |entries| ==> entries[i].0 != entries[j].0
  }

  /** With distinct keys (an object's own keys), `mset` writes exactly the
      entries whose write succeeded, each encoded, with its resolved lifetime. */
  lemma {:induction false} WrittenExactly(entries: seq<(string, Value)>, batchLifetime: int, defaultLifetime: int,
                                          json: Json, writes: string -> Reply)
    requires DistinctKeys(entries)
    requires forall j :: 0 <= j < |entries| ==> entries[j].1 != Null
    ensures var w := Written(entries, batchLifetime, defaultLifetime, json, writes);
            && (forall k :: k in w ==> exists j :: 0 <= j < |entries| && entries[j].0 == k)
            && (forall j :: 0 <= j < |entries| ==>
                 var r := Resolve(entries[j].1, batchLifetime, defaultLifetime).value;
                 (entries[j].0 in w <==> writes(entries[j].0).Success?)
                 && (entries[j].0 in w ==> w[entries[j].0] == Entry(Stringified(json, r.value), r.lifetime)))
    decreases |entries|
  {
    if entries != [] {
      var n := |entries| - 1;
      var init := entries[..n];
      assert DistinctKeys(init);
      WrittenExactly(init, batchLifetime, defaultLifetime, json, writes);
      var before := Written(init, batchLifetime, defaultLifetime, json, writes);
      var w := Written(entries, batchLifetime, defaultLifetime, json, writes);
      forall k | k in w
        ensures exists j :: 0 <= j < |entries| && entries[j].0 == k
      {
        if k != entries[n].0 {
          assert k in before;
          var j :| 0 <= j < |init| && init[j].0 == k;
          assert entries[j].0 == k;
        }
      }
      forall j | 0 <= j < n
        ensures entries[j].0 != entries[n].0
      {
      }
      forall j | 0 <= j < n
        ensures init[j] == entries[j]
      {
      }
    }
  }

  /** The error `mset` or an array `del` reports: the first failure in
      order, or none. */
  function FirstFailure(replies: seq<Reply>): Reply
    decreases |replies|
  {
    if replies == [] then Success
    else
      var before := FirstFailure(replies[..|replies| - 1]);
      if before.Failure? then before else replies[|replies| - 1]
  }

  /** A batch succeeds exactly when every reply succeeded, and otherwise
      reports the earliest failure. */
  lemma {:induction false} FirstFailureIsEarliest(replies: seq<Reply>)
    ensures FirstFailure(replies).Success? <==> forall j :: 0 <= j < |replies| ==> replies[j].Success?
    ensures FirstFailure(replies).Failure? ==>
              exists j :: 0 <= j < |replies| && replies[j] == FirstFailure(replies)
                          && forall i :: 0 <= i < j ==> replies[i].Success?
    decreases |replies|
  {
    if replies != [] {
      var init := replies[..|replies| - 1];
      FirstFailureIsEarliest(init);
      assert forall i :: 0 <= i < |init| ==> init[i] == replies[i];
    }
  }

  /** The client outcomes of `mset`'s writes, in order. */
  function MsetReplies(entries: seq<(string, Value)>, writes: string -> Reply): (rs: seq<Reply>)
    ensures |rs| == |entries|
    ensures forall j :: 0 <= j < |entries| ==> rs[j] == writes(entries[j].0)
  {
    seq(|entries|, j requires 0 <= j < |entries| => writes(entries[j].0))
  }

  /** One more write reported by `mset`. */
  lemma MsetRepliesStep(entries: seq<(string, Value)>, i: nat, writes: string -> Reply)
    requires i < |entries|
    ensures var before := FirstFailure(MsetReplies(entries[..i], writes));
            FirstFailure(MsetReplies(entries[..i + 1], writes)) ==
              if before.Failure? then before else writes(entries[i].0)
  {
    assert MsetReplies(entries[..i + 1], writes) == MsetReplies(entries[..i], writes) + [writes(entries[i].0)];
  }

  // ---------------------------------------------------------------- del

  /** The message `del` reports for a key that is neither a string nor an array. */
  const KeyTypeMessage := "`key` type should be either String or Array"

  /** The store after `del(key)`: a string is deleted when the client
      succeeds, an array is deleted item by item (each item dispatched the
      same way), anything else deletes nothing. Nothing is ever added or
      changed. */
  function DelStore(store: Store, key: Value, deletes: string -> Reply): (r: Store)
    ensures r.Keys <= store.Keys
    ensures forall k :: k in r ==> r[k] == store[k]
    decreases key
  {
    match key
    case Str(s) => if deletes(s).Success? then store - {s} else store
    case Arr(items) => DelStoreAll(store, items, deletes)
    case _ => store
  }

  function DelStoreAll(store: Store, items: seq<Value>, deletes: string -> Reply): (r: Store)
    ensures r.Keys <= store.Keys
    ensures forall k :: k in r ==> r[k] == store[k]
    decreases items
  {
    if items == [] then store
    else DelStore(DelStoreAll(store, items[..|items| - 1], deletes), items[|items| - 1], deletes)
  }

  /** What `del(key)` reports. */
  function DelReply(key: Value, deletes: string -> Reply): Reply
    decreases key
  {
    match key
    case Str(s) => deletes(s)
    case Arr(items) => DelReplyAll(items, deletes)
    case _ => Failure(KeyTypeMessage)
  }

  function DelReplyAll(items: seq<Value>, deletes: string -> Reply): Reply
    decreases items
  {
    if items == [] then Success
    else
      var before := DelReplyAll(items[..|items| - 1], deletes);
      if before.Failure? then before else DelReply(items[|items| - 1], deletes)
  }

  /** An array `del` succeeds exactly when every item's own `del` succeeds. */
  lemma {:induction false} DelReplyAllSucceeds(items: seq<Value>, deletes: string -> Reply)
    ensures DelReplyAll(items, deletes).Success? <==>
              forall j :: 0 <= j < |items| ==> DelReply(items[j], deletes).Success?
    decreases |items|
  {
    if items != [] {
      var init := items[..|items| - 1];
      DelReplyAllSucceeds(init, deletes);
      assert forall j :: 0 <= j < |init| ==> init[j] == items[j];
    }
  }

  /** For an array of key strings, `del` removes exactly the listed keys
      whose deletion succeeded and keeps everything else as it was. */
  lemma {:induction false} DelStoreAllStrings(store: Store, items: seq<Value>, deletes: string -> Reply)
    requires forall j :: 0 <= j < |items| ==> items[j].Str?
    ensures forall k :: k in DelStoreAll(store, items, deletes) <==>
                          k in store && !(Str(k) in items && deletes(k).Success?)
    decreases |items|
  {
    if items != [] {
      var init := items[..|items| - 1];
      DelStoreAllStrings(store, init, deletes);
      assert items == init + [items[|items| - 1]];
    }
  }
}
