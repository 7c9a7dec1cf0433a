/** The dashboard's time-bounded cache (src/services/dashboardService.ts:13-49, 251-268).

    The process-wide `Map` becomes an explicit `Cache<V>` value threaded through every
    call, and `Date.now()` becomes clock readings supplied with each call. The wrapper
    reads the clock twice: when it tests freshness (before awaiting the producer) and
    when it stamps a new entry (after the producer settled). */
module TtlCache {
  import opened Wrappers

  /** Five minutes, in milliseconds. */
  const CacheDuration: int := 5 * 60 * 1000

  datatype Entry<V> = Entry(data: V, timestamp: int)

  type Cache<V> = map<string, Entry<V>>

  /** An entry stamped at `timestamp` is fresh at clock `now` when it is strictly younger
      than the cache duration. */
  predicate IsCacheValid(timestamp: int, now: int) {
    now - timestamp < CacheDuration
  }

  /** One use of the wrapper: the clock when the cache is read, how the producer settles
      if it is invoked, and the clock when it settles. */
  datatype Call<V> = Call(now: int, outcome: Outcome<V>, settledAt: int)

  /** The cache afterwards, the value handed back (`None` is JavaScript `null`) and
      whether the producer was invoked. */
  datatype Fetched<V> = Fetched(cache: Cache<V>, value: Option<V>, consulted: bool)

  /** `fetchWithCache(key, producer)`: serve a fresh entry, otherwise run the producer
      and store its value; when the producer rejects, fall back to the entry however
      old, and to `null` when there is none. It never rejects. */
  function FetchWithCache<V>(cache: Cache<V>, key: string, call: Call<V>): (r: Fetched<V>)
    // the producer runs exactly when there is no fresh entry
    ensures !r.consulted <==> key in cache && call.now - cache[key].timestamp < CacheDuration
    ensures !r.consulted ==> r.cache == cache && r.value == Some(cache[key].data)
    // a successful refresh stores the value with the settling time, whatever its content
    ensures r.consulted && call.outcome.Success? ==>
              r.cache == cache[key := Entry(call.outcome.value, call.settledAt)]
              && r.value == Some(call.outcome.value)
    // a failed refresh changes nothing and degrades to stale data before null
    ensures r.consulted && call.outcome.Failure? ==> r.cache == cache
    ensures r.consulted && call.outcome.Failure? && key in cache ==> r.value == Some(cache[key].data)
    ensures r.value == None <==> key !in cache && call.outcome.Failure?
    // no other key is touched and no key is ever dropped
    ensures forall k :: k in cache && k != key ==> k in r.cache && r.cache[k] == cache[k]
    ensures r.cache.Keys == cache.Keys + (if r.consulted && call.outcome.Success? then {key} else {})
  {
    if key in cache && IsCacheValid(cache[key].timestamp, call.now) then
      Fetched(cache, Some(cache[key].data), false)
    else
      match call.outcome
      case Success(v) => Fetched(cache[key := Entry(v, call.settledAt)], Some(v), true)
      case Failure => Fetched(cache, if key in cache then Some(cache[key].data) else None, true)
  }

  /** What a use of `key` does depends only on the entry under `key`. */
  lemma FetchDependsOnlyOnOwnKey<V>(c1: Cache<V>, c2: Cache<V>, key: string, call: Call<V>)
    requires key in c1 <==> key in c2
    requires key in c1 ==> c1[key] == c2[key]
    ensures FetchWithCache(c1, key, call).value == FetchWithCache(c2, key, call).value
    ensures FetchWithCache(c1, key, call).consulted == FetchWithCache(c2, key, call).consulted
    ensures key in FetchWithCache(c1, key, call).cache <==> key in FetchWithCache(c2, key, call).cache
    ensures key in FetchWithCache(c1, key, call).cache ==>
              FetchWithCache(c1, key, call).cache[key] == FetchWithCache(c2, key, call).cache[key]
  {
  }

  /** A sequence of uses of the wrapper, each a key with how its call goes. */
  type Uses<V> = seq<(string, Call<V>)>

  /** No use in `uses` is of `key`. */
  predicate Untouched<V>(uses: Uses<V>, key: string) {
    forall i :: 0 <= i < |uses| ==> uses[i].0 != key
  }

  /** No two uses in `uses` are of the same key. */
  predicate DistinctKeys<V>(uses: Uses<V>) {
    forall i, j :: 0 <= i < j < |uses| ==> uses[i].0 != uses[j].0
  }

  /** The cache after running `uses` one after the other, each reading the cache the
      previous one left. */
  function FetchAll<V>(cache: Cache<V>, uses: Uses<V>): (r: Cache<V>)
    ensures cache.Keys <= r.Keys
    ensures forall k :: Untouched(uses, k) ==> (k in r <==> k in cache)
    ensures forall k :: k in cache && Untouched(uses, k) ==> r[k] == cache[k]
    decreases |uses|
  {
    if |uses| == 0 then cache
    else FetchAll(FetchWithCache(cache, uses[0].0, uses[0].1).cache, uses[1..])
  }

  /** In a sequence of uses of distinct keys every use finds its key exactly as the
      sequence found the cache, so it hands back the value and makes the producer
      decision it would make if it ran first. This is why the model may evaluate each
      of the dashboard's fetches against the cache the loader started from. */
  lemma {:induction false} DistinctUsesSeeStartingEntries<V>(cache: Cache<V>, uses: Uses<V>, i: int)
    requires DistinctKeys(uses) && 0 <= i < |uses|
    ensures var before := FetchAll(cache, uses[..i]);
            FetchWithCache(before, uses[i].0, uses[i].1).value == FetchWithCache(cache, uses[i].0, uses[i].1).value
            && FetchWithCache(before, uses[i].0, uses[i].1).consulted == FetchWithCache(cache, uses[i].0, uses[i].1).consulted
  {
    var key := uses[i].0;
    assert Untouched(uses[..i], key) by {
      forall j | 0 <= j < i ensures uses[..i][j].0 != key {
        assert uses[..i][j] == uses[j];
      }
    }
  }

  /** The uses after the first one have distinct keys, none of them the first one's. */
  lemma DistinctKeysTail<V>(uses: Uses<V>)
    requires |uses| > 0 && DistinctKeys(uses)
    ensures DistinctKeys(uses[1..]) && Untouched(uses[1..], uses[0].0)
  {
    var rest := uses[1..];
    assert forall j :: 0 <= j < |rest| ==> rest[j] == uses[j + 1];
  }

  /** The cache holds a fresh entry for `key` when `call` reads it. */
  predicate Fresh<V>(cache: Cache<V>, key: string, call: Call<V>) {
    key in cache && IsCacheValid(cache[key].timestamp, call.now)
  }

  /** A use that changes nothing: its entry is fresh, or its producer rejects. */
  predicate LeavesAlone<V>(cache: Cache<V>, key: string, call: Call<V>) {
    Fresh(cache, key, call) || call.outcome.Failure?
  }

  /** A run of uses each of which is served from a fresh entry or fails leaves the cache
      as it was. */
  lemma {:induction false} FetchAllLeavesAlone<V>(cache: Cache<V>, uses: Uses<V>)
    requires forall i :: 0 <= i < |uses| ==> LeavesAlone(cache, uses[i].0, uses[i].1)
    ensures FetchAll(cache, uses) == cache
    decreases |uses|
  {
    if |uses| > 0 {
      var rest := uses[1..];
      assert forall j :: 0 <= j < |rest| ==> rest[j] == uses[j + 1];
      FetchAllLeavesAlone(cache, rest);
    }
  }

  /** `clearDashboardCache`: drop every entry. */
  function Clear<V>(cache: Cache<V>): (r: Cache<V>)
    ensures forall k :: k !in r
  {
    map[]
  }

  /** A diagnostic line of `getCacheStatus`. */
  datatype Status = Status(age: int, valid: bool)

  /** `getCacheStatus`: for every cached key, the entry's age in whole seconds (rounded
      down) and whether it is still fresh. */
  function CacheStatus<V>(cache: Cache<V>, now: int): (r: map<string, Status>)
    ensures r.Keys == cache.Keys
    ensures forall k :: k in r ==>
              r[k].age * 1000 <= now - cache[k].timestamp < (r[k].age + 1) * 1000
    ensures forall k :: k in r ==> (r[k].valid <==> now - cache[k].timestamp < CacheDuration)
  {
    map k | k in cache :: Status((now - cache[k].timestamp) / 1000, IsCacheValid(cache[k].timestamp, now))
  }

  /** An entry exactly one cache duration old is already stale: the producer runs. */
  lemma ExactlyExpiredIsRefetched<V>(cache: Cache<V>, key: string, call: Call<V>)
    requires key in cache && call.now == cache[key].timestamp + 300000
    ensures FetchWithCache(cache, key, call).consulted
  {
  }

  /** Two uses of the same key, the first a miss whose producer succeeds and the second
      within the cache duration of the first one's store, run the producer once: the
      second is served the first one's value. */
  lemma SecondCallWithinTtlIsServedFromCache<V>(cache: Cache<V>, key: string, first: Call<V>, second: Call<V>)
    requires key !in cache || !IsCacheValid(cache[key].timestamp, first.now)
    requires first.outcome.Success?
    requires second.now - first.settledAt < CacheDuration
    ensures var r1 := FetchWithCache(cache, key, first);
            var r2 := FetchWithCache(r1.cache, key, second);
            r1.consulted && !r2.consulted && r2.value == r1.value && r2.cache == r1.cache
  {
  }

  /** A cached value survives a failed refresh, even after it expired. */
  lemma StaleValueServedOnFailure<V>(cache: Cache<V>, key: string, call: Call<V>)
    requires key in cache && call.outcome.Failure?
    ensures FetchWithCache(cache, key, call).value == Some(cache[key].data)
    ensures FetchWithCache(cache, key, call).cache == cache
  {
  }

  /** After the cache is cleared every key is fetched cold again. */
  lemma ClearForcesRefetch<V>(cache: Cache<V>, key: string, call: Call<V>)
    ensures FetchWithCache(Clear(cache), key, call).consulted
    ensures call.outcome.Failure? ==> FetchWithCache(Clear(cache), key, call).value == None
  {
  }

  /** Uses of two different keys do not interfere: running them in either order gives the
      same cache and the same values. This is why the model may sequence fetches that the
      source runs concurrently. */
  lemma DistinctKeysCommute<V>(cache: Cache<V>, k1: string, c1: Call<V>, k2: string, c2: Call<V>)
    requires k1 != k2
    ensures var a1 := FetchWithCache(cache, k1, c1);
            var a2 := FetchWithCache(a1.cache, k2, c2);
            var b2 := FetchWithCache(cache, k2, c2);
            var b1 := FetchWithCache(b2.cache, k1, c1);
            a2.cache == b1.cache && a1.value == b1.value && a2.value == b2.value
            && a1.consulted == b1.consulted && a2.consulted == b2.consulted
  {
    var a1 := FetchWithCache(cache, k1, c1);
    var a2 := FetchWithCache(a1.cache, k2, c2);
    var b2 := FetchWithCache(cache, k2, c2);
    var b1 := FetchWithCache(b2.cache, k1, c1);
    assert a2.cache == b1.cache by {
      assert a2.cache.Keys == b1.cache.Keys;
      forall k | k in a2.cache ensures a2.cache[k] == b1.cache[k] {
      }
    }
  }

  /** After a sequence of uses of distinct keys, each key's entry is the one its own use
      would have left had it run alone on the starting cache. */
  lemma {:induction false} FetchAllStoresEach<V>(cache: Cache<V>, uses: Uses<V>, i: int)
    requires DistinctKeys(uses) && 0 <= i < |uses|
    ensures var alone := FetchWithCache(cache, uses[i].0, uses[i].1).cache;
            var after := FetchAll(cache, uses);
            (uses[i].0 in after <==> uses[i].0 in alone)
            && (uses[i].0 in alone ==> after[uses[i].0] == alone[uses[i].0])
    decreases |uses|, 1
  {
    DistinctKeysTail(uses);
    if i == 0 {
      assert Untouched(uses[1..], uses[0].0);
    } else {
      FetchAllStoresLater(cache, uses, i);
    }
  }

  /** The step of `FetchAllStoresEach` for a use after the first. */
  lemma {:induction false} FetchAllStoresLater<V>(cache: Cache<V>, uses: Uses<V>, i: int)
    requires DistinctKeys(uses) && 0 < i < |uses|
    ensures var alone := FetchWithCache(cache, uses[i].0, uses[i].1).cache;
            var after := FetchAll(cache, uses);
            (uses[i].0 in after <==> uses[i].0 in alone)
            && (uses[i].0 in alone ==> after[uses[i].0] == alone[uses[i].0])
    decreases |uses|, 0
  {
    var key := uses[i].0;
    var c1 := FetchWithCache(cache, uses[0].0, uses[0].1).cache;
    DistinctKeysTail(uses);
    FetchAllStoresEach(c1, uses[1..], i - 1);
    assert uses[1..][i - 1] == uses[i];
    OtherUseKeepsEntry(cache, uses[0].0, uses[0].1, key);
    FetchDependsOnlyOnOwnKey(c1, cache, key, uses[i].1);
  }

  /** A use of another key leaves the entry under `key` as it was, or leaves it absent. */
  lemma OtherUseKeepsEntry<V>(cache: Cache<V>, other: string, call: Call<V>, key: string)
    requires other != key
    ensures var c := FetchWithCache(cache, other, call).cache;
            (key in c <==> key in cache) && (key in cache ==> c[key] == cache[key])
  {
  }
}
