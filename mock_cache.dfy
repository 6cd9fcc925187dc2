/**
 * The in-memory stand-in for the cache client used by the cache tests
 * (tests/test_cache.py): a dictionary, a failure switch fixed at
 * construction, and one call counter per operation.
 */
module MockCache {
  import opened Json

  class MockCacheService {
    var cache: map<string, Json>
    const simulateFailure: bool
    var getCalls: nat
    var setCalls: nat
    var deleteCalls: nat

    constructor (simulateFailure: bool)
      ensures this.simulateFailure == simulateFailure
      ensures cache == map[] && getCalls == 0 && setCalls == 0 && deleteCalls == 0
    {
      this.simulateFailure := simulateFailure;
      cache := map[];
      getCalls, setCalls, deleteCalls := 0, 0, 0;
    }

    /** `dict.get`: the stored value or None; None in failure mode. */
    method Get(key: string) returns (value: Json)
      modifies this
      ensures value == if !simulateFailure && key in cache then cache[key] else JNull
      ensures cache == old(cache)
      ensures getCalls == old(getCalls) + 1
      ensures setCalls == old(setCalls) && deleteCalls == old(deleteCalls)
    {
      getCalls := getCalls + 1;
      if simulateFailure {
        return JNull;
      }
      value := if key in cache then cache[key] else JNull;
    }

    /** Stores or overwrites `key`; the ttl is ignored. `false` and no change in failure mode. */
    method Set(key: string, value: Json) returns (ok: bool)
      modifies this
      ensures ok == !simulateFailure
      ensures cache == if ok then old(cache)[key := value] else old(cache)
      ensures setCalls == old(setCalls) + 1
      ensures getCalls == old(getCalls) && deleteCalls == old(deleteCalls)
    {
      setCalls := setCalls + 1;
      if simulateFailure {
        return false;
      }
      cache := cache[key := value];
      ok := true;
    }

    /** Removes `key` if present; `true` even when it was absent. `false` and no change in failure mode. */
    method Delete(key: string) returns (ok: bool)
      modifies this
      ensures ok == !simulateFailure
      ensures cache == if ok then old(cache) - {key} else old(cache)
      ensures ok ==> key !in cache
      ensures deleteCalls == old(deleteCalls) + 1
      ensures getCalls == old(getCalls) && setCalls == old(setCalls)
    {
      deleteCalls := deleteCalls + 1;
      if simulateFailure {
        return false;
      }
      if key in cache {
        cache := cache - {key};
      }
      ok := true;
    }
  }
}
