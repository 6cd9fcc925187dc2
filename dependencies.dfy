/**
 * The cache client (app/dependencies.py): a Redis connection made once at
 * start-up, and get/set/delete operations that fail open. The Redis server
 * is modelled by its key space; whether a call to it raises is the `fails`
 * argument, since it depends on the network.
 */
module Dependencies {
  import opened Common
  import opened Json

  /** Default time-to-live of a cache entry, in seconds. */
  const CacheTtl: int := 300

  /** A Redis value: the JSON text, and the expiry it was set with. */
  datatype Entry = Entry(value: seq<Token>, ttl: int)

  /**
   * The expiry `set` sends: the caller's as given (zero and negative values
   * included, which SETEX then refuses), or five minutes when none is given.
   */
  function TtlValue(ttl: Option<int>): (seconds: int)
    ensures ttl.Some? ==> seconds == ttl.value
    ensures ttl.None? ==> seconds == 300
  {
    if ttl.Some? then ttl.value else CacheTtl
  }

  /**
   * What a successful GET on `key` yields once decoded: nothing for a
   * missing key or an empty value, and nothing for text that is not JSON
   * (the decode error is caught).
   */
  function Lookup(backend: map<string, Entry>, key: string): (v: Json)
    ensures key !in backend ==> v == JNull
    ensures forall w :: key in backend && backend[key].value == Encode(w) ==> v == w
    ensures key in backend && Decode(backend[key].value).None? ==> v == JNull
  {
    assert forall w :: key in backend && backend[key].value == Encode(w) ==>
             Decode(backend[key].value) == Some(w) by {
      forall w | key in backend && backend[key].value == Encode(w)
        ensures Decode(backend[key].value) == Some(w)
      {
        DecodeEncode(w);
      }
    }
    if key !in backend || backend[key].value == [] then JNull
    else match Decode(backend[key].value)
      case Some(v) => v
      case None => JNull
  }

  /** A value written by `set` is read back by `get` unchanged. */
  lemma SetThenGet(backend: map<string, Entry>, key: string, v: Json, ttl: int)
    ensures Lookup(backend[key := Entry(Encode(v), ttl)], key) == v
  {
    DecodeEncode(v);
  }

  /** Writing or deleting one key leaves every other key as it was. */
  lemma OtherKeysKept(backend: map<string, Entry>, key: string, other: string, e: Entry)
    requires other != key
    ensures Lookup(backend[key := e], other) == Lookup(backend, other)
    ensures Lookup(backend - {key}, other) == Lookup(backend, other)
  {
    if other in backend {
      assert other in backend - {key};
    }
  }

  class CacheService {
    /** `redis_client is not None`: the ping at start-up succeeded. Never reconnects. */
    const connected: bool
    /** The Redis key space. */
    var backend: map<string, Entry>

    /**
     * `__init__` / `_connect_redis`: never raises; an unreachable server
     * leaves the client disconnected.
     */
    constructor (reachable: bool, contents: map<string, Entry>)
      ensures connected == reachable
      ensures backend == contents
    {
      connected := reachable;
      backend := contents;
    }

    /** Decoded value under `key`, or `JNull` (None) when disconnected, on error or on a miss. */
    method Get(key: string, fails: bool) returns (value: Json)
      ensures !connected || fails ==> value == JNull
      ensures connected && !fails ==> value == Lookup(backend, key)
    {
      if !connected {
        return JNull;
      }
      if fails {
        return JNull;
      }
      value := Lookup(backend, key);
    }

    /**
     * SETEX `key` with the JSON of `value` and the given or default ttl.
     * Redis refuses a ttl that is not positive; any error gives `false`.
     */
    method Set(key: string, value: Json, ttl: Option<int>, fails: bool) returns (ok: bool)
      modifies this
      ensures ok <==> connected && !fails && TtlValue(ttl) > 0
      ensures backend == if ok then old(backend)[key := Entry(Encode(value), TtlValue(ttl))]
                         else old(backend)
    {
      if !connected {
        return false;
      }
      var ttlValue := TtlValue(ttl);
      if fails || ttlValue <= 0 {
        return false;
      }
      backend := backend[key := Entry(Encode(value), ttlValue)];
      ok := true;
    }

    /** DEL `key`: `true` whether or not the key existed; `false` when disconnected or on error. */
    method Delete(key: string, fails: bool) returns (ok: bool)
      modifies this
      ensures ok <==> connected && !fails
      ensures backend == if ok then old(backend) - {key} else old(backend)
      ensures ok ==> key !in backend
    {
      if !connected || fails {
        return false;
      }
      backend := backend - {key};
      ok := true;
    }
  }

  /** The process-wide `cache_service`, built once when the module is loaded. */
  class Provider {
    const cacheService: CacheService

    constructor (reachable: bool, contents: map<string, Entry>)
      ensures fresh(cacheService)
      ensures cacheService.connected == reachable && cacheService.backend == contents
    {
      cacheService := new CacheService(reachable, contents);
    }

    /** `get_cache`: every request is handed the same instance. */
    method GetCache() returns (c: CacheService)
      ensures c == cacheService
    {
      c := cacheService;
    }
  }
}
