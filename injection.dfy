/**
 * The cache a handler receives through `Depends(get_cache)`: the Redis
 * client in production, or the in-memory stand-in that the cache tests
 * install by overriding the dependency. Both are described here by one
 * abstract state and what each operation does to it.
 */
module Injection {
  import opened Common
  import opened Json
  import opened Dependencies
  import opened MockCache

  datatype CacheState =
    | RedisState(connected: bool, backend: map<string, Entry>)
    | MockState(failing: bool, cache: map<string, Json>, getCalls: nat, setCalls: nat, deleteCalls: nat)

  /** Whether a call made with backend outcome `fails` reaches the data. */
  predicate Live(s: CacheState, fails: bool) {
    match s
    case RedisState(connected, _) => connected && !fails
    case MockState(failing, _, _, _, _) => !failing
  }

  /** Whether any call can reach the data at all (connected, or not in failure mode). */
  predicate Reachable(s: CacheState) {
    Live(s, false)
  }

  /** What a successful `get(key)` returns. */
  function Peek(s: CacheState, key: string): Json {
    match s
    case RedisState(_, backend) => Lookup(backend, key)
    case MockState(_, cache, _, _, _) => if key in cache then cache[key] else JNull
  }

  /** What `get(key)` returns: the stored value, or None when the call cannot reach it. */
  function Fetch(s: CacheState, key: string, fails: bool): (v: Json)
    ensures !Reachable(s) ==> v == JNull
    ensures Live(s, fails) ==> v == Peek(s, key)
  {
    if Live(s, fails) then Peek(s, key) else JNull
  }

  /** State after `get`: only the stand-in's get counter moves. */
  function AfterGet(s: CacheState): CacheState {
    match s
    case RedisState(_, _) => s
    case MockState(f, c, g, st, d) => MockState(f, c, g + 1, st, d)
  }

  /** Whether `set(key, value, ttl)` reports success. */
  predicate SetSucceeds(s: CacheState, ttl: Option<int>, fails: bool) {
    match s
    case RedisState(connected, _) => connected && !fails && TtlValue(ttl) > 0
    case MockState(failing, _, _, _, _) => !failing
  }

  /** State after `set(key, value, ttl)`. */
  function AfterSet(s: CacheState, key: string, value: Json, ttl: Option<int>, fails: bool): CacheState {
    match s
    case RedisState(connected, backend) =>
      if SetSucceeds(s, ttl, fails) then RedisState(connected, backend[key := Entry(Encode(value), TtlValue(ttl))])
      else s
    case MockState(f, c, g, st, d) =>
      MockState(f, if f then c else c[key := value], g, st + 1, d)
  }

  /** State after `delete(key)`; the call succeeds exactly when it is live. */
  function AfterDelete(s: CacheState, key: string, fails: bool): CacheState {
    match s
    case RedisState(connected, backend) =>
      if Live(s, fails) then RedisState(connected, backend - {key}) else s
    case MockState(f, c, g, st, d) =>
      MockState(f, if f then c else c - {key}, g, st, d + 1)
  }

  /** A `get` changes nothing a later `get` can observe. */
  lemma GetObservesOnly(s: CacheState, key: string)
    ensures Reachable(AfterGet(s)) == Reachable(s)
    ensures Peek(AfterGet(s), key) == Peek(s, key)
  {
  }

  /** After a successful `set`, `get` returns the value written; after a failed one, what was there. */
  lemma SetReadBack(s: CacheState, key: string, value: Json, ttl: Option<int>, fails: bool)
    ensures Reachable(AfterSet(s, key, value, ttl, fails)) == Reachable(s)
    ensures Peek(AfterSet(s, key, value, ttl, fails), key) ==
              if SetSucceeds(s, ttl, fails) then value else Peek(s, key)
  {
    if s.RedisState? && SetSucceeds(s, ttl, fails) {
      SetThenGet(s.backend, key, value, TtlValue(ttl));
    }
  }

  /** After a successful `delete`, `get` finds nothing; after a failed one, what was there. */
  lemma DeleteReadBack(s: CacheState, key: string, fails: bool)
    ensures Reachable(AfterDelete(s, key, fails)) == Reachable(s)
    ensures Peek(AfterDelete(s, key, fails), key) == if Live(s, fails) then JNull else Peek(s, key)
  {
  }

  /** `set` and `delete` on one key leave every other key as it was. */
  lemma OtherKeysUntouched(s: CacheState, key: string, other: string, value: Json, ttl: Option<int>, fails: bool)
    requires other != key
    ensures Peek(AfterSet(s, key, value, ttl, fails), other) == Peek(s, other)
    ensures Peek(AfterDelete(s, key, fails), other) == Peek(s, other)
  {
    if s.RedisState? {
      OtherKeysKept(s.backend, key, other, Entry(Encode(value), TtlValue(ttl)));
    }
  }

  /** The injected cache: the Redis client, or the test stand-in. */
  datatype CacheDep = Redis(service: CacheService) | Mock(mock: MockCacheService) {
    function Footprint(): set<object> {
      match this
      case Redis(service) => {service}
      case Mock(mock) => {mock}
    }

    ghost function State(): CacheState
      reads Footprint()
    {
      match this
      case Redis(service) => RedisState(service.connected, service.backend)
      case Mock(m) => MockState(m.simulateFailure, m.cache, m.getCalls, m.setCalls, m.deleteCalls)
    }
  }

  method CacheGet(c: CacheDep, key: string, fails: bool) returns (value: Json)
    modifies c.Footprint()
    ensures value == Fetch(old(c.State()), key, fails)
    ensures c.State() == AfterGet(old(c.State()))
  {
    match c
    case Redis(service) => value := service.Get(key, fails);
    case Mock(mock) => value := mock.Get(key);
  }

  method CacheSet(c: CacheDep, key: string, value: Json, ttl: Option<int>, fails: bool) returns (ok: bool)
    modifies c.Footprint()
    ensures ok == SetSucceeds(old(c.State()), ttl, fails)
    ensures c.State() == AfterSet(old(c.State()), key, value, ttl, fails)
  {
    match c
    case Redis(service) => ok := service.Set(key, value, ttl, fails);
    case Mock(mock) => ok := mock.Set(key, value);
  }

  method CacheDelete(c: CacheDep, key: string, fails: bool) returns (ok: bool)
    modifies c.Footprint()
    ensures ok == Live(old(c.State()), fails)
    ensures c.State() == AfterDelete(old(c.State()), key, fails)
  {
    match c
    case Redis(service) => ok := service.Delete(key, fails);
    case Mock(mock) => ok := mock.Delete(key);
  }
}
