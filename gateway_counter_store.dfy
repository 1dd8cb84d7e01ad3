/** The external key/value store the gateway's lockout tracker uses when REDIS_URL is set (the
    RedisClientLike interface of apps/gateway/src/security/redisClient.ts): integer values under
    string keys, each with an optional expiry time in milliseconds. The store's clock is the `now`
    parameter of each operation. */
module CounterStore {
  import opened Wrappers

  datatype StoreEntry = StoreEntry(value: int, expiresAt: Option<int>)

  /** A key lives until its expiry time has passed: at the expiry instant itself it is still
      present, with zero milliseconds to live. */
  predicate Live(e: StoreEntry, now: int) {
    e.expiresAt.None? || now <= e.expiresAt.value
  }

  function Lookup(data: map<string, StoreEntry>, key: string, now: int): (r: Option<StoreEntry>)
    ensures r.Some? <==> key in data && Live(data[key], now)
    ensures r.Some? ==> r.value == data[key]
  {
    if key in data && Live(data[key], now) then Some(data[key]) else None
  }

  /** INCR: a missing or expired key starts again at 1 without an expiry; a live key keeps its
      expiry. */
  function Incremented(data: map<string, StoreEntry>, key: string, now: int): (res: (int, map<string, StoreEntry>))
    ensures key in res.1 && res.1[key].value == res.0
    ensures forall k :: k != key ==> (k in res.1 <==> k in data) && (k in data ==> res.1[k] == data[k])
    ensures Lookup(data, key, now).None? ==> res.0 == 1 && res.1[key].expiresAt.None?
    ensures Lookup(data, key, now).Some? ==> res.0 == data[key].value + 1 && res.1[key].expiresAt == data[key].expiresAt
  {
    match Lookup(data, key, now)
    case None => (1, data[key := StoreEntry(1, None)])
    case Some(e) => (e.value + 1, data[key := e.(value := e.value + 1)])
  }

  /** PEXPIRE: a live key expires `ms` milliseconds from now; the reply counts the keys changed. */
  function ExpiryChanged(data: map<string, StoreEntry>, key: string, ms: int, now: int): (res: (int, map<string, StoreEntry>))
    ensures res.0 == 1 <==> Lookup(data, key, now).Some?
    ensures res.0 == 0 ==> res.1 == data
    ensures res.0 == 1 ==> res.1 == data[key := data[key].(expiresAt := Some(now + ms))]
  {
    if Lookup(data, key, now).Some? then (1, data[key := data[key].(expiresAt := Some(now + ms))]) else (0, data)
  }

  /** PTTL: -2 for a missing or expired key, -1 for a key without expiry, otherwise the
      milliseconds left. */
  function TimeToLive(data: map<string, StoreEntry>, key: string, now: int): (ttl: int)
    ensures ttl == -2 <==> Lookup(data, key, now).None?
    ensures ttl == -1 <==> Lookup(data, key, now).Some? && data[key].expiresAt.None?
    ensures ttl >= 0 <==> Lookup(data, key, now).Some? && data[key].expiresAt.Some?
    ensures ttl >= 0 ==> now + ttl == data[key].expiresAt.value
  {
    match Lookup(data, key, now)
    case None => -2
    case Some(e) => if e.expiresAt.None? then -1 else e.expiresAt.value - now
  }

  /** SET key value PX ms. */
  function Stored(data: map<string, StoreEntry>, key: string, value: int, ms: int, now: int): (d: map<string, StoreEntry>)
    ensures d == data[key := StoreEntry(value, Some(now + ms))]
  {
    data[key := StoreEntry(value, Some(now + ms))]
  }

  /** DEL key. */
  function Deleted(data: map<string, StoreEntry>, key: string): (d: map<string, StoreEntry>)
    ensures key !in d && d.Keys == data.Keys - {key}
    ensures forall k :: k in d ==> d[k] == data[k]
  {
    data - {key}
  }

  /** A connected store client. */
  class Store {
    var data: map<string, StoreEntry>

    constructor ()
      ensures data == map[]
    {
      data := map[];
    }

    method Incr(key: string, now: int) returns (n: int)
      modifies this
      ensures (n, data) == Incremented(old(data), key, now)
    {
      n := Incremented(data, key, now).0;
      data := Incremented(data, key, now).1;
    }

    method PExpire(key: string, ms: int, now: int) returns (changed: int)
      modifies this
      ensures (changed, data) == ExpiryChanged(old(data), key, ms, now)
    {
      changed := ExpiryChanged(data, key, ms, now).0;
      data := ExpiryChanged(data, key, ms, now).1;
    }

    method PTtl(key: string, now: int) returns (ttl: int)
      ensures ttl == TimeToLive(data, key, now)
    {
      ttl := TimeToLive(data, key, now);
    }

    /** SET with PX; the store refuses a non-positive expiry, so the caller must give a positive one. */
    method SetWithExpiry(key: string, value: int, ms: int, now: int)
      requires ms > 0
      modifies this
      ensures data == Stored(old(data), key, value, ms, now)
    {
      data := Stored(data, key, value, ms, now);
    }

    method Del(key: string)
      modifies this
      ensures data == Deleted(old(data), key)
    {
      data := Deleted(data, key);
    }
  }
}
