/** Login lockout tracking (apps/gateway/src/security/authLockout.ts). Failures are counted per
    (lower-cased username, client ip) key, in a process-wide map and, when a store is configured,
    also in the external store under "auth:fail:<key>" with a separate "auth:lock:<key>" lock. The
    store is a `CounterStore.Store?` argument (null when REDIS_URL is unset); the map is the field
    of a `LockoutTracker`; times are integer milliseconds passed in where the source reads
    Date.now(). */
module AuthLockout {
  import opened Wrappers
  import AsciiCase
  import AuthControlsConfig
  import CS = CounterStore

  datatype LockoutEntry = LockoutEntry(failures: int, firstFailureAt: int, lockedUntil: int)

  type Settings = AuthControlsConfig.AuthControls

  /** createKey: `${username.toLowerCase()}::${ip}`. */
  function CreateKey(username: string, ip: string): string {
    AsciiCase.ToLower(username) + "::" + ip
  }

  function LockKey(key: string): string {
    "auth:lock:" + key
  }

  function FailureKey(key: string): string {
    "auth:fail:" + key
  }

  /** Usernames that differ only in letter case share one key, and for one ip they are the only
      usernames that do. */
  lemma CreateKeyIgnoresCase(u1: string, u2: string, ip: string)
    ensures CreateKey(u1, ip) == CreateKey(u2, ip) <==> AsciiCase.SameIgnoringCase(u1, u2)
  {
    AsciiCase.ToLowerEqualIffSameIgnoringCase(u1, u2);
    var a, b := AsciiCase.ToLower(u1), AsciiCase.ToLower(u2);
    if CreateKey(u1, ip) == CreateKey(u2, ip) {
      assert |a| == |b|;
      assert a == CreateKey(u1, ip)[..|a|];
      assert b == CreateKey(u2, ip)[..|b|];
    }
  }

  /** The lock key and the failure key of one account never coincide, and neither coincides
      with the keys of another account. */
  lemma StoreKeysDistinct(key: string, other: string)
    ensures LockKey(key) != FailureKey(other)
    ensures LockKey(key) == LockKey(other) <==> key == other
    ensures FailureKey(key) == FailureKey(other) <==> key == other
  {
    assert LockKey(key)[5] != FailureKey(other)[5];
    if LockKey(key) == LockKey(other) {
      assert key == LockKey(key)[10..];
    }
    if FailureKey(key) == FailureKey(other) {
      assert key == FailureKey(key)[10..];
    }
  }

  // ---------------------------------------------------------------- the in-memory path

  /** The map invariant: every entry counts at least one failure, and a lock is only ever set by
      a failure that reached the threshold. */
  ghost predicate WellFormed(entries: map<string, LockoutEntry>, cfg: Settings) {
    forall k :: k in entries ==> entries[k].failures >= 1 && (entries[k].lockedUntil != 0 ==> entries[k].failures >= cfg.lockoutThreshold)
  }

  /** isLockedInMemory: locked exactly while lockedUntil lies in the future. An unlocked entry
      whose failure window has passed, or whose lock has run out, is evicted. */
  function LockedInMemory(entries: map<string, LockoutEntry>, key: string, now: int, cfg: Settings)
    : (res: (bool, map<string, LockoutEntry>))
    ensures res.0 <==> key in entries && entries[key].lockedUntil > now
    ensures res.1 == entries || res.1 == entries - {key}
    ensures key in entries ==>
      (key !in res.1 <==> !res.0 && (entries[key].firstFailureAt + cfg.lockoutWindowMs <= now || entries[key].lockedUntil > 0))
  {
    if key !in entries then (false, entries)
    else
      var existing := entries[key];
      if existing.lockedUntil > now then (true, entries)
      else if existing.firstFailureAt + cfg.lockoutWindowMs <= now then (false, entries - {key})
      else if existing.lockedUntil > 0 && existing.lockedUntil <= now then (false, entries - {key})
      else (false, entries)
  }

  /** recordFailureInMemory: a missing entry, or one whose failure window has passed, restarts at
      one failure without a lock; otherwise the count grows, the first-failure time stays, and a
      count at the threshold locks until durationMs from now. The result is whether the entry is
      now locked. */
  function RecordedInMemory(entries: map<string, LockoutEntry>, key: string, now: int, cfg: Settings)
    : (res: (bool, map<string, LockoutEntry>))
    ensures key in res.1 && res.1 == entries[key := res.1[key]]
    ensures res.0 ==> res.1[key].lockedUntil > now
    ensures now >= 0 ==> (res.0 <==> res.1[key].lockedUntil > now)
    ensures key !in entries || entries[key].firstFailureAt + cfg.lockoutWindowMs <= now ==>
      res.1[key] == LockoutEntry(1, now, 0) && !res.0
    ensures key in entries && entries[key].firstFailureAt + cfg.lockoutWindowMs > now ==>
      && res.1[key].failures == entries[key].failures + 1
      && res.1[key].firstFailureAt == entries[key].firstFailureAt
      && res.1[key].lockedUntil == (if res.1[key].failures >= cfg.lockoutThreshold then now + cfg.lockoutDurationMs else 0)
  {
    if key !in entries || entries[key].firstFailureAt + cfg.lockoutWindowMs <= now then
      (false, entries[key := LockoutEntry(1, now, 0)])
    else
      var existing := entries[key];
      var updatedFailures := existing.failures + 1;
      var lockedUntil := if updatedFailures >= cfg.lockoutThreshold then now + cfg.lockoutDurationMs else 0;
      (lockedUntil > now, entries[key := LockoutEntry(updatedFailures, existing.firstFailureAt, lockedUntil)])
  }

  lemma RecordedInMemoryWellFormed(entries: map<string, LockoutEntry>, key: string, now: int, cfg: Settings)
    requires WellFormed(entries, cfg)
    ensures WellFormed(RecordedInMemory(entries, key, now, cfg).1, cfg)
  {
  }

  /** Consecutive in-memory failures of one key at the given times: what each call returned, and
      the map afterwards. */
  function MemoryRun(entries: map<string, LockoutEntry>, key: string, times: seq<int>, cfg: Settings)
    : (res: (seq<bool>, map<string, LockoutEntry>))
    ensures |res.0| == |times|
    decreases |times|
  {
    if times == [] then ([], entries)
    else
      var before := MemoryRun(entries, key, times[..|times| - 1], cfg);
      var after := RecordedInMemory(before.1, key, times[|times| - 1], cfg);
      (before.0 + [after.0], after.1)
  }

  /** Failures inside one failure window, starting afresh: the k-th failure (counting from 1)
      reports a lock exactly when k reaches the threshold and k is at least 2 (the first failure of
      a window never locks, so a threshold of 1 locks on the second failure), and the entry counts
      every failure since the first. */
  lemma {:induction false} MemoryBurstLocksAtThreshold(entries: map<string, LockoutEntry>, key: string, times: seq<int>, cfg: Settings)
    requires cfg.Valid()
    requires |times| >= 1
    requires key !in entries || entries[key].firstFailureAt + cfg.lockoutWindowMs <= times[0]
    requires forall i :: 0 <= i < |times| ==> 0 <= times[i] < times[0] + cfg.lockoutWindowMs
    ensures var res := MemoryRun(entries, key, times, cfg);
      var n := |times|;
      && key in res.1
      && res.1[key] == LockoutEntry(n, times[0],
           if n >= 2 && n >= cfg.lockoutThreshold then times[n - 1] + cfg.lockoutDurationMs else 0)
      && forall i :: 0 <= i < n ==> (res.0[i] <==> i >= 1 && i + 1 >= cfg.lockoutThreshold)
    decreases |times|
  {
    var n := |times|;
    var prefix := times[..n - 1];
    if n == 1 {
      assert prefix == [];
    } else {
      assert prefix[0] == times[0];
      MemoryBurstLocksAtThreshold(entries, key, prefix, cfg);
      var before := MemoryRun(entries, key, prefix, cfg);
      var after := RecordedInMemory(before.1, key, times[n - 1], cfg);
      assert MemoryRun(entries, key, times, cfg).0 == before.0 + [after.0];
    }
  }

  /** A lock outlives the failure window: while lockedUntil lies ahead the key reads as locked,
      even when its first failure is older than the window. */
  lemma LockOutlivesWindow(entries: map<string, LockoutEntry>, key: string, now: int, cfg: Settings)
    requires key in entries && entries[key].firstFailureAt + cfg.lockoutWindowMs <= now < entries[key].lockedUntil
    ensures LockedInMemory(entries, key, now, cfg) == (true, entries)
  {
  }

  /** A failure that reports a lock at time t keeps the key locked for every check before
      t + durationMs; the first check at or after that time finds it unlocked and evicts it. */
  lemma LockLastsForDuration(entries: map<string, LockoutEntry>, key: string, t: int, now: int, cfg: Settings)
    requires cfg.Valid() && t >= 0
    requires RecordedInMemory(entries, key, t, cfg).0
    ensures var after := RecordedInMemory(entries, key, t, cfg).1;
      && (t <= now < t + cfg.lockoutDurationMs ==> LockedInMemory(after, key, now, cfg) == (true, after))
      && (now >= t + cfg.lockoutDurationMs ==> LockedInMemory(after, key, now, cfg) == (false, after - {key}))
  {
  }

  // ---------------------------------------------------------------- the store path

  /** The store's contents, or None when no store is configured. */
  type StoreView = Option<map<string, CS.StoreEntry>>

  /** isLockedInRedis: the lock key has a positive time to live. */
  function LockedInStore(store: StoreView, key: string, now: int): (locked: bool)
    ensures locked <==>
      (store.Some? && CS.Lookup(store.value, LockKey(key), now).Some?
       && store.value[LockKey(key)].expiresAt.Some? && store.value[LockKey(key)].expiresAt.value > now)
  {
    store.Some? && CS.TimeToLive(store.value, LockKey(key), now) > 0
  }

  /** recordFailureInRedis: INCR the failure key, give it the failure window as expiry only when
      the increment returned 1, and at the threshold set the lock key for durationMs and delete
      the failure key. The result is true exactly when the lock was set. */
  function RecordedInStore(store: StoreView, key: string, now: int, cfg: Settings): (res: (bool, StoreView))
    requires cfg.Valid()
    ensures store.None? ==> res == (false, None)
    ensures store.Some? ==> res.1.Some?
  {
    if store.None? then (false, None)
    else
      var incr := CS.Incremented(store.value, FailureKey(key), now);
      var failureCount := incr.0;
      var data := if failureCount == 1 then CS.ExpiryChanged(incr.1, FailureKey(key), cfg.lockoutWindowMs, now).1 else incr.1;
      if failureCount >= cfg.lockoutThreshold then
        var locked := CS.Stored(data, LockKey(key), 1, cfg.lockoutDurationMs, now);
        (true, Some(CS.Deleted(locked, FailureKey(key))))
      else (false, Some(data))
  }

  /** What one store failure does, seen from the two keys of the account. */
  lemma RecordedInStoreEffect(data: map<string, CS.StoreEntry>, key: string, now: int, cfg: Settings)
    requires cfg.Valid()
    ensures var count := CS.Incremented(data, FailureKey(key), now).0;
      var res := RecordedInStore(Some(data), key, now, cfg);
      var after := res.1.value;
      && (res.0 <==> count >= cfg.lockoutThreshold)
      && (res.0 ==>
            FailureKey(key) !in after && CS.TimeToLive(after, LockKey(key), now) == cfg.lockoutDurationMs)
      && (!res.0 ==>
            && CS.Lookup(after, FailureKey(key), now).Some? && after[FailureKey(key)].value == count
            && after[FailureKey(key)].expiresAt ==
                 (if count == 1 then Some(now + cfg.lockoutWindowMs) else data[FailureKey(key)].expiresAt)
            && (LockKey(key) in after <==> LockKey(key) in data)
            && (LockKey(key) in data ==> after[LockKey(key)] == data[LockKey(key)]))
  {
    StoreKeysDistinct(key, key);
  }

  /** clearFailuresInRedis deletes the failure key only: an existing lock stays in force. */
  function ClearedInStore(store: StoreView, key: string): (res: StoreView)
    ensures store.None? ==> res.None?
    ensures store.Some? ==> res == Some(CS.Deleted(store.value, FailureKey(key)))
  {
    if store.None? then None else Some(CS.Deleted(store.value, FailureKey(key)))
  }

  lemma ClearKeepsStoreLock(store: StoreView, key: string, now: int)
    ensures LockedInStore(ClearedInStore(store, key), key, now) == LockedInStore(store, key, now)
  {
    StoreKeysDistinct(key, key);
    if store.Some? {
      var after := CS.Deleted(store.value, FailureKey(key));
      assert LockKey(key) in after <==> LockKey(key) in store.value;
    }
  }

  /** Consecutive store failures of one key at the given times. */
  function StoreRun(data: map<string, CS.StoreEntry>, key: string, times: seq<int>, cfg: Settings)
    : (res: (seq<bool>, map<string, CS.StoreEntry>))
    requires cfg.Valid()
    ensures |res.0| == |times|
    decreases |times|
  {
    if times == [] then ([], data)
    else
      var before := StoreRun(data, key, times[..|times| - 1], cfg);
      var after := RecordedInStore(Some(before.1), key, times[|times| - 1], cfg);
      (before.0 + [after.0], after.1.value)
  }

  /** Store failures inside one failure window, starting with no live failure counter: the count
      lives for lockoutWindowMs from the first failure, the failure that brings it to the
      threshold sets the lock key for lockoutDurationMs (with a threshold of 1, the first one) and
      deletes the counter, and no earlier failure reports a lock. */
  lemma {:induction false} StoreBurstLocksAtThreshold(data: map<string, CS.StoreEntry>, key: string, times: seq<int>, cfg: Settings)
    requires cfg.Valid()
    requires 1 <= |times| <= cfg.lockoutThreshold
    requires CS.Lookup(data, FailureKey(key), times[0]).None?
    requires forall i :: 0 <= i < |times| ==> times[i] <= times[0] + cfg.lockoutWindowMs
    ensures var res := StoreRun(data, key, times, cfg);
      var n := |times|;
      && (forall i :: 0 <= i < n ==> (res.0[i] <==> i + 1 == cfg.lockoutThreshold))
      && (n < cfg.lockoutThreshold ==>
            FailureKey(key) in res.1 && res.1[FailureKey(key)] == CS.StoreEntry(n, Some(times[0] + cfg.lockoutWindowMs)))
      && (n == cfg.lockoutThreshold ==>
            FailureKey(key) !in res.1 && CS.TimeToLive(res.1, LockKey(key), times[n - 1]) == cfg.lockoutDurationMs)
    decreases |times|
  {
    var n := |times|;
    var prefix := times[..n - 1];
    StoreKeysDistinct(key, key);
    if n == 1 {
      assert prefix == [];
      RecordedInStoreEffect(data, key, times[0], cfg);
    } else {
      assert prefix[0] == times[0];
      StoreBurstLocksAtThreshold(data, key, prefix, cfg);
      var before := StoreRun(data, key, prefix, cfg);
      RecordedInStoreEffect(before.1, key, times[n - 1], cfg);
      var after := RecordedInStore(Some(before.1), key, times[n - 1], cfg);
      assert StoreRun(data, key, times, cfg).0 == before.0 + [after.0];
    }
  }

  // ---------------------------------------------------------------- the exported operations

  /** isAccountLocked: a store lock wins; otherwise the in-memory check decides (and may evict). */
  function AccountLocked(entries: map<string, LockoutEntry>, store: StoreView, username: string, ip: string, now: int, cfg: Settings)
    : (res: (bool, map<string, LockoutEntry>))
    ensures res.0 <==>
      (LockedInStore(store, CreateKey(username, ip), now)
       || (CreateKey(username, ip) in entries && entries[CreateKey(username, ip)].lockedUntil > now))
    ensures LockedInStore(store, CreateKey(username, ip), now) ==> res.1 == entries
    ensures !LockedInStore(store, CreateKey(username, ip), now) ==>
      res == LockedInMemory(entries, CreateKey(username, ip), now, cfg)
  {
    var key := CreateKey(username, ip);
    if LockedInStore(store, key, now) then (true, entries) else LockedInMemory(entries, key, now, cfg)
  }

  /** recordAuthFailure: when the store path sets a lock the answer is true and the map is not
      touched; in every other case, store present or not, the in-memory path runs too. */
  function AuthFailureRecorded(entries: map<string, LockoutEntry>, store: StoreView, username: string, ip: string, now: int, cfg: Settings)
    : (res: (bool, map<string, LockoutEntry>, StoreView))
    requires cfg.Valid()
    ensures res.2 == RecordedInStore(store, CreateKey(username, ip), now, cfg).1
    ensures RecordedInStore(store, CreateKey(username, ip), now, cfg).0 ==> res.0 && res.1 == entries
    ensures !RecordedInStore(store, CreateKey(username, ip), now, cfg).0 ==>
      (res.0, res.1) == RecordedInMemory(entries, CreateKey(username, ip), now, cfg)
  {
    var key := CreateKey(username, ip);
    var fromStore := RecordedInStore(store, key, now, cfg);
    if fromStore.0 then (true, entries, fromStore.1)
    else
      var inMemory := RecordedInMemory(entries, key, now, cfg);
      (inMemory.0, inMemory.1, fromStore.1)
  }

  /** clearAuthFailures: the store failure key and this key's map entry go; nothing else does. */
  function AuthFailuresCleared(entries: map<string, LockoutEntry>, store: StoreView, username: string, ip: string)
    : (res: (map<string, LockoutEntry>, StoreView))
    ensures CreateKey(username, ip) !in res.0
    ensures forall k :: k != CreateKey(username, ip) ==> (k in res.0 <==> k in entries) && (k in entries ==> res.0[k] == entries[k])
    ensures res.1 == ClearedInStore(store, CreateKey(username, ip))
  {
    var key := CreateKey(username, ip);
    (entries - {key}, ClearedInStore(store, key))
  }

  /** The process-wide in-memory lockout map together with the configuration it was read with. */
  class LockoutTracker {
    const config: Settings
    var entries: map<string, LockoutEntry>

    ghost predicate Valid()
      reads this
    {
      config.Valid() && WellFormed(entries, config)
    }

    constructor (config: Settings)
      requires config.Valid()
      ensures this.config == config && entries == map[] && Valid()
    {
      this.config := config;
      entries := map[];
    }

    method IsLockedInMemory(key: string, now: int) returns (locked: bool)
      requires Valid()
      modifies this
      ensures Valid()
      ensures (locked, entries) == LockedInMemory(old(entries), key, now, config)
    {
      if key !in entries {
        return false;
      }
      var existing := entries[key];
      if existing.lockedUntil > now {
        return true;
      }
      if existing.firstFailureAt + config.lockoutWindowMs <= now {
        entries := entries - {key};
        return false;
      }
      if existing.lockedUntil > 0 && existing.lockedUntil <= now {
        entries := entries - {key};
        return false;
      }
      return false;
    }

    method RecordFailureInMemory(key: string, now: int) returns (locked: bool)
      requires Valid()
      modifies this
      ensures Valid()
      ensures (locked, entries) == RecordedInMemory(old(entries), key, now, config)
    {
      RecordedInMemoryWellFormed(entries, key, now, config);
      if key !in entries || entries[key].firstFailureAt + config.lockoutWindowMs <= now {
        entries := entries[key := LockoutEntry(1, now, 0)];
        return false;
      }
      var existing := entries[key];
      var updatedFailures := existing.failures + 1;
      var lockedUntil := if updatedFailures >= config.lockoutThreshold then now + config.lockoutDurationMs else 0;
      entries := entries[key := LockoutEntry(updatedFailures, existing.firstFailureAt, lockedUntil)];
      return lockedUntil > now;
    }

    method ClearFailuresInMemory(key: string)
      requires Valid()
      modifies this
      ensures Valid()
      ensures entries == old(entries) - {key}
    {
      entries := entries - {key};
    }

    method IsAccountLocked(store: CS.Store?, username: string, ip: string, now: int) returns (locked: bool)
      requires Valid()
      modifies this
      ensures Valid()
      ensures (locked, entries) == AccountLocked(old(entries), View(store), username, ip, now, config)
    {
      var key := CreateKey(username, ip);
      var lockedInStore := IsLockedInStore(store, key, now);
      if lockedInStore {
        return true;
      }
      locked := IsLockedInMemory(key, now);
    }

    method RecordAuthFailure(store: CS.Store?, username: string, ip: string, now: int) returns (locked: bool)
      requires Valid()
      modifies this, store
      ensures Valid()
      ensures (locked, entries, View(store)) == AuthFailureRecorded(old(entries), old(View(store)), username, ip, now, config)
    {
      var key := CreateKey(username, ip);
      var lockedInStore := RecordFailureInStore(store, key, now, config);
      if lockedInStore {
        return true;
      }
      locked := RecordFailureInMemory(key, now);
    }

    method ClearAuthFailures(store: CS.Store?, username: string, ip: string)
      requires Valid()
      modifies this, store
      ensures Valid()
      ensures (entries, View(store)) == AuthFailuresCleared(old(entries), old(View(store)), username, ip)
    {
      var key := CreateKey(username, ip);
      ClearFailuresInStore(store, key);
      ClearFailuresInMemory(key);
    }
  }

  ghost function View(store: CS.Store?): StoreView
    reads store
  {
    if store == null then None else Some(store.data)
  }

  method IsLockedInStore(store: CS.Store?, key: string, now: int) returns (locked: bool)
    ensures locked == LockedInStore(View(store), key, now)
  {
    if store == null {
      return false;
    }
    var lockTtlMs := store.PTtl(LockKey(key), now);
    return lockTtlMs > 0;
  }

  method RecordFailureInStore(store: CS.Store?, key: string, now: int, cfg: Settings) returns (locked: bool)
    requires cfg.Valid()
    modifies store
    ensures (locked, View(store)) == RecordedInStore(old(View(store)), key, now, cfg)
  {
    if store == null {
      return false;
    }
    var failureKey := FailureKey(key);
    var lockKey := LockKey(key);
    var failureCount := store.Incr(failureKey, now);
    if failureCount == 1 {
      var _ := store.PExpire(failureKey, cfg.lockoutWindowMs, now);
    }
    if failureCount >= cfg.lockoutThreshold {
      store.SetWithExpiry(lockKey, 1, cfg.lockoutDurationMs, now);
      store.Del(failureKey);
      return true;
    }
    return false;
  }

  method ClearFailuresInStore(store: CS.Store?, key: string)
    modifies store
    ensures View(store) == ClearedInStore(old(View(store)), key)
  {
    if store == null {
      return;
    }
    store.Del(FailureKey(key));
  }
}
