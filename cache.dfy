/**
 * The result cache: a map from `command:arg1:arg2…` to the result, the time
 * it was stored and its time to live. Entries expire lazily on read, and a
 * periodic sweep deletes every expired entry. The clock is the explicit
 * parameter `now`, in milliseconds.
 */
module Cache {
  import opened Wrappers
  import opened Text
  import opened Types

  /** One cached result with the time it was stored and how long it stays valid. */
  datatype CacheEntry = CacheEntry(result: CommandResult, timestamp: int, ttl: int)

  type Store = map<string, CacheEntry>

  /** `defaultTTL`: one minute. */
  const DefaultTtl := 60 * 1000

  /** `generateKey`: the command, a colon, then the arguments joined by colons. */
  function GenerateKey(command: string, args: seq<string>): (key: string)
    ensures StartsWith(key, command + ":")
    ensures key[|command| + 1..] == Join(args, ":")
  {
    command + ":" + Join(args, ":")
  }

  /** An entry is stale once strictly more than `ttl` milliseconds have passed since it was stored. */
  predicate Expired(e: CacheEntry, now: int) {
    now - e.timestamp > e.ttl
  }

  /** What `get` returns for `key` at time `now`. */
  function Cached(m: Store, key: string, now: int): Option<CommandResult> {
    if key in m && !Expired(m[key], now) then Some(m[key].result) else None
  }

  /** The map after `get` for `key` at time `now`: an expired entry is deleted, nothing else changes. */
  function AfterGet(m: Store, key: string, now: int): Store {
    if key in m && Expired(m[key], now) then m - {key} else m
  }

  /** The map after one sweep at time `now`: exactly the unexpired entries. */
  function Swept(m: Store, now: int): Store {
    map k | k in m && !Expired(m[k], now) :: m[k]
  }

  class CommandCache {
    var entries: Store

    constructor()
      ensures entries == map[]
    {
      entries := map[];
    }

    /** `set`: stores the result under its key, stamped with `now`, replacing any earlier entry. */
    method Set(command: string, args: seq<string>, result: CommandResult, now: int, ttl: int := DefaultTtl)
      modifies this
      ensures entries == old(entries)[GenerateKey(command, args) := CacheEntry(result, now, ttl)]
    {
      var key := GenerateKey(command, args);
      entries := entries[key := CacheEntry(result, now, ttl)];
    }

    /** `get`: the cached result if it is still fresh; a stale entry is deleted and yields None. */
    method Get(command: string, args: seq<string>, now: int) returns (r: Option<CommandResult>)
      modifies this
      ensures r == Cached(old(entries), GenerateKey(command, args), now)
      ensures entries == AfterGet(old(entries), GenerateKey(command, args), now)
    {
      var key := GenerateKey(command, args);
      if key !in entries {
        return None;
      }
      var entry := entries[key];
      if now - entry.timestamp > entry.ttl {
        entries := entries - {key};
        return None;
      }
      return Some(entry.result);
    }

    /** `clear` */
    method Clear()
      modifies this
      ensures entries == map[]
    {
      entries := map[];
    }

    /** The body of the `startCleanup` timer: deletes, one key at a time, every entry stale at `now`. */
    method Sweep(now: int)
      modifies this
      ensures entries == Swept(old(entries), now)
    {
      ghost var m0 := entries;
      var keys := entries.Keys;
      while keys != {}
        invariant keys <= m0.Keys
        invariant entries == map k | k in m0 && (k in keys || !Expired(m0[k], now)) :: m0[k]
        decreases keys
      {
        var key :| key in keys;
        if now - entries[key].timestamp > entries[key].ttl {
          entries := entries - {key};
        }
        keys := keys - {key};
      }
    }
  }

  /** A stored entry is returned while it is at most `ttl` old, and no longer afterwards. */
  lemma SetThenGet(m: Store, key: string, result: CommandResult, t: int, ttl: int, now: int)
    ensures var m' := m[key := CacheEntry(result, t, ttl)];
            (now - t <= ttl ==> Cached(m', key, now) == Some(result) && AfterGet(m', key, now) == m')
            && (now - t > ttl ==> Cached(m', key, now) == None && AfterGet(m', key, now) == m - {key})
  {
  }

  /** `get` deletes the entry and returns None exactly when the entry is stale. */
  lemma GetDeletesIffExpired(m: Store, key: string, now: int)
    requires key in m
    ensures Cached(m, key, now) == None <==> Expired(m[key], now)
    ensures key !in AfterGet(m, key, now) <==> Expired(m[key], now)
  {
  }

  /** `get` on an absent key returns None and leaves the map unchanged. */
  lemma GetAbsent(m: Store, key: string, now: int)
    requires key !in m
    ensures Cached(m, key, now) == None && AfterGet(m, key, now) == m
  {
  }

  /** Neither `get` nor `set` touches an entry under another key. */
  lemma OtherKeysUntouched(m: Store, key: string, other: string, e: CacheEntry, now: int)
    requires other != key
    ensures other in AfterGet(m, key, now) <==> other in m
    ensures other in m ==> AfterGet(m, key, now)[other] == m[other]
    ensures other in m[key := e] <==> other in m
    ensures other in m ==> m[key := e][other] == m[other]
  {
  }

  /** A later `set` under the same key replaces the earlier entry with a fresh stamp and ttl. */
  lemma SetOverwrites(m: Store, key: string, e1: CacheEntry, e2: CacheEntry)
    ensures m[key := e1][key := e2] == m[key := e2]
  {
  }

  /** A sweep keeps exactly the unexpired entries, with their contents unchanged. */
  lemma SweptEntries(m: Store, now: int)
    ensures forall k :: k in Swept(m, now) <==> k in m && !Expired(m[k], now)
    ensures forall k :: k in Swept(m, now) ==> Swept(m, now)[k] == m[k]
  {
  }

  /** A sweep at `now` never changes what a `get` at the same `now` returns. */
  lemma SweepPreservesLookup(m: Store, key: string, now: int)
    ensures Cached(Swept(m, now), key, now) == Cached(m, key, now)
  {
  }

  /** A sweep at a later time subsumes an earlier one: what is stale once stays stale. */
  lemma SweepsCompose(m: Store, t1: int, t2: int)
    requires t1 <= t2
    ensures Swept(Swept(m, t1), t2) == Swept(m, t2)
  {
  }

  /** Arguments are joined without escaping, so different calls can share a key. */
  lemma KeyCollisions(c: string, a: string, rest: seq<string>)
    requires |rest| > 0
    ensures GenerateKey(c, []) == GenerateKey(c, [""])
    ensures GenerateKey(c + ":" + a, rest) == GenerateKey(c, [a] + rest)
  {
    assert ([a] + rest)[1..] == rest;
  }
}
