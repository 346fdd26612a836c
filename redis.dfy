/**
 * The session cache (utils/redis.js): string keys with a time-to-live.
 * Time is an explicit clock value; an entry whose expiry instant has been
 * reached reads as missing, which is how the cache's passive expiry looks
 * to a caller.
 */
module Redis {
  import opened Wrappers

  /** A cached value and the first instant at which it is no longer returned. */
  datatype Entry = Entry(value: string, expiresAt: int)

  /** What the cache returns for `key` at time `now`. */
  function Lookup(entries: map<string, Entry>, key: string, now: int): Option<string>
  {
    if key in entries && now < entries[key].expiresAt then Some(entries[key].value) else None
  }

  /** A value stored with a duration is read back until the duration has elapsed. */
  lemma StoredIsReadable(entries: map<string, Entry>, key: string, value: string, now: int, duration: nat, t: int)
    requires now <= t < now + duration
    ensures Lookup(entries[key := Entry(value, now + duration)], key, t) == Some(value)
  {
  }

  /** Once the duration has elapsed the stored value reads as missing. */
  lemma StoredExpires(entries: map<string, Entry>, key: string, value: string, now: int, duration: nat, t: int)
    requires t >= now + duration
    ensures Lookup(entries[key := Entry(value, now + duration)], key, t) == None
  {
  }

  /** Storing or deleting one key changes what no other key reads. */
  lemma OtherKeysUnchanged(entries: map<string, Entry>, key: string, e: Entry, other: string, t: int)
    requires other != key
    ensures Lookup(entries[key := e], other, t) == Lookup(entries, other, t)
    ensures Lookup(entries - {key}, other, t) == Lookup(entries, other, t)
  {
  }

  /** The client wrapper: every call logs and swallows the client's errors. */
  class RedisClient {
    var entries: map<string, Entry>

    constructor ()
      ensures entries == map[]
    {
      entries := map[];
    }

    /** `get(key)`: the live value, or null when the client call fails. */
    method Get(key: string, now: int, failed: bool) returns (v: Option<string>)
      ensures v == if failed then None else Lookup(entries, key, now)
    {
      if failed {
        v := None;
      } else {
        v := Lookup(entries, key, now);
      }
    }

    /**
     * `set(key, value, duration)` with `EX`: a failed call stores nothing.
     * Redis refuses `EX 0` as an invalid expire time, and the wrapper
     * swallows that error too, so a zero duration also stores nothing.
     */
    method Set(key: string, value: string, duration: nat, now: int, failed: bool)
      modifies this
      ensures entries == if failed || duration == 0 then old(entries)
                         else old(entries)[key := Entry(value, now + duration)]
    {
      if !failed && duration > 0 {
        entries := entries[key := Entry(value, now + duration)];
      }
    }

    /** `del(key)`: a failed call deletes nothing. */
    method Del(key: string, failed: bool)
      modifies this
      ensures entries == if failed then old(entries) else old(entries) - {key}
    {
      if !failed {
        entries := entries - {key};
      }
    }
  }
}
