/**
 The Redis commands used by the services, on one logical database held as a map.
 Expiry is lazy: a key whose deadline has passed answers every command as if it
 were absent, whether or not the server has already reclaimed it.
 */
module Redis {
  import opened Wrappers

  // Clock values are Unix milliseconds.
  const MINUTE := 60_000
  const HOUR := 60 * MINUTE

  datatype Stored<+T> = Stored(value: T, expiresAt: Option<int>) {
    predicate Live(now: int) {
      expiresAt.None? || now <= expiresAt.value
    }
  }

  predicate Exists<K, T>(db: map<K, Stored<T>>, key: K, now: int) {
    key in db && db[key].Live(now)
  }

  function Get<K, T>(db: map<K, Stored<T>>, key: K, now: int): Option<T> {
    if Exists(db, key, now) then Some(db[key].value) else None
  }

  /** The number behind a counter key; an absent key counts as zero. */
  function Amount<K>(db: map<K, Stored<real>>, key: K, now: int): real {
    Get(db, key, now).GetOr(0.0)
  }

  function SetNX<K, T>(db: map<K, Stored<T>>, key: K, value: T, ttl: int, now: int): map<K, Stored<T>> {
    if Exists(db, key, now) then db else db[key := Stored(value, Some(now + ttl))]
  }

  /** INCRBYFLOAT keeps a live key's deadline and creates an absent key without one. */
  function IncrByFloat<K>(db: map<K, Stored<real>>, key: K, delta: real, now: int): map<K, Stored<real>> {
    if Exists(db, key, now)
    then db[key := db[key].(value := db[key].value + delta)]
    else db[key := Stored(delta, None)]
  }

  function Expire<K, T>(db: map<K, Stored<T>>, key: K, ttl: int, now: int): map<K, Stored<T>> {
    if Exists(db, key, now) then db[key := db[key].(expiresAt := Some(now + ttl))] else db
  }

  function Del<K, T>(db: map<K, Stored<T>>, key: K): map<K, Stored<T>> {
    db - {key}
  }
}
