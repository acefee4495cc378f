/** Redis string keys with a time to live, on a clock in milliseconds. A key set with a
    positive time to live is gone from its deadline on; one set without is kept. */
module Redis {
  datatype Option<+T> = None | Some(value: T)

  datatype Expiry = Never | At(deadline: int)

  datatype Entry<V> = Entry(value: V, expiry: Expiry)

  type Store<K, V> = map<K, Entry<V>>

  /** The client library sends no expiry for a duration that is not positive. */
  function ExpiryOf(ttl: int, now: int): Expiry {
    if ttl > 0 then At(now + ttl) else Never
  }

  predicate Alive(expiry: Expiry, now: int) {
    expiry.At? ==> now < expiry.deadline
  }

  function Get<K, V>(store: Store<K, V>, key: K, now: int): Option<V> {
    if key in store && Alive(store[key].expiry, now) then Some(store[key].value) else None
  }

  function Set<K, V>(store: Store<K, V>, key: K, value: V, ttl: int, now: int): Store<K, V> {
    store[key := Entry(value, ExpiryOf(ttl, now))]
  }

  function Del<K, V>(store: Store<K, V>, key: K): Store<K, V> {
    store - {key}
  }
}
