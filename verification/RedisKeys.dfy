/** Redis string keys with an optional time to live. Clocks and deadlines are milliseconds. */
module RedisKeys {
  import opened Foundations

  datatype Entry<+V> = Entry(value: V, deadline: Option<int>)

  /** A key past its deadline behaves as a missing key, whether or not it has been purged yet. */
  predicate Alive<K, V>(store: map<K, Entry<V>>, key: K, clock: int) {
    key in store && (store[key].deadline.Some? ==> clock < store[key].deadline.value)
  }

  function Get<K, V>(store: map<K, Entry<V>>, key: K, clock: int): Option<V> {
    if Alive(store, key, clock) then Some(store[key].value) else None
  }

  function Del<K, V>(store: map<K, Entry<V>>, key: K): map<K, Entry<V>> { store - {key} }

  function SetEx<K, V>(store: map<K, Entry<V>>, key: K, value: V, clock: int, seconds: int): map<K, Entry<V>> {
    store[key := Entry(value, Some(clock + seconds * 1000))]
  }

  /** INCR: a missing key starts from 0 and without a deadline; a live key keeps its own. */
  function Incr<K>(store: map<K, Entry<nat>>, key: K, clock: int): map<K, Entry<nat>> {
    if Alive(store, key, clock) then store[key := store[key].(value := store[key].value + 1)]
    else store[key := Entry(1, None)]
  }

  /** EXPIRE: no effect on a key that is not there. */
  function Expire<K, V>(store: map<K, Entry<V>>, key: K, clock: int, seconds: int): map<K, Entry<V>> {
    if Alive(store, key, clock) then store[key := store[key].(deadline := Some(clock + seconds * 1000))] else store
  }

  /** TTL: whole seconds left, rounded to the nearest; -1 without a deadline, -2 without a key. */
  function Ttl<K, V>(store: map<K, Entry<V>>, key: K, clock: int): int {
    if !Alive(store, key, clock) then -2
    else if store[key].deadline.None? then -1
    else (store[key].deadline.value - clock + 500) / 1000
  }

  /** A stored value is answered until its seconds are over, and every other key is left alone. */
  lemma SetExLasts<K, V>(store: map<K, Entry<V>>, key: K, value: V, clock: int, seconds: int, other: K, later: int)
    ensures var n := SetEx(store, key, value, clock, seconds);
      && Get(n, key, later) == (if later < clock + seconds * 1000 then Some(value) else None)
      && (other != key ==> Get(n, other, later) == Get(store, other, later))
      && Get(Del(n, key), key, later) == None && (other != key ==> Get(Del(n, key), other, later) == Get(store, other, later))
  {
  }

  /** Counting starts at 1, without a deadline, on a key that is not there, and goes up by 1 on one that is. */
  lemma IncrCounts<K>(store: map<K, Entry<nat>>, key: K, clock: int, other: K, later: int)
    ensures var n := Incr(store, key, clock);
      && key in n
      && (match Get(store, key, clock)
          case None => n[key] == Entry(1, None)
          case Some(v) => n[key] == Entry(v + 1, store[key].deadline))
      && (other != key ==> Get(n, other, later) == Get(store, other, later))
  {
  }

  /** An expiry replaces a live key's deadline, keeps its value, and does nothing to a key that is gone. */
  lemma ExpireLasts<K, V>(store: map<K, Entry<V>>, key: K, clock: int, seconds: int, other: K, later: int)
    ensures var n := Expire(store, key, clock, seconds);
      && Get(n, key, later) ==
           (match Get(store, key, clock)
            case None => Get(store, key, later)
            case Some(v) => if later < clock + seconds * 1000 then Some(v) else None)
      && (other != key ==> Get(n, other, later) == Get(store, other, later))
      && (Get(store, key, clock).Some? && seconds > 0 ==> Ttl(n, key, clock) == seconds)
      && (Get(store, key, clock).None? ==> Ttl(store, key, clock) == 0 - 2)
  {
  }
}
