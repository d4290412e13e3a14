/** The in-memory TTL cache: a map from key to value and absolute expiry
    time, read with lazy expiry. The wall clock is an explicit `now`
    argument; the lock guarding the map is not modelled. */
module MemoryCache {
  import opened Heimdall

  datatype Entry<V> = Entry(value: V, expiry: int)

  datatype InMemoryCache<V> = InMemoryCache(entries: map<string, Entry<V>>)

  /** An entry is live at `now` while `now` is strictly before its expiry. */
  predicate Live<V>(e: Entry<V>, now: int) {
    now < e.expiry
  }

  /** New: a cache holding no entries. */
  function New<V>(): InMemoryCache<V> {
    InMemoryCache(map[])
  }

  /** Set: stores `value` under `key` until `now + ttl`, replacing any
      earlier entry for `key`; every other entry is kept as it was. */
  function Set<V>(c: InMemoryCache<V>, key: string, value: V, ttl: int, now: int): (r: InMemoryCache<V>)
    ensures r.entries.Keys == c.entries.Keys + {key}
    ensures r.entries[key] == Entry(value, now + ttl)
    ensures forall k :: k in c.entries && k != key ==> r.entries[k] == c.entries[k]
  {
    InMemoryCache(c.entries[key := Entry(value, now + ttl)])
  }

  /** Delete: removes the entry for `key`, if any; nothing else changes. */
  function Delete<V>(c: InMemoryCache<V>, key: string): (r: InMemoryCache<V>)
    ensures r.entries.Keys == c.entries.Keys - {key}
    ensures forall k :: k in r.entries ==> r.entries[k] == c.entries[k]
  {
    InMemoryCache(c.entries - {key})
  }

  /** What a `Get` of `key` at time `now` returns, without its side effect. */
  function Lookup<V>(c: InMemoryCache<V>, key: string, now: int): Option<V> {
    if key in c.entries && Live(c.entries[key], now) then Some(c.entries[key].value) else None
  }

  /** Get: the value stored under `key` if it has not expired at `now`,
      otherwise none. An expired entry is freed, and the cache returned
      answers every later lookup exactly as the original one would. */
  function Get<V>(c: InMemoryCache<V>, key: string, now: int): (r: (Option<V>, InMemoryCache<V>))
    ensures r.0.Some? <==> key in c.entries && now < c.entries[key].expiry
    ensures r.0.Some? ==> r.0.value == c.entries[key].value
    ensures key in r.1.entries ==> Live(r.1.entries[key], now)
    ensures forall k, t :: t >= now ==> Lookup(r.1, k, t) == Lookup(c, k, t)
  {
    if key in c.entries then
      if Live(c.entries[key], now) then (Some(c.entries[key].value), c)
      else (None, InMemoryCache(c.entries - {key}))
    else (None, c)
  }

  /** A value stored with a TTL is returned by every `Get` before the TTL
      elapses. */
  lemma SetThenGet<V>(c: InMemoryCache<V>, key: string, value: V, ttl: int, now: int, later: int)
    requires now <= later < now + ttl
    ensures Get(Set(c, key, value, ttl, now), key, later).0 == Some(value)
  {
  }

  /** Once the TTL has elapsed, `Get` returns nothing. */
  lemma GetAfterExpiry<V>(c: InMemoryCache<V>, key: string, value: V, ttl: int, now: int, later: int)
    requires later >= now + ttl
    ensures Get(Set(c, key, value, ttl, now), key, later).0 == None
  {
  }

  /** A deleted value is gone even though its TTL has not elapsed. */
  lemma SetDeleteGet<V>(c: InMemoryCache<V>, key: string, value: V, ttl: int, now: int, later: int)
    ensures Get(Delete(Set(c, key, value, ttl, now), key), key, later).0 == None
  {
  }

  /** A fresh cache holds nothing: every key misses. */
  lemma NewCacheMisses<V>(key: string, now: int)
    ensures Get(New<V>(), key, now).0 == None
  {
  }

  /** A cache operation issued at time `at`. */
  datatype Op<V> =
    | Store(key: string, value: V, ttl: int, at: int)
    | Remove(key: string, at: int)
    | Read(key: string, at: int)

  function Apply<V>(c: InMemoryCache<V>, op: Op<V>): InMemoryCache<V> {
    match op
    case Store(k, v, ttl, at) => Set(c, k, v, ttl, at)
    case Remove(k, _) => Delete(c, k)
    case Read(k, at) => Get(c, k, at).1
  }

  /** The cache after applying `ops`, in order, to a fresh cache. */
  function Replay<V>(ops: seq<Op<V>>): InMemoryCache<V> {
    if |ops| == 0 then New() else Apply(Replay(ops[..|ops| - 1]), ops[|ops| - 1])
  }

  /** Reference semantics, independent of eviction: the most recent write of
      `key` decides, a store giving its value and expiry, a removal (or no
      write at all) giving nothing; reads change nothing. */
  function LatestWrite<V>(ops: seq<Op<V>>, key: string): Option<Entry<V>> {
    if |ops| == 0 then None
    else
      var last := ops[|ops| - 1];
      if last.Store? && last.key == key then Some(Entry(last.value, last.at + last.ttl))
      else if last.Remove? && last.key == key then None
      else LatestWrite(ops[..|ops| - 1], key)
  }

  /** For any history, a lookup no earlier than any of its operations
      returns the value of the latest store of the key if that
      store's TTL has not elapsed, and nothing otherwise: lazy eviction on
      reads is invisible. */
  lemma {:induction false} ReplayMatchesLatestWrite<V>(ops: seq<Op<V>>, key: string, t: int)
    requires forall i :: 0 <= i < |ops| ==> ops[i].at <= t
    ensures Lookup(Replay(ops), key, t) ==
      match LatestWrite(ops, key)
      case Some(e) => if Live(e, t) then Some(e.value) else None
      case None => None
  {
    if |ops| == 0 {
      return;
    }
    var prefix := ops[..|ops| - 1];
    var last := ops[|ops| - 1];
    assert forall i :: 0 <= i < |prefix| ==> prefix[i].at <= t by {
      forall i | 0 <= i < |prefix|
        ensures prefix[i].at <= t
      {
        assert prefix[i] == ops[i];
      }
    }
    ReplayMatchesLatestWrite(prefix, key, t);
    var c := Replay(prefix);
    assert Replay(ops) == Apply(c, last);
    match last
    case Store(k, v, ttl, at) =>
    case Remove(k, _) =>
    case Read(k, at) =>
      assert LatestWrite(ops, key) == LatestWrite(prefix, key);
      assert at <= t;
  }
}
