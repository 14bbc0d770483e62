/** The response cache as an abstract key → value store with time-to-live.
    The store's client is not part of this model; only `get` (a value or
    nothing) and `set` (value with a TTL in seconds) are assumed, and the
    clock is a parameter. */
module Cache {
  import opened Seqs

  datatype Entry<V> = Entry(value: V, expiresAt: int)

  type Store<V> = map<string, Entry<V>>

  /** `get(key)` at time `now`: the stored value until it expires. */
  function Get<V>(c: Store<V>, key: string, now: int): (r: Option<V>)
    ensures r.Some? <==> key in c && now < c[key].expiresAt
    ensures r.Some? ==> r.value == c[key].value
  {
    if key in c && now < c[key].expiresAt then Some(c[key].value) else None
  }

  /** `set(key, value, ttl)` at time `now`. */
  function Put<V>(c: Store<V>, key: string, v: V, ttl: nat, now: int): (r: Store<V>)
    ensures r.Keys == c.Keys + {key}
    ensures forall k :: k in c && k != key ==> r[k] == c[k]
  {
    c[key := Entry(v, now + ttl)]
  }

  /** A value just stored with a positive TTL is read back. */
  lemma GetPut<V>(c: Store<V>, key: string, v: V, ttl: nat, now: int)
    requires ttl > 0
    ensures Get(Put(c, key, v, ttl, now), key, now) == Some(v)
    ensures forall t :: now <= t < now + ttl ==> Get(Put(c, key, v, ttl, now), key, t) == Some(v)
    ensures Get(Put(c, key, v, ttl, now), key, now + ttl) == None
  {
  }

  /** Storing under one key leaves every other key as it was. */
  lemma GetPutOther<V>(c: Store<V>, key: string, v: V, ttl: nat, now: int, other: string, t: int)
    requires other != key
    ensures Get(Put(c, key, v, ttl, now), other, t) == Get(c, other, t)
  {
  }

  /** What a cached report handler returns: the body, and the `cached`
      flag when the handler adds one. */
  datatype Served<R> = Served(cached: Option<bool>, body: R)

  /** The read-through pattern of the booth reports: a hit returns the
      stored body spread with `cached: true`; a miss stores the freshly
      computed body and returns it without a `cached` field. */
  function ReadThrough<R>(c: Store<R>, key: string, ttl: nat, now: int, computed: R): (res: (Served<R>, Store<R>))
    ensures Get(c, key, now).Some? ==>
              res.0 == Served(Some(true), Get(c, key, now).value) && res.1 == c
    ensures Get(c, key, now).None? ==>
              res.0 == Served(None, computed) && res.1 == Put(c, key, computed, ttl, now)
  {
    match Get(c, key, now)
    case Some(v) => (Served(Some(true), v), c)
    case None => (Served(None, computed), Put(c, key, computed, ttl, now))
  }

  /** A hit does not depend on what would have been computed. */
  lemma ReadThroughHit<R>(c: Store<R>, key: string, ttl: nat, now: int, a: R, b: R)
    requires Get(c, key, now).Some?
    ensures ReadThrough(c, key, ttl, now, a) == ReadThrough(c, key, ttl, now, b)
  {
  }

  /** After a miss the next read within the TTL is a hit on the same body. */
  lemma ReadThroughThenHit<R>(c: Store<R>, key: string, ttl: nat, now: int, later: int, a: R, b: R)
    requires ttl > 0 && now <= later < now + ttl
    requires Get(c, key, now).None?
    ensures var c2 := ReadThrough(c, key, ttl, now, a).1;
            ReadThrough(c2, key, ttl, later, b).0 == Served(Some(true), a)
  {
  }
}
