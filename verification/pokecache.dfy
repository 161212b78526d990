/** The TTL cache engine of internal/pokecache/pokecache.go.

    The Go `Cache` is a mutex-guarded `map[string]cacheEntry`. Every public
    method takes the lock for its whole body, so each call is atomic and the
    store can be modelled as an immutable map transformed by pure functions.
    The wall clock (`time.Now()`) becomes an explicit integer timestamp in
    nanoseconds. */
module PokeCache {

  /** Raw response bytes as stored in the cache. */
  type Bytes = seq<bv8>

  /** A point in time, in nanoseconds. */
  type Time = int

  /** A `time.Duration`, in nanoseconds. */
  type Duration = int

  /** One cached item: the moment it was stored and the stored bytes. */
  datatype CacheEntry = CacheEntry(createdAt: Time, val: Bytes)

  /** The cache store: URL-like keys to entries. */
  type Cache = map<string, CacheEntry>

  /** `NewCache`: an empty store. The interval is accepted and ignored: the
      source never starts the reaping loop, so nothing else is created. */
  function NewCache(interval: Duration): (c: Cache)
    ensures forall key :: Get(c, key) == ([], false)
  {
    map[]
  }

  /** `Add`: inserts or replaces the entry for `key`, stamped with `now`. */
  function Add(c: Cache, key: string, value: Bytes, now: Time): (r: Cache)
    ensures r.Keys == c.Keys + {key}
    ensures r[key] == CacheEntry(now, value)
    ensures forall k :: k in c && k != key ==> r[k] == c[k]
  {
    c[key := CacheEntry(now, value)]
  }

  /** `Get`: the stored bytes and `true` on a hit; on a miss the zero entry's
      bytes (nil, modelled as the empty sequence) and `false`. The store
      itself is a value, so a lookup cannot change it. */
  function Get(c: Cache, key: string): (r: (Bytes, bool))
    ensures r.1 <==> key in c
    ensures r.1 ==> r.0 == c[key].val
    ensures !r.1 ==> r.0 == []
  {
    if key in c then (c[key].val, true) else ([], false)
  }

  /** The reaping test: `createdAt.Before(now.Add(-last))`, a strict
      comparison, so an entry expires once its age exceeds `last`. */
  predicate Expired(e: CacheEntry, now: Time, last: Duration): (expired: bool)
    ensures expired <==> now - e.createdAt > last
  {
    e.createdAt < now - last
  }

  /** `reap`, as a set comprehension: the entries that are not expired, with
      their values untouched. */
  function Reap(c: Cache, now: Time, last: Duration): (r: Cache)
    ensures r.Keys <= c.Keys
    ensures forall k :: k in c ==> (k in r <==> !Expired(c[k], now, last))
    ensures forall k :: k in r ==> r[k] == c[k]
  {
    map k | k in c && !Expired(c[k], now, last) :: c[k]
  }

  /** `reap`, as the source writes it: range over the store and delete each
      expired key in turn. It computes exactly `Reap`. */
  method ReapByDeletion(c: Cache, now: Time, last: Duration) returns (r: Cache)
    ensures r == Reap(c, now, last)
  {
    r := c;
    var pending := c.Keys;
    while pending != {}
      invariant pending <= c.Keys
      invariant r.Keys <= c.Keys
      invariant forall k :: k in c ==> (k in r <==> k in pending || !Expired(c[k], now, last))
      invariant forall k :: k in r ==> r[k] == c[k]
      decreases pending
    {
      var k :| k in pending;
      if Expired(c[k], now, last) {
        r := r - {k};
      }
      pending := pending - {k};
    }
  }

  /** An entry whose age is exactly the interval survives: `Before` is strict. */
  lemma BoundaryEntrySurvives(c: Cache, key: string, now: Time, last: Duration)
    requires key in c && c[key].createdAt == now - last
    ensures Get(Reap(c, now, last), key) == (c[key].val, true)
  {
  }

  /** Expiry of a single entry: stored at `t0`, it is gone after a reap at
      `now` exactly when `now` is past `t0 + last`; at `t0 + last` or earlier
      it is still there. */
  lemma ReapRemovesIffPastInterval(c: Cache, key: string, value: Bytes, t0: Time, now: Time, last: Duration)
    ensures Get(Reap(Add(c, key, value, t0), now, last), key).1 <==> now <= t0 + last
  {
  }

  /** A stored zero-length value is a hit, distinct from a miss. */
  lemma EmptyValueIsAHit(c: Cache, key: string, now: Time)
    ensures Get(Add(c, key, [], now), key) == ([], true)
    ensures key !in c ==> Get(c, key) == ([], false)
  {
  }

  /** Reaping twice with the same clock and interval is reaping once. */
  lemma ReapIdempotent(c: Cache, now: Time, last: Duration)
    ensures Reap(Reap(c, now, last), now, last) == Reap(c, now, last)
  {
  }

  /** A later `Add` for the same key replaces both the value and the
      timestamp, and leaves every other key as it was. */
  lemma AddOverwrites(c: Cache, key: string, v1: Bytes, t1: Time, v2: Bytes, t2: Time)
    ensures Add(Add(c, key, v1, t1), key, v2, t2) == Add(c, key, v2, t2)
    ensures Get(Add(Add(c, key, v1, t1), key, v2, t2), key) == (v2, true)
  {
  }

  /** The operations a caller can apply to a cache. */
  datatype Op =
    | AddOp(key: string, value: Bytes, at: Time)
    | GetOp(key: string)
    | ReapOp(now: Time, last: Duration)

  /** The store after one operation; a lookup leaves it unchanged. */
  function Apply(c: Cache, op: Op): Cache
  {
    match op
    case AddOp(k, v, t) => Add(c, k, v, t)
    case GetOp(_) => c
    case ReapOp(now, last) => Reap(c, now, last)
  }

  /** The store after a sequence of operations, in order. */
  function Run(c: Cache, ops: seq<Op>): Cache
    decreases |ops|
  {
    if ops == [] then c else Run(Apply(c, ops[0]), ops[1..])
  }

  /** `op` neither overwrites `key` nor reaps an entry for it created at `at`. */
  predicate Keeps(op: Op, key: string, at: Time)
  {
    match op
    case AddOp(k, _, _) => k != key
    case GetOp(_) => true
    case ReapOp(now, last) => !(at < now - last)
  }

  /** Read-after-write: once `Add(key, value)` has happened at time `at`,
      `Get(key)` answers `(value, true)` after any run of operations that
      neither overwrites `key` nor reaps it. */
  lemma {:induction false} ReadAfterWrite(c: Cache, key: string, value: Bytes, at: Time, ops: seq<Op>)
    requires forall i :: 0 <= i < |ops| ==> Keeps(ops[i], key, at)
    ensures Get(Run(Add(c, key, value, at), ops), key) == (value, true)
  {
    StoredEntryPersists(Add(c, key, value, at), key, CacheEntry(at, value), ops);
  }

  lemma {:induction false} StoredEntryPersists(c: Cache, key: string, e: CacheEntry, ops: seq<Op>)
    requires key in c && c[key] == e
    requires forall i :: 0 <= i < |ops| ==> Keeps(ops[i], key, e.createdAt)
    ensures key in Run(c, ops) && Run(c, ops)[key] == e
    decreases |ops|
  {
    if ops != [] {
      var next := Apply(c, ops[0]);
      assert Keeps(ops[0], key, e.createdAt);
      assert key in next && next[key] == e;
      forall i | 0 <= i < |ops[1..]|
        ensures Keeps(ops[1..][i], key, e.createdAt)
      {
        assert ops[1..][i] == ops[i + 1];
      }
      StoredEntryPersists(next, key, e, ops[1..]);
    }
  }

  /** A reap never adds a key, so replaying reaps can only shrink the store. */
  lemma {:induction false} ReapsOnlyShrink(c: Cache, ops: seq<Op>)
    requires forall i :: 0 <= i < |ops| ==> ops[i].ReapOp?
    ensures Run(c, ops).Keys <= c.Keys
    ensures forall k :: k in Run(c, ops) ==> Run(c, ops)[k] == c[k]
    decreases |ops|
  {
    if ops != [] {
      var next := Apply(c, ops[0]);
      forall i | 0 <= i < |ops[1..]|
        ensures ops[1..][i].ReapOp?
      {
        assert ops[1..][i] == ops[i + 1];
      }
      ReapsOnlyShrink(next, ops[1..]);
    }
  }

  /** A worked example with a 100 ms interval: "a" is stored at
      t = 0, still readable at 50 ms, and gone after a reap at 150 ms. */
  lemma HundredMillisecondScenario()
    ensures var c := Add(NewCache(100_000_000), "a", [1, 2, 3], 0);
            && Get(c, "a") == ([1, 2, 3], true)
            && Get(Reap(c, 50_000_000, 100_000_000), "a") == ([1, 2, 3], true)
            && Get(Reap(c, 150_000_000, 100_000_000), "a") == ([], false)
  {
  }
}
