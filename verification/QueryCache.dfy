/** `QueryCacheService`: results kept per organization, fingerprint and registry version,
    for a lifetime clamped to five minutes. Decryption undoes encryption, so a row stores
    the result itself. */
module QueryCache {
  import opened Contracts
  import opened DataJobs
  import Sets

  datatype Key = Key(org: Organization, fingerprint: Fingerprint, registry: string)

  datatype Entry = Entry(result: QueryResult, createdAt: Instant, expiresAt: Instant)

  type Cache = map<Key, Entry>

  /** A result read back, with the two moments written into it. */
  datatype Hit = Hit(result: QueryResult, cachedAt: Instant, generatedAt: Instant)

  /** Lifetime in milliseconds: the seconds asked for, or the nearest end of one second to five minutes. */
  function Lifetime(ttlSeconds: int): (ms: nat)
    ensures 1000 <= ms <= 300000
    ensures 1 <= ttlSeconds <= 300 ==> ms == 1000 * ttlSeconds
    ensures ttlSeconds <= 1 ==> ms == 1000
    ensures ttlSeconds >= 300 ==> ms == 300000
  {
    var atLeastOne := if ttlSeconds < 1 then 1 else ttlSeconds;
    1000 * (if atLeastOne < 300 then atLeastOne else 300)
  }

  predicate Live(e: Entry, now: Instant) { e.expiresAt > now }

  function Lookup(cache: Cache, key: Key, now: Instant): Option<QueryResult> {
    if key in cache && Live(cache[key], now) then Some(cache[key].result) else None
  }

  function Store(cache: Cache, key: Key, result: QueryResult, ttlSeconds: int, now: Instant): Cache {
    cache[key := Entry(result, now, now + Lifetime(ttlSeconds))]
  }

  function Purged(cache: Cache, now: Instant): Cache {
    map k | k in cache && Live(cache[k], now) :: cache[k]
  }

  datatype Operation =
    | Put(key: Key, result: QueryResult, ttlSeconds: int)
    | Purge
    | Wait(ms: nat)

  /** The cache and the clock after some operations. */
  function After(ops: seq<Operation>, cache: Cache, now: Instant): (Cache, Instant) {
    if ops == [] then (cache, now)
    else
      var (c, t) := After(ops[..|ops| - 1], cache, now);
      match ops[|ops| - 1]
      case Put(key, result, ttl) => (Store(c, key, result, ttl, t), t)
      case Purge => (Purged(c, t), t)
      case Wait(ms) => (c, t + ms)
  }

  /** Time spent waiting over some operations. */
  function Elapsed(ops: seq<Operation>): nat {
    if ops == [] then 0
    else Elapsed(ops[..|ops| - 1]) + (if ops[|ops| - 1].Wait? then ops[|ops| - 1].ms else 0)
  }

  /** However many purges and puts under other keys intervene, a lookup answers the last result
      put under its own key, and does so exactly while that result's lifetime lasts. */
  lemma {:induction false} LookupAnswersLastPut(cache: Cache, key: Key, result: QueryResult, ttl: int, now: Instant,
                                                ops: seq<Operation>)
    requires forall i :: 0 <= i < |ops| && ops[i].Put? ==> ops[i].key != key
    ensures var (c, t) := After(ops, Store(cache, key, result, ttl, now), now);
      && t == now + Elapsed(ops)
      && Lookup(c, key, t) == (if Elapsed(ops) < Lifetime(ttl) then Some(result) else None)
      && (key in c ==> c[key] == Entry(result, now, now + Lifetime(ttl)))
  {
    if ops != [] {
      LookupAnswersLastPut(cache, key, result, ttl, now, ops[..|ops| - 1]);
    }
  }

  /** Purging never changes what any lookup answers, now or later. */
  lemma PurgeIsInvisible(cache: Cache, key: Key, now: Instant, later: Instant)
    requires now <= later
    ensures Lookup(Purged(cache, now), key, later) == Lookup(cache, key, later)
  {
  }

  class QueryCacheService {
    var rows: Cache

    constructor ()
      ensures rows == map[]
    {
      rows := map[];
    }

    /** `get`: the moment the result was put, and the present one, go into its `meta`. */
    method Get(key: Key, now: Instant) returns (r: Option<Hit>)
      ensures r.Some? <==> Lookup(rows, key, now).Some?
      ensures r.Some? ==> r.value == Hit(Lookup(rows, key, now).value, rows[key].createdAt, now)
    {
      if key !in rows || rows[key].expiresAt <= now { return None; }
      r := Some(Hit(rows[key].result, rows[key].createdAt, now));
    }

    method Put(key: Key, result: QueryResult, ttlSeconds: int, now: Instant)
      modifies this
      ensures rows == Store(old(rows), key, result, ttlSeconds, now)
    {
      var ttl := if ttlSeconds > 1 then ttlSeconds else 1;
      if ttl > 300 { ttl := 300; }
      rows := rows[key := Entry(result, now, now + ttl * 1000)];
    }

    method PurgeExpired(enabled: bool, now: Instant) returns (count: nat)
      modifies this
      ensures rows == if enabled then Purged(old(rows), now) else old(rows)
      ensures count == |old(rows)| - |rows|
    {
      if !enabled { return 0; }
      var kept := map k | k in rows && rows[k].expiresAt > now :: rows[k];
      assert kept.Keys <= rows.Keys;
      assert kept == Purged(rows, now);
      Sets.SubsetSize(kept.Keys, rows.Keys);
      assert |kept| == |kept.Keys| && |rows| == |rows.Keys|;
      count := |rows| - |kept|;
      rows := kept;
    }
  }
}
