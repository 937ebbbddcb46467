// `RedisService` and `FxService` as they run: the Redis keys, the local map and the
// snapshot table change in place, one store at a time.
module FxService {
  import opened Wrappers
  import opened Currencies
  import opened Decimal
  import opened FxCache

  class RedisService {
    var client: bool                          // the client exists: REDIS_HOST was set
    var keys: map<Currency, RedisEntry>       // `fx:rates:<base>` on the server

    constructor (hostSet: bool, keys: map<Currency, RedisEntry>)
      ensures client == hostSet && this.keys == keys
    {
      client, this.keys := hostSet, keys;
    }

    /** An expired or evicted key is gone by the time it is read. */
    method GetJson(base: Currency, env: Env) returns (res: Result<Option<Table>, FxError>)
      modifies this`keys
      ensures forall local, snapshots, responses, ttl ::
                var before := Stores(client, ttl, old(keys), local, snapshots, responses);
                res == FxCache.GetJson(before, base, env) && keys == AfterRead(before, base, env).redis
    {
      if !client { return Ok(None); }
      if env.read == ReadThrows { return Err(RedisFailed); }
      if base in keys && Gone(keys[base], env.readAt, env.read) {
        keys := keys - {base};
      }
      if base !in keys { return Ok(None); }
      return Ok(Parse(keys[base].payload));
    }

    /** Answers whether the call returned without throwing. */
    method SetJson(base: Currency, payload: Payload, ttlSeconds: int, env: Env) returns (ok: bool)
      modifies this`keys
      ensures forall local, snapshots, responses ::
                var before := Stores(client, ttlSeconds, old(keys), local, snapshots, responses);
                var (after, wrote) := FxCache.SetJson(before, base, payload, env);
                ok == wrote && keys == after.redis
    {
      if !client { return true; }
      if env.write != WriteThrowsLost {
        if ttlSeconds > 0 {
          keys := keys[base := RedisEntry(payload, Some(env.writeAt + ttlSeconds * 1000))];
        } else {
          keys := keys[base := RedisEntry(payload, None)];
        }
      }
      return env.write == WriteOk;
    }
  }

  class FxService {
    const redis: RedisService
    const ttlSeconds: int
    const ttlMs: int
    var localCache: map<Currency, LocalEntry>
    var snapshots: seq<Snapshot>
    ghost var responses: seq<ApiResponse>

    ghost function Contents(): Stores
      reads this, redis
    {
      Stores(redis.client, ttlSeconds, redis.keys, localCache, snapshots, responses)
    }

    ghost predicate Valid()
      reads this, redis
    {
      ttlMs == TtlMs(Contents())
    }

    constructor (redis: RedisService, ttlSeconds: int, snapshots: seq<Snapshot>)
      ensures Valid() && this.redis == redis
      ensures Contents() == Stores(redis.client, ttlSeconds, redis.keys, map[], snapshots, [])
    {
      this.redis, this.ttlSeconds, this.snapshots := redis, ttlSeconds, snapshots;
      ttlMs := (if ttlSeconds > 5 then ttlSeconds else 5) * 1000;
      localCache := map[];
      responses := [];
    }

    /** Fetches, replaces the local entry, then writes Redis; any throw serves the entry seen before. */
    method FetchAndCache(base: Currency, env: Env) returns (res: Result<Table, FxError>)
      requires Valid()
      modifies this`localCache, this`responses, redis`keys
      ensures Valid() && (Contents(), res) == FxCache.FetchAndCache(old(Contents()), base, env)
    {
      var cachedLocal := if base in localCache then Some(localCache[base]) else None;
      var error := ApiFailed;
      if env.fetch.FetchOk? {
        var rates, fetchedAt := env.fetch.rates, env.fetch.at;
        localCache := localCache[base := LocalEntry(rates, fetchedAt, env.now + ttlMs)];
        responses := responses + [ApiResponse(base, rates, fetchedAt)];
        var ok := redis.SetJson(base, Json(rates, fetchedAt), ttlSeconds, env);
        if ok { return Ok(Table(rates, fetchedAt, Api)); }
        error := RedisFailed;
      }
      if cachedLocal.Some? {
        return Ok(Table(cachedLocal.value.rates, cachedLocal.value.fetchedAt, CacheLocalStale));
      }
      return Err(error);
    }

    method GetRates(base: Currency, env: Env) returns (res: Result<Table, FxError>)
      requires Valid()
      modifies this`localCache, this`responses, redis`keys
      ensures Valid() && (Contents(), res) == FxCache.GetRates(old(Contents()), base, env)
    {
      if |base| < 3 { return Err(InvalidCurrency); }
      var cachedRedis := redis.GetJson(base, env);
      match cachedRedis {
        case Err(e) => return Err(e);
        case Ok(Some(table)) => return Ok(table);
        case Ok(None) =>
      }
      if base in localCache && localCache[base].expiresAt > env.now {
        return Ok(Table(localCache[base].rates, localCache[base].fetchedAt, CacheLocal));
      }
      res := FetchAndCache(base, env);
    }

    /** Appends one snapshot unless the database refuses it; never throws. */
    method SaveSnapshot(base: Currency, target: Currency, rate: real, fetchedAt: Time, env: Env)
      modifies this`snapshots
      ensures Contents() == FxCache.SaveSnapshot(old(Contents()), base, target, rate, fetchedAt, env)
    {
      var s := Snapshot(base, target, Round8(rate), fetchedAt);
      if env.saveOk && SnapshotFits(s) {
        snapshots := snapshots + [s];
      }
    }

    /** Scans for the pair's snapshot with the greatest `fetchedAt`. */
    method GetLatestSnapshot(base: Currency, target: Currency) returns (best: Option<Snapshot>)
      ensures best == Latest(snapshots, base, target)
    {
      best := None;
      for i := 0 to |snapshots|
        invariant best == Latest(snapshots[..i], base, target)
      {
        var s := snapshots[i];
        assert snapshots[..i + 1][..i] == snapshots[..i];
        if IsFor(s, base, target) && (best.None? || best.value.fetchedAt <= s.fetchedAt) {
          best := Some(s);
        }
      }
      assert snapshots[..|snapshots|] == snapshots;
    }

    method GetRate(from: Currency, to: Currency, env: Env) returns (res: Result<Quote, FxError>)
      requires Valid()
      modifies this`localCache, this`responses, this`snapshots, redis`keys
      ensures Valid() && (Contents(), res) == FxCache.GetRate(old(Contents()), from, to, env)
    {
      if |from| < 3 || |to| < 3 { return Err(InvalidCurrency); }
      if from == to { return Ok(Quote(1.0, env.now, Static)); }
      var answer := GetRates(from, env);
      var error := RateNotAvailable;
      if answer.Ok? {
        var table := answer.value;
        var rate := TruthyRate(table.rates, to);
        if rate.Some? {
          SaveSnapshot(from, to, rate.value, table.fetchedAt, env);
          return Ok(Quote(rate.value, table.fetchedAt, table.source));
        }
      } else {
        error := answer.error;
      }
      if !env.findOk { return Err(DatabaseFailed); }
      var fallback := GetLatestSnapshot(from, to);
      if fallback.Some? {
        return Ok(Quote(fallback.value.rate, fallback.value.fetchedAt, DbFallback));
      }
      return Err(error);
    }
  }
}
