// The tiered rate lookup of `FxService`: Redis, the process's own map, the API, the
// stale map entry and the snapshot table, as a function of what the outside did.
module FxCache {
  import opened Wrappers
  import opened Currencies
  import opened Decimal

  type Time = int   // milliseconds
  type Rates = map<Currency, real>

  datatype FxError = InvalidCurrency | RedisFailed | ApiFailed | RateNotAvailable | DatabaseFailed

  /** What a Redis key holds: the JSON this service wrote, or text that does not parse. */
  datatype Payload = Json(rates: Rates, fetchedAt: Time) | Garbage
  datatype RedisEntry = RedisEntry(payload: Payload, expiresAt: Option<Time>)

  datatype LocalEntry = LocalEntry(rates: Rates, fetchedAt: Time, expiresAt: Time)
  datatype Snapshot = Snapshot(base: Currency, target: Currency, rate: real, fetchedAt: Time)

  /** One successful answer of the rate provider. */
  datatype ApiResponse = ApiResponse(base: Currency, rates: Rates, fetchedAt: Time)

  datatype Source = Redis | CacheLocal | Api | CacheLocalStale | Static | DbFallback

  /** What `getRates` and `getRate` answer. */
  datatype Table = Table(rates: Rates, fetchedAt: Time, source: Source)
  datatype Quote = Quote(rate: real, fetchedAt: Time, source: Source)

  // ---------- The outside ----------

  datatype Read = ReadOk | ReadThrows | ReadAfterEviction
  datatype Write = WriteOk | WriteThrowsLost | WriteThrowsApplied
  datatype Fetch = FetchFails | FetchOk(rates: Rates, at: Time)

  /** One call's share of the outside: when things happened and which of them failed. */
  datatype Env = Env(
    now: Time, readAt: Time, read: Read, fetch: Fetch, writeAt: Time, write: Write,
    saveOk: bool, findOk: bool)

  // ---------- The stores ----------

  /** The stores a process sees, with the API responses so far as history. */
  datatype Stores = Stores(
    redisOn: bool, ttlSeconds: int,
    redis: map<Currency, RedisEntry>, local: map<Currency, LocalEntry>,
    snapshots: seq<Snapshot>, responses: seq<ApiResponse>)

  function TtlMs(st: Stores): int {
    (if st.ttlSeconds > 5 then st.ttlSeconds else 5) * 1000
  }

  // ---------- RedisService ----------

  predicate Gone(entry: RedisEntry, at: Time, read: Read) {
    read == ReadAfterEviction || (entry.expiresAt.Some? && entry.expiresAt.value <= at)
  }

  /** The keys that survive a read: an expired or evicted one is dropped. */
  function AfterRead(st: Stores, base: Currency, env: Env): Stores {
    if st.redisOn && env.read != ReadThrows && base in st.redis && Gone(st.redis[base], env.readAt, env.read)
    then st.(redis := st.redis - {base})
    else st
  }

  function Parse(payload: Payload): Option<Table> {
    match payload
    case Json(rates, fetchedAt) => Some(Table(rates, fetchedAt, Redis))
    case Garbage => None
  }

  /** `getJson`: absent when Redis is off, has no live key, or holds text that does not parse. */
  function GetJson(st: Stores, base: Currency, env: Env): Result<Option<Table>, FxError> {
    if !st.redisOn then Ok(None)
    else if env.read == ReadThrows then Err(RedisFailed)
    else
      var after := AfterRead(st, base, env);
      Ok(if base in after.redis then Parse(after.redis[base].payload) else None)
  }

  /** `setJson`: with an expiry only for a positive TTL. */
  function WrittenEntry(st: Stores, payload: Payload, env: Env): RedisEntry {
    RedisEntry(payload, if st.ttlSeconds > 0 then Some(env.writeAt + st.ttlSeconds * 1000) else None)
  }

  function SetJson(st: Stores, base: Currency, payload: Payload, env: Env): (Stores, bool) {
    if !st.redisOn then (st, true)
    else
      (if env.write == WriteThrowsLost then st else st.(redis := st.redis[base := WrittenEntry(st, payload, env)]),
       env.write == WriteOk)
  }

  // ---------- FxService ----------

  function Stale(st: Stores, base: Currency, error: FxError): Result<Table, FxError> {
    if base in st.local then Ok(Table(st.local[base].rates, st.local[base].fetchedAt, CacheLocalStale)) else Err(error)
  }

  /** The fetch branch: the local entry is replaced before Redis is written, and a failed write still serves the old one. */
  function FetchAndCache(st: Stores, base: Currency, env: Env): (Stores, Result<Table, FxError>) {
    match env.fetch
    case FetchFails => (st, Stale(st, base, ApiFailed))
    case FetchOk(rates, at) =>
      var cached := st.(
        local := st.local[base := LocalEntry(rates, at, env.now + TtlMs(st))],
        responses := st.responses + [ApiResponse(base, rates, at)]);
      var (written, ok) := SetJson(cached, base, Json(rates, at), env);
      (written, if ok then Ok(Table(rates, at, Api)) else Stale(st, base, RedisFailed))
  }

  function GetRates(st: Stores, base: Currency, env: Env): (Stores, Result<Table, FxError>) {
    if |base| < 3 then (st, Err(InvalidCurrency))
    else
      match GetJson(st, base, env)
      case Err(e) => (st, Err(e))
      case Ok(Some(table)) => (st, Ok(table))
      case Ok(None) =>
        var after := AfterRead(st, base, env);
        if base in after.local && after.local[base].expiresAt > env.now then
          (after, Ok(Table(after.local[base].rates, after.local[base].fetchedAt, CacheLocal)))
        else FetchAndCache(after, base, env)
  }

  /** `!rate` is true of a missing rate and of zero. */
  function TruthyRate(rates: Rates, target: Currency): Option<real> {
    if target in rates && rates[target] != 0.0 then Some(rates[target]) else None
  }

  /** The snapshot table can hold this row; its rate is decimal(18, 8). */
  predicate SnapshotFits(s: Snapshot) {
    Abs(s.rate) < 10000000000.0 && |s.base| <= CODE_LENGTH && |s.target| <= CODE_LENGTH
  }

  /** `saveSnapshot`: the column keeps eight decimals, and a failure is swallowed. */
  function SaveSnapshot(st: Stores, base: Currency, target: Currency, rate: real, fetchedAt: Time, env: Env): Stores {
    var s := Snapshot(base, target, Round8(rate), fetchedAt);
    if env.saveOk && SnapshotFits(s) then st.(snapshots := st.snapshots + [s]) else st
  }

  predicate IsFor(s: Snapshot, base: Currency, target: Currency) {
    s.base == base && s.target == target
  }

  /** `getLatestSnapshot`: the greatest `fetchedAt`; among equals the last one saved. */
  function Latest(snapshots: seq<Snapshot>, base: Currency, target: Currency): Option<Snapshot> {
    if snapshots == [] then None
    else
      var s, best := snapshots[|snapshots| - 1], Latest(snapshots[..|snapshots| - 1], base, target);
      if IsFor(s, base, target) && (best.None? || best.value.fetchedAt <= s.fetchedAt) then Some(s) else best
  }

  function FallBack(st: Stores, from: Currency, to: Currency, env: Env, error: FxError): Result<Quote, FxError> {
    if !env.findOk then Err(DatabaseFailed)
    else
      match Latest(st.snapshots, from, to)
      case Some(s) => Ok(Quote(s.rate, s.fetchedAt, DbFallback))
      case None => Err(error)
  }

  function GetRate(st: Stores, from: Currency, to: Currency, env: Env): (Stores, Result<Quote, FxError>) {
    if |from| < 3 || |to| < 3 then (st, Err(InvalidCurrency))
    else if from == to then (st, Ok(Quote(1.0, env.now, Static)))
    else
      var (after, answer) := GetRates(st, from, env);
      match answer
      case Err(e) => (after, FallBack(after, from, to, env, e))
      case Ok(table) =>
        match TruthyRate(table.rates, to)
        case None => (after, FallBack(after, from, to, env, RateNotAvailable))
        case Some(rate) =>
          (SaveSnapshot(after, from, to, rate, table.fetchedAt, env), Ok(Quote(rate, table.fetchedAt, table.source)))
  }
}
