// What every call to the rate service answers and leaves behind: which condition gives
// which error, which entries change and which never do.
module FxOutcomes {
  import opened Wrappers
  import opened Currencies
  import opened Decimal
  import opened FxCache
  import opened FxLaws

  // ---------- Codes ----------

  /** A code under three characters is refused before any store is touched. */
  lemma ShortCodesRefused(st: Stores, from: Currency, to: Currency, env: Env)
    ensures |from| < 3 ==> GetRates(st, from, env) == (st, Err(InvalidCurrency))
    ensures |from| < 3 || |to| < 3 ==> GetRate(st, from, to, env) == (st, Err(InvalidCurrency))
  {
  }

  /** A currency against itself is one, now, without looking anywhere. */
  lemma StaticRate(st: Stores, code: Currency, env: Env)
    requires |code| >= 3
    ensures GetRate(st, code, code, env) == (st, Ok(Quote(1.0, env.now, Static)))
  {
  }

  /** Only a currency against itself is answered statically. */
  lemma StaticIff(st: Stores, from: Currency, to: Currency, env: Env)
    requires GetRate(st, from, to, env).1.Ok?
    ensures GetRate(st, from, to, env).1.value.source == Static <==> from == to
  {
    GetRatesSource(st, from, env);
  }

  // ---------- Which error ----------

  /** Neither Redis nor the local map can answer, so the provider is asked. */
  predicate Misses(st: Stores, base: Currency, env: Env) {
    |base| >= 3 && !(st.redisOn && env.read == ReadThrows) && !RedisHit(st, base, env) && !LocalHit(st, base, env)
  }

  /** Exactly when `getRates` fails, and with which error. */
  lemma TableFailsIff(st: Stores, base: Currency, env: Env)
    ensures var answer := GetRates(st, base, env).1;
            var unserved := Misses(st, base, env) && base !in st.local;
            && (answer == Err(InvalidCurrency) <==> |base| < 3)
            && (answer == Err(ApiFailed) <==> unserved && env.fetch.FetchFails?)
            && (answer == Err(RedisFailed) <==>
                  |base| >= 3 && st.redisOn
                  && (env.read == ReadThrows || (unserved && env.fetch.FetchOk? && env.write != WriteOk)))
            && (answer.Err? ==> answer.error in {InvalidCurrency, ApiFailed, RedisFailed})
  {
  }

  /** A `getRate` of two different currencies: the table's rate with its snapshot, or else the fallback or an error. */
  lemma QuoteOutcome(st: Stores, from: Currency, to: Currency, env: Env)
    requires |from| >= 3 && |to| >= 3 && from != to
    ensures var (mid, table) := GetRates(st, from, env);
            var (after, answer) := GetRate(st, from, to, env);
            if table.Ok? && to in table.value.rates && table.value.rates[to] != 0.0 then
              var rate, t := table.value.rates[to], table.value.fetchedAt;
              var saved := env.saveOk && DecimalHolds(18, 8, Round8(rate)) && |from| <= 10 && |to| <= 10;
              && answer == Ok(Quote(rate, t, table.value.source))
              && after == mid.(snapshots := st.snapshots + if saved then [Snapshot(from, to, Round8(rate), t)] else [])
            else
              && after == mid && mid.snapshots == st.snapshots
              && (answer == Err(DatabaseFailed) <==> !env.findOk)
              && (env.findOk ==>
                    if Latest(st.snapshots, from, to).None? then
                      answer == Err(if table.Err? then table.error else RateNotAvailable)
                    else
                      var s := Latest(st.snapshots, from, to).value;
                      answer == Ok(Quote(s.rate, s.fetchedAt, DbFallback)))
  {
    Powers();
    GetRatesKeepsSnapshots(st, from, env);
    var table := GetRates(st, from, env).1;
    if table.Err? { TableFailsIff(st, from, env); }
    if !NoRate(table, to) { Round8Integral(table.value.rates[to]); }
  }

  // ---------- What a call leaves ----------

  /** Nothing but this base's entries is different. */
  ghost predicate OnlyBase(st: Stores, after: Stores, base: Currency) {
    && after.redisOn == st.redisOn && after.ttlSeconds == st.ttlSeconds
    && after.local - {base} == st.local - {base} && after.redis - {base} == st.redis - {base}
  }

  function Longest(a: int, b: int): int {
    if a > b then a else b
  }

  lemma FetchFrame(st: Stores, base: Currency, env: Env)
    ensures OnlyBase(st, FetchAndCache(st, base, env).0, base)
  {
    var after := FetchAndCache(st, base, env).0;
    assert after.local - {base} == st.local - {base};
    assert after.redis - {base} == st.redis - {base};
  }

  /** A call for one base leaves every other base's entries, and the snapshots, as they were. */
  lemma TableFrame(st: Stores, base: Currency, env: Env)
    ensures OnlyBase(st, GetRates(st, base, env).0, base) && GetRates(st, base, env).0.snapshots == st.snapshots
  {
    var after := AfterRead(st, base, env);
    assert after.redis - {base} == st.redis - {base};
    FetchFrame(after, base, env);
    GetRatesKeepsSnapshots(st, base, env);
  }

  /** The same of `getRate`, which only adds snapshots of its own pair. */
  lemma QuoteFrame(st: Stores, from: Currency, to: Currency, env: Env)
    ensures var after := GetRate(st, from, to, env).0;
            && OnlyBase(st, after, from)
            && st.snapshots <= after.snapshots && |after.snapshots| <= |st.snapshots| + 1
            && (forall i :: |st.snapshots| <= i < |after.snapshots| ==> IsFor(after.snapshots[i], from, to))
  {
    TableFrame(st, from, env);
  }

  /** What a call leaves of its own base in the local map: the fetched table for its time to live of at least five
      seconds, whatever became of the Redis write, and otherwise what was there. */
  lemma LocalAfter(st: Stores, base: Currency, env: Env)
    ensures var local := GetRates(st, base, env).0.local;
            if Misses(st, base, env) && env.fetch.FetchOk? then
              base in local
              && local[base] == LocalEntry(env.fetch.rates, env.fetch.at, env.now + 1000 * Longest(5, st.ttlSeconds))
            else
              local == st.local
  {
  }

  /** What it leaves in Redis: the fetched table until its time to live if the write lands, nothing of a dead key,
      and otherwise what was there. */
  lemma RedisAfter(st: Stores, base: Currency, env: Env)
    ensures var redis := GetRates(st, base, env).0.redis;
            var read := |base| >= 3 && st.redisOn && env.read != ReadThrows;
            if read && Misses(st, base, env) && env.fetch.FetchOk? && env.write != WriteThrowsLost then
              base in redis
              && redis[base] == RedisEntry(Json(env.fetch.rates, env.fetch.at),
                                           if st.ttlSeconds > 0 then Some(env.writeAt + 1000 * st.ttlSeconds) else None)
            else if read && base in st.redis && Gone(st.redis[base], env.readAt, env.read) then
              redis == st.redis - {base}
            else
              redis == st.redis
  {
  }

  // ---------- A fetched table over a run ----------

  predicate ForOther(call: Call, base: Currency) {
    if call.RateCall? then call.from != base else call.base != base
  }

  /** Calls for other bases leave this one's entries alone. */
  lemma {:induction false} OthersLeaveBase(st: Stores, calls: seq<Call>, base: Currency)
    requires forall i :: 0 <= i < |calls| ==> ForOther(calls[i], base)
    ensures var after := After(st, calls);
            && after.redisOn == st.redisOn && after.ttlSeconds == st.ttlSeconds
            && (base in after.local <==> base in st.local) && (base in st.local ==> after.local[base] == st.local[base])
            && (base in after.redis <==> base in st.redis) && (base in st.redis ==> after.redis[base] == st.redis[base])
  {
    if calls != [] {
      var n := |calls| - 1;
      OthersLeaveBase(st, calls[..n], base);
      OtherLeavesBase(After(st, calls[..n]), calls[n], base);
    }
  }

  lemma OtherLeavesBase(st: Stores, call: Call, base: Currency)
    requires ForOther(call, base)
    ensures var after := Perform(st, call);
            && after.redisOn == st.redisOn && after.ttlSeconds == st.ttlSeconds
            && (base in after.local <==> base in st.local) && (base in st.local ==> after.local[base] == st.local[base])
            && (base in after.redis <==> base in st.redis) && (base in st.redis ==> after.redis[base] == st.redis[base])
  {
    var after, asked := Perform(st, call), if call.RateCall? then call.from else call.base;
    if call.RateCall? { QuoteFrame(st, call.from, call.to, call.env); } else { TableFrame(st, call.base, call.env); }
    assert base in after.local - {asked} <==> base in after.local;
    assert base in after.redis - {asked} <==> base in after.redis;
    if base in st.local { assert (st.local - {asked})[base] == (after.local - {asked})[base]; }
    if base in st.redis { assert (st.redis - {asked})[base] == (after.redis - {asked})[base]; }
  }

  lemma ApiAnswerMissed(st: Stores, base: Currency, env: Env)
    requires GetRates(st, base, env).1.Ok? && GetRates(st, base, env).1.value.source == Api
    ensures Misses(st, base, env) && env.fetch.FetchOk? && (st.redisOn ==> env.write == WriteOk)
    ensures GetRates(st, base, env).1.value == Table(env.fetch.rates, env.fetch.at, Api)
  {
    ShortCodesRefused(st, base, base, env);
  }

  /** After an API answer, and any calls for other bases, the same table is served without another fetch: from Redis
      exactly until its time to live, and else exactly for the local one. */
  lemma FetchedThenServed(st: Stores, base: Currency, first: Env, between: seq<Call>, second: Env)
    requires GetRates(st, base, first).1.Ok? && GetRates(st, base, first).1.value.source == Api
    requires forall i :: 0 <= i < |between| ==> ForOther(between[i], base)
    requires !(st.redisOn && second.read == ReadThrows)
    ensures var (cached, answer) := GetRates(st, base, first);
            var later := After(cached, between);
            var (after, again) := GetRates(later, base, second);
            var kept := st.redisOn && second.read == ReadOk
                        && (st.ttlSeconds > 0 ==> second.readAt < first.writeAt + 1000 * st.ttlSeconds);
            var near := second.now < first.now + 1000 * Longest(5, st.ttlSeconds);
            && (kept || near ==>
                  && again == Ok(answer.value.(source := if kept then Redis else CacheLocal))
                  && after.responses == later.responses)
            && (!kept && !near && again.Ok? ==> again.value.source in {Api, CacheLocalStale})
  {
    ApiAnswerMissed(st, base, first);
    LocalAfter(st, base, first);
    RedisAfter(st, base, first);
    TableFrame(st, base, first);
    var cached := GetRates(st, base, first).0;
    OthersLeaveBase(cached, between, base);
    CachedIsServed(After(cached, between), base, second);
    TierOrder(After(cached, between), base, second);
  }

  /** The provider being down does not lose a table fetched for another base meanwhile: EUR fetched at 0 s, USD at
      10 s, and EUR asked again at 20 s without Redis. */
  lemma OtherFetchKeepsTable(rates: Rates, others: Rates)
    ensures var st := Stores(false, 60, map[], map[], [], []);
            var calls := [TableCall("EUR", Env(0, 0, ReadOk, FetchOk(rates, 0), 0, WriteOk, true, true)),
                          TableCall("USD", Env(10000, 10000, ReadOk, FetchOk(others, 10000), 10000, WriteOk, true, true)),
                          TableCall("EUR", Env(20000, 20000, ReadOk, FetchFails, 20000, WriteOk, true, true))];
            TableAnswer(st, calls, 2) == Ok(Table(rates, 0, CacheLocal))
  {
    var st := Stores(false, 60, map[], map[], [], []);
    var first := Env(0, 0, ReadOk, FetchOk(rates, 0), 0, WriteOk, true, true);
    var usd := TableCall("USD", Env(10000, 10000, ReadOk, FetchOk(others, 10000), 10000, WriteOk, true, true));
    var second := Env(20000, 20000, ReadOk, FetchFails, 20000, WriteOk, true, true);
    var calls := [TableCall("EUR", first), usd, TableCall("EUR", second)];
    assert |"EUR"| == 3 && "EUR"[0] != "USD"[0];
    FetchedThenServed(st, "EUR", first, [usd], second);
    AfterOne(st, calls);
    AfterConcat(st, [calls[0]], [usd]);
    assert calls[..2] == [calls[0]] + [usd] && calls[..1] == [calls[0]];
  }
}
