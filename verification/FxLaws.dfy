// Laws of the rate cache over whole runs of calls, one call after another.
module FxLaws {
  import opened Wrappers
  import opened Currencies
  import opened Decimal
  import opened FxCache

  // ---------- Runs ----------

  datatype Call = RateCall(from: Currency, to: Currency, env: Env) | TableCall(base: Currency, env: Env)

  function Perform(st: Stores, call: Call): Stores {
    match call
    case RateCall(from, to, env) => GetRate(st, from, to, env).0
    case TableCall(base, env) => GetRates(st, base, env).0
  }

  function After(st: Stores, calls: seq<Call>): Stores {
    if calls == [] then st else Perform(After(st, calls[..|calls| - 1]), calls[|calls| - 1])
  }

  /** The i-th call of a run, when it asked for a rate. */
  function Answer(st: Stores, calls: seq<Call>, i: nat): Result<Quote, FxError>
    requires i < |calls| && calls[i].RateCall?
  {
    GetRate(After(st, calls[..i]), calls[i].from, calls[i].to, calls[i].env).1
  }

  /** The i-th call of a run, when it asked for a table. */
  function TableAnswer(st: Stores, calls: seq<Call>, i: nat): Result<Table, FxError>
    requires i < |calls| && calls[i].TableCall?
  {
    GetRates(After(st, calls[..i]), calls[i].base, calls[i].env).1
  }

  /** Within a call the clock does not run backwards. */
  predicate InOrder(env: Env) {
    env.now <= env.readAt <= env.writeAt && (env.fetch.FetchOk? ==> env.readAt <= env.fetch.at <= env.writeAt)
  }

  /** Calls do not overlap and the clock does not run backwards. */
  ghost predicate Timed(calls: seq<Call>, start: Time) {
    forall i: nat :: i < |calls| ==> CallInOrder(calls, start, i)
  }

  predicate CallInOrder(calls: seq<Call>, start: Time, i: nat)
    requires i < |calls|
  {
    InOrder(calls[i].env) && ClockBefore(calls, start, i) <= calls[i].env.now
  }

  function ClockBefore(calls: seq<Call>, start: Time, i: nat): Time
    requires i <= |calls|
  {
    if i == 0 then start else calls[i - 1].env.writeAt
  }

  // ---------- Coherence of the tiers ----------

  /** A key Redis can still serve a table from. */
  predicate Served(st: Stores, base: Currency) {
    st.redisOn && base in st.redis && st.redis[base].payload.Json?
  }

  /** Redis is never ahead of the local map, the snapshots never ahead of either, nothing ahead of the clock. */
  ghost predicate Coherent(st: Stores, clock: Time) {
    && (forall b :: Served(st, b) ==>
          st.redis[b].payload.fetchedAt <= clock && (b in st.local ==> st.redis[b].payload.fetchedAt <= st.local[b].fetchedAt))
    && (forall b :: b in st.local ==> st.local[b].fetchedAt <= clock)
    && (forall s :: s in st.snapshots ==> s.fetchedAt <= clock && NotAhead(st, s.base, s.fetchedAt))
  }

  /** Nothing the caches can still answer for this base is older than t. */
  ghost predicate NotAhead(st: Stores, base: Currency, t: Time) {
    && (Served(st, base) ==> t <= st.redis[base].payload.fetchedAt)
    && (base in st.local ==> t <= st.local[base].fetchedAt)
  }

  /** Dropping a key keeps coherence, and leaves nothing of that base in Redis that could be served. */
  lemma AfterReadCoherent(st: Stores, base: Currency, env: Env, clock: Time)
    requires Coherent(st, clock)
    ensures Coherent(AfterRead(st, base, env), clock)
  {
  }

  lemma MissServesNothing(st: Stores, base: Currency, env: Env)
    requires GetJson(st, base, env) == Ok(None)
    ensures !Served(AfterRead(st, base, env), base)
  {
  }

  lemma FetchCoherent(st: Stores, base: Currency, env: Env, clock: Time)
    requires Coherent(st, clock) && clock <= env.now && InOrder(env) && !Served(st, base)
    ensures Coherent(FetchAndCache(st, base, env).0, env.writeAt)
  {
    var after := FetchAndCache(st, base, env).0;
    forall s | s in after.snapshots
      ensures s.fetchedAt <= env.writeAt && NotAhead(after, s.base, s.fetchedAt)
    {
      assert s in st.snapshots && NotAhead(st, s.base, s.fetchedAt);
    }
  }

  lemma CoherentLater(st: Stores, clock: Time, later: Time)
    requires Coherent(st, clock) && clock <= later
    ensures Coherent(st, later)
  {
  }

  lemma GetRatesCoherent(st: Stores, base: Currency, env: Env, clock: Time)
    requires Coherent(st, clock) && clock <= env.now && InOrder(env)
    ensures Coherent(GetRates(st, base, env).0, env.writeAt)
  {
    AfterReadCoherent(st, base, env, clock);
    CoherentLater(st, clock, env.writeAt);
    CoherentLater(AfterRead(st, base, env), clock, env.writeAt);
    if |base| >= 3 && GetJson(st, base, env) == Ok(None) {
      MissServesNothing(st, base, env);
      FetchCoherent(AfterRead(st, base, env), base, env, clock);
    }
  }

  /** Nothing the caches can answer afterwards is older than the answer just given. */
  lemma AnswerIsFloor(st: Stores, base: Currency, env: Env, clock: Time)
    requires Coherent(st, clock) && clock <= env.now && InOrder(env) && GetRates(st, base, env).1.Ok?
    ensures var (after, table) := GetRates(st, base, env);
            table.value.fetchedAt <= env.writeAt && NotAhead(after, base, table.value.fetchedAt)
  {
    if GetJson(st, base, env) == Ok(None) { MissServesNothing(st, base, env); }
  }

  /** What nothing was older than, nothing becomes older than; and the answer is not older either. */
  lemma FloorKept(st: Stores, base: Currency, env: Env, clock: Time, other: Currency, t: Time)
    requires Coherent(st, clock) && clock <= env.now && InOrder(env) && t <= clock && NotAhead(st, other, t)
    ensures NotAhead(GetRates(st, base, env).0, other, t)
    ensures base == other && GetRates(st, base, env).1.Ok? ==> t <= GetRates(st, base, env).1.value.fetchedAt
  {
  }

  lemma PerformCoherent(st: Stores, call: Call, clock: Time)
    requires Coherent(st, clock) && clock <= call.env.now && InOrder(call.env)
    ensures Coherent(Perform(st, call), call.env.writeAt)
  {
    CoherentLater(st, clock, call.env.writeAt);
    match call
    case TableCall(base, env) => GetRatesCoherent(st, base, env, clock);
    case RateCall(from, to, env) =>
      GetRatesCoherent(st, from, env, clock);
      if GetRates(st, from, env).1.Ok? {
        AnswerIsFloor(st, from, env, clock);
        SavingCoherent(GetRates(st, from, env).0, from, to, GetRates(st, from, env).1.value, env);
      }
  }

  lemma SavingCoherent(st: Stores, base: Currency, target: Currency, table: Table, env: Env)
    requires Coherent(st, env.writeAt) && table.fetchedAt <= env.writeAt && NotAhead(st, base, table.fetchedAt)
    ensures forall rate :: Coherent(SaveSnapshot(st, base, target, rate, table.fetchedAt, env), env.writeAt)
  {
  }

  lemma {:induction false} RunCoherent(st: Stores, calls: seq<Call>, start: Time)
    requires Coherent(st, start) && Timed(calls, start)
    ensures Coherent(After(st, calls), ClockBefore(calls, start, |calls|))
  {
    if calls != [] {
      var n := |calls| - 1;
      var front := calls[..n];
      TimedPrefix(calls, start, n);
      assert CallInOrder(calls, start, n);
      RunCoherent(st, front, start);
      PerformCoherent(After(st, front), calls[n], ClockBefore(calls, start, n));
    }
  }

  // ---------- The fallback ----------

  /** The fallback is one of the pair's snapshots with the greatest fetchedAt, and exists when any does. */
  lemma {:induction false} LatestIsGreatest(snapshots: seq<Snapshot>, base: Currency, target: Currency)
    ensures Latest(snapshots, base, target).None? <==> forall s :: s in snapshots ==> !IsFor(s, base, target)
    ensures var best := Latest(snapshots, base, target);
            best.Some? ==>
              && best.value in snapshots && IsFor(best.value, base, target)
              && forall s :: s in snapshots && IsFor(s, base, target) ==> s.fetchedAt <= best.value.fetchedAt
  {
    if snapshots != [] {
      var front, last := snapshots[..|snapshots| - 1], snapshots[|snapshots| - 1];
      LatestIsGreatest(front, base, target);
      assert forall s :: s in snapshots <==> s in front || s == last;
    }
  }

  lemma GetRatesKeepsSnapshots(st: Stores, base: Currency, env: Env)
    ensures GetRates(st, base, env).0.snapshots == st.snapshots
  {
  }

  /** The tables fail or lack a usable rate. */
  predicate NoRate(answer: Result<Table, FxError>, to: Currency) {
    answer.Err? || TruthyRate(answer.value.rates, to).None?
  }

  /** For valid, distinct codes and a working snapshot table, exactly when `getRate` fails. */
  lemma GetRateFailsIff(st: Stores, from: Currency, to: Currency, env: Env)
    requires |from| >= 3 && |to| >= 3 && from != to && env.findOk
    ensures GetRate(st, from, to, env).1.Err? <==>
            NoRate(GetRates(st, from, env).1, to) && forall s :: s in st.snapshots ==> !IsFor(s, from, to)
  {
    GetRatesKeepsSnapshots(st, from, env);
    LatestIsGreatest(st.snapshots, from, to);
  }

  /** Snapshots are only ever added. */
  lemma {:induction false} SnapshotsKept(st: Stores, calls: seq<Call>)
    ensures forall s :: s in st.snapshots ==> s in After(st, calls).snapshots
  {
    if calls != [] {
      var before, call := After(st, calls[..|calls| - 1]), calls[|calls| - 1];
      SnapshotsKept(st, calls[..|calls| - 1]);
      match call
      case TableCall(base, env) => GetRatesKeepsSnapshots(before, base, env);
      case RateCall(from, to, env) => GetRatesKeepsSnapshots(before, from, env);
    }
  }

  /** Once a pair has a snapshot, every later `getRate` answers, whatever Redis and the API do. */
  lemma AvailabilityIsMonotone(st: Stores, calls: seq<Call>, i: nat, s: Snapshot)
    requires i < |calls| && calls[i].RateCall? && calls[i].env.findOk
    requires |calls[i].from| >= 3 && |calls[i].to| >= 3
    requires s in st.snapshots && IsFor(s, calls[i].from, calls[i].to)
    ensures Answer(st, calls, i).Ok?
  {
    SnapshotsKept(st, calls[..i]);
    if calls[i].from != calls[i].to {
      GetRateFailsIff(After(st, calls[..i]), calls[i].from, calls[i].to, calls[i].env);
    }
  }

  // ---------- Monotone reads ----------

  /** The fallback serves nothing older than t for this pair. */
  predicate Covered(st: Stores, from: Currency, to: Currency, t: Time) {
    var best := Latest(st.snapshots, from, to);
    best.None? || t <= best.value.fetchedAt
  }

  /** Nothing any tier can still answer for this pair is older than t. */
  ghost predicate Floor(st: Stores, from: Currency, to: Currency, t: Time) {
    NotAhead(st, from, t) && Covered(st, from, to, t)
  }

  lemma SavingKeepsCovered(st: Stores, base: Currency, target: Currency, rate: real, fetchedAt: Time, env: Env,
                           from: Currency, to: Currency, t: Time)
    requires Covered(st, from, to, t) && (base == from ==> t <= fetchedAt)
    ensures Covered(SaveSnapshot(st, base, target, rate, fetchedAt, env), from, to, t)
  {
    var after := SaveSnapshot(st, base, target, rate, fetchedAt, env);
    if after != st { assert after.snapshots[..|after.snapshots| - 1] == st.snapshots; }
  }

  lemma PerformKeepsFloor(st: Stores, call: Call, clock: Time, from: Currency, to: Currency, t: Time)
    requires Coherent(st, clock) && clock <= call.env.now && InOrder(call.env) && t <= clock && Floor(st, from, to, t)
    ensures Floor(Perform(st, call), from, to, t)
  {
    var base := if call.RateCall? then call.from else call.base;
    GetRatesKeepsSnapshots(st, base, call.env);
    FloorKept(st, base, call.env, clock, from, t);
    if call.RateCall? {
      var (after, answer) := GetRates(st, base, call.env);
      if !NoRate(answer, call.to) {
        var table := answer.value;
        SavingKeepsCovered(after, base, call.to, table.rates[call.to], table.fetchedAt, call.env, from, to, t);
      }
    }
  }

  /** An answer is no older than the floor. */
  lemma AnswerAboveFloor(st: Stores, from: Currency, to: Currency, env: Env, clock: Time, t: Time)
    requires Coherent(st, clock) && clock <= env.now && InOrder(env) && t <= clock && Floor(st, from, to, t)
    requires from != to && GetRate(st, from, to, env).1.Ok?
    ensures t <= GetRate(st, from, to, env).1.value.fetchedAt
  {
    FloorKept(st, from, env, clock, from, t);
    GetRatesKeepsSnapshots(st, from, env);
  }

  /** The database keeps this quote's snapshot. */
  predicate Saves(from: Currency, to: Currency, quote: Quote, env: Env) {
    env.saveOk && SnapshotFits(Snapshot(from, to, Round8(quote.rate), quote.fetchedAt))
  }

  /** Exactly when a call leaves the fallback no older than its own answer. */
  lemma CoveredAfterIff(st: Stores, from: Currency, to: Currency, env: Env)
    requires from != to && GetRate(st, from, to, env).1.Ok?
    ensures var (after, quote) := GetRate(st, from, to, env);
            Covered(after, from, to, quote.value.fetchedAt)
            <==> Saves(from, to, quote.value, env) || Covered(st, from, to, quote.value.fetchedAt)
  {
    var (after, quote) := GetRate(st, from, to, env);
    GetRatesKeepsSnapshots(st, from, env);
    if after.snapshots != st.snapshots { assert after.snapshots[..|after.snapshots| - 1] == st.snapshots; }
  }

  /** Nothing the caches can answer after a `getRate` is older than its answer. */
  lemma QuoteNotAhead(st: Stores, from: Currency, to: Currency, env: Env, clock: Time)
    requires Coherent(st, clock) && clock <= env.now && InOrder(env)
    requires from != to && GetRate(st, from, to, env).1.Ok?
    ensures var (after, quote) := GetRate(st, from, to, env);
            NotAhead(after, from, quote.value.fetchedAt) && quote.value.fetchedAt <= env.writeAt
  {
    var (after, answer) := GetRates(st, from, env);
    GetRatesKeepsSnapshots(st, from, env);
    if !NoRate(answer, to) {
      AnswerIsFloor(st, from, env, clock);
    } else {
      GetRatesCoherent(st, from, env, clock);
      LatestIsGreatest(st.snapshots, from, to);
      var s := Latest(st.snapshots, from, to).value;
      assert s in after.snapshots && NotAhead(after, s.base, s.fetchedAt);
    }
  }

  lemma TimedPrefix(calls: seq<Call>, start: Time, n: nat)
    requires Timed(calls, start) && n <= |calls|
    ensures Timed(calls[..n], start) && ClockBefore(calls[..n], start, n) == ClockBefore(calls, start, n)
  {
    forall i: nat | i < n ensures CallInOrder(calls[..n], start, i) {
      assert CallInOrder(calls, start, i);
    }
  }

  lemma {:induction false} ClockAdvances(calls: seq<Call>, start: Time, i: nat, j: nat)
    requires Timed(calls, start) && i <= j <= |calls|
    ensures ClockBefore(calls, start, i) <= ClockBefore(calls, start, j)
  {
    if i < j {
      ClockAdvances(calls, start, i, j - 1);
      assert CallInOrder(calls, start, j - 1);
    }
  }

  /** Once set, a floor stays to the end of the run. */
  lemma {:induction false} RunKeepsFloor(st: Stores, calls: seq<Call>, start: Time, from: Currency, to: Currency, t: Time)
    requires Coherent(st, start) && Timed(calls, start) && t <= start && Floor(st, from, to, t)
    ensures Floor(After(st, calls), from, to, t)
  {
    if calls != [] {
      var n := |calls| - 1;
      TimedPrefix(calls, start, n);
      RunKeepsFloor(st, calls[..n], start, from, to, t);
      RunCoherent(st, calls[..n], start);
      ClockAdvances(calls, start, 0, n);
      assert CallInOrder(calls, start, n);
      PerformKeepsFloor(After(st, calls[..n]), calls[n], ClockBefore(calls, start, n), from, to, t);
    }
  }

  lemma {:induction false} AfterConcat(st: Stores, first: seq<Call>, second: seq<Call>)
    ensures After(st, first + second) == After(After(st, first), second)
  {
    if second == [] {
      assert first + second == first;
    } else {
      AfterConcat(st, first, second[..|second| - 1]);
      assert (first + second)[..|first + second| - 1] == first + second[..|second| - 1];
    }
  }

  lemma TimedSuffix(calls: seq<Call>, start: Time, k: nat, j: nat)
    requires Timed(calls, start) && k <= j <= |calls|
    ensures Timed(calls[k..j], ClockBefore(calls, start, k))
    ensures ClockBefore(calls[k..j], ClockBefore(calls, start, k), j - k) == ClockBefore(calls, start, j)
  {
    var clock, rest := ClockBefore(calls, start, k), calls[k..j];
    forall i: nat | i < |rest| ensures CallInOrder(rest, clock, i) {
      assert CallInOrder(calls, start, k + i);
    }
  }

  /** A later `getRate` for this pair that answers, after any calls in between. */
  ghost predicate LaterRead(st: Stores, start: Time, calls: seq<Call>, from: Currency, to: Currency, env: Env) {
    && Timed(calls, start) && InOrder(env) && ClockBefore(calls, start, |calls|) <= env.now
    && GetRate(After(st, calls), from, to, env).1.Ok?
  }

  /** A later answer for the same pair is no older than a floor set on the way. */
  lemma LaterAnswer(st: Stores, start: Time, calls: seq<Call>, from: Currency, to: Currency, env: Env, t: Time)
    requires Coherent(st, start) && LaterRead(st, start, calls, from, to, env) && from != to
    requires t <= start && Floor(st, from, to, t)
    ensures t <= GetRate(After(st, calls), from, to, env).1.value.fetchedAt
  {
    RunCoherent(st, calls, start);
    RunKeepsFloor(st, calls, start, from, to, t);
    ClockAdvances(calls, start, 0, |calls|);
    AnswerAboveFloor(After(st, calls), from, to, env, ClockBefore(calls, start, |calls|), t);
  }

  /** Redis throws; without Redis the local entry has expired and the provider lists no rate. */
  function Outage(st: Stores, base: Currency, clock: Time): Env {
    var now := if base in st.local && st.local[base].expiresAt > clock then st.local[base].expiresAt else clock;
    Env(now, now, ReadThrows, FetchOk(map[], now), now, WriteOk, true, true)
  }

  lemma OutageFallsBack(st: Stores, from: Currency, to: Currency, clock: Time)
    requires |from| >= 3 && |to| >= 3 && from != to && Latest(st.snapshots, from, to).Some?
    ensures var env, s := Outage(st, from, clock), Latest(st.snapshots, from, to).value;
            InOrder(env) && clock <= env.now && GetRate(st, from, to, env).1 == Ok(Quote(s.rate, s.fetchedAt, DbFallback))
  {
    GetRatesKeepsSnapshots(st, from, Outage(st, from, clock));
  }

  /** No run of calls from here on answers this pair with anything older than t. */
  ghost predicate NeverOlder(st: Stores, start: Time, from: Currency, to: Currency, t: Time) {
    forall calls, env :: LaterRead(st, start, calls, from, to, env) ==>
      t <= GetRate(After(st, calls), from, to, env).1.value.fetchedAt
  }

  /** Once no cache is older than t, exactly when no later answer of any run is: when the fallback is not. */
  lemma LaterReadsIff(st: Stores, start: Time, from: Currency, to: Currency, t: Time)
    requires Coherent(st, start) && t <= start && NotAhead(st, from, t)
    requires |from| >= 3 && |to| >= 3 && from != to
    ensures NeverOlder(st, start, from, to, t) <==> Covered(st, from, to, t)
  {
    if Covered(st, from, to, t) {
      forall calls, env | LaterRead(st, start, calls, from, to, env)
        ensures t <= GetRate(After(st, calls), from, to, env).1.value.fetchedAt
      {
        LaterAnswer(st, start, calls, from, to, env, t);
      }
    } else {
      OutageFallsBack(st, from, to, start);
      assert After(st, []) == st;
      assert LaterRead(st, start, [], from, to, Outage(st, from, start));
    }
  }

  /** After the i-th answer of a run, exactly when no continuation of the run answers older: when its snapshot was
      saved, or no snapshot of the pair was older than it. */
  lemma MonotoneIff(st: Stores, calls: seq<Call>, start: Time, i: nat)
    requires Coherent(st, start) && Timed(calls, start) && i < |calls|
    requires calls[i].RateCall? && calls[i].from != calls[i].to && Answer(st, calls, i).Ok?
    ensures var from, to, env, quote := calls[i].from, calls[i].to, calls[i].env, Answer(st, calls, i).value;
            NeverOlder(After(st, calls[..i + 1]), env.writeAt, from, to, quote.fetchedAt)
            <==> Saves(from, to, quote, env) || Covered(After(st, calls[..i]), from, to, quote.fetchedAt)
  {
    var before, after, call := After(st, calls[..i]), After(st, calls[..i + 1]), calls[i];
    var t := Answer(st, calls, i).value.fetchedAt;
    assert calls[..i + 1][..i] == calls[..i];
    CallAt(st, calls, start, i);
    CoveredAfterIff(before, call.from, call.to, call.env);
    QuoteNotAhead(before, call.from, call.to, call.env, ClockBefore(calls, start, i));
    LaterReadsIff(after, call.env.writeAt, call.from, call.to, t);
  }

  /** The stores around the i-th call of a run are coherent. */
  lemma CallAt(st: Stores, calls: seq<Call>, start: Time, i: nat)
    requires Coherent(st, start) && Timed(calls, start) && i < |calls|
    ensures var clock := ClockBefore(calls, start, i);
            Coherent(After(st, calls[..i]), clock) && clock <= calls[i].env.now && InOrder(calls[i].env)
    ensures After(st, calls[..i + 1]) == Perform(After(st, calls[..i]), calls[i])
    ensures Coherent(After(st, calls[..i + 1]), calls[i].env.writeAt)
  {
    TimedPrefix(calls, start, i);
    assert CallInOrder(calls, start, i);
    assert calls[..i + 1][..i] == calls[..i];
    RunCoherent(st, calls[..i], start);
    PerformCoherent(After(st, calls[..i]), calls[i], ClockBefore(calls, start, i));
  }

  /** Successive answers for a pair never go back in fetchedAt, through any mix of tiers and failures, once the
      earlier one's snapshot is saved or the fallback was no older already. */
  lemma MonotoneReads(st: Stores, calls: seq<Call>, start: Time, i: nat, j: nat)
    requires Coherent(st, start) && Timed(calls, start)
    requires i < j < |calls| && calls[i].RateCall? && calls[j].RateCall?
    requires calls[i].from == calls[j].from && calls[i].to == calls[j].to && calls[i].from != calls[i].to
    requires Answer(st, calls, i).Ok? && Answer(st, calls, j).Ok?
    requires var quote := Answer(st, calls, i).value;
             Saves(calls[i].from, calls[i].to, quote, calls[i].env)
             || Covered(After(st, calls[..i]), calls[i].from, calls[i].to, quote.fetchedAt)
    ensures Answer(st, calls, i).value.fetchedAt <= Answer(st, calls, j).value.fetchedAt
  {
    MonotoneIff(st, calls, start, i);
    ReadIsLater(st, calls, start, i, j);
    ReadLater(After(st, calls[..i + 1]), calls[i].env.writeAt, calls[i + 1..j], calls[j].from, calls[j].to, calls[j].env,
              Answer(st, calls, i).value.fetchedAt);
  }

  lemma ReadLater(st: Stores, start: Time, calls: seq<Call>, from: Currency, to: Currency, env: Env, t: Time)
    requires NeverOlder(st, start, from, to, t) && LaterRead(st, start, calls, from, to, env)
    ensures t <= GetRate(After(st, calls), from, to, env).1.value.fetchedAt
  {
  }

  /** A later call of a run is a later read from the stores an earlier call left. */
  lemma ReadIsLater(st: Stores, calls: seq<Call>, start: Time, i: nat, j: nat)
    requires Timed(calls, start) && i < j < |calls| && calls[j].RateCall? && Answer(st, calls, j).Ok?
    ensures After(After(st, calls[..i + 1]), calls[i + 1..j]) == After(st, calls[..j])
    ensures LaterRead(After(st, calls[..i + 1]), calls[i].env.writeAt, calls[i + 1..j], calls[j].from, calls[j].to, calls[j].env)
  {
    AfterSplit(st, calls, i + 1, j);
    TimedSuffix(calls, start, i + 1, j);
    assert CallInOrder(calls, start, j);
  }

  lemma AfterSplit(st: Stores, calls: seq<Call>, i: nat, j: nat)
    requires i <= j <= |calls|
    ensures After(st, calls[..j]) == After(After(st, calls[..i]), calls[i..j])
  {
    AfterConcat(st, calls[..i], calls[i..j]);
    assert calls[..i] + calls[i..j] == calls[..j];
  }

  /** A process that finds nothing of its own to serve starts coherent. */
  lemma FreshStartCoherent(st: Stores, start: Time)
    requires st.local == map[] && forall b :: !Served(st, b)
    requires forall s :: s in st.snapshots ==> s.fetchedAt <= start
    ensures Coherent(st, start)
  {
  }

  // ---------- Provenance ----------

  ghost predicate Answered(st: Stores, base: Currency, rates: Rates, fetchedAt: Time) {
    ApiResponse(base, rates, fetchedAt) in st.responses
  }

  /** Whatever the tiers hold is one past API response for that base, whole and with its own time. */
  ghost predicate Provenance(st: Stores) {
    && (forall b :: Served(st, b) ==> Answered(st, b, st.redis[b].payload.rates, st.redis[b].payload.fetchedAt))
    && (forall b :: b in st.local ==> Answered(st, b, st.local[b].rates, st.local[b].fetchedAt))
    && (forall s :: s in st.snapshots ==> SnapshotAnswered(st, s))
  }

  ghost predicate SnapshotAnswered(st: Stores, s: Snapshot) {
    exists response :: response in st.responses && response.base == s.base && response.fetchedAt == s.fetchedAt
      && s.target in response.rates && s.rate == Round8(response.rates[s.target])
  }

  /** History only grows, and snapshots stay answered by it. */
  lemma SnapshotsStayAnswered(st: Stores, after: Stores)
    requires Provenance(st) && after.snapshots == st.snapshots
    requires forall response :: response in st.responses ==> response in after.responses
    ensures forall s :: s in after.snapshots ==> SnapshotAnswered(after, s)
  {
    forall s | s in after.snapshots ensures SnapshotAnswered(after, s) {
      assert SnapshotAnswered(st, s);
    }
  }

  lemma AfterReadProvenance(st: Stores, base: Currency, env: Env)
    requires Provenance(st)
    ensures Provenance(AfterRead(st, base, env)) && AfterRead(st, base, env).responses == st.responses
  {
    SnapshotsStayAnswered(st, AfterRead(st, base, env));
  }

  lemma FetchProvenance(st: Stores, base: Currency, env: Env)
    requires Provenance(st)
    ensures var (after, answer) := FetchAndCache(st, base, env);
            && Provenance(after)
            && (forall response :: response in st.responses ==> response in after.responses)
            && (answer.Ok? ==> Answered(after, base, answer.value.rates, answer.value.fetchedAt))
  {
    var after := FetchAndCache(st, base, env).0;
    SnapshotsStayAnswered(st, after);
    if env.fetch.FetchOk? { assert Answered(after, base, env.fetch.rates, env.fetch.at); }
  }

  lemma GetRatesProvenance(st: Stores, base: Currency, env: Env)
    requires Provenance(st)
    ensures var (after, answer) := GetRates(st, base, env);
            && Provenance(after)
            && (forall response :: response in st.responses ==> response in after.responses)
            && (answer.Ok? ==> Answered(after, base, answer.value.rates, answer.value.fetchedAt))
  {
    AfterReadProvenance(st, base, env);
    FetchProvenance(AfterRead(st, base, env), base, env);
  }

  /** What a quote is worth: the response's own entry, or that entry to eight decimals when it came from a snapshot. */
  ghost predicate QuoteAnswered(st: Stores, from: Currency, to: Currency, quote: Quote) {
    exists response :: response in st.responses && response.base == from && response.fetchedAt == quote.fetchedAt
      && to in response.rates
      && quote.rate == (if quote.source == DbFallback then Round8(response.rates[to]) else response.rates[to])
  }

  lemma GetRateProvenance(st: Stores, from: Currency, to: Currency, env: Env)
    requires Provenance(st)
    ensures var (after, answer) := GetRate(st, from, to, env);
            Provenance(after) && (answer.Ok? && from != to ==> QuoteAnswered(after, from, to, answer.value))
  {
    var (mid, table) := GetRates(st, from, env);
    GetRatesProvenance(st, from, env);
    GetRatesSource(st, from, env);
    LatestIsGreatest(mid.snapshots, from, to);
    if from != to && |from| >= 3 && |to| >= 3 {
      if table.Ok? && TruthyRate(table.value.rates, to).Some? {
        SavingKeepsProvenance(mid, from, to, table.value, env);
      } else if Latest(mid.snapshots, from, to).Some? {
        assert SnapshotAnswered(mid, Latest(mid.snapshots, from, to).value);
      }
    }
  }

  lemma GetRatesSource(st: Stores, base: Currency, env: Env)
    ensures GetRates(st, base, env).1.Ok? ==> GetRates(st, base, env).1.value.source !in {DbFallback, Static}
  {
  }

  lemma SavingKeepsProvenance(st: Stores, base: Currency, target: Currency, table: Table, env: Env)
    requires Provenance(st) && Answered(st, base, table.rates, table.fetchedAt) && target in table.rates
    requires table.source !in {DbFallback, Static}
    ensures var after := SaveSnapshot(st, base, target, table.rates[target], table.fetchedAt, env);
            Provenance(after)
            && QuoteAnswered(after, base, target, Quote(table.rates[target], table.fetchedAt, table.source))
  {
    var after := SaveSnapshot(st, base, target, table.rates[target], table.fetchedAt, env);
    assert ApiResponse(base, table.rates, table.fetchedAt) in after.responses;
    forall s | s in after.snapshots ensures SnapshotAnswered(after, s) {
      if s in st.snapshots { assert SnapshotAnswered(st, s); }
    }
  }

  lemma {:induction false} RunProvenance(st: Stores, calls: seq<Call>)
    requires Provenance(st)
    ensures Provenance(After(st, calls))
  {
    if calls != [] {
      var before := After(st, calls[..|calls| - 1]);
      RunProvenance(st, calls[..|calls| - 1]);
      match calls[|calls| - 1]
      case TableCall(base, env) => GetRatesProvenance(before, base, env);
      case RateCall(from, to, env) => GetRateProvenance(before, from, to, env);
    }
  }

  /** From empty stores every answer of every run is an entry of a past API response for that base. */
  lemma AnswersHaveProvenance(st: Stores, calls: seq<Call>, i: nat)
    requires st.redis == map[] && st.local == map[] && st.snapshots == []
    requires i < |calls| && calls[i].RateCall? && calls[i].from != calls[i].to && Answer(st, calls, i).Ok?
    ensures QuoteAnswered(After(st, calls[..i + 1]), calls[i].from, calls[i].to, Answer(st, calls, i).value)
  {
    RunProvenance(st, calls[..i]);
    GetRateProvenance(After(st, calls[..i]), calls[i].from, calls[i].to, calls[i].env);
    assert calls[..i + 1][..i] == calls[..i];
  }

  /** The provider's part in a run: what its answers may contain. */
  ghost predicate ProviderNotNegative(calls: seq<Call>) {
    forall k: nat, c :: k < |calls| && calls[k].env.fetch.FetchOk? && c in calls[k].env.fetch.rates ==>
      calls[k].env.fetch.rates[c] >= 0.0
  }

  ghost predicate ResponsesNotNegative(st: Stores) {
    forall response, c :: response in st.responses && c in response.rates ==> response.rates[c] >= 0.0
  }

  lemma GetRatesNotNegative(st: Stores, base: Currency, env: Env)
    requires ResponsesNotNegative(st)
    requires env.fetch.FetchOk? ==> forall c :: c in env.fetch.rates ==> env.fetch.rates[c] >= 0.0
    ensures ResponsesNotNegative(GetRates(st, base, env).0)
  {
  }

  lemma {:induction false} RunNotNegative(st: Stores, calls: seq<Call>)
    requires ResponsesNotNegative(st) && ProviderNotNegative(calls)
    ensures ResponsesNotNegative(After(st, calls))
  {
    if calls != [] {
      var n := |calls| - 1;
      RunNotNegative(st, calls[..n]);
      GetRatesNotNegative(After(st, calls[..n]), if calls[n].RateCall? then calls[n].from else calls[n].base, calls[n].env);
    }
  }

  /** From empty stores, a provider that answers no negative rate gives no call of any run a negative rate. */
  lemma QuotesNotNegative(st: Stores, calls: seq<Call>, i: nat)
    requires st.redis == map[] && st.local == map[] && st.snapshots == [] && st.responses == []
    requires ProviderNotNegative(calls)
    requires i < |calls| && calls[i].RateCall? && Answer(st, calls, i).Ok?
    ensures Answer(st, calls, i).value.rate >= 0.0
  {
    var from, to, quote := calls[i].from, calls[i].to, Answer(st, calls, i).value;
    if from != to {
      AnswersHaveProvenance(st, calls, i);
      RunNotNegative(st, calls[..i + 1]);
      var response := Behind(After(st, calls[..i + 1]), from, to, quote);
      Round8NonNegative(response.rates[to]);
    }
  }

  /** The response a quote was taken from. */
  lemma Behind(st: Stores, from: Currency, to: Currency, quote: Quote) returns (response: ApiResponse)
    requires QuoteAnswered(st, from, to, quote)
    ensures response in st.responses && response.base == from && response.fetchedAt == quote.fetchedAt
    ensures to in response.rates
    ensures quote.rate == (if quote.source == DbFallback then Round8(response.rates[to]) else response.rates[to])
  {
    response :| response in st.responses && response.base == from && response.fetchedAt == quote.fetchedAt
      && to in response.rates
      && quote.rate == (if quote.source == DbFallback then Round8(response.rates[to]) else response.rates[to]);
  }

  /** From empty stores every answer of every run is within half a unit of the eighth decimal of its response's entry. */
  lemma AnswerNearResponse(st: Stores, calls: seq<Call>, i: nat)
    requires st.redis == map[] && st.local == map[] && st.snapshots == []
    requires i < |calls| && calls[i].RateCall? && calls[i].from != calls[i].to && Answer(st, calls, i).Ok?
    ensures var quote, to := Answer(st, calls, i).value, calls[i].to;
            exists response :: response in After(st, calls[..i + 1]).responses && response.base == calls[i].from
              && response.fetchedAt == quote.fetchedAt && to in response.rates
              && Near(quote.rate, response.rates[to], if quote.source == DbFallback then 0.000000005 else 0.0)
  {
    AnswersHaveProvenance(st, calls, i);
    var response := Behind(After(st, calls[..i + 1]), calls[i].from, calls[i].to, Answer(st, calls, i).value);
    Round8Error(response.rates[calls[i].to]);
  }

  // ---------- A rate of zero ----------

  lemma Round8ZeroIff(x: real)
    ensures Round8(x) == 0.0 <==> Abs(x) < 0.000000005
  {
    if Abs(x) >= 0.000000005 { assert Nearest(x * 100000000.0) != 0; }
  }

  /** A zero rate gets past the check for one exactly when the tables give none and the pair's latest snapshot is zero. */
  lemma ZeroRateIff(st: Stores, from: Currency, to: Currency, env: Env)
    requires |from| >= 3 && |to| >= 3 && from != to
    ensures var answer, latest := GetRate(st, from, to, env).1, Latest(st.snapshots, from, to);
            answer.Ok? && answer.value.rate == 0.0
            <==> env.findOk && NoRate(GetRates(st, from, env).1, to) && latest.Some? && latest.value.rate == 0.0
  {
    GetRatesKeepsSnapshots(st, from, env);
  }

  /** A quote from the tables leaves a zero snapshot exactly when it is below half a unit of the eighth decimal. */
  lemma ZeroSnapshotIff(st: Stores, from: Currency, to: Currency, env: Env)
    requires from != to && |from| <= CODE_LENGTH && |to| <= CODE_LENGTH
    requires GetRate(st, from, to, env).1.Ok? && GetRate(st, from, to, env).1.value.source != DbFallback
    ensures var (after, quote) := GetRate(st, from, to, env);
            after.snapshots == st.snapshots + [Snapshot(from, to, 0.0, quote.value.fetchedAt)]
            <==> env.saveOk && Abs(quote.value.rate) < 0.000000005
  {
    var (after, quote) := GetRate(st, from, to, env);
    GetRatesKeepsSnapshots(st, from, env);
    Round8ZeroIff(quote.value.rate);
    if after.snapshots != st.snapshots {
      assert after.snapshots[|st.snapshots|] == Snapshot(from, to, Round8(quote.value.rate), quote.value.fetchedAt);
    }
  }

  /** In every run a snapshot is zero exactly when the response entry behind it was that small. */
  lemma ZeroSnapshotIsTiny(st: Stores, calls: seq<Call>, s: Snapshot)
    requires Provenance(st) && s in After(st, calls).snapshots
    ensures exists response :: response in After(st, calls).responses && response.base == s.base
              && response.fetchedAt == s.fetchedAt && s.target in response.rates
              && (s.rate == 0.0 <==> Abs(response.rates[s.target]) < 0.000000005)
  {
    RunProvenance(st, calls);
    assert SnapshotAnswered(After(st, calls), s);
    var response :| response in After(st, calls).responses && response.base == s.base
      && response.fetchedAt == s.fetchedAt && s.target in response.rates && s.rate == Round8(response.rates[s.target]);
    Round8ZeroIff(response.rates[s.target]);
  }

  /** A provider answer too small for the snapshot column, then a call for which Redis throws. */
  function VanishingCalls(): seq<Call> {
    [RateCall("IDR", "BTC", Env(10, 10, ReadOk, FetchOk(map["BTC" := 0.000000001], 10), 10, WriteOk, true, true)),
     RateCall("IDR", "BTC", Env(20, 20, ReadThrows, FetchFails, 20, WriteOk, true, true))]
  }

  /** What the first of those calls leaves behind. */
  function Vanished(): Stores {
    Stores(true, 60, map["IDR" := RedisEntry(Json(map["BTC" := 0.000000001], 10), Some(60010))],
           map["IDR" := LocalEntry(map["BTC" := 0.000000001], 10, 60010)],
           [Snapshot("IDR", "BTC", 0.0, 10)], [ApiResponse("IDR", map["BTC" := 0.000000001], 10)])
  }

  lemma FirstVanishes()
    ensures |"IDR"| == |"BTC"| == 3 && "IDR" != "BTC"
    ensures GetRate(Stores(true, 60, map[], map[], [], []), "IDR", "BTC", VanishingCalls()[0].env)
         == (Vanished(), Ok(Quote(0.000000001, 10, Api)))
  {
    assert "IDR"[0] != "BTC"[0];
    Round8ZeroIff(0.000000001);
    var after := GetRate(Stores(true, 60, map[], map[], [], []), "IDR", "BTC", VanishingCalls()[0].env).0;
    assert after.redis == Vanished().redis && after.local == Vanished().local;
    assert after.snapshots == Vanished().snapshots && after.responses == Vanished().responses;
  }

  lemma LatestOfOne(s: Snapshot)
    ensures Latest([s], s.base, s.target) == Some(s)
  {
    assert [s][..0] == [];
  }

  lemma SecondIsZero()
    ensures GetRate(Vanished(), "IDR", "BTC", VanishingCalls()[1].env).1 == Ok(Quote(0.0, 10, DbFallback))
  {
    FirstVanishes();
    LatestOfOne(Snapshot("IDR", "BTC", 0.0, 10));
  }

  lemma AfterOne(st: Stores, calls: seq<Call>)
    requires |calls| > 0
    ensures After(st, calls[..0]) == st && After(st, calls[..1]) == Perform(st, calls[0])
  {
    assert calls[..0] == [] && calls[..1][..0] == [];
  }

  /** The first call quotes the provider's rate, the second quotes zero. */
  lemma ZeroRateServed()
    ensures var st := Stores(true, 60, map[], map[], [], []);
            && Answer(st, VanishingCalls(), 0) == Ok(Quote(0.000000001, 10, Api))
            && Answer(st, VanishingCalls(), 1) == Ok(Quote(0.0, 10, DbFallback))
  {
    AfterOne(Stores(true, 60, map[], map[], [], []), VanishingCalls());
    FirstVanishes();
    SecondIsZero();
  }

  // ---------- Freshness ----------

  /** Local entries live at most their TTL from their fetch, Redis entries at most their TTL from their write. */
  ghost predicate Expiring(st: Stores, delay: int) {
    && (forall b :: b in st.local ==> st.local[b].expiresAt <= st.local[b].fetchedAt + TtlMs(st))
    && (st.ttlSeconds > 0 ==> forall b :: Served(st, b) ==>
          st.redis[b].expiresAt.Some? && st.redis[b].expiresAt.value <= st.redis[b].payload.fetchedAt + delay + st.ttlSeconds * 1000)
  }

  predicate WritesWithin(env: Env, delay: int) {
    env.fetch.FetchOk? ==> env.writeAt <= env.fetch.at + delay
  }

  lemma FetchExpiring(st: Stores, base: Currency, env: Env, delay: int)
    requires Expiring(st, delay) && InOrder(env) && WritesWithin(env, delay)
    ensures Expiring(FetchAndCache(st, base, env).0, delay)
    ensures FetchAndCache(st, base, env).0.ttlSeconds == st.ttlSeconds
  {
  }

  lemma GetRatesExpiring(st: Stores, base: Currency, env: Env, delay: int)
    requires Expiring(st, delay) && InOrder(env) && WritesWithin(env, delay)
    ensures Expiring(GetRates(st, base, env).0, delay) && GetRates(st, base, env).0.ttlSeconds == st.ttlSeconds
  {
    FetchExpiring(AfterRead(st, base, env), base, env, delay);
  }

  lemma {:induction false} RunExpiring(st: Stores, calls: seq<Call>, delay: int)
    requires Expiring(st, delay)
    requires forall i :: 0 <= i < |calls| ==> InOrder(calls[i].env) && WritesWithin(calls[i].env, delay)
    ensures Expiring(After(st, calls), delay) && After(st, calls).ttlSeconds == st.ttlSeconds
  {
    if calls != [] {
      var before := After(st, calls[..|calls| - 1]);
      RunExpiring(st, calls[..|calls| - 1], delay);
      match calls[|calls| - 1]
      case TableCall(base, env) => GetRatesExpiring(before, base, env, delay);
      case RateCall(from, _, env) => GetRatesExpiring(before, from, env, delay);
    }
  }

  /** How old an answer can be, by where it came from, in every run from empty caches. */
  lemma AnswersAreFresh(st: Stores, calls: seq<Call>, i: nat, delay: int)
    requires st.redis == map[] && st.local == map[]
    requires forall k :: 0 <= k < |calls| ==> InOrder(calls[k].env) && WritesWithin(calls[k].env, delay)
    requires i < |calls| && calls[i].RateCall? && Answer(st, calls, i).Ok?
    ensures var quote, env := Answer(st, calls, i).value, calls[i].env;
            && (quote.source == CacheLocal ==> env.now < quote.fetchedAt + TtlMs(st))
            && (quote.source == Redis && st.ttlSeconds > 0 ==>
                  env.readAt < quote.fetchedAt + st.ttlSeconds * 1000 + delay)
            && (quote.source == Api ==> env.fetch.FetchOk? && quote.fetchedAt == env.fetch.at)
  {
    RunExpiring(st, calls[..i], delay);
    var before := After(st, calls[..i]);
    if GetRates(before, calls[i].from, calls[i].env).1.Ok? {
      TableIsFresh(before, calls[i].from, calls[i].env, delay);
    }
  }

  /** The same of the tables `getRates` answers. */
  lemma TablesAreFresh(st: Stores, calls: seq<Call>, i: nat, delay: int)
    requires st.redis == map[] && st.local == map[]
    requires forall k :: 0 <= k < |calls| ==> InOrder(calls[k].env) && WritesWithin(calls[k].env, delay)
    requires i < |calls| && calls[i].TableCall? && TableAnswer(st, calls, i).Ok?
    ensures var table, env := TableAnswer(st, calls, i).value, calls[i].env;
            && (table.source == CacheLocal ==> env.now < table.fetchedAt + TtlMs(st))
            && (table.source == Redis && st.ttlSeconds > 0 ==>
                  env.readAt < table.fetchedAt + st.ttlSeconds * 1000 + delay)
            && (table.source == Api ==> env.fetch.FetchOk? && table.fetchedAt == env.fetch.at)
  {
    RunExpiring(st, calls[..i], delay);
    TableIsFresh(After(st, calls[..i]), calls[i].base, calls[i].env, delay);
  }

  lemma TableIsFresh(st: Stores, base: Currency, env: Env, delay: int)
    requires Expiring(st, delay) && GetRates(st, base, env).1.Ok?
    ensures var table := GetRates(st, base, env).1.value;
            && (table.source == CacheLocal ==> env.now < table.fetchedAt + TtlMs(st))
            && (table.source == Redis && st.ttlSeconds > 0 ==> env.readAt < table.fetchedAt + st.ttlSeconds * 1000 + delay)
            && (table.source == Api ==> env.fetch.FetchOk? && table.fetchedAt == env.fetch.at)
  {
  }

  /** A stale answer means this very call's fetch or Redis write failed. */
  lemma StaleOnlyAfterFailure(st: Stores, base: Currency, env: Env)
    requires GetRates(st, base, env).1.Ok? && GetRates(st, base, env).1.value.source == CacheLocalStale
    ensures env.fetch.FetchFails? || (st.redisOn && env.write != WriteOk)
    ensures base in st.local && st.local[base].expiresAt <= env.now
  {
  }

  // ---------- Which tier answers ----------

  /** Redis holds a table for this base that this call's read will return. */
  predicate RedisHit(st: Stores, base: Currency, env: Env) {
    Served(st, base) && !Gone(st.redis[base], env.readAt, env.read)
  }

  predicate LocalHit(st: Stores, base: Currency, env: Env) {
    base in st.local && st.local[base].expiresAt > env.now
  }

  /** Redis before the local map before the API before the stale entry, and only a double miss asks the API. */
  lemma TierOrder(st: Stores, base: Currency, env: Env)
    requires |base| >= 3 && !(st.redisOn && env.read == ReadThrows)
    ensures var (after, answer) := GetRates(st, base, env);
            var hit, near := RedisHit(st, base, env), LocalHit(st, base, env);
            var failed := env.fetch.FetchFails? || (st.redisOn && env.write != WriteOk);
            && (hit <==> answer.Ok? && answer.value.source == Redis)
            && (!hit && near <==> answer.Ok? && answer.value.source == CacheLocal)
            && (!hit && !near && !failed <==> answer.Ok? && answer.value.source == Api)
            && (!hit && !near && failed && base in st.local <==> answer.Ok? && answer.value.source == CacheLocalStale)
            && (!hit && !near && failed && base !in st.local <==> answer.Err?)
            && after.responses == st.responses
                 + (if !hit && !near && env.fetch.FetchOk? then [ApiResponse(base, env.fetch.rates, env.fetch.at)] else [])
  {
  }

  /** What a cached answer contains. */
  lemma CachedContent(st: Stores, base: Currency, env: Env)
    requires GetRates(st, base, env).1.Ok?
    ensures var table := GetRates(st, base, env).1.value;
            && (table.source == Redis ==>
                  Served(st, base) && Json(table.rates, table.fetchedAt) == st.redis[base].payload)
            && (table.source in {CacheLocal, CacheLocalStale} ==>
                  base in st.local && table.rates == st.local[base].rates && table.fetchedAt == st.local[base].fetchedAt)
  {
  }

  /** A live Redis key is answered, and without one an unexpired local entry. */
  lemma CachedIsServed(st: Stores, base: Currency, env: Env)
    requires |base| >= 3 && !(st.redisOn && env.read == ReadThrows)
    ensures RedisHit(st, base, env) ==>
              GetRates(st, base, env) == (st, Ok(Table(st.redis[base].payload.rates, st.redis[base].payload.fetchedAt, Redis)))
    ensures !RedisHit(st, base, env) && LocalHit(st, base, env) ==>
              GetRates(st, base, env).1 == Ok(Table(st.local[base].rates, st.local[base].fetchedAt, CacheLocal))
    ensures RedisHit(st, base, env) || LocalHit(st, base, env) ==> GetRates(st, base, env).0.responses == st.responses
  {
  }

  // ---------- Why the saves matter ----------

  /** A provider answer whose snapshot is lost, then a call for which Redis throws. */
  function LostSaveCalls(): seq<Call> {
    [RateCall("USD", "EUR", Env(10, 10, ReadOk, FetchOk(map["EUR" := 2.0], 10), 10, WriteOk, false, true)),
     RateCall("USD", "EUR", Env(20, 20, ReadThrows, FetchFails, 20, WriteOk, true, true))]
  }

  function OneSnapshot(): Stores {
    Stores(true, 60, map[], map[], [Snapshot("USD", "EUR", 1.0, 0)], [])
  }

  /** When a snapshot save fails, a later answer can be older than an earlier one. */
  lemma LostSaveGoesBack()
    ensures Coherent(OneSnapshot(), 0) && Timed(LostSaveCalls(), 0)
    ensures Answer(OneSnapshot(), LostSaveCalls(), 0) == Ok(Quote(2.0, 10, Api))
    ensures Answer(OneSnapshot(), LostSaveCalls(), 1) == Ok(Quote(1.0, 0, DbFallback))
  {
    AfterOne(OneSnapshot(), LostSaveCalls());
    LostFirst();
    LatestOfOne(Snapshot("USD", "EUR", 1.0, 0));
  }

  lemma LostFirst()
    ensures |"USD"| == |"EUR"| == 3 && "USD" != "EUR"
    ensures var (after, quote) := GetRate(OneSnapshot(), "USD", "EUR", LostSaveCalls()[0].env);
            quote == Ok(Quote(2.0, 10, Api)) && after.snapshots == OneSnapshot().snapshots && after.redisOn
  {
    assert "USD"[0] != "EUR"[0];
  }
}
