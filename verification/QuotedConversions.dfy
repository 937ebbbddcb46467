// Conversions at the rates the rate service quoted: what the cache guarantees about
// a rate is what the ledger needs of it.
module QuotedConversions {
  import opened Decimal
  import opened WalletLedger
  import opened WalletLaws
  import opened Reachability
  import opened LockMachine
  import opened Serializability
  import FxCache
  import FxLaws

  function NoCaches(redisOn: bool, ttlSeconds: int): FxCache.Stores {
    FxCache.Stores(redisOn, ttlSeconds, map[], map[], [], [])
  }

  /** This conversion was asked at the answer of the i-th rate call. */
  predicate QuotedAt(st: FxCache.Stores, calls: seq<FxLaws.Call>, r: Request, i: nat) {
    && r.Convert? && i < |calls| && calls[i].RateCall? && calls[i].from == r.from && calls[i].to == r.to
    && FxLaws.Answer(st, calls, i).Ok? && r.rate == FxLaws.Answer(st, calls, i).value.rate
  }

  ghost predicate AllQuoted(st: FxCache.Stores, calls: seq<FxLaws.Call>, requests: seq<Request>) {
    forall k :: 0 <= k < |requests| && requests[k].Convert? ==> exists i: nat :: QuotedAt(st, calls, requests[k], i)
  }

  lemma QuotedIsSane(redisOn: bool, ttlSeconds: int, calls: seq<FxLaws.Call>, requests: seq<Request>)
    requires FxLaws.ProviderNotNegative(calls) && AllQuoted(NoCaches(redisOn, ttlSeconds), calls, requests)
    ensures SaneLog(requests)
  {
    forall k | 0 <= k < |requests| ensures RateSane(requests[k]) {
      if requests[k].Convert? {
        var i: nat :| QuotedAt(NoCaches(redisOn, ttlSeconds), calls, requests[k], i);
        FxLaws.QuotesNotNegative(NoCaches(redisOn, ttlSeconds), calls, i);
      }
    }
  }

  /** A provider that answers no negative rate keeps every balance sound: whatever tier quoted each conversion,
      and however the requests interleave or abort. */
  lemma QuotedLedgerIsSafe(redisOn: bool, ttlSeconds: int, calls: seq<FxLaws.Call>,
                           db: Ledger, requests: seq<Request>, events: seq<Event>)
    requires FxLaws.ProviderNotNegative(calls) && AllQuoted(NoCaches(redisOn, ttlSeconds), calls, requests)
    requires Consistent(db) && Solvent(db) && Run(Initial(db, requests), events).Some?
    ensures Consistent(Run(Initial(db, requests), events).value.db) && Solvent(Run(Initial(db, requests), events).value.db)
  {
    QuotedIsSane(redisOn, ttlSeconds, calls, requests);
    AlwaysSafe(db, requests, events);
  }

  /** The second of the vanishing calls quotes zero; one IDR funded and converted at that quote becomes nothing. */
  lemma VanishingConversion()
    ensures var l := Pockets(0, ["IDR"], 1.0, "FX");
            var r := Convert(0, "IDR", "BTC", 1.0, 0.0, false, Draw(1, "FX"));
            && QuotedAt(NoCaches(true, 60), FxLaws.VanishingCalls(), r, 1)
            && Reachable(l) && Execute(l, r).Ok?
            && UserBalance(Execute(l, r).value, 0, "IDR") == UserBalance(Execute(l, r).value, 0, "BTC") == 0.0
  {
    var l := Pockets(0, ["IDR"], 1.0, "FX");
    var r := Convert(0, "IDR", "BTC", 1.0, 0.0, false, Draw(1, "FX"));
    FxLaws.ZeroRateServed();
    assert |"IDR"| == 3 && |"BTC"| == 3 && "IDR"[0] != "BTC"[0];
    OneOnGrid(1.0);
    OneOnGrid(0.0);
    PocketsReachable(0, ["IDR"], 1.0, "FX");
    PocketRows(0, ["IDR"], 1.0, "FX", (0, "IDR"));
    PocketRows(0, ["IDR"], 1.0, "FX", (0, "BTC"));
    PocketReferences(0, ["IDR"], 1.0, "FX", "FX");
    ReachableIsSound(l);
    assert Times(1.0, 0.0) == 0.0;
    FxLaws.Round8ZeroIff(0.0);
    ConvertSucceedsIff(l, r);
    ConvertWrites(l, r, "IDR");
    ConvertWrites(l, r, "BTC");
  }
}
