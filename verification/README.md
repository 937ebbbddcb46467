# FX-Trader: the wallet ledger, its locking, its rates and its history

This project models the parts of FX-Trader whose correctness spans several
requests, and proves what they keep.

- **Decimal.dfy, Conversion.dfy, FloatLayer.dfy, FloatLedger.dfy**: the arithmetic.
  `toFixed(4)` and the `numeric` columns both round half away from zero; the exact layer
  works over reals, the float layer over any function with relative error 2^-53, for
  single rows and for whole ledgers.
- **WalletLedger.dfy, WalletLaws.dfy**: the tables, `Execute` (one request run alone),
  and the laws of every log of requests: solvency, frames, reconciliation with the
  records, conservation of value, auditability.
- **WalletOutcomes.dfy**: which condition refuses a request, with which error, and what the columns hold.
- **Reachability.dfy, RateSafety.dfy**: the ledgers some log of requests can leave, and
  which quoted rates are safe for all of them.
- **WalletService.dfy**: the service as a class whose methods change the tables
  statement by statement and roll back on failure, proved against `Execute`.
- **LockMachine.dfy, Serializability.dfy**: any number of requests interleaved one
  database round trip at a time, and the proof that the result is always that of the
  committed requests run alone in commit order.
- **Rings.dfy, Progress.dfy, Deadlock.dfy**: who can wait for whom, what a deadlock looks
  like, exactly which requests can reach one, and why all others can finish.
- **Races.dfy**: exactly which requests can lose a race for a wallet or row that does not exist yet.
- **FxCache.dfy, FxService.dfy, FxLaws.dfy, FxOutcomes.dfy**: the tiered rate cache as
  functions, as the classes that update the stores in place, its laws over whole runs, and
  what each call answers, changes and leaves alone.
- **QuotedConversions.dfy**: the cache and the ledger together.
- **TransactionHistory.dfy, HistoryListing.dfy**: filtering, order, paging and statistics
  over the records, and what a client sees that asks page after page.
- **Wrappers.dfy, Currencies.dfy**: optional values and results; currency codes.

`dafny verify dfyconfig.toml` checks everything.

## Assumptions about the database and the outside

- `pessimistic_write` on a row that exists is an exclusive lock held to the end of the
  transaction, and returns the latest committed value; on an absent row it locks nothing.
- A unique key being inserted makes a later inserter of the same key wait; if the
  first one commits, the later one fails.
- A transaction commits or rolls back as a whole. The database may abort any
  transaction at any step (deadlock victim, lost connection).
- Users are never deleted while requests run.
- A request carries what it draws at random (a wallet id, a reference) and, for a
  conversion, the rate fetched before its transaction. Collisions are failures.
- One call to the rate service carries its share of the outside: the times at which
  things happened and which of them failed. Calls do not overlap, and one clock serves
  the process and Redis. Redis drops an expired key no later than the next read of it.
- Values that do not fit `decimal(18,4)`, `decimal(20,4)`, `decimal(20,8)` or
  `decimal(18,8)`, and currency codes longer than ten characters, make the statement fail.
- A reachable ledger is one some log of requests, at rates that are not negative, leaves from empty
  tables. The exact conditions for deadlock, races and unsafe rates range over reachable ledgers only.

## Where the code and its documentation differ

- README.md:58 says rates fall back to the latest snapshot if the API fails. The code first
  serves an expired local entry, and also falls back when Redis throws or the table
  lacks the rate (src/fx/fx.service.ts:84-95, 128-138). The code is modelled.
- README.md:78 says the balance rows are locked. A row that does not exist yet cannot be; only
  the unique constraint protects it (src/wallet/wallet.service.ts:91-102), by failing one of two requests
  that would each go through alone. `RaceIff` says exactly which requests this can happen to.
- `convert` does not check that the rate is positive. `RateSafeIff` gives the exact
  condition under which it is safe, and `NegativeRateOverdraws` a case where it is not.
- README.md:78 locks the balances in from-then-to order, so opposite conversions deadlock until the
  database aborts one. `DeadlockIff` says exactly which requests can, `CompletableIff` that all others always end.
- Snapshot saves are swallowed on failure; `LostSaveGoesBack` shows an answer that
  then goes back in time, and `MonotoneIff` says exactly after which answers that cannot happen.
- `hasPrev` is true on every page after the first of a non-empty history, also far beyond its end;
  `HasPrevIff` says exactly when it agrees with the previous page.
- `getRate` refuses a zero rate from its tables but not from a snapshot, whose column rounds a rate
  under 0.5*10^-8 to zero (src/fx/fx.service.ts:119-134). `ZeroRateIff` and `ZeroSnapshotIff` say exactly
  when that happens, `ZeroRateServed` and `VanishingConversion` show it happening.
- The payout is computed in floats before it is rounded, so at a tie it can be one step off the decimal
  one: `TiePayoutDiffers`. `FloatReceivedExactIff` says exactly where no rounding within the relative error
  2^-53 makes a difference; JavaScript's is one of those roundings.

## Model

| member | source | states |
|---|---|---|
| Serializability.Serializable | src/wallet/wallet.service.ts:70-133 | After any interleaving of any number of `fund`, `convert` and wallet-creation requests, with any of them aborted anywhere, the tables equal the committed requests run alone, one after another, in commit order. |
| Serializability.StepKeepsInv | src/wallet/wallet.service.ts:82-115 | Every database step of every request keeps the locks and uncommitted keys exclusive and what each request read still true of the committed tables. |
| Serializability.PublishIsExecute | src/wallet/wallet.service.ts:104-133 | A commit equals running the whole request alone on the tables of the commit moment, although rows were read earlier and absent rows were never locked. |
| Serializability.PublishKeepsOthers | src/wallet/wallet.service.ts:82-94 | A commit invalidates nothing another in-flight request has read under lock, is inserting, or has found about its wallet. |
| Serializability.StepIsAtomic | src/wallet/wallet.service.ts:70-150 | A step either leaves the committed tables unchanged or commits one whole request. |
| Serializability.AllOrNothing | src/wallet/wallet.service.ts:70-150 | Over a whole run a step of a request changes the tables only by committing the whole request, at most once, and the request then ends Committed: one that ends otherwise changed nothing. |
| Serializability.FailureIsRefusalOrRace | src/wallet/wallet.service.ts:75-102 | A request fails by itself only with the error it would get running alone at that moment, or because another request committed the wallet or row it had found absent. |
| Serializability.AloneIsExecute | src/wallet/wallet.service.ts:164-227 | With no other request about, every run that aborts nothing and ends the request ends it exactly as its atomic run does: same tables, same success, same error. |
| Serializability.CommitNeverOverwrites | src/wallet/entities/wallet-balance.entity.ts:6 | At commit, inserted wallets and rows are still absent and updated rows still hold what was read: one row per wallet and currency, one wallet per user. |
| Serializability.LogIsCommitted | src/wallet/wallet.service.ts:70-150 | The commit log holds each request exactly as often as it ended Committed. |
| Serializability.LogFromRequests | src/wallet/wallet.service.ts:70-150 | Only requests that were asked are ever committed. |
| Serializability.AlwaysSafe | src/wallet/wallet.service.ts:87-115 | In every reachable state every balance is a non-negative multiple of 0.0001, whatever the decimals of the amounts, given rates that are not negative. |
| Serializability.AlwaysReconciles | src/wallet/wallet.service.ts:104-133 | In every reachable state each balance equals recorded funding plus conversions in minus conversions out, plus exactly 0.0001 for each committed outgoing conversion of a half-way amount. |
| Serializability.AlwaysAuditable | src/transactions/entities/transaction.entity.ts:49-56 | In every reachable state every stored record was left by one of the requests and meets the audit bound, in its own columns and in the amount asked for, the latter without the rate term for a 4-decimal amount. |
| Serializability.AlwaysAuditableOnGrid | src/transactions/entities/transaction.entity.ts:49-56 | With amounts of at most four decimals every record of every interleaving meets the bound without the rate term. |
| Serializability.AlwaysConserved | src/wallet/wallet.service.ts:104-113 | In every reachable state a user's holdings at fair prices are worth what was funded, within the summed rounding of the committed conversions. |
| Progress.RingShape | src/wallet/wallet.service.ts:82-94 | Every ring of waiting requests consists of conversions of one wallet, each wanting the row the next one locked first; funding and wallet creation are never in one. |
| Progress.RingIsStuck | src/wallet/wallet.service.ts:82-94 | No request in a ring can step. |
| Progress.DeadlockIsRing | src/wallet/wallet.service.ts:82-94 | If requests are unfinished and none can step, some of them form such a ring. |
| Progress.RunsAreFinite | src/wallet/wallet.service.ts:70-150 | No run of a batch is longer than the remaining steps of its requests. |
| Deadlock.DeadlockIff | src/wallet/wallet.service.ts:82-94 | Requests can reach a deadlock, from a ledger some log of requests leaves, by some interleaving, exactly when some of them are conversions of one user that pass their checks, in amounts and codes a row can hold, and close a from-to cycle. |
| Deadlock.RingIsCycle | src/wallet/wallet.service.ts:82-94 | The requests in any ring close such a cycle: one user, different from-currencies, each into the next one's from-currency, all checks passed. |
| Deadlock.CycleDeadlocks | src/wallet/wallet.service.ts:70-94 | Any such cycle of any length deadlocks in two steps per request, from a ledger whose rows were funded. |
| Deadlock.OppositeConversionsDeadlock | src/wallet/wallet.service.ts:82-94 | Concretely: once its rows are funded, a USD to EUR and a EUR to USD conversion of one user deadlock in four steps. |
| Deadlock.SomeoneCanAdvance | src/wallet/wallet.service.ts:82-94 | Without a cycle among the unfinished requests some unfinished request can always step. |
| Deadlock.StuckIsFinished | src/wallet/wallet.service.ts:70-150 | Without a cycle a run that cannot go on has ended every request. |
| Deadlock.CanFinish | src/wallet/wallet.service.ts:70-150 | Without a cycle all requests can be carried to their end, aborting none. |
| Deadlock.RingLasts | src/wallet/wallet.service.ts:82-94 | A ring survives every run without an abort: only the database breaking it frees its members. |
| Deadlock.AbortFrees | src/wallet/wallet.service.ts:70-150 | The database can abort any unfinished request at any step: the tables and all others stay as they are and nobody waits for it any more. |
| Deadlock.AbortBreaksRing | src/wallet/wallet.service.ts:82-94 | Aborting any one member breaks a ring. |
| Deadlock.CompletableIff | src/wallet/wallet.service.ts:70-150 | Every run from every reachable ledger can be completed without an abort exactly when the requests contain no cycle. |
| Races.RaceIff | src/wallet/wallet.service.ts:75-102 | Some run from some reachable ledger makes a request that would go through alone fail on a wallet or row it had found absent, exactly when two requests of one user can both make the user's wallet, or both make one row without converting out of the same one. |
| Races.RaceHasRival | src/wallet/wallet.service.ts:96-102 | Behind every such failure is another request of the batch, of the same user, that could make the same wallet or row. |
| Races.RowRivalsRace | src/wallet/entities/wallet-balance.entity.ts:6 | Any two requests that can make one absent row race: both find it absent, one inserts it, the unique key fails the other. |
| Races.WalletRivalsRace | src/wallet/entities/wallet.entity.ts:15 | Any two requests that can make one absent wallet race the same way on the unique user index. |
| Races.GoesThrough | src/wallet/wallet.service.ts:70-150 | A request that would go through alone still does, step by step, while others hold nothing it needs. |
| Races.TwoFundsRace | src/wallet/wallet.service.ts:185-200 | Concretely: of two first funds of one user, one can fail though each alone goes through. |
| Reachability.ReachableIsSound | src/wallet/wallet.service.ts:104-133 | A ledger some log leaves from empty tables has consistent keys, no negative balance and rows within their columns. |
| Reachability.PocketsReachable | src/wallet/wallet.service.ts:173-218 | Funding distinct currencies in turn leaves one row and one FUNDING record each: the ledgers the counterexamples start from. |
| WalletService.WalletService.OpenWalletRow | src/wallet/wallet.service.ts:238-249 | The lookup or insert that `createForUser` is and `fund` and `convert` begin with: the user's wallet, or one inserted under the drawn id; a taken id is an error and changes nothing. |
| WalletService.WalletService.SaveRecord | src/wallet/wallet.service.ts:118-133 | Appends one record unless a column overflows or the reference is taken; then nothing changes. |
| WalletService.WalletService.FundRows | src/wallet/wallet.service.ts:173-227 | The statements of the funding transaction: on success the tables and receipt are those of the atomic run, on failure the same error. |
| WalletService.WalletService.ConvertRows | src/wallet/wallet.service.ts:70-150 | The statements of the conversion transaction: on success the tables and receipt are those of the atomic run, on failure the same error. |
| WalletService.WalletService.Fund | src/wallet/wallet.service.ts:164-236 | `fund` run to the end: all checks, and either the whole effect with its receipt or nothing. |
| WalletService.WalletService.Convert | src/wallet/wallet.service.ts:47-162 | `convert` run to the end with its rate fetched: all checks, and either the whole effect with its receipt or nothing. |
| WalletService.WalletService.EnsureWallet | src/wallet/wallet.service.ts:259-268 | `ensureWallet`: the existing wallet, or a new one for a known user, or the error of an unknown one. |
| WalletService.WalletService.HasReference | src/transactions/entities/transaction.entity.ts:58-59 | Finds whether a reference is already used. |
| WalletLaws.ExecuteFrame | src/wallet/wallet.service.ts:112-133 | A success changes only the rows of its own currencies in its own wallet, which then exist, adds one record with a fresh reference and at most the drawn wallet, and a conversion never adds a wallet. |
| WalletLaws.RecordTells | src/wallet/wallet.service.ts:118-133 | The record names its user, wallet, currencies, type, SUCCESS and reference, with amounts on the 4-decimal grid near what was asked. |
| WalletLaws.ConvertSucceedsIff | src/wallet/wallet.service.ts:54-102 | Any conversion goes through exactly when its amount is positive, its user known, its codes long enough and different, the user has a `from` row covering the amount, all columns fit and the reference is unused. |
| WalletOutcomes.ConvertOutcome | src/wallet/wallet.service.ts:54-133 | Exactly when a conversion goes through, and for each error exactly when it is the answer. |
| WalletOutcomes.FundOutcome | src/wallet/wallet.service.ts:165-218 | The same for a fund. |
| WalletOutcomes.EnsureWalletOutcome | src/wallet/wallet.service.ts:259-268 | An existing wallet changes nothing; a known user without one gets exactly the drawn one; else the error says whether the user or the id was the trouble. |
| WalletOutcomes.RowFitsIff | src/wallet/entities/wallet-balance.entity.ts:13-17 | A grid balance fits its row exactly when `decimal(18, 4)` and a code of ten characters hold it. |
| WalletOutcomes.RecordFitsIff | src/transactions/entities/transaction.entity.ts:43-56 | A record fits exactly when `decimal(20, 4)` holds its amounts and `decimal(20, 8)` its rate. |
| WalletLaws.ExecuteMovesByDelta | src/wallet/wallet.service.ts:104-113 | Every balance of every user moves by the rounded credit or debit, a half-way debit taking one step less than its record says. |
| WalletLaws.OtherUserUntouched | src/wallet/wallet.service.ts:82-85 | No request changes a balance of another user. |
| WalletLaws.ExecuteSolvent | src/wallet/wallet.service.ts:87-113 | With a rate that is not negative no request makes a balance negative or leaves the 4-decimal grid. |
| WalletLaws.ConvertSolventIff | src/wallet/wallet.service.ts:104-113 | Exactly when a conversion leaves every balance non-negative: when the `to` balance plus the payout is. |
| RateSafety.RateSafeIff | src/wallet/wallet.service.ts:104 | A quoted rate keeps every reachable ledger solvent exactly when amount times rate is above -0.00005, or no reachable ledger lets the conversion through at all. |
| RateSafety.NegativeRateOverdraws | src/wallet/wallet.service.ts:68 | `convert` does not check the sign of the rate: one funded USD converted at -1 leaves -1 EUR. |
| WalletLaws.ZeroRatePaysNothing | src/wallet/wallet.service.ts:104-113 | At a rate of zero a conversion goes through, takes the amount and pays nothing. |
| WalletLaws.Reconciles | src/wallet/wallet.service.ts:104-133 | Over every log each balance is what the records add up to plus 0.0001 per half-way debit; FUNDING counts once, as credit. |
| WalletLaws.ReconcilesExactly | src/wallet/wallet.service.ts:198-218 | With amounts of at most four decimals the records explain every balance exactly. |
| WalletLaws.ValueMovedIsShares | src/wallet/wallet.service.ts:112-113 | The value a request moves is the share of the one or two currencies it touches. |
| WalletLaws.ConversionMoves | src/wallet/wallet.service.ts:104-110 | One conversion at fair prices moves value by at most half a step of `to`, plus half a step of `from` for an amount off the grid. |
| WalletLaws.ValueConserved | src/wallet/wallet.service.ts:104-113 | Over every log a user's holdings are worth the funded amounts within the summed slack of the conversions. |
| WalletLaws.RecordAudit | src/transactions/entities/transaction.entity.ts:49-56 | Payout against recorded amount times recorded rate: the bound in the requested amount, without the last term for 4-decimal amounts. |
| WalletLaws.LogAuditable | src/transactions/entities/transaction.entity.ts:49-56 | Every record of every log was left by one of its requests and meets the audit bounds. |
| WalletLedger.ExecuteConsistent | src/wallet/entities/wallet.entity.ts:15 | Every success keeps wallets one per user, rows inside existing wallets, records attributed and references unique. |
| Decimal.NearestIsToFixed | src/wallet/wallet.service.ts:104-110 | The rounding used everywhere is the one integer ECMA-262 section 21.1.3.3 picks, by magnitude under a minus sign for negative numbers, and nothing else meets that rule. |
| Decimal.CreditRounds | src/wallet/wallet.service.ts:108-110 | Adding to a grid balance and rounding adds the separately rounded amount. |
| Decimal.DebitRounds | src/wallet/wallet.service.ts:105-107 | Subtracting from a grid balance and rounding takes the separately rounded amount, except one step less for a tie. |
| Conversion.ChainBound | src/wallet/wallet.service.ts:104-110 | A chain of conversions ends within its scaled half steps of the exact product of the rates. |
| Conversion.ChainSlackIsTermSum | src/wallet/wallet.service.ts:104-110 | That slack is half a step times the product of the later rates, summed over the chain. |
| Conversion.RoundTripBound | src/wallet/wallet.service.ts:104 | There and back loses or gains at most half a step plus half a step times the return rate. |
| Conversion.SplitBound | src/wallet/wallet.service.ts:104 | n conversions of parts pay within n+1 half steps of one conversion of the whole. |
| Conversion.ReceivedMonotone | src/wallet/wallet.service.ts:104 | A larger amount never receives less. |
| FloatLayer.CreditExact | src/wallet/wallet.service.ts:108-110 | For any conversion to and from machine numbers with relative error 2^-53, the stored float sum is the decimal sum, up to 10^11. |
| FloatLayer.DebitExact | src/wallet/wallet.service.ts:105-107 | The stored float difference is the decimal difference, up to 10^11. |
| FloatLayer.ComparisonExact | src/wallet/wallet.service.ts:87 | The float "Insufficient balance" test agrees with the decimal one in both directions. |
| FloatLayer.FloatRunExact | src/wallet/wallet.service.ts:198 | No error accumulates: after any number of credits and debits, refused ones included, the stored float balance is the decimal balance. |
| FloatLayer.FloatReceivedError | src/wallet/wallet.service.ts:104 | The float payout is within half a step plus a relative 3*2^-53 of the exact product. |
| FloatLayer.FloatReceivedExactIff | src/wallet/wallet.service.ts:104 | All roundings within a relative 2^-53 pay the decimal payout exactly when the product rounded down twice and rounded up twice by 2^-53 give the same four decimals. |
| FloatLayer.TiePayoutDiffers | src/wallet/wallet.service.ts:104 | Doubles do pay differently at a tie: 1.0001 at a rate of 0.5 pays 0.5001 in decimals and 0.5 in any rounding that takes [1, 2) to a nearest multiple of 2^-52 and keeps multiples of 2^-53 below 1. |
| FloatLayer.ToDoubleRounds | src/wallet/wallet.service.ts:104 | Such roundings exist within the relative error. |
| FloatLayer.FloatReceivedWithinStep | src/wallet/wallet.service.ts:104 | Up to 10^11 the float payout is never more than one step of 0.0001 from the decimal one. |
| FloatLayer.FloatConversionExact | src/wallet/wallet.service.ts:104-115 | Up to 10^11 both rows of a conversion computed in floats are stored as exact arithmetic leaves them for the float payout, which is within a step of the decimal one and equal to it away from ties. |
| FloatLedger.FloatLedgerExact | src/wallet/wallet.service.ts:104-133 | Over any run of `fund`, `convert` and wallet creation, with on-grid amounts and balances up to 10^11, all tables computed in floats are those of decimal arithmetic with the float payouts: rows, records, refusals. |
| FloatLedger.FloatLedgerIsDecimal | src/wallet/wallet.service.ts:104-133 | When every product is clear of a tie the float tables are the decimal ones altogether. |
| FloatLedger.ExecutionsAgree | src/wallet/wallet.service.ts:87-133 | One request in floats ends with the same tables or the same error as in decimals with its float payout. |
| FloatLedger.DecimalsExecute | src/wallet/wallet.service.ts:104-133 | The decimal arithmetic of these runs is the ledger's own. |
| FxService.RedisService.GetJson | src/redis/redis.service.ts:79-91 | Absent when disabled, expired, evicted or unparsable; throws when the client does. |
| FxService.RedisService.SetJson | src/redis/redis.service.ts:93-106 | Stores with an expiry only for a positive TTL; nothing when disabled; reports a throw whether or not the write landed. |
| FxService.FxService.FetchAndCache | src/fx/fx.service.ts:71-98 | Fetch, replace the local entry, write Redis; any throw serves the entry seen before the call. |
| FxService.FxService.GetRates | src/fx/fx.service.ts:43-99 | The tiered lookup leaves every store and answers exactly as the specified one. |
| FxService.FxService.SaveSnapshot | src/fx/fx.service.ts:178-197 | Appends the rate at eight decimals, or swallows the failure. |
| FxService.FxService.GetLatestSnapshot | src/fx/fx.service.ts:199-204 | The scan finds the specified latest snapshot of the pair. |
| FxService.FxService.GetRate | src/fx/fx.service.ts:101-141 | Rate, snapshot and fallback: every store and the answer are those specified. |
| FxLaws.MonotoneReads | src/fx/fx.service.ts:43-141 | Successive answers for a pair never go back in `fetchedAt`, through any mix of Redis hits, expiry, eviction, API and write failures, stale serving and fallback, once the earlier one's snapshot is saved or the fallback was not older. |
| FxLaws.MonotoneIff | src/fx/fx.service.ts:119-141 | After the i-th answer of a run, no continuation ever answers older exactly when its snapshot was saved, or the pair's latest snapshot before the call, if any, was not older. |
| FxLaws.LaterReadsIff | src/fx/fx.service.ts:43-141 | From any coherent moment whose caches are not older than t, no later run answers older than t exactly when the pair's latest snapshot, if any, is not older. |
| FxLaws.CoveredAfterIff | src/fx/fx.service.ts:125-136 | A call leaves the fallback no older than its own answer exactly when its save succeeds or the fallback was not older before. |
| FxLaws.RunCoherent | src/fx/fx.service.ts:71-95 | Throughout a run Redis is never ahead of the local map, and no snapshot ahead of what the caches can still serve. |
| FxLaws.AnswerIsFloor | src/fx/fx.service.ts:52-95 | Nothing the caches can answer after a call is older than that call's answer. |
| FxLaws.LostSaveGoesBack | src/fx/fx.service.ts:193-196 | A swallowed snapshot failure can make a later answer older than an earlier one. |
| FxLaws.FreshStartCoherent | src/fx/fx.service.ts:23-26 | A process that starts with no caches of its own and snapshots from the past is coherent. |
| FxLaws.RunProvenance | src/fx/fx.service.ts:71-84 | Every Redis entry, local entry and snapshot of every run is one past API response for that base with that response's time. |
| FxLaws.AnswersHaveProvenance | src/fx/fx.service.ts:115-137 | Every non-static answer of every run is that response's entry for the target, exact from a cache or the API, rounded to eight decimals from a snapshot. |
| FxLaws.AnswerNearResponse | src/fx/entities/fx-rate-snapshot.entity.ts:13 | Every non-static answer of every run from empty stores is within half a unit of the eighth decimal of its response's entry from the fallback, and equal to it otherwise. |
| FxLaws.QuotesNotNegative | src/fx/fx.service.ts:101-137 | From empty stores, a provider that answers no negative rate gives no call of any run a negative rate, in any tier. |
| QuotedConversions.QuotedLedgerIsSafe | src/wallet/wallet.service.ts:68-115 | With such a provider, conversions at quoted rates keep every balance a non-negative multiple of 0.0001, whichever tier quoted and however the requests interleave. |
| FxLaws.ZeroRateIff | src/fx/fx.service.ts:119-134 | A zero rate is answered exactly when the tables fail or lack a truthy rate and the pair's latest snapshot holds zero. |
| FxLaws.ZeroSnapshotIff | src/fx/fx.service.ts:125-188 | A call answered from the tables leaves a zero snapshot exactly when its save goes through and its rate is below half a unit of the eighth decimal. |
| FxLaws.ZeroSnapshotIsTiny | src/fx/entities/fx-rate-snapshot.entity.ts:13 | In every run a stored snapshot is zero exactly when the response entry behind it is below half a unit of the eighth decimal. |
| FxLaws.ZeroRateServed | src/fx/fx.service.ts:119-134 | Concretely: an API entry of 10^-9 is quoted and saved, Redis throws, and the next call quotes zero. |
| QuotedConversions.VanishingConversion | src/wallet/wallet.service.ts:68-113 | Converted at that zero quote, one funded unit becomes nothing. |
| FxLaws.GetRatesProvenance | src/fx/fx.service.ts:52-95 | Every table answered is one past API response for that base with its time, and no response is forgotten. |
| FxLaws.AnswersAreFresh | src/fx/fx.service.ts:36-95 | A `cache-local` answer is younger than the local TTL since its fetch; a Redis answer younger than its TTL plus the write delay. |
| FxLaws.TablesAreFresh | src/fx/fx.service.ts:36-95 | The same bounds for the tables `getRates` answers in every run from empty caches. |
| FxLaws.StaleOnlyAfterFailure | src/fx/fx.service.ts:84-95 | A stale local answer means this call's fetch or Redis write failed and the entry had expired. |
| FxLaws.TierOrder | src/fx/fx.service.ts:47-98 | Exactly when each tier answers, and that only a double miss reaches the API. |
| FxLaws.CachedContent | src/fx/fx.service.ts:52-69 | A cached answer is the whole entry the tier held. |
| FxOutcomes.FetchedThenServed | src/redis/redis.service.ts:84-105 | After an API answer and any calls for other bases the same table is served without another fetch, from Redis exactly until its TTL and else from the local map exactly for max(5, TTL) seconds. |
| FxOutcomes.OtherFetchKeepsTable | src/fx/fx.service.ts:62-77 | Concretely: EUR fetched, USD fetched later, provider down: EUR is still answered from the local map. |
| FxOutcomes.TableFrame | src/fx/fx.service.ts:43-99 | A `getRates` call leaves every other base in both caches, and all snapshots, as they were. |
| FxOutcomes.QuoteFrame | src/fx/fx.service.ts:101-141 | A `getRate` call leaves every other base as it was and adds at most one snapshot, of its own pair. |
| FxOutcomes.LocalAfter | src/fx/fx.service.ts:71-95 | A fetch replaces the local entry for max(5, TTL) seconds from the start of the call, also when the Redis write throws; a failed fetch or a hit leaves the map. |
| FxOutcomes.RedisAfter | src/redis/redis.service.ts:79-106 | What each outcome of the read and the write leaves of the Redis key, with its expiry. |
| FxOutcomes.TableFailsIff | src/fx/fx.service.ts:47-97 | For each error of `getRates`, exactly when it is the answer. |
| FxOutcomes.QuoteOutcome | src/fx/fx.service.ts:115-140 | For two different codes: a truthy table rate is answered and saved at eight decimals if it fits; otherwise the latest snapshot, or exactly which error. |
| FxOutcomes.StaticRate | src/fx/fx.service.ts:105-113 | A currency against itself is 1 at the time of the call and touches no store. |
| FxOutcomes.StaticIff | src/fx/fx.service.ts:105-137 | An answer is static exactly when the two codes are equal. |
| FxOutcomes.ShortCodesRefused | src/fx/fx.service.ts:143-149 | A code under three characters is refused and no store changes. |
| FxLaws.GetRateFailsIff | src/fx/fx.service.ts:115-140 | For valid distinct codes `getRate` fails exactly when the tiers fail or lack a truthy rate and the pair has no snapshot. |
| FxLaws.LatestIsGreatest | src/fx/fx.service.ts:199-204 | The fallback is a snapshot of the pair with the greatest `fetchedAt`, and exists exactly when the pair has one. |
| FxLaws.AvailabilityIsMonotone | src/fx/fx.service.ts:128-140 | Once a pair has a snapshot every later `getRate` answers, whatever Redis and the API do. |
| TransactionHistory.QueryBuilder.GetManyAndCount | src/transactions/transaction.service.ts:108 | The window of the selected rows and the count of all of them. |
| TransactionHistory.TransactionsService.Paginate | src/transactions/transaction.service.ts:89-122 | The clamped page of the query with its metadata. |
| TransactionHistory.TransactionsService.GetUserTransactions | src/transactions/transaction.service.ts:18-53 | The page `Answered` specifies, built up clause by clause; the rows below say which records it holds, in which order, and what its metadata says. |
| HistoryListing.PageIsNewest | src/transactions/transaction.service.ts:32-52 | The k-th page is the k-th window of the rows that match user, type, status and currency (raised, either side), each as often as in the table, newest first. |
| HistoryListing.NewerComesFirst | src/transactions/transaction.service.ts:35 | Concretely: of two records on pages of one, page 1 is the newer and page 2 the older. |
| HistoryListing.MetaSays | src/transactions/transaction.service.ts:104-121 | Page asked, limit used, number of matching records, number of pages, whether there is a next and a previous one, and how many records the page has. |
| HistoryListing.ClampsUsed | src/transactions/transaction.service.ts:104-105 | The page is the one asked from 1 on, else 1; the limit the one asked within 1 to 100, else the nearer end, and 20 when absent. |
| HistoryListing.PagesAskedPartition | src/transactions/transaction.service.ts:104-121 | Asking pages 1 to `meta.totalPages` one by one gives the whole filtered history, each record once and in order. |
| HistoryListing.FollowAskedCollectsAll | src/transactions/transaction.service.ts:104-121 | Asking on as long as `hasNext` says so ends after max(1, totalPages) pages with the whole filtered history. |
| HistoryListing.UpperCase | src/transactions/transaction.service.ts:48 | `toUpperCase` raises each ASCII letter to its own capital and nothing else. |
| TransactionHistory.NewestFirstOrders | src/transactions/transaction.service.ts:35 | The listing's order has every row once, newest first. |
| TransactionHistory.FilterIgnoresCase | src/transactions/transaction.service.ts:45-50 | A currency filter in lower case lists the same records. |
| TransactionHistory.SelectIsFiltered | src/transactions/transaction.service.ts:32-50 | The clauses added one by one select exactly the records the filters describe, in order. |
| TransactionHistory.PagesPartition | src/transactions/transaction.service.ts:104-109 | The windows 1 to totalPages of any list are the list, each record once and in order. |
| TransactionHistory.FollowCollectsAll | src/transactions/transaction.service.ts:104-119 | Following `hasNext` over the windows of any list ends after max(1, totalPages) of them and has collected everything. |
| TransactionHistory.PageEmptyIff | src/transactions/transaction.service.ts:106-109 | A page is empty exactly when it lies beyond totalPages. |
| TransactionHistory.HasNextIff | src/transactions/transaction.service.ts:118 | `hasNext` is true exactly when the next page has records. |
| TransactionHistory.HasPrevIff | src/transactions/transaction.service.ts:119 | `hasPrev` agrees with the page before exactly up to the page after the last. |
| TransactionHistory.HasPrevMisleads | src/transactions/transaction.service.ts:119 | Concretely: with one record and pages of one, page 3 says there is a previous page and page 2 is empty. |
| TransactionHistory.StatsAgreeWithListing | src/transactions/transaction.service.ts:64-86 | Each group's count and amount are the total and sum of the listing filtered to it, and it has a row exactly when that listing is not empty. |
| TransactionHistory.StatsSumToHistory | src/transactions/transaction.service.ts:64-86 | The groups together are the unfiltered listing. |
| TransactionHistory.StatsIgnoreOrder | src/transactions/transaction.service.ts:66-74 | Statistics do not depend on the order the table is read in. |
| TransactionHistory.StatsOfListed | src/transactions/transaction.service.ts:35-74 | Group by group, the statistics of the table are those of its sorted listing. |
| TransactionHistory.CommitAdvancesOneGroup | src/wallet/wallet.service.ts:118-133 | A committed request advances its own (type, SUCCESS) group of its own user by one record and its amount, and no other. |
| TransactionHistory.StepAdvancesStats | src/wallet/wallet.service.ts:203-218 | In every interleaving a step changes the statistics only by committing a request, in that one group. |

## Left out

- Controllers, DTO decorators, guards, filters, interceptors and Swagger: plumbing.
- Auth, OTP, JWT and mail: separate short lifecycles without shared state.
- Analytics logging and its summary: fire-and-forget writes that no request reads back.
- Currency normalisation beyond the length check: codes are taken as already trimmed and upper case, except in the history's currency filter, where ASCII is raised.
- `getBalances` and `getTransactionByReference`: a sorted read and a lookup of what the other laws describe.
- IEEE 754 bit patterns: the float layer uses only the relative error of a conversion or operation.
- Overlapping calls inside the rate service: its laws are over calls that follow one another.
- Rows of equal `createdAt`: the database may list them in any order and change it between pages, the model lists the later one first.
- Ties between snapshots of equal `fetchedAt`: the database may return any of them, the model the last one saved.
- SERIALIZABLE or other isolation levels: the steps are those of row locks and unique keys under READ COMMITTED.
- The tables as sets of rows: they are maps from their unique keys, and `CommitNeverOverwrites` shows that no insert ever meets a key already there.
