// The whole ledger in machine numbers: any log of requests leaves exactly the tables
// of decimal arithmetic, given what the float products pay out.
module FloatLedger {
  import opened Wrappers
  import opened Currencies
  import opened Decimal
  import opened Conversion
  import opened WalletLedger
  import opened FloatLayer

  // ---------- Execution in a given arithmetic ----------

  /** How balances are added to, taken from and compared, what a conversion pays, and what an amount column keeps. */
  datatype Arithmetic = Arithmetic(
    credit: (real, real) -> real, debit: (real, real) -> real, short: (real, real) -> bool,
    paid: (real, real) -> real, kept: real -> real)

  function Decimals(): Arithmetic {
    Arithmetic((b, a) => Credited(b, a), (b, a) => Debited(b, a), (b, a) => b < a,
               (a, rate) => Received(a, rate), a => Round4(a))
  }

  /** Decimal balances, but the payouts of float products. */
  function FloatPayouts(fl: real -> real): Arithmetic {
    Decimals().(paid := (a, rate) => FloatReceived(fl, a, rate))
  }

  /** As the service computes: parsed, combined, fixed to four decimals and sent as text. */
  function Floats(fl: real -> real, text: real -> real): Arithmetic {
    Arithmetic((b, a) => FloatCredited(fl, text, b, a), (b, a) => FloatDebited(fl, text, b, a),
               (b, a) => FloatInsufficient(fl, b, a), (a, rate) => FloatReceived(fl, a, rate), a => Round4(text(fl(a))))
  }

  function RecordIn(ar: Arithmetic, r: Request, wallet: WalletId): Record
    requires !r.EnsureWallet?
  {
    RecordOf(r, wallet).(
      fromAmount := ar.kept(r.amount),
      toAmount := ar.kept(if r.Fund? then r.amount else ar.paid(r.amount, r.rate)))
  }

  function FundIn(ar: Arithmetic, l: Ledger, r: Request): Result<Ledger, Error>
    requires r.Fund?
  {
    var ready :- OpenWallet(l, r.user, r.draw);
    var key := (ready.wallets[r.user], r.currency);
    var written :- WriteRow(ready, key, ar.credit(OrZero(Row(ready, key)), r.amount));
    AppendRecord(written, RecordIn(ar, r, key.0))
  }

  function ConvertIn(ar: Arithmetic, l: Ledger, r: Request): Result<Ledger, Error>
    requires r.Convert?
  {
    var ready :- OpenWallet(l, r.user, r.draw);
    var wallet := ready.wallets[r.user];
    var from, to := Row(ready, (wallet, r.from)), Row(ready, (wallet, r.to));
    if from.None? || ar.short(from.value, r.amount) then Err(InsufficientBalance)
    else
      var debited :- WriteRow(ready, (wallet, r.from), ar.debit(from.value, r.amount));
      var credited :- WriteRow(debited, (wallet, r.to), ar.credit(OrZero(to), ar.paid(r.amount, r.rate)));
      AppendRecord(credited, RecordIn(ar, r, wallet))
  }

  function ExecuteIn(ar: Arithmetic, l: Ledger, r: Request): Result<Ledger, Error> {
    var refusal := Validate(l, r);
    if refusal.Some? then Err(refusal.value)
    else
      match r
      case Fund(_, _, _, _) => FundIn(ar, l, r)
      case Convert(_, _, _, _, _, _, _) => ConvertIn(ar, l, r)
      case EnsureWallet(user, draw) => OpenWallet(l, user, draw)
  }

  /** A run of requests; a refused one leaves the tables alone. */
  function RunIn(ar: Arithmetic, l: Ledger, requests: seq<Request>): Ledger {
    if requests == [] then l
    else After(ar, RunIn(ar, l, requests[..|requests| - 1]), requests[|requests| - 1])
  }

  function After(ar: Arithmetic, l: Ledger, r: Request): Ledger {
    var run := ExecuteIn(ar, l, r);
    if run.Ok? then run.value else l
  }

  lemma DecimalRecord(r: Request, wallet: WalletId)
    requires !r.EnsureWallet?
    ensures RecordIn(Decimals(), r, wallet) == RecordOf(r, wallet)
  {
    if r.Convert? {
      Round4OnGrid(Times(r.amount, r.rate));
      Round4Fixes(Received(r.amount, r.rate));
    }
  }

  /** Execution in decimals is the ledger's own. */
  lemma DecimalsExecute(l: Ledger, r: Request)
    ensures ExecuteIn(Decimals(), l, r) == Execute(l, r)
  {
    if !r.EnsureWallet? {
      if OpenWallet(l, r.user, r.draw).Ok? { DecimalRecord(r, OpenWallet(l, r.user, r.draw).value.wallets[r.user]); }
    }
  }

  // ---------- Two arithmetics that agree ----------

  /** The row a fund adds to, and the rows a conversion moves between. */
  function Opened(l: Ledger, r: Request): Ledger {
    var opening := OpenWallet(l, r.user, r.draw);
    if opening.Ok? then opening.value else l
  }

  function BalanceOf(l: Ledger, r: Request, currency: Currency): real {
    UserBalance(Opened(l, r), r.user, currency)
  }

  /** The two agree on everything this request computes. */
  predicate Agree(a: Arithmetic, b: Arithmetic, l: Ledger, r: Request) {
    match r
    case Fund(_, currency, amount, _) =>
      var held := BalanceOf(l, r, currency);
      a.credit(held, amount) == b.credit(held, amount) && a.kept(amount) == b.kept(amount)
    case Convert(_, from, to, amount, rate, _, _) =>
      var held, target, paid := BalanceOf(l, r, from), BalanceOf(l, r, to), b.paid(amount, rate);
      && a.paid(amount, rate) == paid && a.kept(amount) == b.kept(amount) && a.kept(paid) == b.kept(paid)
      && a.short(held, amount) == b.short(held, amount) && a.credit(target, paid) == b.credit(target, paid)
      && (!b.short(held, amount) ==> a.debit(held, amount) == b.debit(held, amount))
    case EnsureWallet(_, _) => true
  }

  lemma AgreeingExecutions(a: Arithmetic, b: Arithmetic, l: Ledger, r: Request)
    requires Validate(l, r).None? ==> Agree(a, b, l, r)
    ensures ExecuteIn(a, l, r) == ExecuteIn(b, l, r)
  {
  }

  // ---------- Floats compute the same tables ----------

  /** No balance is over 10^11. */
  ghost predicate Bounded(l: Ledger) {
    forall key :: key in l.balances ==> l.balances[key] <= BOUND
  }

  /** An amount on the grid and a product of at most 10^11, less room for its rounding. */
  predicate Modest(r: Request) {
    match r
    case Fund(_, _, amount, _) => amount > 0.0 ==> Money(amount)
    case Convert(_, _, _, amount, rate, _, _) =>
      rate >= 0.0 && (amount > 0.0 ==> Money(amount) && Times(amount, rate) <= BOUND - 1.0)
    case EnsureWallet(_, _) => true
  }

  lemma KeptExact(fl: real -> real, text: real -> real, a: real)
    requires Approximates(fl) && Approximates(text) && Money(a)
    ensures Round4(text(fl(a))) == a == Round4(a)
  {
    SmallError(fl, a);
    SmallError(text, fl(a));
    Round4Snaps(text(fl(a)), a);
    Round4Fixes(a);
  }

  lemma PaidIsMoney(fl: real -> real, amount: real, rate: real)
    requires Approximates(fl) && amount >= 0.0 && rate >= 0.0 && Times(amount, rate) <= BOUND - 1.0
    ensures Money(FloatReceived(fl, amount, rate))
  {
    FloatReceivedWithinStep(fl, amount, rate);
    Round4Error(Times(amount, rate));
  }

  lemma BalancesAreMoney(l: Ledger, r: Request, currency: Currency)
    requires Solvent(l) && Bounded(l)
    ensures Money(BalanceOf(l, r, currency))
  {
    OneOnGrid(0.0);
  }

  lemma SameCredit(fl: real -> real, text: real -> real, b: real, a: real)
    requires FloatCredited(fl, text, b, a) == Credited(b, a)
    ensures Floats(fl, text).credit(b, a) == FloatPayouts(fl).credit(b, a)
  {
  }

  lemma CreditsAgree(fl: real -> real, text: real -> real, b: real, a: real)
    requires Approximates(fl) && Approximates(text) && Money(b) && Money(a)
    ensures Floats(fl, text).credit(b, a) == FloatPayouts(fl).credit(b, a)
  {
    CreditExact(fl, text, b, a);
    SameCredit(fl, text, b, a);
  }

  lemma ComparisonsAgree(fl: real -> real, text: real -> real, b: real, a: real)
    requires Approximates(fl) && Money(b) && Money(a)
    ensures Floats(fl, text).short(b, a) == FloatPayouts(fl).short(b, a) == (b < a)
  {
    ComparisonExact(fl, b, a);
    SameComparison(fl, text, b, a);
  }

  lemma DebitsAgree(fl: real -> real, text: real -> real, b: real, a: real)
    requires Approximates(fl) && Approximates(text) && Money(b) && Money(a) && a <= b
    ensures Floats(fl, text).debit(b, a) == FloatPayouts(fl).debit(b, a)
  {
    DebitExact(fl, text, b, a);
    SameDebit(fl, text, b, a);
  }

  lemma SameComparison(fl: real -> real, text: real -> real, b: real, a: real)
    requires FloatInsufficient(fl, b, a) == (b < a)
    ensures Floats(fl, text).short(b, a) == FloatPayouts(fl).short(b, a) == (b < a)
  {
  }

  lemma SameDebit(fl: real -> real, text: real -> real, b: real, a: real)
    requires FloatDebited(fl, text, b, a) == Debited(b, a)
    ensures Floats(fl, text).debit(b, a) == FloatPayouts(fl).debit(b, a)
  {
  }

  lemma KeptAgree(fl: real -> real, text: real -> real, a: real)
    requires Approximates(fl) && Approximates(text) && Money(a)
    ensures Floats(fl, text).kept(a) == FloatPayouts(fl).kept(a)
  {
    KeptExact(fl, text, a);
  }

  lemma PaymentsAgree(fl: real -> real, text: real -> real, amount: real, rate: real)
    ensures Floats(fl, text).paid(amount, rate) == FloatPayouts(fl).paid(amount, rate) == FloatReceived(fl, amount, rate)
  {
  }

  lemma FundAgrees(a: Arithmetic, b: Arithmetic, l: Ledger, r: Request)
    requires r.Fund? && a.kept(r.amount) == b.kept(r.amount)
    requires a.credit(BalanceOf(l, r, r.currency), r.amount) == b.credit(BalanceOf(l, r, r.currency), r.amount)
    ensures Agree(a, b, l, r)
  {
  }

  lemma ConvertAgrees(a: Arithmetic, b: Arithmetic, l: Ledger, r: Request, held: real, target: real, paid: real)
    requires r.Convert? && held == BalanceOf(l, r, r.from) && target == BalanceOf(l, r, r.to)
    requires a.paid(r.amount, r.rate) == b.paid(r.amount, r.rate) == paid
    requires a.kept(r.amount) == b.kept(r.amount) && a.kept(paid) == b.kept(paid)
    requires a.credit(target, paid) == b.credit(target, paid)
    requires a.short(held, r.amount) == b.short(held, r.amount)
    requires !b.short(held, r.amount) ==> a.debit(held, r.amount) == b.debit(held, r.amount)
    ensures Agree(a, b, l, r)
  {
  }

  lemma FloatsAgreeOnFund(fl: real -> real, text: real -> real, l: Ledger, r: Request)
    requires Approximates(fl) && Approximates(text) && r.Fund?
    requires Money(BalanceOf(l, r, r.currency)) && Money(r.amount)
    ensures Agree(Floats(fl, text), FloatPayouts(fl), l, r)
  {
    KeptAgree(fl, text, r.amount);
    CreditsAgree(fl, text, BalanceOf(l, r, r.currency), r.amount);
    FundAgrees(Floats(fl, text), FloatPayouts(fl), l, r);
  }

  lemma FloatsAgreeOnConvert(fl: real -> real, text: real -> real, l: Ledger, r: Request)
    requires Approximates(fl) && Approximates(text) && r.Convert? && Money(BalanceOf(l, r, r.from))
    requires Money(BalanceOf(l, r, r.to)) && Money(r.amount) && r.rate >= 0.0 && Times(r.amount, r.rate) <= BOUND - 1.0
    ensures Agree(Floats(fl, text), FloatPayouts(fl), l, r)
  {
    var held, target, paid := BalanceOf(l, r, r.from), BalanceOf(l, r, r.to), FloatReceived(fl, r.amount, r.rate);
    PaymentsAgree(fl, text, r.amount, r.rate);
    PaidIsMoney(fl, r.amount, r.rate);
    KeptAgree(fl, text, r.amount);
    KeptAgree(fl, text, paid);
    CreditsAgree(fl, text, target, paid);
    ComparisonsAgree(fl, text, held, r.amount);
    if r.amount <= held { DebitsAgree(fl, text, held, r.amount); }
    ConvertAgrees(Floats(fl, text), FloatPayouts(fl), l, r, held, target, paid);
  }

  /** One request in floats ends as in decimals with the float payout: same tables, same error. */
  lemma ExecutionsAgree(fl: real -> real, text: real -> real, l: Ledger, r: Request)
    requires Approximates(fl) && Approximates(text) && Solvent(l) && Bounded(l) && Modest(r)
    ensures ExecuteIn(Floats(fl, text), l, r) == ExecuteIn(FloatPayouts(fl), l, r)
  {
    if Validate(l, r).None? {
      match r
      case Fund(_, currency, _, _) =>
        BalancesAreMoney(l, r, currency);
        FloatsAgreeOnFund(fl, text, l, r);
      case Convert(_, from, to, _, _, _, _) =>
        BalancesAreMoney(l, r, from);
        BalancesAreMoney(l, r, to);
        FloatsAgreeOnConvert(fl, text, l, r);
      case EnsureWallet(_, _) =>
    }
    AgreeingExecutions(Floats(fl, text), FloatPayouts(fl), l, r);
  }

  lemma CreditKeepsGrid(b: real, a: real)
    requires b >= 0.0 && a >= 0.0
    ensures OnGrid(Credited(b, a)) && Credited(b, a) >= 0.0
  {
    Round4OnGrid(b + a);
    Round4NonNegative(b + a);
  }

  lemma DebitKeepsGrid(b: real, a: real)
    requires b >= a
    ensures OnGrid(Debited(b, a)) && Debited(b, a) >= 0.0
  {
    Round4OnGrid(b - a);
    Round4NonNegative(b - a);
  }

  /** Float payouts keep every balance on the grid and not negative. */
  lemma FloatPayoutsSolvent(fl: real -> real, l: Ledger, r: Request)
    requires Approximates(fl) && Solvent(l) && Modest(r)
    ensures Solvent(After(FloatPayouts(fl), l, r))
  {
    if Validate(l, r).None? {
      match r
      case Fund(_, currency, amount, _) =>
        BalanceNotNegative(l, r, currency);
        CreditKeepsGrid(BalanceOf(l, r, currency), amount);
        SolventAfter(FloatPayouts(fl), l, r);
      case Convert(_, from, to, amount, rate, _, _) =>
        BalanceNotNegative(l, r, from);
        BalanceNotNegative(l, r, to);
        PaidIsMoney(fl, amount, rate);
        CreditKeepsGrid(BalanceOf(l, r, to), FloatReceived(fl, amount, rate));
        if amount <= BalanceOf(l, r, from) { DebitKeepsGrid(BalanceOf(l, r, from), amount); }
        SolventAfter(FloatPayouts(fl), l, r);
      case EnsureWallet(_, _) =>
    }
  }

  lemma BalanceNotNegative(l: Ledger, r: Request, currency: Currency)
    requires Solvent(l)
    ensures BalanceOf(l, r, currency) >= 0.0
  {
  }

  /** What a request writes is on the grid and not negative. */
  predicate WritesGrid(ar: Arithmetic, l: Ledger, r: Request) {
    match r
    case Fund(_, currency, amount, _) =>
      var b := ar.credit(BalanceOf(l, r, currency), amount); OnGrid(b) && b >= 0.0
    case Convert(_, from, to, amount, rate, _, _) =>
      var b, d := ar.credit(BalanceOf(l, r, to), ar.paid(amount, rate)), ar.debit(BalanceOf(l, r, from), amount);
      OnGrid(b) && b >= 0.0 && (!ar.short(BalanceOf(l, r, from), amount) ==> OnGrid(d) && d >= 0.0)
    case EnsureWallet(_, _) => true
  }

  lemma SolventAfter(ar: Arithmetic, l: Ledger, r: Request)
    requires Solvent(l) && WritesGrid(ar, l, r)
    ensures Solvent(After(ar, l, r))
  {
  }

  // ---------- Runs ----------

  /** The two arithmetics run the i-th request alike. */
  ghost predicate StepAgrees(a: Arithmetic, b: Arithmetic, l: Ledger, requests: seq<Request>, i: nat)
    requires i < |requests|
  {
    var before := RunIn(b, l, requests[..i]);
    ExecuteIn(a, before, requests[i]) == ExecuteIn(b, before, requests[i])
  }

  lemma {:induction false} RunsAgree(a: Arithmetic, b: Arithmetic, l: Ledger, requests: seq<Request>)
    requires forall i: nat :: i < |requests| ==> StepAgrees(a, b, l, requests, i)
    ensures RunIn(a, l, requests) == RunIn(b, l, requests)
  {
    if requests != [] {
      var n := |requests| - 1;
      var front := requests[..n];
      forall i: nat | i < n ensures StepAgrees(a, b, l, front, i) {
        assert StepAgrees(a, b, l, requests, i);
        assert front[..i] == requests[..i];
      }
      RunsAgree(a, b, l, front);
      assert StepAgrees(a, b, l, requests, n);
    }
  }

  lemma {:induction false} RunSolvent(fl: real -> real, l: Ledger, requests: seq<Request>, i: nat)
    requires Approximates(fl) && Solvent(l) && i <= |requests|
    requires forall k :: 0 <= k < |requests| ==> Modest(requests[k])
    ensures Solvent(RunIn(FloatPayouts(fl), l, requests[..i]))
  {
    if i > 0 {
      RunSolvent(fl, l, requests, i - 1);
      assert requests[..i][..i - 1] == requests[..i - 1];
      FloatPayoutsSolvent(fl, RunIn(FloatPayouts(fl), l, requests[..i - 1]), requests[i - 1]);
    }
  }

  /** Before the i-th request no balance is over 10^11. */
  ghost predicate BoundedBefore(fl: real -> real, l: Ledger, requests: seq<Request>, i: nat)
    requires i < |requests|
  {
    Bounded(RunIn(FloatPayouts(fl), l, requests[..i]))
  }

  /** No error accumulates in any table: over a run of any length the float ledger is the decimal one with float payouts. */
  lemma FloatLedgerExact(fl: real -> real, text: real -> real, l: Ledger, requests: seq<Request>)
    requires Approximates(fl) && Approximates(text) && Solvent(l)
    requires forall k :: 0 <= k < |requests| ==> Modest(requests[k])
    requires forall i: nat :: i < |requests| ==> BoundedBefore(fl, l, requests, i)
    ensures RunIn(Floats(fl, text), l, requests) == RunIn(FloatPayouts(fl), l, requests)
  {
    forall i: nat | i < |requests| ensures StepAgrees(Floats(fl, text), FloatPayouts(fl), l, requests, i) {
      assert BoundedBefore(fl, l, requests, i);
      RunSolvent(fl, l, requests, i);
      ExecutionsAgree(fl, text, RunIn(FloatPayouts(fl), l, requests[..i]), requests[i]);
    }
    RunsAgree(Floats(fl, text), FloatPayouts(fl), l, requests);
  }

  /** Products clear of a tie by more than the machine error. */
  predicate ClearOfTies(r: Request) {
    r.Convert? && r.amount > 0.0 && r.rate >= 0.0 ==>
      Round4(Down(Down(Times(r.amount, r.rate)))) == Round4(Up(Up(Times(r.amount, r.rate))))
  }

  lemma PayoutsAgree(fl: real -> real, l: Ledger, r: Request)
    requires Approximates(fl) && Modest(r) && ClearOfTies(r)
    ensures ExecuteIn(FloatPayouts(fl), l, r) == ExecuteIn(Decimals(), l, r)
  {
    if r.Convert? && r.amount > 0.0 { FloatReceivedExactIff(r.amount, r.rate); }
    AgreeingExecutions(FloatPayouts(fl), Decimals(), l, r);
  }

  /** Clear of ties the float ledger is the decimal one altogether. */
  lemma FloatLedgerIsDecimal(fl: real -> real, text: real -> real, l: Ledger, requests: seq<Request>)
    requires Approximates(fl) && Approximates(text) && Solvent(l)
    requires forall k :: 0 <= k < |requests| ==> Modest(requests[k]) && ClearOfTies(requests[k])
    requires forall i: nat :: i < |requests| ==> BoundedBefore(fl, l, requests, i)
    ensures RunIn(Floats(fl, text), l, requests) == RunIn(Decimals(), l, requests)
  {
    FloatLedgerExact(fl, text, l, requests);
    forall i: nat | i < |requests| ensures StepAgrees(FloatPayouts(fl), Decimals(), l, requests, i) {
      PayoutsAgree(fl, RunIn(Decimals(), l, requests[..i]), requests[i]);
    }
    RunsAgree(FloatPayouts(fl), Decimals(), l, requests);
  }
}
