// Laws of the ledger over every log of successful requests: solvency, frames,
// reconciliation of balances with records, conservation of value, auditability.
module WalletLaws {
  import opened Wrappers
  import opened Currencies
  import opened Decimal
  import opened Conversion
  import opened WalletLedger

  // ---------- One request ----------

  /** The currencies whose balance a request may change. */
  function Touched(r: Request): set<Currency> {
    match r
    case Fund(_, currency, _, _) => {currency}
    case Convert(_, from, to, _, _, _, _) => {from, to}
    case EnsureWallet(_, _) => {}
  }

  /** A successful request changes at most its own one or two rows and adds its own one record. */
  lemma ExecuteFrame(l: Ledger, r: Request)
    requires Consistent(l) && Execute(l, r).Ok?
    ensures var l' := Execute(l, r).value;
            && l'.users == l.users
            && r.user in l'.wallets
            && (r.Convert? || r.user in l.wallets ==> l'.wallets == l.wallets)
            && l'.wallets - {r.user} == l.wallets - {r.user}
            && (r.user !in l.wallets ==> l'.wallets[r.user] == r.draw.walletId)
            && (forall c :: c in Touched(r) ==> (l'.wallets[r.user], c) in l'.balances)
            && (forall key: RowKey :: key.0 != l'.wallets[r.user] || key.1 !in Touched(r) ==> Row(l', key) == Row(l, key))
            && (r.EnsureWallet? ==> l'.records == l.records)
            && (!r.EnsureWallet? ==>
                  && l'.records == l.records + [RecordOf(r, l'.wallets[r.user])]
                  && !ReferenceUsed(l, r.draw.reference))
  {
    var l' := Execute(l, r).value;
    assert l'.wallets - {r.user} == l.wallets - {r.user};
  }

  /** What the record a request adds says about it. */
  lemma RecordTells(r: Request, wallet: WalletId)
    requires !r.EnsureWallet?
    ensures var rec := RecordOf(r, wallet);
            && rec.user == r.user && rec.wallet == wallet && rec.reference == r.draw.reference && rec.status == SUCCESS
            && {rec.from, rec.to} == Touched(r) && (r.Convert? ==> rec.from == r.from)
            && (rec.kind == FUNDING <==> r.Fund?) && (rec.kind == TRADE <==> r.Convert? && r.trade)
            && OnGrid(rec.fromAmount) && OnGrid(rec.toAmount) && Near(rec.fromAmount, r.amount, 0.00005)
            && (r.Fund? ==> rec.toAmount == rec.fromAmount && rec.rateUsed == 1.0)
  {
    Round4Error(r.amount);
    Round4OnGrid(r.amount);
    if r.Convert? { Round4OnGrid(Times(r.amount, r.rate)); }
  }

  /** Exactly when a conversion goes through. */
  lemma ConvertSucceedsIff(l: Ledger, r: Request)
    requires Consistent(l) && r.Convert?
    ensures Execute(l, r).Ok? <==>
            && r.amount > 0.0 && r.user in l.users && |r.from| >= 3 && |r.to| >= 3 && r.from != r.to
            && r.user in l.wallets
            && (l.wallets[r.user], r.from) in l.balances
            && UserBalance(l, r.user, r.from) >= r.amount
            && RowFits((l.wallets[r.user], r.from), Debited(UserBalance(l, r.user, r.from), r.amount))
            && RowFits((l.wallets[r.user], r.to), Credited(UserBalance(l, r.user, r.to), Received(r.amount, r.rate)))
            && RecordFits(RecordOf(r, l.wallets[r.user]))
            && !ReferenceUsed(l, r.draw.reference)
  {
    if r.user !in l.wallets && r.draw.walletId !in l.wallets.Values {
      assert (r.draw.walletId, r.from) !in l.balances;
    }
  }

  /** What one successful request adds to a balance. */
  function Delta(r: Request, user: UserId, currency: Currency): real {
    if r.user != user then 0.0
    else
      match r
      case Fund(_, c, amount, _) => if c == currency then Round4(amount) else 0.0
      case Convert(_, from, to, amount, rate, _, _) =>
        if from == currency then -Round4(amount) + (if IsTie(amount) then 0.0001 else 0.0)
        else if to == currency then Received(amount, rate)
        else 0.0
      case EnsureWallet(_, _) => 0.0
  }

  /** Two different users never share a row. */
  lemma OtherUserUntouched(l: Ledger, r: Request, user: UserId, currency: Currency)
    requires Consistent(l) && Execute(l, r).Ok? && user != r.user
    ensures UserBalance(Execute(l, r).value, user, currency) == UserBalance(l, user, currency)
  {
    ExecuteConsistent(l, r);
    ExecuteFrame(l, r);
    var l' := Execute(l, r).value;
    assert user in l.wallets <==> user in l'.wallets by {
      assert user in l.wallets <==> user in l.wallets - {r.user};
      assert user in l'.wallets <==> user in l'.wallets - {r.user};
    }
    if user in l.wallets {
      assert (l.wallets - {r.user})[user] == (l'.wallets - {r.user})[user];
      assert Row(l', (l.wallets[user], currency)) == Row(l, (l.wallets[user], currency));
    }
  }

  /** Every balance of every user moves by exactly its Delta. */
  lemma ExecuteMovesByDelta(l: Ledger, r: Request, user: UserId, currency: Currency)
    requires Consistent(l) && Solvent(l) && RateSane(r) && Execute(l, r).Ok?
    ensures UserBalance(Execute(l, r).value, user, currency) == UserBalance(l, user, currency) + Delta(r, user, currency)
  {
    if user != r.user {
      OtherUserUntouched(l, r, user, currency);
    } else {
      match r
      case Fund(_, _, _, _) => FundMoves(l, r, currency);
      case Convert(_, _, _, _, _, _, _) => ConvertMoves(l, r, currency);
      case EnsureWallet(_, _) => NewWalletIsEmpty(l, r, currency);
    }
  }

  lemma FundMoves(l: Ledger, r: Request, currency: Currency)
    requires Consistent(l) && Solvent(l) && r.Fund? && Execute(l, r).Ok?
    ensures UserBalance(Execute(l, r).value, r.user, currency) == UserBalance(l, r.user, currency) + Delta(r, r.user, currency)
  {
    ExecuteFrame(l, r);
    NewWalletIsEmpty(l, r, currency);
    if r.currency == currency { CreditRounds(UserBalance(l, r.user, currency), r.amount); }
  }

  lemma ConvertMoves(l: Ledger, r: Request, currency: Currency)
    requires Consistent(l) && Solvent(l) && r.Convert? && RateSane(r) && Execute(l, r).Ok?
    ensures UserBalance(Execute(l, r).value, r.user, currency) == UserBalance(l, r.user, currency) + Delta(r, r.user, currency)
  {
    var l' := Execute(l, r).value;
    ConvertWrites(l, r, currency);
    var held := UserBalance(l, r.user, currency);
    if r.from == currency {
      DebitRounds(held, r.amount);
    } else if r.to == currency {
      PayoutOnGrid(held, r.amount, r.rate);
    }
  }

  /** What a conversion writes into each of its user's rows. */
  lemma ConvertWrites(l: Ledger, r: Request, currency: Currency)
    requires Consistent(l) && Solvent(l) && r.Convert? && Execute(l, r).Ok?
    ensures var held := UserBalance(l, r.user, currency);
            && OnGrid(held) && held >= 0.0 && r.amount > 0.0 && r.from != r.to
            && (r.from == currency ==> held >= r.amount)
            && UserBalance(Execute(l, r).value, r.user, currency) ==
                 if r.from == currency then Debited(held, r.amount)
                 else if r.to == currency then Credited(held, Received(r.amount, r.rate))
                 else held
  {
    ExecuteFrame(l, r);
    NewWalletIsEmpty(l, r, currency);
  }

  /** A freshly drawn wallet has no rows. */
  lemma NewWalletIsEmpty(l: Ledger, r: Request, currency: Currency)
    requires Consistent(l) && Execute(l, r).Ok?
    ensures var l' := Execute(l, r).value;
            r.user in l'.wallets && OrZero(Row(l, (l'.wallets[r.user], currency))) == UserBalance(l, r.user, currency)
  {
    if r.user !in l.wallets {
      assert (r.draw.walletId, currency) !in l.balances;
    }
  }

  lemma ReceivedIsMoney(amount: real, rate: real)
    requires amount >= 0.0 && rate >= 0.0
    ensures Received(amount, rate) >= 0.0 && OnGrid(Received(amount, rate))
  {
    Round4NonNegative(Times(amount, rate));
    Round4OnGrid(Times(amount, rate));
  }

  // ---------- Solvency ----------

  /** After a conversion every balance is still a grid value, and all but the credited one not negative. */
  lemma ConvertSolventIff(l: Ledger, r: Request)
    requires Consistent(l) && Solvent(l) && r.Convert? && Execute(l, r).Ok?
    ensures Solvent(Execute(l, r).value) <==> UserBalance(l, r.user, r.to) + Received(r.amount, r.rate) >= 0.0
  {
    var l', left := Execute(l, r).value, Debited(UserBalance(l, r.user, r.from), r.amount);
    ConvertWrites(l, r, r.from);
    ConvertWrites(l, r, r.to);
    ConvertOtherRows(l, r);
    DebitIsMoney(UserBalance(l, r.user, r.from), r.amount);
    PayoutOnGrid(UserBalance(l, r.user, r.to), r.amount, r.rate);
    assert l'.balances[(l.wallets[r.user], r.from)] == left;
    assert l'.balances[(l.wallets[r.user], r.to)] == UserBalance(l, r.user, r.to) + Received(r.amount, r.rate);
  }

  lemma DebitIsMoney(held: real, amount: real)
    requires held >= amount
    ensures OnGrid(Debited(held, amount)) && Debited(held, amount) >= 0.0
  {
    Round4OnGrid(held - amount);
    Round4NonNegative(held - amount);
  }

  lemma DebitOfMost(amount: real)
    requires 0.0 < amount <= MOST && OnGrid(MOST)
    ensures 0.0 <= Debited(MOST, amount) <= MOST
  {
    Round4NonNegative(MOST - amount);
    Round4Monotone(MOST - amount, MOST);
    Round4Fixes(MOST);
  }

  /** A payout of any sign is already rounded, so it is added as it is. */
  lemma PayoutOnGrid(held: real, amount: real, rate: real)
    requires OnGrid(held)
    ensures OnGrid(held + Received(amount, rate)) && Credited(held, Received(amount, rate)) == held + Received(amount, rate)
  {
    Round4OnGrid(Times(amount, rate));
    GridClosed(held, Received(amount, rate));
    Round4Fixes(held + Received(amount, rate));
  }

  lemma ConvertOtherRows(l: Ledger, r: Request)
    requires Consistent(l) && Solvent(l) && r.Convert? && Execute(l, r).Ok?
    ensures var l' := Execute(l, r).value;
            && l'.wallets == l.wallets && r.user in l.wallets
            && (l.wallets[r.user], r.from) in l'.balances && (l.wallets[r.user], r.to) in l'.balances
            && forall key :: key in l'.balances && key != (l.wallets[r.user], r.from) && key != (l.wallets[r.user], r.to) ==>
                 OnGrid(l'.balances[key]) && l'.balances[key] >= 0.0
  {
    ExecuteFrame(l, r);
    var l' := Execute(l, r).value;
    forall key | key in l'.balances && key != (l.wallets[r.user], r.from) && key != (l.wallets[r.user], r.to)
      ensures OnGrid(l'.balances[key]) && l'.balances[key] >= 0.0
    {
      assert Row(l', key) == Row(l, key);
    }
  }

  lemma FundSolvent(l: Ledger, r: Request)
    requires Consistent(l) && Solvent(l) && r.Fund? && Execute(l, r).Ok?
    ensures Solvent(Execute(l, r).value)
  {
    var l', b := Execute(l, r).value, UserBalance(l, r.user, r.currency);
    ExecuteFrame(l, r);
    NewWalletIsEmpty(l, r, r.currency);
    Round4OnGrid(b + r.amount);
    Round4NonNegative(b + r.amount);
    forall key | key in l'.balances && key != (l'.wallets[r.user], r.currency)
      ensures OnGrid(l'.balances[key]) && l'.balances[key] >= 0.0
    {
      assert Row(l', key) == Row(l, key);
    }
  }

  /** With sane rates no request makes a balance negative or leaves the grid. */
  lemma ExecuteSolvent(l: Ledger, r: Request)
    requires Consistent(l) && Solvent(l) && RateSane(r) && Execute(l, r).Ok?
    ensures Solvent(Execute(l, r).value)
  {
    match r
    case Fund(_, _, _, _) => FundSolvent(l, r);
    case Convert(_, _, _, amount, rate, _, _) =>
      ReceivedIsMoney(amount, rate);
      ConvertSolventIff(l, r);
    case EnsureWallet(_, _) =>
  }

  /** At a rate of zero a conversion takes the amount and pays nothing. */
  lemma ZeroRatePaysNothing(l: Ledger, r: Request)
    requires Consistent(l) && Solvent(l) && r.Convert? && r.rate == 0.0 && Execute(l, r).Ok?
    ensures var l' := Execute(l, r).value;
            && UserBalance(l', r.user, r.to) == UserBalance(l, r.user, r.to)
            && UserBalance(l', r.user, r.from) == Debited(UserBalance(l, r.user, r.from), r.amount)
  {
    ConvertWrites(l, r, r.from);
    ConvertWrites(l, r, r.to);
    assert Times(r.amount, r.rate) == 0.0;
    OneOnGrid(0.0);
    Round4Fixes(UserBalance(l, r.user, r.to));
  }

  // ---------- Logs ----------

  ghost predicate SaneLog(log: seq<Request>) {
    forall i :: 0 <= i < |log| ==> RateSane(log[i])
  }

  lemma {:induction false} LogConsistent(l: Ledger, log: seq<Request>)
    requires Consistent(l) && ExecuteAll(l, log).Ok?
    ensures Consistent(ExecuteAll(l, log).value)
  {
    if log != [] {
      LogConsistent(l, log[..|log| - 1]);
      ExecuteConsistent(ExecuteAll(l, log[..|log| - 1]).value, log[|log| - 1]);
    }
  }

  lemma {:induction false} LogSolvent(l: Ledger, log: seq<Request>)
    requires Consistent(l) && Solvent(l) && SaneLog(log) && ExecuteAll(l, log).Ok?
    ensures Solvent(ExecuteAll(l, log).value)
  {
    if log != [] {
      LogConsistent(l, log[..|log| - 1]);
      LogSolvent(l, log[..|log| - 1]);
      ExecuteSolvent(ExecuteAll(l, log[..|log| - 1]).value, log[|log| - 1]);
    }
  }

  // ---------- Reconciliation ----------

  /** What a record says entered a balance; a FUNDING record enters its one currency once. */
  function CreditOf(rec: Record, user: UserId, currency: Currency): real {
    if rec.user == user && rec.to == currency then rec.toAmount else 0.0
  }

  /** What a record says left a balance; a FUNDING record takes nothing. */
  function DebitOf(rec: Record, user: UserId, currency: Currency): real {
    if rec.kind != FUNDING && rec.user == user && rec.from == currency then rec.fromAmount else 0.0
  }

  function RecordedNet(records: seq<Record>, user: UserId, currency: Currency): real {
    if records == [] then 0.0
    else
      var rec := records[|records| - 1];
      RecordedNet(records[..|records| - 1], user, currency) + CreditOf(rec, user, currency) - DebitOf(rec, user, currency)
  }

  predicate TieOut(r: Request, user: UserId, currency: Currency) {
    r.Convert? && r.user == user && r.from == currency && IsTie(r.amount)
  }

  /** How many of a user's conversions out of a currency were for an amount half-way between grid points. */
  function Ties(log: seq<Request>, user: UserId, currency: Currency): nat {
    if log == [] then 0
    else Ties(log[..|log| - 1], user, currency) + if TieOut(log[|log| - 1], user, currency) then 1 else 0
  }

  lemma RecordExplainsDelta(r: Request, wallet: WalletId, user: UserId, currency: Currency)
    requires !r.EnsureWallet? && (r.Convert? ==> r.from != r.to)
    ensures var rec := RecordOf(r, wallet);
            Delta(r, user, currency) == CreditOf(rec, user, currency) - DebitOf(rec, user, currency)
                                        + if TieOut(r, user, currency) then 0.0001 else 0.0
  {
  }

  /** Every balance is what the records add up to, plus 0.0001 for each tie paid out. */
  lemma {:induction false} Reconciles(users: set<UserId>, log: seq<Request>, user: UserId, currency: Currency)
    requires SaneLog(log) && ExecuteAll(Genesis(users), log).Ok?
    ensures var l := ExecuteAll(Genesis(users), log).value;
            UserBalance(l, user, currency) == RecordedNet(l.records, user, currency) + 0.0001 * Ties(log, user, currency) as real
  {
    if log != [] {
      var front, r := log[..|log| - 1], log[|log| - 1];
      var before := ExecuteAll(Genesis(users), front).value;
      Reconciles(users, front, user, currency);
      GenesisConsistent(users);
      LogConsistent(Genesis(users), front);
      LogSolvent(Genesis(users), front);
      ExecuteMovesByDelta(before, r, user, currency);
      ExecuteFrame(before, r);
      if !r.EnsureWallet? {
        var l := Execute(before, r).value;
        RecordExplainsDelta(r, l.wallets[r.user], user, currency);
        assert l.records[..|l.records| - 1] == before.records;
      }
    }
  }

  /** With amounts of at most four decimals the records explain the balance to the last digit. */
  lemma {:induction false} NoTiesOnGrid(log: seq<Request>, user: UserId, currency: Currency)
    requires forall i :: 0 <= i < |log| && log[i].Convert? ==> OnGrid(log[i].amount)
    ensures Ties(log, user, currency) == 0
  {
    if log != [] {
      NoTiesOnGrid(log[..|log| - 1], user, currency);
      if log[|log| - 1].Convert? { GridIsNoTie(log[|log| - 1].amount); }
    }
  }

  lemma ReconcilesExactly(users: set<UserId>, log: seq<Request>, user: UserId, currency: Currency)
    requires SaneLog(log) && ExecuteAll(Genesis(users), log).Ok?
    requires forall i :: 0 <= i < |log| && log[i].Convert? ==> OnGrid(log[i].amount)
    ensures var l := ExecuteAll(Genesis(users), log).value;
            UserBalance(l, user, currency) == RecordedNet(l.records, user, currency)
  {
    Reconciles(users, log, user, currency);
    NoTiesOnGrid(log, user, currency);
  }

  // ---------- Conservation of value ----------

  /** The worth of a user's holdings in the listed currencies at fixed prices. */
  function Value(l: Ledger, user: UserId, price: Currency -> real, currencies: seq<Currency>): real {
    if currencies == [] then 0.0
    else Times(price(currencies[0]), UserBalance(l, user, currencies[0])) + Value(l, user, price, currencies[1..])
  }

  /** The same sum over what one request moves. */
  function ValueMoved(r: Request, user: UserId, price: Currency -> real, currencies: seq<Currency>): real {
    if currencies == [] then 0.0
    else Times(price(currencies[0]), Delta(r, user, currencies[0])) + ValueMoved(r, user, price, currencies[1..])
  }

  /** Rates agree with the prices: one unit of `from` is worth `rate` units of `to`. */
  ghost predicate Priced(r: Request, price: Currency -> real) {
    r.Convert? ==> Times(r.rate, price(r.to)) == price(r.from)
  }

  /** What a user paid in, as credited. */
  function Funded(log: seq<Request>, user: UserId, price: Currency -> real): real {
    if log == [] then 0.0
    else
      var r := log[|log| - 1];
      Funded(log[..|log| - 1], user, price)
      + if r.Fund? && r.user == user then Times(price(r.currency), Round4(r.amount)) else 0.0
  }

  /** Half a grid step of `to`, and one of `from` unless the amount had at most four decimals. */
  function Slack(r: Request, user: UserId, price: Currency -> real): real {
    if !r.Convert? || r.user != user then 0.0
    else 0.00005 * price(r.to) + if OnGrid(r.amount) then 0.0 else 0.00005 * price(r.from)
  }

  function TotalSlack(log: seq<Request>, user: UserId, price: Currency -> real): real {
    if log == [] then 0.0
    else TotalSlack(log[..|log| - 1], user, price) + Slack(log[|log| - 1], user, price)
  }

  lemma TimesSum(x: real, y: real, z: real)
    ensures Times(x, y + z) == Times(x, y) + Times(x, z)
  {
  }

  lemma PricedMove(price: real, before: real, delta: real, after: real)
    requires after == before + delta
    ensures Times(price, after) == Times(price, before) + Times(price, delta)
  {
  }

  lemma {:induction false} ValueMoves(l: Ledger, r: Request, user: UserId, price: Currency -> real, currencies: seq<Currency>)
    requires Consistent(l) && Solvent(l) && RateSane(r) && Execute(l, r).Ok?
    ensures Value(Execute(l, r).value, user, price, currencies)
         == Value(l, user, price, currencies) + ValueMoved(r, user, price, currencies)
  {
    if currencies != [] {
      ExecuteMovesByDelta(l, r, user, currencies[0]);
      PricedMove(price(currencies[0]), UserBalance(l, user, currencies[0]), Delta(r, user, currencies[0]),
                 UserBalance(Execute(l, r).value, user, currencies[0]));
      ValueMoves(l, r, user, price, currencies[1..]);
    }
  }

  /** One currency's share of the value moved. */
  function Share(r: Request, user: UserId, price: Currency -> real, currency: Currency): real {
    Times(price(currency), Delta(r, user, currency))
  }

  function SharesIn(r: Request, user: UserId, price: Currency -> real, currencies: seq<Currency>, wanted: set<Currency>): real {
    if currencies == [] then 0.0
    else (if currencies[0] in wanted then Share(r, user, price, currencies[0]) else 0.0)
         + SharesIn(r, user, price, currencies[1..], wanted)
  }

  lemma {:induction false} OnlyTouchedMove(r: Request, user: UserId, price: Currency -> real, currencies: seq<Currency>)
    ensures ValueMoved(r, user, price, currencies) == SharesIn(r, user, price, currencies, Touched(r))
  {
    if currencies != [] { OnlyTouchedMove(r, user, price, currencies[1..]); }
  }

  /** Summing over distinct currencies meets each wanted one once. */
  lemma {:induction false} SharesInAdd(r: Request, user: UserId, price: Currency -> real, currencies: seq<Currency>,
                                       wanted: set<Currency>, one: Currency)
    requires Distinct(currencies) && one !in wanted
    ensures SharesIn(r, user, price, currencies, wanted + {one})
         == SharesIn(r, user, price, currencies, wanted)
            + if one in currencies then Share(r, user, price, one) else 0.0
  {
    if currencies != [] {
      assert one in currencies <==> one == currencies[0] || one in currencies[1..];
      assert currencies[0] !in currencies[1..];
      SharesInAdd(r, user, price, currencies[1..], wanted, one);
    }
  }

  lemma {:induction false} SharesInNone(r: Request, user: UserId, price: Currency -> real, currencies: seq<Currency>)
    ensures SharesIn(r, user, price, currencies, {}) == 0.0
  {
    if currencies != [] { SharesInNone(r, user, price, currencies[1..]); }
  }

  function TouchedShares(r: Request, user: UserId, price: Currency -> real): real {
    match r
    case Fund(_, c, _, _) => Share(r, user, price, c)
    case Convert(_, from, to, _, _, _, _) => Share(r, user, price, from) + Share(r, user, price, to)
    case EnsureWallet(_, _) => 0.0
  }

  /** The value one request moves is the share of each currency it touches. */
  lemma ValueMovedIsShares(r: Request, user: UserId, price: Currency -> real, currencies: seq<Currency>)
    requires Distinct(currencies) && (forall c :: c in Touched(r) ==> c in currencies)
    requires r.Convert? ==> r.from != r.to
    ensures ValueMoved(r, user, price, currencies) == TouchedShares(r, user, price)
  {
    OnlyTouchedMove(r, user, price, currencies);
    SharesInNone(r, user, price, currencies);
    match r
    case Fund(_, c, _, _) =>
      SharesInAdd(r, user, price, currencies, {}, c);
      assert {} + {c} == Touched(r);
    case Convert(_, from, to, _, _, _, _) =>
      SharesInAdd(r, user, price, currencies, {}, from);
      SharesInAdd(r, user, price, currencies, {from}, to);
      assert {} + {from} == {from} && {from} + {to} == Touched(r);
    case EnsureWallet(_, _) =>
  }

  /** The debit is within half a step of the amount, and equal to it on the grid. */
  lemma DebitError(amount: real)
    requires amount >= 0.0
    ensures Near(Round4(amount) - (if IsTie(amount) then 0.0001 else 0.0), amount, if OnGrid(amount) then 0.0 else 0.00005)
  {
    if OnGrid(amount) {
      Round4Fixes(amount);
      GridIsNoTie(amount);
    } else if IsTie(amount) {
      TieRoundsUp(amount);
    } else {
      Round4Error(amount);
    }
  }

  lemma TieRoundsUp(amount: real)
    requires IsTie(amount) && amount >= 0.0
    ensures Round4(amount) == amount + 0.00005
  {
    var n := (amount * 10000.0 + 0.5).Floor;
    assert Nearest(amount * 10000.0) == n;
    assert n as real == amount * 10000.0 + 0.5;
  }

  /** A conversion at fair prices moves value only by its two roundings. */
  lemma ConversionNearlyFair(paid: real, debit: real, amount: real, rate: real, priceFrom: real, priceTo: real, slack: real)
    requires priceFrom >= 0.0 && priceTo >= 0.0 && Times(rate, priceTo) == priceFrom
    requires Near(paid, Times(amount, rate), 0.00005) && Near(debit, amount, slack)
    ensures Near(Times(priceTo, paid), Times(priceFrom, debit), Times(0.00005, priceTo) + Times(slack, priceFrom))
  {
    var exact := Times(amount, rate);
    ScaledError(paid, exact, 0.00005, priceTo);
    ScaledError(debit, amount, slack, priceFrom);
    Reassociate(amount, rate, priceTo);
    Commute(priceTo, paid);
    Commute(priceFrom, debit);
    TwoErrors(Times(paid, priceTo), Times(amount, priceFrom), Times(debit, priceFrom),
              Times(0.00005, priceTo), Times(slack, priceFrom));
  }

  lemma ConversionMoves(r: Request, user: UserId, price: Currency -> real)
    requires r.Convert? && r.from != r.to && r.amount > 0.0 && r.user == user && Priced(r, price)
    requires price(r.from) >= 0.0 && price(r.to) >= 0.0
    ensures Near(Share(r, user, price, r.from) + Share(r, user, price, r.to), 0.0, Slack(r, user, price))
  {
    var debit, paid := -Delta(r, user, r.from), Received(r.amount, r.rate);
    var slack := if OnGrid(r.amount) then 0.0 else 0.00005;
    DebitError(r.amount);
    Round4Error(Times(r.amount, r.rate));
    ConversionNearlyFair(paid, debit, r.amount, r.rate, price(r.from), price(r.to), slack);
    TimesSum(price(r.from), debit, -debit);
  }

  /** After any log a user's holdings are worth what was funded, up to the roundings of the conversions. */
  lemma {:induction false} ValueConserved(users: set<UserId>, log: seq<Request>, user: UserId,
                                          price: Currency -> real, currencies: seq<Currency>)
    requires SaneLog(log) && ExecuteAll(Genesis(users), log).Ok?
    requires Distinct(currencies)
    requires forall c :: price(c) > 0.0
    requires forall i :: 0 <= i < |log| ==> Priced(log[i], price) && forall c :: c in Touched(log[i]) ==> c in currencies
    ensures Near(Value(ExecuteAll(Genesis(users), log).value, user, price, currencies),
                 Funded(log, user, price), TotalSlack(log, user, price))
  {
    if log == [] {
      NothingHeld(users, user, price, currencies);
    } else {
      var front, r := log[..|log| - 1], log[|log| - 1];
      var before := ExecuteAll(Genesis(users), front).value;
      ValueConserved(users, front, user, price, currencies);
      GenesisConsistent(users);
      LogConsistent(Genesis(users), front);
      LogSolvent(Genesis(users), front);
      ValueMoves(before, r, user, price, currencies);
      RequestMoves(before, r, user, price, currencies);
    }
  }

  /** One request moves value by what it funds, up to its roundings. */
  lemma RequestMoves(l: Ledger, r: Request, user: UserId, price: Currency -> real, currencies: seq<Currency>)
    requires Execute(l, r).Ok? && Distinct(currencies) && Priced(r, price) && (forall c :: price(c) > 0.0)
    requires forall c :: c in Touched(r) ==> c in currencies
    ensures Near(ValueMoved(r, user, price, currencies),
                 if r.Fund? && r.user == user then Times(price(r.currency), Round4(r.amount)) else 0.0,
                 Slack(r, user, price))
  {
    ValueMovedIsShares(r, user, price, currencies);
    if r.Convert? && r.user == user { ConversionMoves(r, user, price); }
  }

  lemma {:induction false} NothingHeld(users: set<UserId>, user: UserId, price: Currency -> real, currencies: seq<Currency>)
    ensures Value(Genesis(users), user, price, currencies) == 0.0
  {
    if currencies != [] { NothingHeld(users, user, price, currencies[1..]); }
  }

  // ---------- Auditability ----------

  /** What a stored record alone shows: its payout agrees with its amount and rate up to column rounding. */
  predicate Auditable(rec: Record) {
    Near(rec.toAmount, Times(rec.fromAmount, rec.rateUsed),
         0.00005 + 0.000000005 * (rec.fromAmount + 0.00005) + 0.00005 * rec.rateUsed)
  }

  /** The bound in terms of the amount asked for; the last term is for amounts off the grid. */
  lemma RecordAudit(r: Request, wallet: WalletId)
    requires r.Convert? && r.amount > 0.0 && r.rate >= 0.0
    ensures var rec := RecordOf(r, wallet);
            Near(rec.toAmount, Times(rec.fromAmount, rec.rateUsed),
                 0.00005 + 0.000000005 * r.amount + if OnGrid(r.amount) then 0.0 else 0.00005 * rec.rateUsed)
  {
    Round4Error(Times(r.amount, r.rate));
    Round8Error(r.rate);
    Round8NonNegative(r.rate);
    if OnGrid(r.amount) { Round4Fixes(r.amount); } else { Round4Error(r.amount); }
    AuditStep(r.amount, r.rate, Received(r.amount, r.rate), Round4(r.amount), Round8(r.rate),
              if OnGrid(r.amount) then 0.0 else 0.00005);
  }

  lemma AuditStep(amount: real, rate: real, paid: real, kept: real, rateKept: real, slack: real)
    requires amount >= 0.0 && rateKept >= 0.0
    requires Near(paid, Times(amount, rate), 0.00005) && Near(rate, rateKept, 0.000000005) && Near(amount, kept, slack)
    ensures Near(paid, Times(kept, rateKept), 0.00005 + Times(0.000000005, amount) + Times(slack, rateKept))
  {
    ScaledError(rate, rateKept, 0.000000005, amount);
    ScaledError(amount, kept, slack, rateKept);
    Commute(rate, amount);
    Commute(rateKept, amount);
    TwoErrors(paid, Times(amount, rate), Times(amount, rateKept), 0.00005, Times(0.000000005, amount));
    TwoErrors(paid, Times(amount, rateKept), Times(kept, rateKept),
              0.00005 + Times(0.000000005, amount), Times(slack, rateKept));
  }

  lemma RecordAuditable(r: Request, wallet: WalletId)
    requires !r.EnsureWallet? && r.amount > 0.0 && RateSane(r)
    ensures Auditable(RecordOf(r, wallet)) && AuditedFrom(RecordOf(r, wallet), r)
  {
    if r.Convert? {
      RecordAudit(r, wallet);
      Round4Error(r.amount);
      Round8NonNegative(r.rate);
    } else {
      Round4NonNegative(r.amount);
    }
  }

  /** This request left this record, and the bound in the amount asked for holds; on the grid without its last term. */
  predicate AuditedFrom(rec: Record, r: Request) {
    && !r.EnsureWallet? && rec == RecordOf(r, rec.wallet)
    && Near(rec.toAmount, Times(rec.fromAmount, rec.rateUsed),
            0.00005 + 0.000000005 * r.amount + if OnGrid(r.amount) then 0.0 else 0.00005 * rec.rateUsed)
  }

  /** A record that can be audited from its own columns, and from one of these requests. */
  ghost predicate Audited(rec: Record, requests: seq<Request>) {
    Auditable(rec) && exists i :: 0 <= i < |requests| && AuditedFrom(rec, requests[i])
  }

  /** Every record of every log was left by one of its requests and meets the audit bounds. */
  lemma {:induction false} LogAuditable(users: set<UserId>, log: seq<Request>)
    requires SaneLog(log) && ExecuteAll(Genesis(users), log).Ok?
    ensures forall rec :: rec in ExecuteAll(Genesis(users), log).value.records ==> Audited(rec, log)
  {
    if log != [] {
      var front, r := log[..|log| - 1], log[|log| - 1];
      var before, l := ExecuteAll(Genesis(users), front).value, ExecuteAll(Genesis(users), log).value;
      LogAuditable(users, front);
      GenesisConsistent(users);
      LogConsistent(Genesis(users), front);
      ExecuteFrame(before, r);
      forall rec | rec in l.records ensures Audited(rec, log) {
        if rec in before.records {
          MoreRequests(rec, front, log);
        } else {
          RecordAuditable(r, rec.wallet);
          assert AuditedFrom(rec, log[|log| - 1]);
        }
      }
    }
  }

  lemma MoreRequests(rec: Record, few: seq<Request>, many: seq<Request>)
    requires Audited(rec, few) && forall r :: r in few ==> r in many
    ensures Audited(rec, many)
  {
    var i :| 0 <= i < |few| && AuditedFrom(rec, few[i]);
    assert few[i] in many;
  }

  /** With amounts of at most four decimals the bound needs no term for the amount's own rounding. */
  lemma GridAuditable(rec: Record, requests: seq<Request>)
    requires Audited(rec, requests)
    requires forall i :: 0 <= i < |requests| && !requests[i].EnsureWallet? ==> OnGrid(requests[i].amount)
    ensures Near(rec.toAmount, Times(rec.fromAmount, rec.rateUsed), 0.00005 + 0.000000005 * rec.fromAmount)
  {
    var i :| 0 <= i < |requests| && AuditedFrom(rec, requests[i]);
    Round4Fixes(requests[i].amount);
  }
}
