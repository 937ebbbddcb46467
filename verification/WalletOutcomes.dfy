// What every request answers: which condition refuses it, with which error, and what
// the columns of its rows and records can hold.
module WalletOutcomes {
  import opened Wrappers
  import opened Decimal
  import opened Conversion
  import opened WalletLedger

  // ---------- Columns ----------

  /** A grid balance fits its row exactly when `decimal(18, 4)` and `varchar(10)` hold it. */
  lemma RowFitsIff(key: RowKey, balance: real)
    requires OnGrid(balance)
    ensures RowFits(key, balance) <==> DecimalHolds(18, 4, balance) && |key.1| <= 10
  {
    Powers();
  }

  /** A request's record fits exactly when `decimal(20, 4)` holds its amounts and `decimal(20, 8)` its rate. */
  lemma RecordFitsIff(r: Request, wallet: WalletId)
    requires !r.EnsureWallet?
    ensures var rec := RecordOf(r, wallet);
            RecordFits(rec) <==>
            DecimalHolds(20, 4, rec.fromAmount) && DecimalHolds(20, 4, rec.toAmount) && DecimalHolds(20, 8, rec.rateUsed)
  {
    Powers();
    Round4OnGrid(r.amount);
    if r.Convert? {
      Round4OnGrid(Times(r.amount, r.rate));
      Round8Integral(r.rate);
    } else {
      IntegerIsIntegral(1.0 * 100000000.0, 100000000);
    }
  }

  // ---------- Funding ----------

  /** A wallet is found, or can be inserted under the drawn id. */
  predicate CanOpen(l: Ledger, r: Request) {
    r.user in l.wallets || r.draw.walletId !in l.wallets.Values
  }

  predicate FundFits(l: Ledger, r: Request)
    requires r.Fund?
  {
    && RowFits((WalletAfter(l, r), r.currency), Credited(UserBalance(l, r.user, r.currency), r.amount))
    && RecordFits(RecordOf(r, WalletAfter(l, r)))
  }

  function WalletAfter(l: Ledger, r: Request): WalletId {
    if r.user in l.wallets then l.wallets[r.user] else r.draw.walletId
  }

  /** Exactly when a fund goes through, and which error each failed condition gives. */
  lemma FundOutcome(l: Ledger, r: Request)
    requires Consistent(l) && r.Fund?
    ensures var run := Execute(l, r);
            var valid := r.amount > 0.0 && r.user in l.users && |r.currency| >= 3;
            && (run.Ok? <==> valid && CanOpen(l, r) && FundFits(l, r) && !ReferenceUsed(l, r.draw.reference))
            && (run == Err(InvalidAmount) <==> r.amount <= 0.0)
            && (run == Err(UserNotFound) <==> r.amount > 0.0 && r.user !in l.users)
            && (run == Err(InvalidCurrency) <==> r.amount > 0.0 && r.user in l.users && |r.currency| < 3)
            && (run == Err(ColumnOverflow) <==> valid && CanOpen(l, r) && !FundFits(l, r))
            && (run == Err(UniqueViolation) <==>
                  valid && (!CanOpen(l, r) || (FundFits(l, r) && ReferenceUsed(l, r.draw.reference))))
  {
    if r.user !in l.wallets && CanOpen(l, r) { assert (r.draw.walletId, r.currency) !in l.balances; }
  }

  // ---------- Converting ----------

  predicate Covers(l: Ledger, r: Request)
    requires r.Convert?
  {
    r.user in l.wallets && UserBalance(l, r.user, r.from) >= r.amount
  }

  predicate ConvertFits(l: Ledger, r: Request)
    requires r.Convert?
  {
    && RowFits((WalletAfter(l, r), r.from), Debited(UserBalance(l, r.user, r.from), r.amount))
    && RowFits((WalletAfter(l, r), r.to), Credited(UserBalance(l, r.user, r.to), Received(r.amount, r.rate)))
    && RecordFits(RecordOf(r, WalletAfter(l, r)))
  }

  /** Exactly when a conversion goes through, and which error each failed condition gives. */
  lemma ConvertOutcome(l: Ledger, r: Request)
    requires Consistent(l) && r.Convert?
    ensures var run := Execute(l, r);
            var known := r.amount > 0.0 && r.user in l.users;
            var valid := known && |r.from| >= 3 && |r.to| >= 3 && r.from != r.to;
            && (run.Ok? <==> valid && Covers(l, r) && ConvertFits(l, r) && !ReferenceUsed(l, r.draw.reference))
            && (run == Err(InvalidAmount) <==> r.amount <= 0.0)
            && (run == Err(UserNotFound) <==> r.amount > 0.0 && r.user !in l.users)
            && (run == Err(InvalidCurrency) <==> known && (|r.from| < 3 || |r.to| < 3))
            && (run == Err(SameCurrency) <==> known && |r.from| >= 3 && |r.to| >= 3 && r.from == r.to)
            && (run == Err(InsufficientBalance) <==> valid && CanOpen(l, r) && !Covers(l, r))
            && (run == Err(ColumnOverflow) <==> valid && Covers(l, r) && !ConvertFits(l, r))
            && (run == Err(UniqueViolation) <==>
                  valid && (!CanOpen(l, r) || (Covers(l, r) && ConvertFits(l, r) && ReferenceUsed(l, r.draw.reference))))
  {
    if r.user !in l.wallets && CanOpen(l, r) { assert (r.draw.walletId, r.from) !in l.balances; }
  }

  // ---------- Opening a wallet ----------

  /** Asking for a wallet changes nothing when there is one, else inserts exactly that one, or fails for the user or the id. */
  lemma EnsureWalletOutcome(l: Ledger, r: Request)
    requires r.EnsureWallet?
    ensures var run := Execute(l, r);
            && (r.user in l.wallets ==> run == Ok(l))
            && (run == Err(UserNotFound) <==> r.user !in l.wallets && r.user !in l.users)
            && (run == Err(UniqueViolation) <==>
                  r.user !in l.wallets && r.user in l.users && r.draw.walletId in l.wallets.Values)
            && (r.user !in l.wallets && r.user in l.users && r.draw.walletId !in l.wallets.Values ==>
                  run == Ok(Ledger(l.users, l.wallets[r.user := r.draw.walletId], l.balances, l.records)))
  {
  }
}
