// The wallet service as it runs: each request reads and writes the tables step by
// step inside a database transaction, and a failed step rolls all of it back.
module WalletService {
  import opened Wrappers
  import opened Currencies
  import opened Conversion
  import opened WalletLedger

  /** What a successful `fund` or `convert` answers. */
  datatype Receipt = Receipt(reference: string, received: real, balances: map<Currency, real>)

  class WalletService {
    var users: set<UserId>
    var wallets: map<UserId, WalletId>
    var balances: map<RowKey, real>
    var records: seq<Record>

    ghost function Contents(): Ledger
      reads this
    {
      Ledger(users, wallets, balances, records)
    }

    constructor (users: set<UserId>)
      ensures Contents() == Genesis(users)
    {
      this.users := users;
      wallets, balances, records := map[], map[], [];
    }

    /** `walletRepo.findOne`, then `walletRepo.save` when nothing was found. */
    method OpenWalletRow(user: UserId, draw: Draw) returns (res: Result<WalletId, Error>)
      modifies this`wallets
      ensures var opening := OpenWallet(old(Contents()), user, draw);
              if opening.Ok? then Contents() == opening.value && res == Ok(wallets[user])
              else Contents() == old(Contents()) && res == Err(opening.error)
    {
      if user in wallets {
        return Ok(wallets[user]);
      }
      if draw.walletId in wallets.Values {
        return Err(UniqueViolation);
      }
      wallets := wallets[user := draw.walletId];
      return Ok(draw.walletId);
    }

    /** `balanceRepo.findOne`. */
    method FindRow(key: RowKey) returns (row: Option<real>)
      ensures row == Row(Contents(), key)
    {
      row := if key in balances then Some(balances[key]) else None;
    }

    /** `balanceRepo.save` of one row. */
    method SaveRow(key: RowKey, balance: real) returns (res: Result<(), Error>)
      modifies this`balances
      ensures var writing := WriteRow(old(Contents()), key, balance);
              if writing.Ok? then Contents() == writing.value && res == Ok(())
              else Contents() == old(Contents()) && res == Err(writing.error)
    {
      if !RowFits(key, balance) {
        return Err(ColumnOverflow);
      }
      balances := balances[key := balance];
      return Ok(());
    }

    /** The unique index on `reference`. */
    method HasReference(reference: string) returns (used: bool)
      ensures used == ReferenceUsed(Contents(), reference)
    {
      used := false;
      for i := 0 to |records|
        invariant used <==> exists k :: 0 <= k < i && records[k].reference == reference
      {
        if records[i].reference == reference { used := true; }
      }
    }

    /** `txRepo.save`. */
    method SaveRecord(rec: Record) returns (res: Result<(), Error>)
      modifies this`records
      ensures var appending := AppendRecord(old(Contents()), rec);
              if appending.Ok? then Contents() == appending.value && res == Ok(())
              else Contents() == old(Contents()) && res == Err(appending.error)
    {
      if !RecordFits(rec) {
        return Err(ColumnOverflow);
      }
      var used := HasReference(rec.reference);
      if used {
        return Err(UniqueViolation);
      }
      records := records + [rec];
      return Ok(());
    }

    /** Puts the tables back as they were when the transaction began. */
    method Rollback(wallets: map<UserId, WalletId>, balances: map<RowKey, real>, records: seq<Record>)
      modifies this`wallets, this`balances, this`records
      ensures Contents() == Ledger(old(users), wallets, balances, records)
    {
      this.wallets, this.balances, this.records := wallets, balances, records;
    }

    method FundRows(r: Request) returns (res: Result<Receipt, Error>)
      requires r.Fund?
      modifies this`wallets, this`balances, this`records
      ensures users == old(users)
      ensures var run := ExecuteFund(old(Contents()), r);
              if run.Err? then res == Err(run.error)
              else
                && Contents() == run.value && res.Ok?
                && res.value.reference == r.draw.reference && res.value.received == r.amount
                && res.value.balances == map[r.currency := UserBalance(run.value, r.user, r.currency)]
    {
      var wallet :- OpenWalletRow(r.user, r.draw);
      var key := (wallet, r.currency);
      var found := FindRow(key);
      var balance := OrZero(found);
      var updated := Credited(balance, r.amount);
      var _ :- SaveRow(key, updated);
      var _ :- SaveRecord(RecordOf(r, wallet));
      return Ok(Receipt(r.draw.reference, r.amount, map[r.currency := updated]));
    }

    /** Runs `fund`: the ledger moves as Execute says, or nothing changes. */
    method Fund(r: Request) returns (res: Result<Receipt, Error>)
      requires r.Fund?
      modifies this
      ensures var run := Execute(old(Contents()), r);
              if run.Err? then Contents() == old(Contents()) && res == Err(run.error)
              else
                && Contents() == run.value && res.Ok?
                && res.value.reference == r.draw.reference && res.value.received == r.amount
                && res.value.balances == map[r.currency := UserBalance(run.value, r.user, r.currency)]
    {
      if r.amount <= 0.0 { return Err(InvalidAmount); }
      if r.user !in users { return Err(UserNotFound); }
      if |r.currency| < 3 { return Err(InvalidCurrency); }
      var wallets', balances', records' := wallets, balances, records;
      res := FundRows(r);
      if res.Err? { Rollback(wallets', balances', records'); }
    }

    method ConvertRows(r: Request) returns (res: Result<Receipt, Error>)
      requires r.Convert? && r.from != r.to
      modifies this`wallets, this`balances, this`records
      ensures users == old(users)
      ensures var run := ExecuteConvert(old(Contents()), r);
              if run.Err? then res == Err(run.error)
              else
                && Contents() == run.value && res.Ok?
                && res.value.reference == r.draw.reference && res.value.received == Received(r.amount, r.rate)
                && res.value.balances == map[r.from := UserBalance(run.value, r.user, r.from),
                                             r.to := UserBalance(run.value, r.user, r.to)]
    {
      var wallet :- OpenWalletRow(r.user, r.draw);
      var fromBalance := FindRow((wallet, r.from));
      if fromBalance.None? || fromBalance.value < r.amount {
        return Err(InsufficientBalance);
      }
      var toBalance := FindRow((wallet, r.to));
      if toBalance.None? {
        toBalance := Some(0.0);
      }
      var toAmount := Received(r.amount, r.rate);
      var updatedFrom := Debited(fromBalance.value, r.amount);
      var updatedTo := Credited(toBalance.value, toAmount);
      var _ :- SaveRow((wallet, r.from), updatedFrom);
      var _ :- SaveRow((wallet, r.to), updatedTo);
      var _ :- SaveRecord(RecordOf(r, wallet));
      return Ok(Receipt(r.draw.reference, toAmount, map[r.from := updatedFrom, r.to := updatedTo]));
    }

    /** Runs `convert` with its rate already fetched. */
    method Convert(r: Request) returns (res: Result<Receipt, Error>)
      requires r.Convert?
      modifies this
      ensures var run := Execute(old(Contents()), r);
              if run.Err? then Contents() == old(Contents()) && res == Err(run.error)
              else
                && Contents() == run.value && res.Ok?
                && res.value.reference == r.draw.reference && res.value.received == Received(r.amount, r.rate)
                && res.value.balances == map[r.from := UserBalance(run.value, r.user, r.from),
                                             r.to := UserBalance(run.value, r.user, r.to)]
    {
      if r.amount <= 0.0 { return Err(InvalidAmount); }
      if r.user !in users { return Err(UserNotFound); }
      if |r.from| < 3 || |r.to| < 3 { return Err(InvalidCurrency); }
      if r.from == r.to { return Err(SameCurrency); }
      var wallets', balances', records' := wallets, balances, records;
      res := ConvertRows(r);
      if res.Err? { Rollback(wallets', balances', records'); }
    }

    /** Runs `ensureWallet`, outside any transaction. */
    method EnsureWallet(r: Request) returns (res: Result<WalletId, Error>)
      requires r.EnsureWallet?
      modifies this`wallets
      ensures var run := Execute(old(Contents()), r);
              if run.Err? then Contents() == old(Contents()) && res == Err(run.error)
              else Contents() == run.value && res == Ok(wallets[r.user])
    {
      if r.user in wallets { return Ok(wallets[r.user]); }
      if r.user !in users { return Err(UserNotFound); }
      res := OpenWalletRow(r.user, r.draw);
    }
  }
}
