// The wallet ledger as one request at a time would leave it: what `fund`,
// `convert` and `ensureWallet` do to the wallets, balance rows and transaction
// records when they run alone and to the end.
module WalletLedger {
  import opened Wrappers
  import opened Currencies
  import opened Decimal
  import opened Conversion

  type UserId = nat
  type WalletId = nat

  /** A balance row is found by its wallet and currency. */
  type RowKey = (WalletId, Currency)

  datatype TxType = FUNDING | CONVERSION | TRADE
  datatype TxStatus = PENDING | SUCCESS | FAILED

  datatype Record = Record(
    user: UserId, wallet: WalletId, kind: TxType, status: TxStatus,
    from: Currency, to: Currency, fromAmount: real, toAmount: real,
    rateUsed: real, reference: string)

  /** What a request draws at random: the id of a wallet it may create, and its reference. */
  datatype Draw = Draw(walletId: WalletId, reference: string)

  datatype Request =
    | Fund(user: UserId, currency: Currency, amount: real, draw: Draw)
    | Convert(user: UserId, from: Currency, to: Currency, amount: real, rate: real, trade: bool, draw: Draw)
    | EnsureWallet(user: UserId, draw: Draw)

  datatype Error =
    | InvalidAmount | UserNotFound | InvalidCurrency | SameCurrency | InsufficientBalance
    | ColumnOverflow | UniqueViolation | Aborted

  datatype Ledger = Ledger(
    users: set<UserId>, wallets: map<UserId, WalletId>,
    balances: map<RowKey, real>, records: seq<Record>)

  function Genesis(users: set<UserId>): Ledger {
    Ledger(users, map[], map[], [])
  }

  // ---------- Columns ----------

  const BALANCE_LIMIT: real := 100000000000000.0    // decimal(18, 4)
  const MOST: real := 99999999999999.9999           // the largest balance that fits
  const AMOUNT_LIMIT: real := 10000000000000000.0   // decimal(20, 4)
  const RATE_LIMIT: real := 1000000000000.0         // decimal(20, 8)


  /** The balance table can hold this row. */
  predicate RowFits(key: RowKey, balance: real) {
    Abs(balance) < BALANCE_LIMIT && |key.1| <= CODE_LENGTH
  }

  predicate RecordFits(rec: Record) {
    Abs(rec.fromAmount) < AMOUNT_LIMIT && Abs(rec.toAmount) < AMOUNT_LIMIT && Abs(rec.rateUsed) < RATE_LIMIT
  }

  // ---------- Reading the ledger ----------

  function Row(l: Ledger, key: RowKey): Option<real> {
    if key in l.balances then Some(l.balances[key]) else None
  }

  /** An absent row counts as zero. */
  function OrZero(row: Option<real>): real {
    match row case Some(v) => v case None => 0.0
  }

  function UserBalance(l: Ledger, user: UserId, currency: Currency): real {
    if user in l.wallets then OrZero(Row(l, (l.wallets[user], currency))) else 0.0
  }

  predicate ReferenceUsed(l: Ledger, reference: string) {
    exists i :: 0 <= i < |l.records| && l.records[i].reference == reference
  }

  // ---------- Running one request ----------

  /** The checks made before the database transaction is opened. */
  function Validate(l: Ledger, r: Request): Option<Error> {
    match r
    case Fund(user, currency, amount, _) =>
      if amount <= 0.0 then Some(InvalidAmount)
      else if user !in l.users then Some(UserNotFound)
      else if |currency| < 3 then Some(InvalidCurrency)
      else None
    case Convert(user, from, to, amount, _, _, _) =>
      if amount <= 0.0 then Some(InvalidAmount)
      else if user !in l.users then Some(UserNotFound)
      else if |from| < 3 || |to| < 3 then Some(InvalidCurrency)
      else if from == to then Some(SameCurrency)
      else None
    case EnsureWallet(user, _) =>
      if user in l.wallets then None
      else if user !in l.users then Some(UserNotFound)
      else None
  }

  /** The record a request leaves, as its columns keep it. */
  function RecordOf(r: Request, wallet: WalletId): Record
    requires !r.EnsureWallet?
  {
    match r
    case Fund(user, currency, amount, draw) =>
      Record(user, wallet, FUNDING, SUCCESS, currency, currency, Round4(amount), Round4(amount), 1.0, draw.reference)
    case Convert(user, from, to, amount, rate, trade, draw) =>
      Record(user, wallet, if trade then TRADE else CONVERSION, SUCCESS, from, to,
             Round4(amount), Received(amount, rate), Round8(rate), draw.reference)
  }

  /** Finds the user's wallet or inserts one under the drawn id. */
  function OpenWallet(l: Ledger, user: UserId, draw: Draw): (res: Result<Ledger, Error>)
    ensures res.Ok? ==> user in res.value.wallets
  {
    if user in l.wallets then Ok(l)
    else if draw.walletId in l.wallets.Values then Err(UniqueViolation)
    else Ok(l.(wallets := l.wallets[user := draw.walletId]))
  }

  function AppendRecord(l: Ledger, rec: Record): Result<Ledger, Error> {
    if !RecordFits(rec) then Err(ColumnOverflow)
    else if ReferenceUsed(l, rec.reference) then Err(UniqueViolation)
    else Ok(l.(records := l.records + [rec]))
  }

  function WriteRow(l: Ledger, key: RowKey, balance: real): Result<Ledger, Error> {
    if !RowFits(key, balance) then Err(ColumnOverflow)
    else Ok(l.(balances := l.balances[key := balance]))
  }

  function ExecuteFund(l: Ledger, r: Request): Result<Ledger, Error>
    requires r.Fund?
  {
    var ready :- OpenWallet(l, r.user, r.draw);
    var wallet := ready.wallets[r.user];
    var key := (wallet, r.currency);
    var written :- WriteRow(ready, key, Credited(OrZero(Row(ready, key)), r.amount));
    AppendRecord(written, RecordOf(r, wallet))
  }

  function ExecuteConvert(l: Ledger, r: Request): Result<Ledger, Error>
    requires r.Convert?
  {
    var ready :- OpenWallet(l, r.user, r.draw);
    var wallet := ready.wallets[r.user];
    var from, to := Row(ready, (wallet, r.from)), Row(ready, (wallet, r.to));
    if from.None? || from.value < r.amount then Err(InsufficientBalance)
    else
      var debited :- WriteRow(ready, (wallet, r.from), Debited(from.value, r.amount));
      var credited :- WriteRow(debited, (wallet, r.to), Credited(OrZero(to), Received(r.amount, r.rate)));
      AppendRecord(credited, RecordOf(r, wallet))
  }

  /** The ledger after a request that ran alone, or the error that left it unchanged. */
  function Execute(l: Ledger, r: Request): Result<Ledger, Error> {
    var refusal := Validate(l, r);
    if refusal.Some? then Err(refusal.value)
    else
      match r
      case Fund(_, _, _, _) => ExecuteFund(l, r)
      case Convert(_, _, _, _, _, _, _) => ExecuteConvert(l, r)
      case EnsureWallet(user, draw) => OpenWallet(l, user, draw)
  }

  /** The requests of a log, run one after another; every one has to succeed. */
  function ExecuteAll(l: Ledger, log: seq<Request>): Result<Ledger, Error> {
    if log == [] then Ok(l)
    else
      var before :- ExecuteAll(l, log[..|log| - 1]);
      Execute(before, log[|log| - 1])
  }

  // ---------- What every ledger satisfies ----------

  /** Keys, references and owners are consistent. */
  ghost predicate Consistent(l: Ledger) {
    && l.wallets.Keys <= l.users
    && (forall u, v :: u in l.wallets && v in l.wallets && l.wallets[u] == l.wallets[v] ==> u == v)
    && (forall key :: key in l.balances ==> key.0 in l.wallets.Values)
    && (forall i :: 0 <= i < |l.records| ==>
          l.records[i].user in l.wallets && l.records[i].wallet == l.wallets[l.records[i].user])
    && (forall i, j :: 0 <= i < j < |l.records| ==> l.records[i].reference != l.records[j].reference)
  }

  /** No balance is negative or carries more than four decimals. */
  ghost predicate Solvent(l: Ledger) {
    forall key :: key in l.balances ==> OnGrid(l.balances[key]) && l.balances[key] >= 0.0
  }

  /** Every row is one the balance table can hold. */
  ghost predicate Storable(l: Ledger) {
    forall key :: key in l.balances ==> OnGrid(l.balances[key]) && RowFits(key, l.balances[key])
  }

  lemma GridBelowMost(x: real)
    requires OnGrid(x) && x < BALANCE_LIMIT
    ensures x <= MOST
  {
    var n := (x * 10000.0).Floor;
    assert n as real < 1000000000000000000.0;
  }

  /** Consistent keys, no negative balance, and every row within its columns. */
  ghost predicate Sound(l: Ledger) {
    Consistent(l) && Solvent(l) && Storable(l)
  }

  /** A conversion whose quoted rate is not negative. */
  predicate RateSane(r: Request) {
    r.Convert? ==> r.rate >= 0.0
  }

  lemma GenesisConsistent(users: set<UserId>)
    ensures Consistent(Genesis(users)) && Solvent(Genesis(users))
  {
  }

  lemma ExecuteConsistent(l: Ledger, r: Request)
    requires Consistent(l) && Execute(l, r).Ok?
    ensures Consistent(Execute(l, r).value)
  {
    var l', ready := Execute(l, r).value, OpenWallet(l, r.user, r.draw).value;
    OpenWalletConsistent(l, r.user, r.draw);
    if !r.EnsureWallet? {
      assert l'.wallets == ready.wallets && l'.records == ready.records + [RecordOf(r, l'.wallets[r.user])];
      assert forall key :: key in l'.balances ==> key in ready.balances || key.0 == l'.wallets[r.user];
      AddedRecordConsistent(ready, l', RecordOf(r, l'.wallets[r.user]));
    }
  }

  lemma AddedRecordConsistent(l: Ledger, l': Ledger, rec: Record)
    requires Consistent(l) && l'.users == l.users && l'.wallets == l.wallets && l'.records == l.records + [rec]
    requires rec.user in l.wallets && rec.wallet == l.wallets[rec.user] && !ReferenceUsed(l, rec.reference)
    requires forall key :: key in l'.balances ==> key in l.balances || key.0 == rec.wallet
    ensures Consistent(l')
  {
    assert rec.wallet in l'.wallets.Values;
  }

  lemma OpenWalletConsistent(l: Ledger, user: UserId, draw: Draw)
    requires Consistent(l) && OpenWallet(l, user, draw).Ok? && user in l.users
    ensures Consistent(OpenWallet(l, user, draw).value)
  {
    var l' := OpenWallet(l, user, draw).value;
    forall key | key in l'.balances ensures key.0 in l'.wallets.Values {
      var u :| u in l.wallets && l.wallets[u] == key.0;
      assert u in l'.wallets && l'.wallets[u] == key.0;
    }
  }

  /** Every written row fits its columns, whatever the rate. */
  lemma ExecuteStorable(l: Ledger, r: Request)
    requires Storable(l) && Execute(l, r).Ok?
    ensures Storable(Execute(l, r).value)
  {
    match r
    case Fund(_, _, amount, _) =>
      var ready := OpenWallet(l, r.user, r.draw).value;
      Round4OnGrid(OrZero(Row(ready, (ready.wallets[r.user], r.currency))) + amount);
    case Convert(_, from, to, amount, rate, _, _) =>
      var ready := OpenWallet(l, r.user, r.draw).value;
      Round4OnGrid(Row(ready, (ready.wallets[r.user], from)).value - amount);
      Round4OnGrid(OrZero(Row(ready, (ready.wallets[r.user], to))) + Received(amount, rate));
    case EnsureWallet(_, _) =>
  }
}
