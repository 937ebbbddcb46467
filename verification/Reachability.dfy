// The ledgers the service can leave: what some log of requests makes of empty tables.
module Reachability {
  import opened Wrappers
  import opened Currencies
  import opened Decimal
  import opened Conversion
  import opened WalletLedger
  import opened WalletLaws

  /** Some log of requests at rates that are not negative leads here from empty tables. */
  ghost predicate Reachable(l: Ledger) {
    exists users, log :: LeadsTo(users, log, l)
  }

  ghost predicate LeadsTo(users: set<UserId>, log: seq<Request>, l: Ledger) {
    SaneLog(log) && ExecuteAll(Genesis(users), log) == Ok(l)
  }

  lemma {:induction false} LogStorable(l: Ledger, log: seq<Request>)
    requires Storable(l) && ExecuteAll(l, log).Ok?
    ensures Storable(ExecuteAll(l, log).value)
  {
    if log != [] {
      LogStorable(l, log[..|log| - 1]);
      ExecuteStorable(ExecuteAll(l, log[..|log| - 1]).value, log[|log| - 1]);
    }
  }

  /** Reachable ledgers have consistent keys, no negative balance and rows within their columns. */
  lemma ReachableIsSound(l: Ledger)
    requires Reachable(l)
    ensures Sound(l)
  {
    var users, log :| LeadsTo(users, log, l);
    GenesisConsistent(users);
    LogConsistent(Genesis(users), log);
    LogSolvent(Genesis(users), log);
    LogStorable(Genesis(users), log);
  }

  lemma GenesisReachable(users: set<UserId>)
    ensures Reachable(Genesis(users))
  {
    var none: seq<Request> := [];
    assert LeadsTo(users, none, Genesis(users));
  }

  // ---------- Ledgers with given rows ----------

  /** The k-th reference after a given string. */
  function Mark(after: string, k: nat): string {
    after + seq(k, _ => 'F')
  }

  function Funding(user: UserId, currency: Currency, held: real, after: string, k: nat): Request {
    Fund(user, currency, held, Draw(0, Mark(after, k)))
  }

  /** Opens the user's wallet and funds it in each currency in turn. */
  function Fundings(user: UserId, currencies: seq<Currency>, held: real, after: string): seq<Request> {
    if currencies == [] then [EnsureWallet(user, Draw(0, after))]
    else
      Fundings(user, currencies[..|currencies| - 1], held, after)
      + [Funding(user, currencies[|currencies| - 1], held, after, |currencies|)]
  }

  /** One user holds the same amount of each currency, each row with its FUNDING record. */
  function Pockets(user: UserId, currencies: seq<Currency>, held: real, after: string): Ledger {
    if currencies == [] then Ledger({user}, map[user := 0], map[], [])
    else
      var before, last := Pockets(user, currencies[..|currencies| - 1], held, after), currencies[|currencies| - 1];
      before.(balances := before.balances[(0, last) := held],
              records := before.records + [RecordOf(Funding(user, last, held, after, |currencies|), 0)])
  }

  /** An amount a row can hold and a fund can bring. */
  predicate Fundable(held: real) {
    OnGrid(held) && 0.0 < held <= MOST
  }

  predicate CodeFits(c: Currency) {
    3 <= |c| <= CODE_LENGTH
  }

  lemma {:induction false} PocketRows(user: UserId, currencies: seq<Currency>, held: real, after: string, key: RowKey)
    ensures var l := Pockets(user, currencies, held, after);
            && l.users == {user} && l.wallets == map[user := 0]
            && (key in l.balances <==> key.0 == 0 && key.1 in currencies)
            && (key in l.balances ==> l.balances[key] == held)
  {
    if currencies != [] {
      var front, last := currencies[..|currencies| - 1], currencies[|currencies| - 1];
      PocketRows(user, front, held, after, key);
      assert currencies == front + [last];
    }
  }

  /** The references used are all longer than the string they follow. */
  lemma {:induction false} PocketReferences(user: UserId, currencies: seq<Currency>, held: real, after: string, reference: string)
    ensures ReferenceUsed(Pockets(user, currencies, held, after), reference) ==>
              |after| < |reference| <= |after| + |currencies|
  {
    if currencies != [] { PocketReferences(user, currencies[..|currencies| - 1], held, after, reference); }
  }

  lemma FundOneMore(user: UserId, currencies: seq<Currency>, held: real, after: string)
    requires currencies != [] && Distinct(currencies) && Fundable(held) && CodeFits(currencies[|currencies| - 1])
    ensures var n := |currencies| - 1;
            Execute(Pockets(user, currencies[..n], held, after), Funding(user, currencies[n], held, after, n + 1))
            == Ok(Pockets(user, currencies, held, after))
  {
    var n := |currencies| - 1;
    var l, r := Pockets(user, currencies[..n], held, after), Funding(user, currencies[n], held, after, n + 1);
    PocketRows(user, currencies[..n], held, after, (0, currencies[n]));
    PocketReferences(user, currencies[..n], held, after, Mark(after, n + 1));
    assert currencies[n] !in currencies[..n];
    Round4Fixes(held);
    assert Credited(0.0, held) == held;
    FundRuns(l, r, held);
  }

  /** A fund into a wallet that has no row in its currency. */
  lemma FundRuns(l: Ledger, r: Request, held: real)
    requires r.Fund? && r.user in l.users && r.user in l.wallets && l.wallets[r.user] == 0 && (0, r.currency) !in l.balances
    requires CodeFits(r.currency) && r.amount == held && 0.0 < held <= MOST && Round4(held) == Credited(0.0, held) == held
    requires !ReferenceUsed(l, r.draw.reference)
    ensures Execute(l, r) == Ok(l.(balances := l.balances[(0, r.currency) := held], records := l.records + [RecordOf(r, 0)]))
  {
  }

  lemma {:induction false} FundingsRun(user: UserId, currencies: seq<Currency>, held: real, after: string)
    requires Distinct(currencies) && Fundable(held) && forall c :: c in currencies ==> CodeFits(c)
    ensures LeadsTo({user}, Fundings(user, currencies, held, after), Pockets(user, currencies, held, after))
  {
    var log := Fundings(user, currencies, held, after);
    if currencies == [] {
      var none: seq<Request> := [];
      assert log[..|log| - 1] == none;
      assert ExecuteAll(Genesis({user}), none) == Ok(Genesis({user}));
    } else {
      var n := |currencies| - 1;
      FundingsRun(user, currencies[..n], held, after);
      FundOneMore(user, currencies, held, after);
      assert log[..|log| - 1] == Fundings(user, currencies[..n], held, after);
    }
  }

  /** Such a ledger is one the service leaves. */
  lemma PocketsReachable(user: UserId, currencies: seq<Currency>, held: real, after: string)
    requires Distinct(currencies) && Fundable(held) && forall c :: c in currencies ==> CodeFits(c)
    ensures Reachable(Pockets(user, currencies, held, after))
  {
    FundingsRun(user, currencies, held, after);
  }

  lemma MostIsFundable()
    ensures Fundable(MOST)
  {
    IntegerIsIntegral(MOST * 10000.0, 999999999999999999);
  }
}
