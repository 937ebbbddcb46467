// Which rates are safe to convert at: `convert` takes whatever rate it is quoted.
module RateSafety {
  import opened Currencies
  import opened Decimal
  import opened Conversion
  import opened WalletLedger
  import opened WalletLaws
  import opened Reachability

  /** Some reachable ledger has rows that let this conversion through. */
  predicate Payable(r: Request)
    requires r.Convert?
  {
    && Validate(Genesis({r.user}), r).None? && |r.from| <= CODE_LENGTH && |r.to| <= CODE_LENGTH
    && r.amount <= MOST && Received(r.amount, r.rate) > -MOST - BALANCE_LIMIT && Abs(Round8(r.rate)) < RATE_LIMIT
  }

  lemma SuccessIsPayable(l: Ledger, r: Request)
    requires Sound(l) && r.Convert? && Execute(l, r).Ok?
    ensures Payable(r)
  {
    var held, paid := UserBalance(l, r.user, r.to), Received(r.amount, r.rate);
    ConvertSucceedsIff(l, r);
    GridBelowMost(UserBalance(l, r.user, r.from));
    ConvertWrites(l, r, r.to);
    GridBelowMost(held);
    PayoutOnGrid(held, r.amount, r.rate);
  }

  /** Its user holds as much as fits of `from`, and of `to` when the payout alone would not fit. */
  function Overdrawable(r: Request): Ledger
    requires r.Convert?
  {
    Pockets(r.user, if Received(r.amount, r.rate) > -BALANCE_LIMIT then [r.from] else [r.from, r.to], MOST, r.draw.reference)
  }

  lemma OverdrawableRows(r: Request)
    requires r.Convert? && Payable(r)
    ensures var l := Overdrawable(r);
            && Reachable(l) && Sound(l) && r.user in l.users && r.user in l.wallets && l.wallets[r.user] == 0
            && !ReferenceUsed(l, r.draw.reference) && (0, r.from) in l.balances
            && UserBalance(l, r.user, r.from) == MOST
            && UserBalance(l, r.user, r.to) == if Received(r.amount, r.rate) > -BALANCE_LIMIT then 0.0 else MOST
  {
    var held := if Received(r.amount, r.rate) > -BALANCE_LIMIT then [r.from] else [r.from, r.to];
    MostIsFundable();
    PocketRows(r.user, held, MOST, r.draw.reference, (0, r.from));
    PocketRows(r.user, held, MOST, r.draw.reference, (0, r.to));
    PocketReferences(r.user, held, MOST, r.draw.reference, r.draw.reference);
    PocketsReachable(r.user, held, MOST, r.draw.reference);
    ReachableIsSound(Overdrawable(r));
  }

  lemma Overdraws(r: Request)
    requires r.Convert? && Payable(r) && Received(r.amount, r.rate) < 0.0
    ensures Execute(Overdrawable(r), r).Ok?
    ensures UserBalance(Overdrawable(r), r.user, r.to) + Received(r.amount, r.rate) < 0.0
  {
    OverdrawableRows(r);
    MostIsFundable();
    OneOnGrid(0.0);
    PayoutOnGrid(UserBalance(Overdrawable(r), r.user, r.to), r.amount, r.rate);
    DebitOfMost(r.amount);
    Round4Error(r.amount);
    ConvertSucceedsIff(Overdrawable(r), r);
  }

  /** A rate is safe for every reachable ledger exactly when its payout does not round below zero,
      or the conversion never goes through. */
  lemma RateSafeIff(r: Request)
    requires r.Convert?
    ensures (forall l :: Reachable(l) && Execute(l, r).Ok? ==> Solvent(Execute(l, r).value))
       <==> Times(r.amount, r.rate) > -0.00005 || !Payable(r)
  {
    var exact := Times(r.amount, r.rate);
    PayoutSign(exact);
    forall l | Reachable(l) && Execute(l, r).Ok? && (exact > -0.00005 || !Payable(r))
      ensures Solvent(Execute(l, r).value)
    {
      ReachableIsSound(l);
      SuccessIsPayable(l, r);
      ConvertSolventIff(l, r);
    }
    if exact <= -0.00005 && Payable(r) {
      var l := Overdrawable(r);
      OverdrawableRows(r);
      Overdraws(r);
      ConvertSolventIff(l, r);
      assert !Solvent(Execute(l, r).value);
    }
  }

  lemma PayoutSign(exact: real)
    ensures Round4(exact) >= 0.0 <==> exact > -0.00005
  {
  }

  /** One USD funded and converted at a provider rate of -1 leaves -1 EUR. */
  lemma NegativeRateOverdraws()
    ensures var l := Pockets(0, ["USD"], 1.0, "FX");
            var r := Convert(0, "USD", "EUR", 1.0, -1.0, false, Draw(1, "FX"));
            Reachable(l) && Execute(l, r).Ok? && UserBalance(Execute(l, r).value, 0, "EUR") == -1.0
  {
    var l := Pockets(0, ["USD"], 1.0, "FX");
    var r := Convert(0, "USD", "EUR", 1.0, -1.0, false, Draw(1, "FX"));
    assert |"USD"| == 3 && |"EUR"| == 3 && "USD"[0] != "EUR"[0];
    OneOnGrid(1.0);
    OneOnGrid(-1.0);
    OneOnGrid(0.0);
    PocketsReachable(0, ["USD"], 1.0, "FX");
    PocketRows(0, ["USD"], 1.0, "FX", (0, "USD"));
    PocketRows(0, ["USD"], 1.0, "FX", (0, "EUR"));
    PocketReferences(0, ["USD"], 1.0, "FX", "FX");
    ReachableIsSound(l);
    assert Times(1.0, -1.0) == -1.0;
    Round8NegativeOne();
    ConvertSucceedsIff(l, r);
    ConvertWrites(l, r, "EUR");
  }

  lemma Round8NegativeOne()
    ensures Round8(-1.0) == -1.0
  {
    NearestOfInteger(-100000000);
  }
}
