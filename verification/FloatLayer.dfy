// The same balances as JavaScript computes them: every parsed number and every
// operation is off by a relative 2^-53, and `toFixed(4)` plus the scale-4 column
// round the result again before it is stored.
module FloatLayer {
  import opened Decimal
  import opened Conversion

  const EPSILON: real := 1.0 / 9007199254740992.0
  const BOUND: real := 100000000000.0

  /** A conversion between reals and their machine form, in either direction. */
  ghost predicate Approximates(f: real -> real) {
    forall x: real :: Near(f(x), x, EPSILON * Abs(x))
  }

  /** A balance column or request amount: on the grid and at most 10^11. */
  predicate Money(x: real) {
    OnGrid(x) && 0.0 <= x <= BOUND
  }

  /** `Number((x).toFixed(4))`, sent as text and kept by a scale-4 column. */
  function Stored(fl: real -> real, text: real -> real, x: real): real {
    Round4(text(fl(Round4(x))))
  }

  function FloatCredited(fl: real -> real, text: real -> real, balance: real, amount: real): real {
    Stored(fl, text, fl(fl(balance) + fl(amount)))
  }

  function FloatDebited(fl: real -> real, text: real -> real, balance: real, amount: real): real {
    Stored(fl, text, fl(fl(balance) - fl(amount)))
  }

  predicate FloatInsufficient(fl: real -> real, balance: real, amount: real) {
    fl(balance) < fl(amount)
  }

  lemma FlError(f: real -> real, x: real, bound: real)
    requires Approximates(f) && Abs(x) <= bound
    ensures Near(f(x), x, EPSILON * bound)
  {
    assert Near(f(x), x, EPSILON * Abs(x));
  }

  /** Below 2*10^11 one conversion or operation moves a value by less than a quarter of a grid step. */
  lemma SmallError(f: real -> real, x: real)
    requires Approximates(f)
    ensures Abs(x) <= BOUND ==> Near(f(x), x, 0.0000112)
    ensures Abs(x) <= 2.0 * BOUND + 1.0 ==> Near(f(x), x, 0.0000224)
  {
    assert Near(f(x), x, EPSILON * Abs(x));
  }

  /** Whatever lands within half a step of a grid value up to 2*10^11 is stored as that value. */
  lemma StoredExact(fl: real -> real, text: real -> real, x: real, exact: real)
    requires Approximates(fl) && Approximates(text)
    requires OnGrid(exact) && 0.0 <= exact <= 2.0 * BOUND && Abs(x - exact) < 0.00005
    ensures Stored(fl, text, x) == exact
  {
    Round4Snaps(x, exact);
    SmallError(fl, exact);
    SmallError(text, fl(exact));
    Round4Snaps(text(fl(exact)), exact);
  }

  /** Parsing both operands and adding or subtracting them errs by less than half a step. */
  lemma OperationError(fl: real -> real, x: real, y: real)
    requires Approximates(fl) && 0.0 <= x <= BOUND && 0.0 <= y <= BOUND
    ensures Abs(fl(fl(x) + fl(y)) - (x + y)) < 0.00005
    ensures Abs(fl(fl(x) - fl(y)) - (x - y)) < 0.00005
  {
    SmallError(fl, x);
    SmallError(fl, y);
    SmallError(fl, fl(x) + fl(y));
    SmallError(fl, fl(x) - fl(y));
  }

  /** On the grid the exact sum and difference need no rounding. */
  lemma GridArithmetic(x: real, y: real)
    requires OnGrid(x) && OnGrid(y)
    ensures OnGrid(x + y) && Credited(x, y) == x + y
    ensures OnGrid(x - y) && Debited(x, y) == x - y
  {
    GridClosed(x, y);
    Round4Fixes(x + y);
    Round4Fixes(x - y);
  }

  lemma CreditExact(fl: real -> real, text: real -> real, balance: real, amount: real)
    requires Approximates(fl) && Approximates(text) && Money(balance) && Money(amount)
    ensures FloatCredited(fl, text, balance, amount) == balance + amount == Credited(balance, amount)
  {
    GridArithmetic(balance, amount);
    OperationError(fl, balance, amount);
    StoredExact(fl, text, fl(fl(balance) + fl(amount)), balance + amount);
  }

  lemma DebitExact(fl: real -> real, text: real -> real, balance: real, amount: real)
    requires Approximates(fl) && Approximates(text) && Money(balance) && Money(amount) && amount <= balance
    ensures FloatDebited(fl, text, balance, amount) == balance - amount == Debited(balance, amount)
  {
    GridArithmetic(balance, amount);
    OperationError(fl, balance, amount);
    StoredExact(fl, text, fl(fl(balance) - fl(amount)), balance - amount);
  }

  /** The "Insufficient balance" test gives the decimal answer, in both directions. */
  lemma ComparisonExact(fl: real -> real, balance: real, amount: real)
    requires Approximates(fl) && Money(balance) && Money(amount)
    ensures FloatInsufficient(fl, balance, amount) <==> balance < amount
  {
    SmallError(fl, balance);
    SmallError(fl, amount);
    if balance != amount { GridGap(balance, amount); }
  }

  lemma GridGap(x: real, y: real)
    requires OnGrid(x) && OnGrid(y) && x != y
    ensures Abs(x - y) >= 0.0001
  {
    var a, b := (x * 10000.0).Floor, (y * 10000.0).Floor;
    assert a != b && x * 10000.0 == a as real && y * 10000.0 == b as real;
  }

  // ---------- Runs ----------

  datatype Posting = Credit(amount: real) | Debit(amount: real)

  /** One balance row over a run of postings; a debit it cannot cover is refused. */
  function ExactRun(balance: real, postings: seq<Posting>): real {
    if postings == [] then balance
    else ExactStep(ExactRun(balance, postings[..|postings| - 1]), postings[|postings| - 1])
  }

  function ExactStep(b: real, posting: Posting): real {
    match posting
    case Credit(a) => b + a
    case Debit(a) => if b < a then b else b - a
  }

  function FloatRun(fl: real -> real, text: real -> real, balance: real, postings: seq<Posting>): real {
    if postings == [] then balance
    else FloatStep(fl, text, FloatRun(fl, text, balance, postings[..|postings| - 1]), postings[|postings| - 1])
  }

  function FloatStep(fl: real -> real, text: real -> real, b: real, posting: Posting): real {
    match posting
    case Credit(a) => FloatCredited(fl, text, b, a)
    case Debit(a) => if FloatInsufficient(fl, b, a) then b else FloatDebited(fl, text, b, a)
  }

  lemma FloatStepExact(fl: real -> real, text: real -> real, b: real, posting: Posting)
    requires Approximates(fl) && Approximates(text) && Money(b) && Money(posting.amount)
    ensures FloatStep(fl, text, b, posting) == ExactStep(b, posting)
    ensures ExactStep(b, posting) <= BOUND ==> Money(ExactStep(b, posting))
  {
    var a := posting.amount;
    GridClosed(b, a);
    if posting.Credit? {
      CreditExact(fl, text, b, a);
    } else {
      ComparisonExact(fl, b, a);
      if a <= b { DebitExact(fl, text, b, a); }
    }
  }

  /** No error accumulates: after any number of postings the stored balance is the decimal one. */
  lemma {:induction false} FloatRunExact(fl: real -> real, text: real -> real, balance: real, postings: seq<Posting>)
    requires Approximates(fl) && Approximates(text) && Money(balance)
    requires forall i :: 0 <= i < |postings| ==> Money(postings[i].amount)
    requires forall i :: 0 <= i <= |postings| ==> ExactRun(balance, postings[..i]) <= BOUND
    ensures FloatRun(fl, text, balance, postings) == ExactRun(balance, postings)
    ensures Money(ExactRun(balance, postings))
  {
    assert postings[..|postings|] == postings;
    if postings != [] {
      var n := |postings| - 1;
      var front := postings[..n];
      forall i | 0 <= i <= n ensures ExactRun(balance, front[..i]) <= BOUND {
        assert front[..i] == postings[..i];
      }
      FloatRunExact(fl, text, balance, front);
      FloatStepExact(fl, text, ExactRun(balance, front), postings[n]);
    }
  }

  // ---------- The payout of a conversion ----------

  function FloatReceived(fl: real -> real, amount: real, rate: real): real {
    Round4(fl(Times(fl(amount), rate)))
  }

  lemma TwoStrays(p: real, q: real, exact: real)
    requires exact >= 0.0 && Near(p, exact, EPSILON * exact) && Near(q, p, EPSILON * Abs(p))
    ensures Near(q, exact, 3.0 * EPSILON * exact)
  {
    assert EPSILON * exact <= exact;
    assert Abs(p) <= 2.0 * exact;
  }

  /** The float product strays from the decimal one by a relative 2^-53 twice over. */
  lemma ProductError(fl: real -> real, amount: real, rate: real)
    requires Approximates(fl) && amount >= 0.0 && rate >= 0.0
    ensures Near(fl(Times(fl(amount), rate)), Times(amount, rate), 3.0 * EPSILON * Times(amount, rate))
  {
    var a, exact := fl(amount), Times(amount, rate);
    FlError(fl, amount, amount);
    ScaledError(a, amount, EPSILON * amount, rate);
    Reassociate(EPSILON, amount, rate);
    var p := a * rate;
    TwoStrays(p, fl(p), exact);
  }

  /** The float payout is within half a step, plus that stray, of the exact product. */
  lemma FloatReceivedError(fl: real -> real, amount: real, rate: real)
    requires Approximates(fl) && amount >= 0.0 && rate >= 0.0
    ensures Near(FloatReceived(fl, amount, rate), Times(amount, rate), 0.00005 + 3.0 * EPSILON * Times(amount, rate))
  {
    ProductError(fl, amount, rate);
    Round4Error(fl(Times(fl(amount), rate)));
  }

  function Down(x: real): real {
    x - EPSILON * x
  }

  function Up(x: real): real {
    x + EPSILON * x
  }

  /** Every machine product lies between the exact one rounded down twice and rounded up twice. */
  lemma ProductBetween(fl: real -> real, amount: real, rate: real)
    requires Approximates(fl) && amount >= 0.0 && rate >= 0.0
    ensures Down(Down(Times(amount, rate))) <= fl(Times(fl(amount), rate)) <= Up(Up(Times(amount, rate)))
  {
    var a, exact := fl(amount), Times(amount, rate);
    assert Near(a, amount, EPSILON * Abs(amount));
    var p := Times(a, rate);
    Scales(Down(amount), a, rate);
    Scales(a, Up(amount), rate);
    DownTimes(amount, rate);
    UpTimes(amount, rate);
    assert Near(fl(p), p, EPSILON * Abs(p));
  }

  lemma Scales(less: real, more: real, rate: real)
    requires less <= more && rate >= 0.0
    ensures Times(less, rate) <= Times(more, rate)
  {
    assert (more - less) * rate >= 0.0;
  }

  lemma DownTimes(amount: real, rate: real)
    requires amount >= 0.0 && rate >= 0.0
    ensures Times(Down(amount), rate) == Down(Times(amount, rate)) >= 0.0
  {
    Reassociate(1.0 - EPSILON, amount, rate);
    Scales(0.0, amount, rate);
  }

  lemma UpTimes(amount: real, rate: real)
    ensures Times(Up(amount), rate) == Up(Times(amount, rate))
  {
    Reassociate(1.0 + EPSILON, amount, rate);
  }

  /** The payout does not depend on how machine numbers are rounded. */
  ghost predicate PayoutExact(amount: real, rate: real) {
    forall fl: real -> real :: Approximates(fl) ==> FloatReceived(fl, amount, rate) == Received(amount, rate)
  }

  lemma ExtremesApproximate()
    ensures Approximates(Down) && Approximates(Up)
  {
    forall x: real ensures Near(Down(x), x, EPSILON * Abs(x)) && Near(Up(x), x, EPSILON * Abs(x)) {
    }
  }

  /** Every machine rounding pays the decimal payout exactly when rounding the product down twice or up twice does. */
  lemma FloatReceivedExactIff(amount: real, rate: real)
    requires amount >= 0.0 && rate >= 0.0
    ensures PayoutExact(amount, rate)
       <==> Round4(Down(Down(Times(amount, rate)))) == Round4(Up(Up(Times(amount, rate))))
  {
    var exact := Times(amount, rate);
    var low, high := Round4(Down(Down(exact))), Round4(Up(Up(exact)));
    ExtremesApproximate();
    DownTimes(amount, rate);
    UpTimes(amount, rate);
    if PayoutExact(amount, rate) {
      assert FloatReceived(Down, amount, rate) == Received(amount, rate) == FloatReceived(Up, amount, rate);
    }
    if low == high {
      forall fl: real -> real | Approximates(fl) ensures FloatReceived(fl, amount, rate) == Received(amount, rate) {
        ProductBetween(fl, amount, rate);
        Squeezed(Down(Down(exact)), fl(Times(fl(amount), rate)), Up(Up(exact)));
        Squeezed(Down(Down(exact)), exact, Up(Up(exact)));
      }
    }
  }

  lemma Squeezed(low: real, x: real, high: real)
    requires low <= x <= high && Round4(low) == Round4(high)
    ensures Round4(x) == Round4(low)
  {
    Round4Monotone(low, x);
    Round4Monotone(x, high);
  }

  const TWO_TO_52: real := 4503599627370496.0
  const TWO_TO_53: real := 9007199254740992.0

  /** How IEEE 754 doubles round between 1/2 and 2: from 1 on to a nearest multiple of 2^-52, below 1 keeping
      multiples of 2^-53. */
  ghost predicate RoundsAsDouble(fl: real -> real) {
    && (forall x: real :: 1.0 <= x < 2.0 ==> Integral(fl(x) * TWO_TO_52) && Near(fl(x), x, EPSILON))
    && (forall x: real :: 0.5 <= x < 1.0 && Integral(x * TWO_TO_53) ==> fl(x) == x)
  }

  /** The double nearest to 1.0001 is below it. */
  lemma DoubleBelow(x: real)
    requires Integral(x * TWO_TO_52) && Near(x, 1.0001, EPSILON)
    ensures x == 4504049987333233.0 / TWO_TO_52
  {
    var n := (x * TWO_TO_52).Floor;
    assert x * TWO_TO_52 == n as real;
    assert 4504049987333232.5 < n as real < 4504049987333233.6;
    assert n == 4504049987333233;
  }

  /** 1.0001 at a rate of 0.5 is a tie: decimals pay 0.5001, doubles 0.5. */
  lemma TiePayoutDiffers(fl: real -> real)
    requires RoundsAsDouble(fl)
    ensures Received(1.0001, 0.5) == 0.5001 && FloatReceived(fl, 1.0001, 0.5) == 0.5
  {
    DoubleBelow(fl(1.0001));
    var p := Times(fl(1.0001), 0.5);
    IntegerIsIntegral(p * TWO_TO_53, 4504049987333233);
    assert fl(p) == p && Abs(p - 0.5) < 0.00005;
    IntegerIsIntegral(0.5 * 10000.0, 5000);
    Round4Snaps(p, 0.5);
    assert Times(1.0001, 0.5) * 10000.0 == 5000.5;
    NearestOfTie(5000);
  }

  lemma NearestOfTie(n: nat)
    ensures Nearest(n as real + 0.5) == n + 1
  {
  }

  /** A rounding of that kind within the relative error. */
  function ToDouble(x: real): real {
    if 1.0 <= x < 2.0 then Nearest(x * TWO_TO_52) as real / TWO_TO_52 else x
  }

  lemma ToDoubleRounds()
    ensures Approximates(ToDouble) && RoundsAsDouble(ToDouble)
  {
    forall x: real ensures Near(ToDouble(x), x, EPSILON * Abs(x)) && (1.0 <= x < 2.0 ==> Near(ToDouble(x), x, EPSILON)) {
      if 1.0 <= x < 2.0 { NearestScaled(x); }
    }
    forall x: real | 1.0 <= x < 2.0 ensures Integral(ToDouble(x) * TWO_TO_52) {
      IntegerIsIntegral(ToDouble(x) * TWO_TO_52, Nearest(x * TWO_TO_52));
    }
  }

  lemma NearestScaled(x: real)
    requires 1.0 <= x < 2.0
    ensures Near(ToDouble(x), x, EPSILON) && EPSILON <= EPSILON * Abs(x)
  {
    NearestWithinHalf(x * TWO_TO_52);
  }

  /** Up to 10^11 the float payout is never more than one step from the decimal one. */
  lemma FloatReceivedWithinStep(fl: real -> real, amount: real, rate: real)
    requires Approximates(fl) && amount >= 0.0 && rate >= 0.0 && Times(amount, rate) <= BOUND
    ensures Near(FloatReceived(fl, amount, rate), Received(amount, rate), 0.0001)
    ensures OnGrid(FloatReceived(fl, amount, rate)) && FloatReceived(fl, amount, rate) >= 0.0
  {
    var p, exact := fl(Times(fl(amount), rate)), Times(amount, rate);
    ProductBetween(fl, amount, rate);
    DownTimes(amount, rate);
    Round4NonNegative(p);
    Round4OnGrid(p);
    Round4OnGrid(exact);
    Round4Error(p);
    Round4Error(exact);
    if Round4(p) != Round4(exact) { NeighbouringSteps(Round4(p), Round4(exact)); }
  }

  /** Grid values less than two steps apart are at most one step apart. */
  lemma NeighbouringSteps(x: real, y: real)
    requires OnGrid(x) && OnGrid(y) && Near(x, y, 0.00019)
    ensures Near(x, y, 0.0001)
  {
    var a, b := (x * 10000.0).Floor, (y * 10000.0).Floor;
    assert x * 10000.0 == a as real && y * 10000.0 == b as real;
    assert -2 < a - b < 2;
  }

  /** Both rows of a conversion, computed in floats, are stored as exact arithmetic leaves them for that payout; and
      the payout is the decimal one wherever rounding the product down or up twice makes no difference. */
  lemma FloatConversionExact(fl: real -> real, text: real -> real, from: real, to: real, amount: real, rate: real)
    requires Approximates(fl) && Approximates(text) && rate >= 0.0
    requires Money(from) && Money(to) && Money(amount) && amount <= from && Times(amount, rate) <= BOUND - 1.0
    ensures var paid := FloatReceived(fl, amount, rate);
            && !FloatInsufficient(fl, from, amount)
            && FloatDebited(fl, text, from, amount) == Debited(from, amount)
            && FloatCredited(fl, text, to, paid) == Credited(to, paid)
            && Near(paid, Received(amount, rate), 0.0001)
            && (Round4(Down(Down(Times(amount, rate)))) == Round4(Up(Up(Times(amount, rate)))) ==>
                  paid == Received(amount, rate))
  {
    ComparisonExact(fl, from, amount);
    DebitExact(fl, text, from, amount);
    FloatReceivedExactIff(amount, rate);
    FloatReceivedWithinStep(fl, amount, rate);
    Round4Error(Times(amount, rate));
    CreditExact(fl, text, to, FloatReceived(fl, amount, rate));
  }
}
