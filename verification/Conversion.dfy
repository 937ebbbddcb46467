// The amounts `WalletService` computes, and how their rounding adds up over
// several conversions, in exact arithmetic.
module Conversion {
  import opened Decimal

  /** What a conversion pays out. */
  function Received(amount: real, rate: real): real {
    Round4(Times(amount, rate))
  }

  /** A balance after adding to it. */
  function Credited(balance: real, amount: real): real {
    Round4(balance + amount)
  }

  /** A balance after taking from it. */
  function Debited(balance: real, amount: real): real {
    Round4(balance - amount)
  }

  // ---------- A chain of conversions, each passing on all it received ----------

  function Chain(amount: real, rates: seq<real>): real {
    if rates == [] then amount
    else Received(Chain(amount, rates[..|rates| - 1]), rates[|rates| - 1])
  }

  function Product(rates: seq<real>): real {
    if rates == [] then 1.0 else Times(Product(rates[..|rates| - 1]), rates[|rates| - 1])
  }

  /** Half a grid step for every conversion, scaled by the rates still to come after it. */
  function ChainSlack(rates: seq<real>): real {
    if rates == [] then 0.0
    else Times(ChainSlack(rates[..|rates| - 1]), rates[|rates| - 1]) + 0.00005
  }

  lemma ScaledError(x: real, y: real, slack: real, rate: real)
    requires Near(x, y, slack) && rate >= 0.0
    ensures Near(Times(x, rate), Times(y, rate), Times(slack, rate))
  {
    assert x * rate - y * rate == (x - y) * rate;
    assert (x - y) * rate <= slack * rate;
    assert (y - x) * rate <= slack * rate;
  }

  lemma Reassociate(x: real, y: real, z: real)
    ensures Times(Times(x, y), z) == Times(x, Times(y, z))
  {
  }

  lemma Commute(x: real, y: real)
    ensures Times(x, y) == Times(y, x)
  {
  }

  lemma ChainStep(amount: real, product: real, slack: real, x: real, rate: real, paid: real)
    requires Near(x, Times(amount, product), slack) && rate >= 0.0 && Near(paid, x * rate, 0.00005)
    ensures Near(paid, Times(amount, Times(product, rate)), Times(slack, rate) + 0.00005)
  {
    var y := amount * product;
    ScaledError(x, y, slack, rate);
    TwoErrors(paid, Times(x, rate), Times(y, rate), 0.00005, Times(slack, rate));
    Reassociate(amount, product, rate);
  }

  lemma TwoErrors(x: real, y: real, z: real, first: real, second: real)
    requires Near(x, y, first) && Near(y, z, second)
    ensures Near(x, z, first + second)
  {
  }

  lemma PayStep(amount: real, product: real, slack: real, x: real, rate: real)
    requires Near(x, Times(amount, product), slack) && rate >= 0.0
    ensures Near(Received(x, rate), Times(amount, Times(product, rate)), Times(slack, rate) + 0.00005)
  {
    var exact := Times(x, rate);
    Round4Error(exact);
    ChainStep(amount, product, slack, x, rate, Received(x, rate));
  }

  /** A chain of conversions ends near the exact product of its rates. */
  lemma {:induction false} ChainBound(amount: real, rates: seq<real>)
    requires forall i :: 0 <= i < |rates| ==> rates[i] >= 0.0
    ensures Near(Chain(amount, rates), Times(amount, Product(rates)), ChainSlack(rates))
  {
    if rates == [] {
      OneTimes(amount);
    } else {
      ChainBound(amount, rates[..|rates| - 1]);
      PayStep(amount, Product(rates[..|rates| - 1]), ChainSlack(rates[..|rates| - 1]), Chain(amount, rates[..|rates| - 1]), rates[|rates| - 1]);
    }
  }

  /** ChainSlack written out: the i-th rounding is scaled by every later rate. */
  function TermSum(rates: seq<real>, from: nat): real
    requires from <= |rates|
    decreases |rates| - from
  {
    if from == |rates| then 0.0
    else 0.00005 * Product(rates[from + 1..]) + TermSum(rates, from + 1)
  }

  lemma {:induction false} TermSumGrows(rates: seq<real>, last: real, from: nat)
    requires from <= |rates|
    ensures TermSum(rates + [last], from) == TermSum(rates, from) * last + 0.00005
    decreases |rates| - from
  {
    var more := rates + [last];
    if from == |rates| {
      assert more[from + 1..] == [];
      assert Product(more[from + 1..]) == 1.0;
      assert TermSum(more, from + 1) == 0.0;
    } else {
      TermSumGrows(rates, last, from + 1);
      var tail, tailMore := rates[from + 1..], more[from + 1..];
      assert tailMore[..|tailMore| - 1] == tail && tailMore[|tailMore| - 1] == last;
      assert Product(tailMore) == Times(Product(tail), last);
      TermGrows(Product(tail), TermSum(rates, from + 1), last);
    }
  }

  lemma TermGrows(product: real, rest: real, last: real)
    ensures 0.00005 * Times(product, last) + (rest * last + 0.00005) == (0.00005 * product + rest) * last + 0.00005
  {
  }

  lemma {:induction false} ChainSlackIsTermSum(rates: seq<real>)
    ensures ChainSlack(rates) == TermSum(rates, 0)
  {
    if rates != [] {
      var front, last := rates[..|rates| - 1], rates[|rates| - 1];
      ChainSlackIsTermSum(front);
      TermSumGrows(front, last, 0);
      assert front + [last] == rates;
    }
  }

  lemma OneTimes(x: real)
    ensures Times(x, 1.0) == x
  {
  }

  /** Converting there and back: at most half a step, plus half a step times the return rate. */
  lemma RoundTripBound(amount: real, there: real, back: real)
    requires there > 0.0 && back > 0.0 && Times(there, back) == 1.0
    ensures Near(Received(Received(amount, there), back), amount, Times(0.00005, back) + 0.00005)
  {
    var x := Received(amount, there);
    Round4Error(Times(amount, there));
    Round4Error(Times(x, back));
    OneTimes(amount);
    ChainStep(amount, there, 0.00005, x, back, Received(x, back));
  }

  // ---------- One amount split into several conversions at one rate ----------

  function Total(parts: seq<real>): real {
    if parts == [] then 0.0 else Total(parts[..|parts| - 1]) + parts[|parts| - 1]
  }

  function ReceivedInParts(parts: seq<real>, rate: real): real {
    if parts == [] then 0.0
    else ReceivedInParts(parts[..|parts| - 1], rate) + Received(parts[|parts| - 1], rate)
  }

  function HalfSteps(n: nat): real {
    0.00005 * n as real
  }

  lemma {:induction false} PartsError(parts: seq<real>, rate: real)
    ensures Near(ReceivedInParts(parts, rate), Times(Total(parts), rate), HalfSteps(|parts|))
  {
    if parts != [] {
      var front, last := parts[..|parts| - 1], parts[|parts| - 1];
      PartsError(front, rate);
      Round4Error(Times(last, rate));
      Distribute(Total(front), last, rate);
    }
  }

  lemma Distribute(x: real, y: real, z: real)
    ensures Times(x + y, z) == Times(x, z) + Times(y, z)
  {
  }

  /** Splitting an amount into n conversions moves the payout by at most (n+1) half steps. */
  lemma SplitBound(parts: seq<real>, rate: real)
    ensures Near(ReceivedInParts(parts, rate), Received(Total(parts), rate), HalfSteps(|parts| + 1))
  {
    PartsError(parts, rate);
    var exact := Times(Total(parts), rate);
    Round4Error(exact);
    TwoErrors(ReceivedInParts(parts, rate), exact, Received(Total(parts), rate), HalfSteps(|parts|), 0.00005);
  }

  /** A larger amount never receives less. */
  lemma ReceivedMonotone(less: real, more: real, rate: real)
    requires less <= more && rate >= 0.0
    ensures Received(less, rate) <= Received(more, rate)
  {
    assert less * rate <= more * rate;
    Round4Monotone(less * rate, more * rate);
  }
}
