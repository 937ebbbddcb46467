// Decimal rounding as the service meets it: JavaScript's `toFixed` and the
// database's `numeric` columns both round to the nearest decimal, ties away from zero.
module Decimal {

  function Abs(x: real): (a: real)
    ensures a >= 0.0 && (a == x || a == -x)
  {
    if x < 0.0 then -x else x
  }

  /** x and y are at most e apart. */
  predicate Near(x: real, y: real, e: real) {
    x - y <= e && y - x <= e
  }

  /** The product of two reals, under a name that proofs can keep whole. */
  function Times(x: real, y: real): real {
    x * y
  }

  predicate Integral(y: real) {
    y == y.Floor as real
  }

  /** The nearest integer; of two equally near, the one further from zero. */
  function Nearest(y: real): int {
    if y < 0.0 then -(0.5 - y).Floor else (y + 0.5).Floor
  }

  /** Rounds to the four decimals of `toFixed(4)` and of the money columns. */
  function Round4(x: real): real {
    Nearest(x * 10000.0) as real / 10000.0
  }

  /** Rounds to the eight decimals of the rate columns. */
  function Round8(x: real): real {
    Nearest(x * 100000000.0) as real / 100000000.0
  }

  /** A multiple of 0.0001. */
  predicate OnGrid(x: real) {
    Integral(x * 10000.0)
  }

  /** Exactly half-way between two neighbouring multiples of 0.0001. */
  predicate IsTie(x: real) {
    Integral(x * 10000.0 + 0.5)
  }

  function Distance(n: int, y: real): real {
    Abs(n as real - y)
  }

  /** ECMA-262 section 21.1.3.3 for a non-negative number: n makes |n - y| least, the larger n on a tie. */
  ghost predicate ToFixedPicks(y: real, n: int) {
    forall m: int ::
      Distance(n, y) <= Distance(m, y) && (Distance(n, y) == Distance(m, y) ==> m <= n)
  }

  /** Nearest picks what `toFixed` picks, and nothing else satisfies that rule; a negative number is fixed by its
      magnitude under a minus sign. */
  lemma NearestIsToFixed(y: real, n: int)
    requires y >= 0.0
    ensures ToFixedPicks(y, n) <==> n == Nearest(y)
    ensures ToFixedPicks(y, n) <==> -n == Nearest(-y)
  {
    var k := Nearest(y);
    assert k as real <= y + 0.5 < k as real + 1.0;
    forall m: int
      ensures Distance(k, y) <= Distance(m, y) && (Distance(k, y) == Distance(m, y) ==> m <= k)
    {
      if m < k {
        assert m as real <= k as real - 1.0;
      } else if m > k {
        assert m as real >= k as real + 1.0;
      }
    }
    if ToFixedPicks(y, n) {
      assert Distance(n, y) <= Distance(k, y);
    }
  }

  lemma NearestWithinHalf(y: real)
    ensures Near(Nearest(y) as real, y, 0.5)
  {
  }

  lemma NearestMonotone(x: real, y: real)
    requires x <= y
    ensures Nearest(x) <= Nearest(y)
  {
  }

  lemma NearestOfInteger(n: int)
    ensures Nearest(n as real) == n
  {
  }

  lemma {:induction false} Round4Error(x: real)
    ensures Near(Round4(x), x, 0.00005)
  {
    NearestWithinHalf(x * 10000.0);
  }

  lemma Round8Error(x: real)
    ensures Near(Round8(x), x, 0.000000005)
  {
    NearestWithinHalf(x * 100000000.0);
  }

  lemma Round4OnGrid(x: real)
    ensures OnGrid(Round4(x))
  {
    var n := Nearest(x * 10000.0);
    assert Round4(x) * 10000.0 == n as real;
  }

  lemma Round4Fixes(x: real)
    requires OnGrid(x)
    ensures Round4(x) == x
  {
    NearestOfInteger((x * 10000.0).Floor);
  }

  lemma Round4Monotone(x: real, y: real)
    requires x <= y
    ensures Round4(x) <= Round4(y)
  {
    NearestMonotone(x * 10000.0, y * 10000.0);
  }

  lemma Round4NonNegative(x: real)
    requires x >= 0.0
    ensures Round4(x) >= 0.0
  {
    Round4Monotone(0.0, x);
  }

  lemma Round8NonNegative(x: real)
    requires x >= 0.0
    ensures Round8(x) >= 0.0
  {
  }

  lemma IntegerIsIntegral(y: real, n: int)
    requires y == n as real
    ensures Integral(y)
  {
  }

  lemma OneOnGrid(x: real)
    requires x == -1.0 || x == 0.0 || x == 1.0
    ensures OnGrid(x) && Round4(x) == x
  {
    IntegerIsIntegral(x * 10000.0, if x == 0.0 then 0 else if x == 1.0 then 10000 else -10000);
    Round4Fixes(x);
  }

  lemma GridSum(x: real, y: real, a: int, b: int)
    requires x * 10000.0 == a as real && y * 10000.0 == b as real
    ensures OnGrid(x + y)
  {
    IntegerIsIntegral((x + y) * 10000.0, a + b);
  }

  lemma GridDifference(x: real, y: real, a: int, b: int)
    requires x * 10000.0 == a as real && y * 10000.0 == b as real
    ensures OnGrid(x - y)
  {
    IntegerIsIntegral((x - y) * 10000.0, a - b);
  }

  /** The grid is closed under sum and difference. */
  lemma GridClosed(x: real, y: real)
    requires OnGrid(x) && OnGrid(y)
    ensures OnGrid(x + y) && OnGrid(x - y)
  {
    GridSum(x, y, (x * 10000.0).Floor, (y * 10000.0).Floor);
    GridDifference(x, y, (x * 10000.0).Floor, (y * 10000.0).Floor);
  }

  /** Anything strictly nearer than half a grid step to a grid point is rounded onto it. */
  lemma Round4Snaps(x: real, g: real)
    requires OnGrid(g) && Abs(x - g) < 0.00005
    ensures Round4(x) == g
  {
    var n := (g * 10000.0).Floor;
    assert Abs(x * 10000.0 - n as real) < 0.5;
    NearestSnaps(x * 10000.0, n);
  }

  lemma NearestSnaps(y: real, n: int)
    requires Abs(y - n as real) < 0.5
    ensures Nearest(y) == n
  {
  }

  /** Crediting a grid balance adds the amount as it is rounded on its own. */
  lemma CreditRounds(b: real, a: real)
    requires OnGrid(b) && b >= 0.0 && a >= 0.0
    ensures Round4(b + a) == b + Round4(a)
  {
    var n := (b * 10000.0).Floor;
    NearestShift(a * 10000.0, n);
    assert (b + a) * 10000.0 == n as real + a * 10000.0;
  }

  lemma NearestShift(y: real, n: int)
    requires y >= 0.0 && n >= 0
    ensures Nearest(n as real + y) == n + Nearest(y)
  {
  }

  /** Debiting a grid balance takes the rounded amount, except that a tie takes one step less. */
  lemma DebitRounds(b: real, a: real)
    requires OnGrid(b) && 0.0 <= a <= b
    ensures Round4(b - a) == b - Round4(a) + (if IsTie(a) then 0.0001 else 0.0)
  {
    var n := (b * 10000.0).Floor;
    NearestBelow(a * 10000.0, n);
    assert (b - a) * 10000.0 == n as real - a * 10000.0;
  }

  lemma NearestBelow(y: real, n: int)
    requires 0.0 <= y <= n as real
    ensures Nearest(n as real - y) == n - Nearest(y) + (if Integral(y + 0.5) then 1 else 0)
  {
    var k := (y + 0.5).Floor;
    assert k as real <= y + 0.5 < k as real + 1.0;
    var z := n as real - y + 0.5;
    if Integral(y + 0.5) {
      assert z == (n - k + 1) as real;
    } else {
      assert (n - k) as real <= z < (n - k) as real + 1.0;
    }
  }

  /** A grid amount is never a tie. */
  lemma GridIsNoTie(x: real)
    requires OnGrid(x)
    ensures !IsTie(x)
  {
    var n := (x * 10000.0).Floor;
    assert x * 10000.0 + 0.5 == n as real + 0.5;
    assert (n as real + 0.5).Floor == n;
  }

  // ---------- Columns ----------

  function Power(n: nat): int {
    if n == 0 then 1 else 10 * Power(n - 1)
  }

  /** `decimal(precision, scale)`: at most so many digits, so many of them after the point. */
  predicate DecimalHolds(precision: nat, scale: nat, x: real) {
    var digits := x * Power(scale) as real;
    Integral(digits) && -(Power(precision) as real) < digits < Power(precision) as real
  }

  lemma Powers()
    ensures Power(4) == 10000 && Power(8) == 100000000 && Power(18) == 1000000000000000000
    ensures Power(20) == 100000000000000000000
  {
    assert Power(8) == 10000 * Power(4);
    assert Power(12) == 10000 * Power(8);
    assert Power(16) == 10000 * Power(12);
    assert Power(20) == 10000 * Power(16);
  }

  lemma Round8Integral(x: real)
    ensures Integral(Round8(x) * 100000000.0)
  {
    IntegerIsIntegral(Round8(x) * 100000000.0, Nearest(x * 100000000.0));
  }
}
