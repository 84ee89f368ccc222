/** Currency precision and rounding (`app/billing/money.py`).
    Decimals are exact reals; rounding is half away from zero (roundTiesToAway in section 4.3.1 of IEEE 754-2008). */
module Money {
  import opened Core

  const MAX_CURRENCY_DECIMAL_PLACES := 6

  /** A valid `MonetaryPrecision`: between 0 and 6 decimal places. */
  type Precision = p: nat | p <= MAX_CURRENCY_DECIMAL_PLACES

  /** The constructor check of `MonetaryPrecision`: anything outside 0..6 raises. */
  function MakePrecision(decimalPlaces: int): (r: Option<Precision>)
    ensures r.Some? <==> 0 <= decimalPlaces <= MAX_CURRENCY_DECIMAL_PLACES
    ensures r.Some? ==> r.value == decimalPlaces
  {
    if 0 <= decimalPlaces <= MAX_CURRENCY_DECIMAL_PLACES then Some(decimalPlaces) else None
  }

  function Pow10(n: nat): (r: int)
    ensures r >= 1
  {
    if n == 0 then 1 else 10 * Pow10(n - 1)
  }

  lemma {:induction false} Pow10Add(a: nat, b: nat)
    ensures Pow10(a + b) == Pow10(a) * Pow10(b)
  {
    if a != 0 {
      Pow10Add(a - 1, b);
      assert Pow10(a) * Pow10(b) == 10 * (Pow10(a - 1) * Pow10(b));
    }
  }

  /** How many quanta make one currency unit. */
  function Scale(p: nat): (s: real)
    ensures s >= 1.0
  {
    Pow10(p) as real
  }

  /** `MonetaryPrecision.quantum`. */
  function Quantum(p: nat): (q: real)
    ensures q > 0.0
  {
    1.0 / Scale(p)
  }

  lemma QuantumInverse(p: nat)
    ensures Quantum(p) * Scale(p) == 1.0
  {
  }

  /** `ROUND_HALF_UP` to an integer: half away from zero. */
  function HalfUp(x: real): int {
    if x >= 0.0 then (x + 0.5).Floor else -((0.5 - x).Floor)
  }

  /** A whole number of quanta as an amount. */
  function Amount(k: int, p: nat): real {
    k as real * Quantum(p)
  }

  /** The amount in whole quanta, rounded. */
  function Quanta(amount: real, p: nat): int {
    HalfUp(amount * Scale(p))
  }

  /** `currency_round`: the amount at the currency's precision. */
  function CurrencyRound(amount: real, p: nat): real {
    Amount(Quanta(amount, p), p)
  }

  /** `monetary_equal`: the same monetary value at the currency's precision. */
  predicate MonetaryEqual(left: real, right: real, p: nat) {
    CurrencyRound(left, p) == CurrencyRound(right, p)
  }

  function Extended(quantity: real, unitPrice: real): real {
    quantity * unitPrice
  }

  /** `line_currency_subtotal`: what `quantity x unit price` bills at the currency's precision. */
  function LineSubtotal(quantity: real, unitPrice: real, p: nat): real {
    CurrencyRound(Extended(quantity, unitPrice), p)
  }

  /** Already a whole number of quanta. */
  ghost predicate OnGrid(amount: real, p: nat) {
    exists k: int :: amount == Amount(k, p)
  }

  // ----- rounding to an integer

  /** What roundTiesToAway means, without saying how to compute it. */
  predicate NearestTiesAway(x: real, k: int) {
    var d := AbsR(x - k as real);
    d < 0.5 || (d == 0.5 && AbsR(k as real) > AbsR(x))
  }

  lemma HalfUpMeaning(x: real, k: int)
    ensures HalfUp(x) == k <==> NearestTiesAway(x, k)
  {
    assert NearestTiesAway(x, HalfUp(x));
    if NearestTiesAway(x, k) {
      assert -1.0 <= (k - HalfUp(x)) as real <= 1.0;
    }
  }

  lemma HalfUpClose(x: real)
    ensures -0.5 <= HalfUp(x) as real - x <= 0.5
  {
  }

  lemma HalfUpOf(x: real, k: int)
    requires -0.5 < x - k as real < 0.5
    ensures HalfUp(x) == k
  {
    HalfUpMeaning(x, k);
  }

  lemma HalfUpMonotone(x: real, y: real)
    requires x <= y
    ensures HalfUp(x) <= HalfUp(y)
  {
  }

  // ----- rounding at a precision

  lemma MulLe(a: real, b: real, c: real)
    requires a <= b && c >= 0.0
    ensures a * c <= b * c
  {
  }

  lemma MulLt(a: real, b: real, c: real)
    requires a < b && c > 0.0
    ensures a * c < b * c
  {
    assert (b - a) * c > 0.0;
  }

  lemma CancelLt(a: real, b: real, c: real)
    requires c > 0.0 && a * c < b * c
    ensures a < b
  {
    if b <= a {
      MulLe(b, a, c);
      assert false;
    }
  }

  /** Within half of an integer, counted in quanta, is within half a quantum of it. */
  lemma UnscaleGap(amount: real, s: real, q: real, k: real)
    requires q > 0.0 && q * s == 1.0
    requires -0.5 <= k - amount * s <= 0.5
    ensures -q <= 2.0 * (k * q - amount) <= q
  {
    var scaled := amount * s;
    var gap, kq, sq := k - scaled, k * q, scaled * q;
    assert sq == amount by { assert amount * s * q == amount * (q * s); }
    assert gap * q == kq - sq;
    var g := gap * q;
    assert g <= 0.5 * q by { MulLe(gap, 0.5, q); }
    assert -0.5 * q <= g by { MulLe(-0.5, gap, q); }
  }

  /** Less than half a quantum apart is less than one half apart once both are counted in quanta. */
  lemma ScaleGap(amount: real, s: real, q: real, k: real)
    requires s > 0.0 && q * s == 1.0
    requires -q < 2.0 * (amount - k * q) < q
    ensures -0.5 < amount * s - k < 0.5
  {
    var one, x, kq := q * s, amount * s, k * q;
    var kqs := kq * s;
    assert kqs == k by { assert k * q * s == k * (q * s); }
    assert one == 1.0;
    assert one - 2.0 * (x - kqs) == (q - 2.0 * (amount - kq)) * s;
    assert one - 2.0 * (x - kqs) > 0.0;
    assert one + 2.0 * (x - kqs) == (q + 2.0 * (amount - kq)) * s;
    assert one + 2.0 * (x - kqs) > 0.0;
  }

  lemma RoundCloseCore(amount: real, s: real, q: real)
    requires q > 0.0 && q * s == 1.0
    ensures -q <= 2.0 * (HalfUp(amount * s) as real * q - amount) <= q
  {
    HalfUpClose(amount * s);
    UnscaleGap(amount, s, q, HalfUp(amount * s) as real);
  }

  /** Rounding moves an amount by at most half a quantum. */
  lemma RoundClose(amount: real, p: nat)
    ensures -Quantum(p) <= 2.0 * (CurrencyRound(amount, p) - amount) <= Quantum(p)
  {
    QuantumInverse(p);
    RoundCloseCore(amount, Scale(p), Quantum(p));
  }

  lemma RoundsToCore(amount: real, k: int, s: real, q: real)
    requires s > 0.0 && q * s == 1.0
    requires -q < 2.0 * (amount - k as real * q) < q
    ensures HalfUp(amount * s) == k
  {
    ScaleGap(amount, s, q, k as real);
    HalfUpOf(amount * s, k);
  }

  /** An amount strictly within half a quantum of a grid value rounds to it. */
  lemma RoundsTo(amount: real, k: int, p: nat)
    requires -Quantum(p) < 2.0 * (amount - Amount(k, p)) < Quantum(p)
    ensures Quanta(amount, p) == k
    ensures CurrencyRound(amount, p) == Amount(k, p)
  {
    QuantumInverse(p);
    RoundsToCore(amount, k, Scale(p), Quantum(p));
  }

  lemma RoundGrid(k: int, p: nat)
    ensures Quanta(Amount(k, p), p) == k
    ensures CurrencyRound(Amount(k, p), p) == Amount(k, p)
  {
    RoundsTo(Amount(k, p), k, p);
  }

  lemma RoundIdempotent(amount: real, p: nat)
    ensures CurrencyRound(CurrencyRound(amount, p), p) == CurrencyRound(amount, p)
    ensures OnGrid(CurrencyRound(amount, p), p)
  {
    RoundGrid(Quanta(amount, p), p);
  }

  lemma GridFixed(amount: real, p: nat)
    requires OnGrid(amount, p)
    ensures CurrencyRound(amount, p) == amount
    ensures amount == Amount(Quanta(amount, p), p)
  {
    var k: int :| amount == Amount(k, p);
    RoundGrid(k, p);
  }

  lemma QuantaInjective(a: int, b: int, p: nat)
    requires Amount(a, p) == Amount(b, p)
    ensures a == b
  {
    if a != b {
      MulLt(if a < b then a as real else b as real, if a < b then b as real else a as real, Quantum(p));
      assert false;
    }
  }

  /** Monetary equality is exactly equality of rounded quanta. */
  lemma MonetaryEqualMeaning(left: real, right: real, p: nat)
    ensures MonetaryEqual(left, right, p) <==> Quanta(left, p) == Quanta(right, p)
  {
    if MonetaryEqual(left, right, p) {
      QuantaInjective(Quanta(left, p), Quanta(right, p), p);
    }
  }

  lemma AmountAdd(a: int, b: int, p: nat)
    ensures Amount(a + b, p) == Amount(a, p) + Amount(b, p)
  {
  }

  /** Sums of grid values stay on the grid. */
  lemma GridAdd(a: real, b: real, p: nat)
    requires OnGrid(a, p) && OnGrid(b, p)
    ensures OnGrid(a + b, p)
  {
    var j: int :| a == Amount(j, p);
    var k: int :| b == Amount(k, p);
    AmountAdd(j, k, p);
  }

  lemma {:induction false} GridSum(xs: seq<real>, p: nat)
    requires forall i :: 0 <= i < |xs| ==> OnGrid(xs[i], p)
    ensures OnGrid(Sum(xs), p)
  {
    if xs == [] {
      assert Sum(xs) == Amount(0, p);
    } else {
      var n := |xs| - 1;
      GridSum(xs[..n], p);
      GridAdd(Sum(xs[..n]), xs[n], p);
    }
  }

  // ----- distances counted in half quanta

  /** The two amounts differ by at most `n` half quanta. */
  predicate WithinHalfQuanta(a: real, b: real, n: nat, p: Precision) {
    -(Quantum(p) * n as real) <= 2.0 * (a - b) <= Quantum(p) * n as real
  }

  lemma HalfQuantaAdd(a: real, b: real, c: real, m: nat, n: nat, p: Precision)
    requires WithinHalfQuanta(a, b, m, p) && WithinHalfQuanta(b, c, n, p)
    ensures WithinHalfQuanta(a, c, m + n, p)
  {
    hide Quantum;
    var x, y := Quantum(p) * m as real, Quantum(p) * n as real;
    assert Quantum(p) * (m + n) as real == x + y;
  }

  lemma HalfQuantaFlip(a: real, b: real, n: nat, p: Precision)
    ensures WithinHalfQuanta(a, b, n, p) <==> WithinHalfQuanta(b, a, n, p)
  {
    hide Quantum;
    var x := Quantum(p) * n as real;
  }

  lemma HalfQuantaShift(a: real, b: real, c: real, n: nat, p: Precision)
    ensures WithinHalfQuanta(a, b, n, p) <==> WithinHalfQuanta(a + c, b + c, n, p)
  {
  }

  lemma RoundedWithin(amount: real, p: Precision)
    ensures WithinHalfQuanta(CurrencyRound(amount, p), amount, 1, p)
  {
    hide CurrencyRound, Quantum;
    RoundClose(amount, p);
  }

  lemma WithinNothing(p: Precision)
    ensures WithinHalfQuanta(0.0, 0.0, 0, p)
  {
    hide Quantum;
    assert Quantum(p) * 0 as real == 0.0;
  }
}
