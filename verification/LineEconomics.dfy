/** A line's authoritative net amount and the posting price derived from it (`app/billing/builder.py`). */
module LineEconomics {
  import opened Core
  import opened Money
  import opened Invoice

  /** Decimal places of a recomputed posting price. */
  const PRICE_PLACES := 6

  predicate Neutral(d: Discount) {
    d.amount.Some? && d.amount.value == 0.0 && (d.rate.None? || d.rate.value == 0.0)
  }

  predicate Economic(d: Discount) {
    !Neutral(d)
  }

  function EconomicDiscounts(line: Line): seq<Discount> {
    Filter(Economic, line.discounts)
  }

  /** Quantity and unit price are both stated, as every arithmetic helper of the builder asserts. */
  predicate Priced(line: Line) {
    line.quantity.Some? && line.unitPrice.Some?
  }

  function GrossTotal(line: Line): real
    requires Priced(line)
  {
    Extended(line.quantity.value, line.unitPrice.value)
  }

  function StatedAmount(d: Discount): real {
    if d.amount.Some? then d.amount.value else 0.0
  }

  function TotalDiscount(line: Line): real {
    Sum(Map(StatedAmount, EconomicDiscounts(line)))
  }

  /** The net is defined: an undiscounted line may state it instead of a quantity and a price. */
  predicate Netted(line: Line) {
    Priced(line) || (EconomicDiscounts(line) == [] && line.extension.Some?)
  }

  function NetTotal(line: Line): real
    requires Netted(line)
  {
    if EconomicDiscounts(line) == [] && line.extension.Some? then line.extension.value
    else GrossTotal(line) - TotalDiscount(line)
  }

  /** The recomputed posting price. */
  function DerivedPrice(net: real, quantity: real): real
    requires quantity != 0.0
  {
    CurrencyRound(net / quantity, PRICE_PLACES)
  }

  function NetUnitPrice(line: Line, precision: Option<Precision>): real
    requires Priced(line) && line.quantity.value != 0.0
  {
    var net, gross := NetTotal(line), GrossTotal(line);
    if gross == net then line.unitPrice.value
    else if precision.Some? && EconomicDiscounts(line) == [] && MonetaryEqual(gross, net, precision.value)
    then line.unitPrice.value
    else DerivedPrice(net, line.quantity.value)
  }

  // ----- when the derived price reproduces the net

  /** A line of quantity `q` whose authoritative net is a whole number of the currency's quanta. */
  ghost predicate GridLine(line: Line, q: real, p: Precision) {
    Priced(line) && line.quantity.value == q && q > 0.0 && OnGrid(NetTotal(line), p)
  }

  /** Quantity times posting price rounds back to exactly the authoritative net. */
  predicate Reproduces(line: Line, asked: Option<Precision>, p: Precision)
    requires Priced(line) && line.quantity.value != 0.0
  {
    LineSubtotal(line.quantity.value, NetUnitPrice(line, asked), p) == NetTotal(line)
  }

  /** The largest quantity for which a six-decimal price can carry every net. */
  function QuantityLimit(p: Precision): (l: real)
    ensures l >= 1.0
  {
    Pow10(PRICE_PLACES - p) as real
  }

  lemma QuantumRatio(p: Precision)
    ensures Quantum(p) == QuantityLimit(p) * Quantum(PRICE_PLACES)
  {
    Pow10Add(p, PRICE_PLACES - p);
    var s, l, big := Scale(p), QuantityLimit(p), Scale(PRICE_PLACES);
    assert big == s * l;
    DivideOut(s, l);
  }

  lemma DivideOut(s: real, l: real)
    requires s >= 1.0 && l >= 1.0
    ensures s * l != 0.0 && 1.0 / s == l * (1.0 / (s * l))
  {
    var inv := 1.0 / (s * l);
    assert inv * (s * l) == 1.0;
    assert (inv * l) * s == 1.0;
  }

  /** A price off by at most half a micro-unit moves the subtotal by less than half a quantum below the limit. */
  lemma PriceErrorScaled(q: real, l: real, micro: real, quantum: real, price: real, net: real)
    requires 0.0 < q < l && micro > 0.0 && quantum == l * micro
    requires -micro <= 2.0 * (price - net / q) <= micro
    ensures -quantum < 2.0 * (q * price - net) < quantum
  {
    var r, e := net / q, price - net / q;
    assert q * r == net;
    var qp, qe := q * price, q * e;
    assert qp == net + qe by { assert q * price == q * r + q * e; }
    MulLe(2.0 * e, micro, q);
    MulLe(-micro, 2.0 * e, q);
    MulLt(q, l, micro);
    assert 2.0 * qe == (2.0 * e) * q;
    assert micro * q == q * micro;
  }

  /** At the limit itself a grid net divides to a grid price, so nothing is lost. */
  lemma PriceAtLimit(k: int, p: Precision)
    ensures Amount(k, p) / QuantityLimit(p) == Amount(k, PRICE_PLACES)
  {
    QuantumRatio(p);
    var l, u, kr := QuantityLimit(p), Quantum(PRICE_PLACES), k as real;
    assert kr * (l * u) == (kr * u) * l;
    assert (kr * u) * l / l == kr * u;
  }

  lemma DerivedPriceClose(net: real, q: real)
    requires q > 0.0
    ensures -Quantum(PRICE_PLACES) <= 2.0 * (DerivedPrice(net, q) - net / q) <= Quantum(PRICE_PLACES)
  {
    hide CurrencyRound, Quantum;
    RoundClose(net / q, PRICE_PLACES);
  }

  lemma SubtotalRoundsTo(q: real, price: real, k: int, p: Precision)
    requires -Quantum(p) < 2.0 * (q * price - Amount(k, p)) < Quantum(p)
    ensures LineSubtotal(q, price, p) == Amount(k, p)
  {
    hide CurrencyRound, Quantum, Amount;
    RoundsTo(q * price, k, p);
  }

  lemma BelowLimit(k: int, q: real, p: Precision)
    requires 0.0 < q < QuantityLimit(p)
    ensures LineSubtotal(q, DerivedPrice(Amount(k, p), q), p) == Amount(k, p)
  {
    hide LineSubtotal, DerivedPrice, Quantum, Amount, QuantityLimit;
    var net := Amount(k, p);
    var price := DerivedPrice(net, q);
    DerivedPriceClose(net, q);
    QuantumRatio(p);
    PriceErrorScaled(q, QuantityLimit(p), Quantum(PRICE_PLACES), Quantum(p), price, net);
    SubtotalRoundsTo(q, price, k, p);
  }

  lemma AtLimit(k: int, p: Precision)
    ensures LineSubtotal(QuantityLimit(p), DerivedPrice(Amount(k, p), QuantityLimit(p)), p) == Amount(k, p)
  {
    PriceAtLimit(k, p);
    RoundGrid(k, PRICE_PLACES);
    RoundGrid(k, p);
  }

  /** The recomputed price reproduces the net for every quantity up to the limit. */
  lemma DerivedPriceReproduces(net: real, q: real, p: Precision)
    requires 0.0 < q <= QuantityLimit(p) && OnGrid(net, p)
    ensures LineSubtotal(q, DerivedPrice(net, q), p) == net
  {
    hide LineSubtotal, DerivedPrice, Amount;
    var k: int :| net == Amount(k, p);
    if q < QuantityLimit(p) {
      BelowLimit(k, q, p);
    } else {
      AtLimit(k, p);
    }
  }

  lemma SubtotalOfGross(line: Line, p: Precision)
    requires Priced(line)
    ensures LineSubtotal(line.quantity.value, line.unitPrice.value, p) == CurrencyRound(GrossTotal(line), p)
  {
    hide CurrencyRound;
  }

  /** A source price is kept only when it already rounds to the net. */
  lemma KeptPriceReproduces(line: Line, p: Precision)
    requires Priced(line) && OnGrid(NetTotal(line), p)
    requires GrossTotal(line) == NetTotal(line) || MonetaryEqual(GrossTotal(line), NetTotal(line), p)
    ensures LineSubtotal(line.quantity.value, line.unitPrice.value, p) == NetTotal(line)
  {
    hide CurrencyRound, LineSubtotal, GrossTotal, NetTotal, OnGrid;
    GridFixed(NetTotal(line), p);
    SubtotalOfGross(line, p);
  }

  lemma WithinLimitReproduces(line: Line, q: real, asked: Option<Precision>, p: Precision)
    requires GridLine(line, q, p) && q <= QuantityLimit(p)
    requires asked.None? || asked.value == p
    ensures Reproduces(line, asked, p)
  {
    hide LineSubtotal, DerivedPrice, CurrencyRound;
    var net, gross := NetTotal(line), GrossTotal(line);
    if gross == net || (asked.Some? && EconomicDiscounts(line) == [] && MonetaryEqual(gross, net, p)) {
      KeptPriceReproduces(line, p);
    } else {
      DerivedPriceReproduces(net, q, p);
    }
  }

  /** What a price of `n` micro-units bills, in quanta, when the quantity is `t` times the limit. */
  function Billed(t: real, n: int): int {
    HalfUp(t * n as real)
  }

  lemma InLimits(q: real, l: real, u: real, s: real, n: real)
    requires l >= 1.0 && l * u * s == 1.0
    ensures q * (n * u) * s == q / l * n
  {
    var t, one := q / l, l * u * s;
    assert t * l == q;
    assert (t * l) * (n * u) * s == (t * n) * one;
  }

  lemma SubtotalInQuanta(q: real, n: int, p: Precision)
    ensures Quanta(q * Amount(n, PRICE_PLACES), p) == Billed(q / QuantityLimit(p), n)
  {
    QuantumRatio(p);
    QuantumInverse(p);
    hide Quantum, Scale, QuantityLimit;
    InLimits(q, QuantityLimit(p), Quantum(PRICE_PLACES), Scale(p), n as real);
  }

  lemma BilledMonotone(t: real, m: int, n: int)
    requires t > 0.0 && m <= n
    ensures Billed(t, m) <= Billed(t, n)
  {
    var x, y := t * m as real, t * n as real;
    assert x <= y by { MulLe(m as real, n as real, t); }
    HalfUpMonotone(x, y);
  }

  /** Multiples of `t > 1`, once rounded, skip some integer: the first one overtaken. */
  lemma {:induction false} SkippedInteger(t: real, n: nat) returns (missed: nat)
    requires t > 1.0 && Billed(t, n) > n
    ensures missed > 0
    ensures forall m: int :: Billed(t, m) != missed
    decreases n
  {
    assert n > 0 by { assert Billed(t, 0) == 0; }
    if Billed(t, n - 1) > n - 1 {
      missed := SkippedInteger(t, n - 1);
    } else {
      missed := n;
      forall m: int
        ensures Billed(t, m) != n
      {
        if m <= n - 1 {
          BilledMonotone(t, m, n - 1);
        } else {
          BilledMonotone(t, n, m);
        }
      }
    }
  }

  lemma OneAhead(t: real, n: real)
    requires t > 1.0 && n >= 1.0 / (t - 1.0)
    ensures t * n >= n + 1.0
  {
    var e := t - 1.0;
    var inv := 1.0 / e;
    assert inv * e == 1.0;
    var x := n * e;
    assert x >= 1.0 by { MulLe(inv, n, e); }
    assert t * n == n + x;
  }

  lemma EventuallyOvertakes(t: real) returns (n: nat)
    requires t > 1.0
    ensures Billed(t, n) > n
  {
    var inv := 1.0 / (t - 1.0);
    n := inv.Floor + 1;
    OneAhead(t, n as real);
    var x := t * n as real;
    HalfUpMonotone(n as real + 1.0, x);
  }

  /** A numbered product line with a source price of zero and nothing else on it. */
  predicate Bare(line: Line) {
    line.number == Some("1") && line.identified && line.unitPrice == Some(0.0) && line.discounts == []
    && line.taxes == []
  }

  /** A positive net of `k` quanta with a source price of zero takes the recomputing branch. */
  lemma ZeroPriceIsRecomputed(k: nat, q: real, asked: Option<Precision>, p: Precision) returns (line: Line)
    requires k > 0 && q > 0.0
    requires asked.None? || asked.value == p
    ensures GridLine(line, q, p) && Bare(line) && NetTotal(line) == Amount(k, p)
    ensures NetUnitPrice(line, asked) == DerivedPrice(Amount(k, p), q)
  {
    line := Line(Some("1"), None, true, Some(q), Some(0.0), Some(Amount(k, p)), [], []);
    RoundGrid(k, p);
    RoundGrid(0, p);
    assert GrossTotal(line) == Amount(0, p);
    if Amount(0, p) == Amount(k, p) {
      QuantaInjective(0, k, p);
      assert false;
    }
  }

  lemma SubtotalOfMicros(q: real, n: int, p: Precision)
    ensures LineSubtotal(q, Amount(n, PRICE_PLACES), p) == Amount(Billed(q / QuantityLimit(p), n), p)
  {
    hide Amount, Billed, Quanta;
    SubtotalInQuanta(q, n, p);
  }

  lemma MissedNetDiffers(q: real, t: real, k: int, p: Precision)
    requires q > 0.0 && t == q / QuantityLimit(p)
    requires forall m: int :: Billed(t, m) != k
    ensures LineSubtotal(q, DerivedPrice(Amount(k, p), q), p) != Amount(k, p)
  {
    hide Billed, LineSubtotal, Amount, Quanta;
    var n := Quanta(Amount(k, p) / q, PRICE_PLACES);
    SubtotalOfMicros(q, n, p);
    if Amount(Billed(t, n), p) == Amount(k, p) {
      QuantaInjective(Billed(t, n), k, p);
      assert false;
    }
  }

  /** Above the limit some undiscounted line with a grid net is billed a different amount. */
  lemma BeyondLimitFails(q: real, asked: Option<Precision>, p: Precision) returns (line: Line)
    requires q > QuantityLimit(p)
    requires asked.None? || asked.value == p
    ensures GridLine(line, q, p) && Bare(line) && !Reproduces(line, asked, p)
  {
    hide LineSubtotal, DerivedPrice, CurrencyRound, Amount, Billed, QuantityLimit, NetTotal, GrossTotal, NetUnitPrice,
      OnGrid;
    var t := q / QuantityLimit(p);
    assert t > 1.0;
    var n := EventuallyOvertakes(t);
    var k := SkippedInteger(t, n);
    line := ZeroPriceIsRecomputed(k, q, asked, p);
    MissedNetDiffers(q, t, k, p);
  }

  /** The exact reach of six-decimal posting prices: a quantity is safe for every grid net, in every branch
      of the derivation, precisely up to 10^(6 - decimal places). */
  lemma PriceDerivationExact(q: real, asked: Option<Precision>, p: Precision)
    requires q > 0.0
    requires asked.None? || asked.value == p
    ensures q <= QuantityLimit(p) <==> (forall line: Line :: GridLine(line, q, p) ==> Reproduces(line, asked, p))
  {
    if q <= QuantityLimit(p) {
      forall line: Line | GridLine(line, q, p)
        ensures Reproduces(line, asked, p)
      {
        WithinLimitReproduces(line, q, asked, p);
      }
    } else {
      var line := BeyondLimitFails(q, asked, p);
    }
  }

  /** The concrete failure: 10001 pieces for 50.00 post at 0.005000 and come back as 50.01. */
  lemma PriceDerivationCounterexample()
    ensures
      var line := Line(Some("1"), None, true, Some(10001.0), Some(0.0), Some(50.0), [], []);
      && NetUnitPrice(line, Some(2)) == 0.005
      && LineSubtotal(10001.0, NetUnitPrice(line, Some(2)), 2) == 50.01
  {
    assert Pow10(1) == 10 && Pow10(2) == 100 && Pow10(3) == 1000 && Pow10(4) == 10000 && Pow10(5) == 100000;
    assert Pow10(6) == 1000000;
    assert Quantum(2) == 0.01 && Quantum(6) == 0.000001;
    RoundGrid(0, 2);
    RoundGrid(5000, 2);
    HalfUpOf(50.0 / 10001.0 * 1000000.0, 5000);
  }
}
