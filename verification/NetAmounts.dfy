/** What the authoritative net and the posted price of a line are, over the line's own amounts: no discount filter, no
    rounding helper (`_net_total`, `_net_unit_price` and their validation in `app/billing/builder.py`). */
module NetAmounts {
  import opened Core
  import opened Money
  import opened Invoice
  import opened LineEconomics
  import opened VendorBill
  import opened BillValidation
  import opened AcceptableRequests
  import opened BillBuilder

  /** A zero amount without a rate, or with a zero rate, is no discount at all. */
  predicate IsDiscount(d: Discount) {
    d.amount != Some(0.0) || (d.rate.Some? && d.rate.value != 0.0)
  }

  predicate Discounted(line: Line) {
    exists i :: 0 <= i < |line.discounts| && IsDiscount(line.discounts[i])
  }

  /** The sum of all stated discount amounts, in order. */
  function StatedDiscounts(ds: seq<Discount>): real {
    if ds == [] then 0.0
    else StatedDiscounts(ds[..|ds| - 1])
         + (if ds[|ds| - 1].amount.Some? then ds[|ds| - 1].amount.value else 0.0)
  }

  lemma {:induction false} FilteredSum(ds: seq<Discount>)
    ensures Sum(Map(StatedAmount, Filter(Economic, ds))) == StatedDiscounts(ds)
  {
    if ds == [] {
      assert Map(StatedAmount, Filter(Economic, ds)) == [];
    } else {
      var n := |ds| - 1;
      var last := ds[n];
      FilteredSum(ds[..n]);
      assert ds == ds[..n] + [last];
      FilterConcat(Economic, ds[..n], [last]);
      var before := Filter(Economic, ds[..n]);
      if Economic(last) {
        assert Filter(Economic, ds) == before + [last];
        assert Map(StatedAmount, before + [last]) == Map(StatedAmount, before) + [StatedAmount(last)];
        SumAppend(Map(StatedAmount, before), StatedAmount(last));
      } else {
        assert Filter(Economic, ds) == before;
      }
    }
  }

  lemma DiscountedMeaning(line: Line)
    ensures EconomicDiscounts(line) != [] <==> Discounted(line)
  {
    var kept := EconomicDiscounts(line);
    if kept != [] {
      assert kept[0] in line.discounts;
      var i :| 0 <= i < |line.discounts| && line.discounts[i] == kept[0];
      assert IsDiscount(line.discounts[i]);
    }
    if i :| 0 <= i < |line.discounts| && IsDiscount(line.discounts[i]) {
      assert line.discounts[i] in kept;
    }
  }

  /** The authoritative net: an undiscounted line's stated extension; otherwise quantity times price less every stated
      discount. */
  lemma NetMeaning(line: Line)
    requires Netted(line)
    ensures !Discounted(line) && line.extension.Some? ==> NetTotal(line) == line.extension.value
    ensures Discounted(line) || line.extension.None? ==>
      && line.quantity.Some? && line.unitPrice.Some?
      && NetTotal(line) == line.quantity.value * line.unitPrice.value - StatedDiscounts(line.discounts)
    ensures !Discounted(line) ==> StatedDiscounts(line.discounts) == 0.0
  {
    DiscountedMeaning(line);
    FilteredSum(line.discounts);
  }

  /** A further discount of a discounted line lowers its net by exactly its amount. */
  lemma FurtherDiscount(line: Line, d: Discount)
    requires Priced(line) && Discounted(line) && d.amount.Some?
    ensures var more := line.(discounts := line.discounts + [d]);
      NetTotal(more) == NetTotal(line) - d.amount.value
  {
    var more := line.(discounts := line.discounts + [d]);
    var i :| 0 <= i < |line.discounts| && IsDiscount(line.discounts[i]);
    assert IsDiscount(more.discounts[i]);
    assert Discounted(more) && Netted(more);
    StatedAppend(line.discounts, d);
    NetMeaning(line);
    NetMeaning(more);
    hide NetTotal, StatedDiscounts, Discounted;
  }

  lemma StatedAppend(ds: seq<Discount>, d: Discount)
    requires d.amount.Some?
    ensures StatedDiscounts(ds + [d]) == StatedDiscounts(ds) + d.amount.value
  {
    assert (ds + [d])[..|ds|] == ds;
  }

  /** A discounted line ignores the extension it states. */
  lemma ExtensionIgnored(line: Line, extension: Option<real>)
    requires Priced(line) && Discounted(line)
    ensures NetTotal(line.(extension := extension)) == NetTotal(line)
  {
    NetMeaning(line);
    NetMeaning(line.(extension := extension));
  }

  // ----- what validation guarantees of the net

  /** On every discounted line of a clean request the discounts lie between nothing and the gross, at the precision or
      within the legacy tolerance; so the net lies between (nearly) nothing and the gross. */
  lemma NetWithinGross(r: Request, i: nat)
    requires ValidationFindings(r) == [] && i < |r.invoice.lines| && Discounted(r.invoice.lines[i])
    ensures var line := r.invoice.lines[i];
      && line.quantity.Some? && line.unitPrice.Some? && line.quantity.value > 0.0 && line.unitPrice.value >= 0.0
      && (forall j :: 0 <= j < |line.discounts| ==> line.discounts[j].amount.Some?)
      && NetTotal(line) <= line.quantity.value * line.unitPrice.value
      && (r.precision.Some? ==> NetTotal(line) >= -Quantum(r.precision.value))
      && (r.precision.None? ==> NetTotal(line) >= -0.01)
  {
    var line := r.invoice.lines[i];
    AcceptableExactly(r);
    assert LineOk(r, line);
    hide ValidationFindings, Acceptable, LineNeedMet, HasTax, NetTotal, CurrencyRound, Quantum;
    DiscountedMeaning(line);
    FilteredSum(line.discounts);
    NetMeaning(line);
    AmountsStated(line);
    var discount, gross := TotalDiscount(line), GrossTotal(line);
    assert NetTotal(line) == gross - discount;
    if r.precision.Some? {
      RoundClose(discount, r.precision.value);
      RoundClose(gross, r.precision.value);
    }
  }

  lemma AmountsStated(line: Line)
    requires forall j :: 0 <= j < |EconomicDiscounts(line)| ==> EconomicDiscounts(line)[j].amount.Some?
    ensures forall j :: 0 <= j < |line.discounts| ==> line.discounts[j].amount.Some?
  {
    forall j | 0 <= j < |line.discounts|
      ensures line.discounts[j].amount.Some?
    {
      if Economic(line.discounts[j]) {
        assert line.discounts[j] in EconomicDiscounts(line);
      }
    }
  }

  // ----- the posted price

  /** Rounded half away from zero to six decimals. */
  ghost predicate SixDecimals(price: real, exact: real) {
    exists k: int :: Micros(price, exact, k)
  }

  predicate Micros(price: real, exact: real, k: int) {
    price == k as real * 0.000001 && NearestTiesAway(exact * 1000000.0, k)
  }

  lemma SixPlaces()
    ensures Scale(PRICE_PLACES) == 1000000.0 && Quantum(PRICE_PLACES) == 0.000001
  {
    assert Pow10(1) == 10 && Pow10(2) == 100 && Pow10(3) == 1000 && Pow10(4) == 10000 && Pow10(5) == 100000;
    assert Pow10(6) == 1000000;
  }

  lemma DerivedMeaning(net: real, quantity: real)
    requires quantity != 0.0
    ensures SixDecimals(DerivedPrice(net, quantity), net / quantity)
  {
    SixPlaces();
    var exact := net / quantity;
    var k := HalfUp(exact * 1000000.0);
    HalfUpMeaning(exact * 1000000.0, k);
    assert Micros(DerivedPrice(net, quantity), exact, k);
  }

  /** The posted price: the source price when quantity times it is the net, or, on an undiscounted line, the same money
      at the currency's precision; otherwise the net per unit, rounded to six decimals. */
  lemma PostedPriceMeaning(line: Line, precision: Option<Precision>)
    requires line.quantity.Some? && line.unitPrice.Some? && line.quantity.value != 0.0
    ensures var net, gross := NetTotal(line), line.quantity.value * line.unitPrice.value;
      if net == gross || (!Discounted(line) && precision.Some?
                          && Quanta(net, precision.value) == Quanta(gross, precision.value))
      then NetUnitPrice(line, precision) == line.unitPrice.value
      else SixDecimals(NetUnitPrice(line, precision), net / line.quantity.value)
  {
    DiscountedMeaning(line);
    DerivedMeaning(NetTotal(line), line.quantity.value);
    if precision.Some? {
      MonetaryEqualMeaning(GrossTotal(line), NetTotal(line), precision.value);
    }
    hide NetTotal, DerivedPrice, SixDecimals, Quanta, MonetaryEqual;
  }

  lemma SixDecimalsClose(price: real, exact: real)
    requires SixDecimals(price, exact)
    ensures -0.0000005 <= price - exact <= 0.0000005
  {
  }

  lemma PerUnit(net: real, price: real, q: real)
    requires q > 0.0 && net <= q * price
    ensures net / q <= price
  {
    var x := net / q;
    assert x * q == net;
    if x > price {
      MulLt(price, x, q);
      assert false;
    }
  }

  lemma BuiltPrice(r: Request, i: nat)
    requires Build(r).Built? && i < |r.invoice.lines|
    ensures var line := r.invoice.lines[i];
      && i < |Build(r).value.lines| && Priced(line) && line.quantity.value > 0.0
      && Build(r).value.lines[i].quantity == line.quantity.value
      && Build(r).value.lines[i].unitPrice == NetUnitPrice(line, r.precision)
  {
    hide ValidationFindings, BuildLines, BadProduct, PostedAs, EvidencedTax, NetUnitPrice;
    ValidationMakesBuildingTotal(r);
    assert Faithful(r, r.invoice.lines[i], Build(r).value.lines[i]);
  }

  /** A built bill never posts more than the source price on a discounted line, up to the rounding of the price. */
  lemma DiscountNeverRaisesPrice(r: Request, i: nat)
    requires Build(r).Built? && i < |r.invoice.lines| && Discounted(r.invoice.lines[i])
    ensures i < |Build(r).value.lines| && r.invoice.lines[i].unitPrice.Some?
    ensures Build(r).value.lines[i].unitPrice <= r.invoice.lines[i].unitPrice.value + 0.0000005
  {
    BuiltPrice(r, i);
    NetAtMostGross(r, i);
    hide *;
    PostedAtMost(r.invoice.lines[i], r.precision);
  }

  lemma NetAtMostGross(r: Request, i: nat)
    requires ValidationFindings(r) == [] && i < |r.invoice.lines| && Discounted(r.invoice.lines[i])
    ensures Priced(r.invoice.lines[i]) && r.invoice.lines[i].quantity.value > 0.0
    ensures NetTotal(r.invoice.lines[i]) <= GrossTotal(r.invoice.lines[i])
  {
    NetWithinGross(r, i);
    hide ValidationFindings, NetTotal, Discounted;
  }

  function NetPerUnit(line: Line): real
    requires Priced(line) && line.quantity.value != 0.0
  {
    NetTotal(line) / line.quantity.value
  }

  lemma KeptOrDerived(line: Line, precision: Option<Precision>)
    requires Priced(line) && line.quantity.value != 0.0
    ensures var posted := NetUnitPrice(line, precision);
      posted == line.unitPrice.value || SixDecimals(posted, NetPerUnit(line))
  {
    hide SixDecimals, NetTotal, NetUnitPrice, Discounted, Quanta;
    PostedPriceMeaning(line, precision);
  }

  lemma PerUnitAtMost(line: Line)
    requires Priced(line) && line.quantity.value > 0.0 && NetTotal(line) <= GrossTotal(line)
    ensures NetPerUnit(line) <= line.unitPrice.value
  {
    hide NetTotal;
    PerUnit(NetTotal(line), line.unitPrice.value, line.quantity.value);
  }

  lemma PostedAtMost(line: Line, precision: Option<Precision>)
    requires Priced(line) && line.quantity.value > 0.0 && NetTotal(line) <= GrossTotal(line)
    ensures NetUnitPrice(line, precision) <= line.unitPrice.value + 0.0000005
  {
    hide NetTotal, NetUnitPrice, SixDecimals, NetPerUnit, GrossTotal;
    KeptOrDerived(line, precision);
    PerUnitAtMost(line);
    if NetUnitPrice(line, precision) != line.unitPrice.value {
      SixDecimalsClose(NetUnitPrice(line, precision), NetPerUnit(line));
    }
  }
}
