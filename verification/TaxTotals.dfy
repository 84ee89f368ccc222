/** What the monetary gate compares, over the invoice's own amounts and rates (`vendor_bill_money`,
    `source_totals` in `app/billing/builder.py`). */
module TaxTotals {
  import opened Core
  import opened Money
  import opened Invoice
  import opened LineEconomics
  import opened VendorBill
  import opened MonetaryGate

  /** The sum of a line's stated tax percentages. */
  function Percent(taxes: seq<Tax>): real {
    if taxes == [] then 0.0
    else Percent(taxes[..|taxes| - 1]) + (if taxes[|taxes| - 1].rate.Some? then taxes[|taxes| - 1].rate.value else 0.0)
  }

  /** The sum of a line's stated tax amounts. */
  function Charged(taxes: seq<Tax>): real {
    if taxes == [] then 0.0
    else
      Charged(taxes[..|taxes| - 1]) + (if taxes[|taxes| - 1].amount.Some? then taxes[|taxes| - 1].amount.value else 0.0)
  }

  function DueOf(line: Line): real
    requires Netted(line)
  {
    NetTotal(line) * Percent(line.taxes)
  }

  /** A hundred times the tax that the rates make of the nets. */
  function DuePercent(lines: seq<Line>): real
    requires forall i :: 0 <= i < |lines| ==> Netted(lines[i])
  {
    if lines == [] then 0.0
    else
      var n := |lines| - 1;
      DuePercent(lines[..n]) + DueOf(lines[n])
  }

  function AllCharged(lines: seq<Line>): real {
    if lines == [] then 0.0 else AllCharged(lines[..|lines| - 1]) + Charged(lines[|lines| - 1].taxes)
  }

  ghost predicate SomeAmountMissing(lines: seq<Line>) {
    exists i, t :: 0 <= i < |lines| && t in lines[i].taxes && t.amount.None?
  }

  // ----- the tax of the bill

  lemma {:induction false} RatesAddUp(net: real, taxes: seq<Tax>)
    ensures 100.0 * Sum(Map((t: Tax) => if t.rate.Some? then net * (t.rate.value / 100.0) else 0.0, taxes))
         == net * Percent(taxes)
  {
    var due := (t: Tax) => if t.rate.Some? then net * (t.rate.value / 100.0) else 0.0;
    if taxes == [] {
      assert Map(due, taxes) == [];
      assert net * 0.0 == 0.0;
    } else {
      var n := |taxes| - 1;
      var last := taxes[n];
      RatesAddUp(net, taxes[..n]);
      assert Map(due, taxes) == Map(due, taxes[..n]) + [due(last)];
      SumAppend(Map(due, taxes[..n]), due(last));
      var rate := if last.rate.Some? then last.rate.value else 0.0;
      Hundredth(net, rate);
      assert net * (Percent(taxes[..n]) + rate) == net * Percent(taxes[..n]) + net * rate;
    }
  }

  lemma Hundredth(net: real, rate: real)
    ensures 100.0 * (net * (rate / 100.0)) == net * rate
  {
  }

  lemma LineTaxMeaning(line: Line)
    requires Netted(line)
    ensures 100.0 * LineTax(line) == DueOf(line)
  {
    hide NetTotal;
    RatesAddUp(NetTotal(line), line.taxes);
    var net := NetTotal(line);
    assert Map((t: Tax) => if t.rate.Some? then NetTotal(line) * (t.rate.value / 100.0) else 0.0, line.taxes)
        == Map((t: Tax) => if t.rate.Some? then net * (t.rate.value / 100.0) else 0.0, line.taxes);
  }

  lemma {:induction false} TaxesMeaning(lines: seq<Line>)
    requires forall i :: 0 <= i < |lines| ==> Netted(lines[i])
    ensures 100.0 * Sum(Map(LineTax, lines)) == DuePercent(lines)
  {
    if lines == [] {
      assert Map(LineTax, lines) == [];
    } else {
      var n := |lines| - 1;
      hide LineTax, NetTotal, DueOf;
      TaxesMeaning(lines[..n]);
      LineTaxMeaning(lines[n]);
      assert Map(LineTax, lines) == Map(LineTax, lines[..n]) + [LineTax(lines[n])];
      SumAppend(Map(LineTax, lines[..n]), LineTax(lines[n]));
    }
  }

  // ----- the source totals

  lemma {:induction false} TaxesOfMeaning(lines: seq<Line>)
    ensures forall t :: t in TaxesOf(lines) <==> exists i :: 0 <= i < |lines| && t in lines[i].taxes
  {
    if lines != [] {
      var n := |lines| - 1;
      TaxesOfMeaning(lines[..n]);
      assert forall i :: 0 <= i < n ==> lines[..n][i] == lines[i];
      assert TaxesOf(lines) == TaxesOf(lines[..n]) + lines[n].taxes;
    }
  }

  function AmountOf(t: Tax): real {
    if t.amount.Some? then t.amount.value else 0.0
  }

  lemma {:induction false} ChargedSum(taxes: seq<Tax>)
    ensures Sum(Map(AmountOf, taxes)) == Charged(taxes)
  {
    if taxes == [] {
      assert Map(AmountOf, taxes) == [];
    } else {
      var n := |taxes| - 1;
      ChargedSum(taxes[..n]);
      assert Map(AmountOf, taxes) == Map(AmountOf, taxes[..n]) + [AmountOf(taxes[n])];
      SumAppend(Map(AmountOf, taxes[..n]), AmountOf(taxes[n]));
    }
  }

  lemma {:induction false} ChargedConcat(xs: seq<Tax>, ys: seq<Tax>)
    ensures Charged(xs + ys) == Charged(xs) + Charged(ys)
  {
    if ys == [] {
      assert xs + ys == xs;
    } else {
      var n := |ys| - 1;
      assert (xs + ys)[..|xs + ys| - 1] == xs + ys[..n];
      ChargedConcat(xs, ys[..n]);
    }
  }

  lemma {:induction false} AllChargedMeaning(lines: seq<Line>)
    ensures Charged(TaxesOf(lines)) == AllCharged(lines)
  {
    if lines != [] {
      var n := |lines| - 1;
      AllChargedMeaning(lines[..n]);
      ChargedConcat(TaxesOf(lines[..n]), lines[n].taxes);
    }
  }

  /** The totals the gate compares with: the stated ones, and the sum of the tax amounts, absent exactly when some tax
      states none. */
  lemma SourceTotalsMeaning(invoice: Invoice)
    ensures SourceTotals(invoice).untaxed == invoice.taxExclusive && SourceTotals(invoice).total == invoice.taxInclusive
    ensures SourceTotals(invoice).tax
         == if SomeAmountMissing(invoice.lines) then None else Some(AllCharged(invoice.lines))
  {
    var taxes := TaxesOf(invoice.lines);
    TaxesOfMeaning(invoice.lines);
    ChargedSum(taxes);
    AllChargedMeaning(invoice.lines);
    assert Map((t: Tax) => if t.amount.Some? then t.amount.value else 0.0, taxes) == Map(AmountOf, taxes);
    hide Charged, AllCharged, TaxesOf;
  }

  // ----- what a silent gate says of the taxes

  lemma GateTax(invoice: Invoice, lines: seq<BillLine>, p: Precision)
    requires AllNetted(invoice)
    ensures MoneyOf(invoice, lines, p).tax == CurrencyRound(DuePercent(invoice.lines) / 100.0, p)
  {
    TaxesMeaning(invoice.lines);
    hide LineTax, CurrencyRound;
    assert Sum(Map(LineTax, invoice.lines)) == DuePercent(invoice.lines) / 100.0;
  }

  /** When the gate is silent and every tax states its amount, the amounts add up to what the rates make of the nets,
      within one quantum. */
  lemma SilentGateBoundsTax(invoice: Invoice, lines: seq<BillLine>, p: Precision)
    requires AllNetted(invoice) && GateFindings(invoice, lines, p) == [] && !SomeAmountMissing(invoice.lines)
    ensures -Quantum(p) <= AllCharged(invoice.lines) - DuePercent(invoice.lines) / 100.0 <= Quantum(p)
  {
    hide GateFindings, SourceTotals, MoneyOf, CurrencyRound, OnGrid, Quantum, DuePercent, AllCharged, LineAgrees,
      SomeAmountMissing, Netted;
    GateMeaning(invoice, lines, p);
    SourceTotalsMeaning(invoice);
    GateTax(invoice, lines, p);
    MoneyOnGrid(invoice, lines, p);
    var tax := MoneyOf(invoice, lines, p).tax;
    var charged, due := AllCharged(invoice.lines), DuePercent(invoice.lines) / 100.0;
    GridFixed(tax, p);
    assert tax == CurrencyRound(charged, p);
    RoundClose(charged, p);
    RoundClose(due, p);
  }

  // ----- a consistent source passes

  function Nets(lines: seq<Line>): real
    requires forall i :: 0 <= i < |lines| ==> Netted(lines[i])
  {
    if lines == [] then 0.0 else Nets(lines[..|lines| - 1]) + NetTotal(lines[|lines| - 1])
  }

  /** Every tax of the line states a rate and exactly the amount that rate makes of the net. */
  predicate TaxesConsistent(line: Line)
    requires Netted(line)
  {
    forall t :: t in line.taxes ==>
      t.rate.Some? && t.amount.Some? && 100.0 * t.amount.value == NetTotal(line) * t.rate.value
  }

  lemma {:induction false} ConsistentCharged(net: real, taxes: seq<Tax>)
    requires forall t :: t in taxes ==> t.rate.Some? && t.amount.Some? && 100.0 * t.amount.value == net * t.rate.value
    ensures 100.0 * Charged(taxes) == net * Percent(taxes)
  {
    if taxes == [] {
      assert net * 0.0 == 0.0;
    } else {
      var n := |taxes| - 1;
      ConsistentCharged(net, taxes[..n]);
      assert taxes[n] in taxes;
      var before, rate := Percent(taxes[..n]), taxes[n].rate.value;
      assert net * (before + rate) == net * before + net * rate;
    }
  }

  lemma {:induction false} ConsistentTotals(lines: seq<Line>)
    requires forall i :: 0 <= i < |lines| ==> Netted(lines[i]) && TaxesConsistent(lines[i])
    ensures 100.0 * AllCharged(lines) == DuePercent(lines)
  {
    if lines != [] {
      var n := |lines| - 1;
      ConsistentCharged(NetTotal(lines[n]), lines[n].taxes);
      hide NetTotal, Charged, Percent;
      ConsistentTotals(lines[..n]);
      assert 100.0 * Charged(lines[n].taxes) == DueOf(lines[n]);
      hide DueOf;
    }
  }

  predicate Half(x: real) {
    x - x.Floor as real == 0.5
  }

  /** Half away from zero commutes with adding an integer, except for a half moved across zero. */
  lemma HalfUpShift(k: int, x: real)
    ensures HalfUp(k as real + x) == k + HalfUp(x) <==> !(Half(x) && (x > 0.0) != (k as real + x > 0.0))
  {
    HalfUpByFloor(x);
    HalfUpByFloor(k as real + x);
    FloorShift(k, x);
    hide HalfUp;
  }

  lemma FloorShift(k: int, x: real)
    ensures (k as real + x).Floor == k + x.Floor
  {
  }

  lemma HalfUpByFloor(x: real)
    ensures var d := x - x.Floor as real;
      HalfUp(x) == x.Floor + if d > 0.5 || (d == 0.5 && x > 0.0) then 1 else 0
  {
  }

  /** The tax lies midway between two amounts of the currency, and adding the untaxed amount moves it across zero. */
  predicate TieAcrossZero(untaxed: real, tax: real, p: Precision) {
    Half(tax * Scale(p)) && (tax > 0.0) != (untaxed + tax > 0.0)
  }

  lemma ScaledShift(amount: real, k: real, x: real, s: real, q: real)
    requires amount == k * q && q * s == 1.0 && s > 0.0
    ensures (amount + x) * s == k + x * s
    ensures (x * s > 0.0 <==> x > 0.0) && (k + x * s > 0.0 <==> amount + x > 0.0)
  {
    var scaled, sum := x * s, amount + x;
    assert amount * s == k by { assert (k * q) * s == k * (q * s); }
    assert sum * s == amount * s + scaled;
    Positive(x, s);
    Positive(sum, s);
  }

  lemma Positive(x: real, s: real)
    requires s > 0.0
    ensures x * s > 0.0 <==> x > 0.0
  {
  }

  function RoundAt(x: real, s: real, q: real): real {
    HalfUp(x * s) as real * q
  }

  lemma RoundedAt(x: real, p: Precision)
    ensures CurrencyRound(x, p) == RoundAt(x, Scale(p), Quantum(p))
  {
  }

  lemma RoundAtShift(amount: real, k: int, x: real, s: real, q: real)
    requires amount == k as real * q && q * s == 1.0 && s > 0.0 && q > 0.0
    ensures RoundAt(amount + x, s, q) == amount + RoundAt(x, s, q) <==>
      !(Half(x * s) && (x > 0.0) != (amount + x > 0.0))
  {
    ScaledShift(amount, k as real, x, s, q);
    HalfUpShift(k, x * s);
    var h, g := HalfUp(x * s), HalfUp((amount + x) * s);
    AddedQuanta(k as real, h as real, q);
    SameQuanta(g as real, (k + h) as real, q);
    hide HalfUp, Half;
  }

  lemma SameQuanta(a: real, b: real, q: real)
    requires q > 0.0
    ensures a * q == b * q <==> a == b
  {
    assert (a - b) * q == a * q - b * q;
  }

  lemma AddedQuanta(a: real, b: real, q: real)
    ensures (a + b) * q == a * q + b * q
  {
  }

  lemma AmountFacts(k: int, p: Precision)
    ensures Amount(k, p) == k as real * Quantum(p) && Quantum(p) * Scale(p) == 1.0 && Quantum(p) > 0.0 && Scale(p) > 0.0
  {
  }

  lemma RoundShift(k: int, x: real, p: Precision)
    ensures CurrencyRound(Amount(k, p) + x, p) == Amount(k, p) + CurrencyRound(x, p) <==>
      !TieAcrossZero(Amount(k, p), x, p)
  {
    TieMeaning(Amount(k, p), x, p);
    hide *;
    RoundedAt(Amount(k, p) + x, p);
    RoundedAt(x, p);
    AmountFacts(k, p);
    RoundAtShift(Amount(k, p), k, x, Scale(p), Quantum(p));
  }

  lemma TieMeaning(untaxed: real, tax: real, p: Precision)
    ensures TieAcrossZero(untaxed, tax, p) <==> Half(tax * Scale(p)) && (tax > 0.0) != (untaxed + tax > 0.0)
  {
  }

  /** The rounded sum is the sum with the tax rounded, unless the tax is a tie moved across zero. */
  lemma TotalRounds(untaxed: real, tax: real, p: Precision)
    requires OnGrid(untaxed, p)
    ensures MonetaryEqual(untaxed + CurrencyRound(tax, p), untaxed + tax, p) <==> !TieAcrossZero(untaxed, tax, p)
  {
    var k: int :| untaxed == Amount(k, p);
    RoundShift(k, tax, p);
    hide CurrencyRound, Amount, OnGrid, TieAcrossZero;
    RoundIdempotent(tax, p);
    GridAdd(untaxed, CurrencyRound(tax, p), p) by { GridAmount(k, p); }
    GridFixed(untaxed + CurrencyRound(tax, p), p);
  }

  lemma GridAmount(k: int, p: Precision)
    ensures OnGrid(Amount(k, p), p)
  {
  }

  lemma {:induction false} SubtotalsAreNets(source: seq<Line>, lines: seq<BillLine>, p: Precision)
    requires |lines| == |source| && forall i :: 0 <= i < |source| ==> Netted(source[i])
    requires forall i :: 0 <= i < |source| ==> SubtotalOf(lines[i], p) == NetTotal(source[i])
    ensures Sum(Subtotals(lines, p)) == Nets(source)
  {
    hide NetTotal, LineSubtotal;
    if source == [] {
      assert Subtotals(lines, p) == [];
    } else {
      var n := |source| - 1;
      SubtotalsAreNets(source[..n], lines[..n], p);
      assert Subtotals(lines, p) == Subtotals(lines[..n], p) + [SubtotalOf(lines[n], p)];
      SumAppend(Subtotals(lines[..n], p), SubtotalOf(lines[n], p));
    }
  }

  /** What a consistent source states of itself. */
  ghost predicate Consistent(invoice: Invoice) {
    && AllNetted(invoice)
    && (forall i :: 0 <= i < |invoice.lines| ==> TaxesConsistent(invoice.lines[i]))
    && invoice.taxExclusive == Some(Nets(invoice.lines))
    && invoice.taxInclusive == Some(Nets(invoice.lines) + AllCharged(invoice.lines))
  }

  /** The bill posts exactly the source's nets, line by line. */
  predicate BillsNets(invoice: Invoice, lines: seq<BillLine>, p: Precision)
    requires AllNetted(invoice)
  {
    && |lines| == |invoice.lines|
    && forall i :: 0 <= i < |lines| ==>
         LineSubtotal(lines[i].quantity, lines[i].unitPrice, p) == NetTotal(invoice.lines[i])
  }

  /** A source whose taxes are their rates' share of the nets and whose totals are the sums of its own amounts passes
      the gate, with every bill of its nets, exactly when its tax is not a tie that the untaxed amount moves across
      zero. */
  lemma ConsistentSourcePasses(invoice: Invoice, lines: seq<BillLine>, p: Precision)
    requires Consistent(invoice) && BillsNets(invoice, lines, p)
    ensures GateFindings(invoice, lines, p) == [] <==> !TieAcrossZero(Nets(invoice.lines), AllCharged(invoice.lines), p)
  {
    LinesAgree(invoice, lines, p);
    hide NetTotal, OnGrid, LineAgrees, AllCharged, Nets, TaxesConsistent, MoneyOf, SourceTotals, GateFindings,
      LineSubtotal, MonetaryEqual, TieAcrossZero;
    TotalsAgree(invoice, lines, p);
    GateMeaning(invoice, lines, p);
  }

  /** In particular every consistent source of one sign passes. */
  lemma OneSignPasses(invoice: Invoice, lines: seq<BillLine>, p: Precision)
    requires Consistent(invoice) && BillsNets(invoice, lines, p)
    requires Nets(invoice.lines) >= 0.0 && AllCharged(invoice.lines) >= 0.0
    ensures GateFindings(invoice, lines, p) == []
  {
    ConsistentSourcePasses(invoice, lines, p);
    NoTieOnOneSide(Nets(invoice.lines), AllCharged(invoice.lines), p);
    hide GateFindings, Nets, AllCharged, TieAcrossZero, Consistent, BillsNets;
  }

  lemma NoTieOnOneSide(untaxed: real, tax: real, p: Precision)
    requires untaxed >= 0.0 && tax >= 0.0
    ensures !TieAcrossZero(untaxed, tax, p)
  {
    hide Scale;
    assert tax == 0.0 ==> tax * Scale(p) == 0.0;
  }

  /** A consistent source of untaxed -1 and tax 0.5 in a currency without decimals states -0.5, which is -1; the bill
      adds up to 0. */
  lemma TieAcrossZeroExists()
    ensures TieAcrossZero(-1.0, 0.5, 0)
    ensures CurrencyRound(-1.0 + 0.5, 0) == -1.0 && -1.0 + CurrencyRound(0.5, 0) == 0.0
  {
    assert Pow10(0) == 1 && Scale(0) == 1.0 && Quantum(0) == 1.0;
    assert 0.5 * Scale(0) == 0.5 && (0.5).Floor == 0;
    assert HalfUp(0.5) == 1 && HalfUp(-0.5) == -1;
    assert Quanta(0.5, 0) == 1 && Quanta(-1.0 + 0.5, 0) == -1;
  }

  /** One piece sold at 1 with half of it as tax, two returned at 1 without tax, in a currency without decimals. */
  function MixedLine(net: real, taxes: seq<Tax>): Line {
    Line(None, None, false, Some(1.0), Some(net), None, [], taxes)
  }

  function MixedSource(): Invoice {
    Invoice("1", None, None, false, false, Some(-1.0), Some(-0.5),
            [MixedLine(1.0, [Tax(Some(50.0), Some(0.5))]), MixedLine(-2.0, [])])
  }

  function MixedBill(net: real): BillLine {
    BillLine(None, None, 1.0, net, [], None, None, None, None)
  }

  lemma TwoLines(a: Line, b: Line)
    requires Netted(a) && Netted(b)
    ensures Nets([a, b]) == NetTotal(a) + NetTotal(b)
    ensures AllCharged([a, b]) == Charged(a.taxes) + Charged(b.taxes)
  {
    hide NetTotal, Charged, EconomicDiscounts;
    assert [a, b][..1] == [a] && [a][..0] == [];
    assert Nets([a]) == NetTotal(a) && AllCharged([a]) == Charged(a.taxes);
  }

  lemma OneTax(t: Tax)
    requires t.amount.Some?
    ensures Charged([t]) == t.amount.value && Charged([]) == 0.0
  {
    assert [t][..0] == [];
  }

  lemma MixedNetted()
    ensures AllNetted(MixedSource())
  {
  }

  lemma MixedTotals()
    ensures AllNetted(MixedSource())
    ensures Nets(MixedSource().lines) == -1.0 && AllCharged(MixedSource().lines) == 0.5
  {
    hide *;
    MixedNetted();
    var tax := Tax(Some(50.0), Some(0.5));
    OneTax(tax);
    MixedNet(1.0, 1, [tax]);
    MixedNet(-2.0, -2, []);
    MixedLines();
    TwoLines(MixedLine(1.0, [tax]), MixedLine(-2.0, []));
  }

  lemma MixedLines()
    ensures MixedSource().lines == [MixedLine(1.0, [Tax(Some(50.0), Some(0.5))]), MixedLine(-2.0, [])]
    ensures MixedLine(1.0, [Tax(Some(50.0), Some(0.5))]).taxes == [Tax(Some(50.0), Some(0.5))]
    ensures MixedLine(-2.0, []).taxes == []
    ensures forall net: real :: MixedBill(net).quantity == 1.0 && MixedBill(net).unitPrice == net
  {
  }

  lemma MixedTaxes(net: real, quanta: int, tax: Tax)
    requires net == quanta as real
    ensures Netted(MixedLine(net, [])) && TaxesConsistent(MixedLine(net, []))
    ensures tax.rate.Some? && tax.amount.Some? && 100.0 * tax.amount.value == net * tax.rate.value ==>
      Netted(MixedLine(net, [tax])) && TaxesConsistent(MixedLine(net, [tax]))
  {
    MixedNet(net, quanta, [tax]);
    hide NetTotal, LineSubtotal;
  }

  lemma BillsTwo(invoice: Invoice, a: BillLine, b: BillLine)
    requires AllNetted(invoice) && |invoice.lines| == 2
    ensures BillsNets(invoice, [a, b], 0) <==>
      && LineSubtotal(a.quantity, a.unitPrice, 0) == NetTotal(invoice.lines[0])
      && LineSubtotal(b.quantity, b.unitPrice, 0) == NetTotal(invoice.lines[1])
  {
    hide NetTotal, LineSubtotal;
  }

  lemma MixedBills()
    requires AllNetted(MixedSource())
    ensures BillsNets(MixedSource(), [MixedBill(1.0), MixedBill(-2.0)], 0)
  {
    hide *;
    MixedNet(1.0, 1, [Tax(Some(50.0), Some(0.5))]);
    MixedNet(-2.0, -2, []);
    MixedLines();
    BillsTwo(MixedSource(), MixedBill(1.0), MixedBill(-2.0));
  }

  lemma MixedConsistent()
    ensures Consistent(MixedSource()) && BillsNets(MixedSource(), [MixedBill(1.0), MixedBill(-2.0)], 0)
  {
    MixedTotals();
    MixedBills();
    var tax := Tax(Some(50.0), Some(0.5));
    MixedTaxes(1.0, 1, tax);
    MixedTaxes(-2.0, -2, tax);
    hide Nets, AllCharged, Netted, TaxesConsistent, BillsNets, AllNetted, MixedBill;
    assert MixedSource().lines == [MixedLine(1.0, [tax]), MixedLine(-2.0, [])];
  }

  /** A consistent source whose bill of exactly its nets the gate stops. */
  lemma ConsistentSourceStopped()
    ensures Consistent(MixedSource()) && BillsNets(MixedSource(), [MixedBill(1.0), MixedBill(-2.0)], 0)
    ensures GateFindings(MixedSource(), [MixedBill(1.0), MixedBill(-2.0)], 0) != []
  {
    MixedConsistent();
    MixedTotals();
    TieAcrossZeroExists();
    hide TieAcrossZero, CurrencyRound, Consistent, BillsNets, GateFindings, Nets, AllCharged, MixedSource, MixedBill;
    ConsistentSourcePasses(MixedSource(), [MixedBill(1.0), MixedBill(-2.0)], 0);
  }

  lemma MixedNet(net: real, quanta: int, taxes: seq<Tax>)
    requires net == quanta as real
    ensures var line := MixedLine(net, taxes);
      Netted(line) && NetTotal(line) == net && LineSubtotal(1.0, net, 0) == net
  {
    var line := MixedLine(net, taxes);
    assert EconomicDiscounts(line) == [];
    assert TotalDiscount(line) == 0.0 by { assert Map(StatedAmount, EconomicDiscounts(line)) == []; }
    assert Pow10(0) == 1 && Quantum(0) == 1.0;
    assert Amount(quanta, 0) == net;
    RoundGrid(quanta, 0);
    hide CurrencyRound;
    assert Extended(1.0, net) == net;
  }

  lemma TotalsAgree(invoice: Invoice, lines: seq<BillLine>, p: Precision)
    requires Consistent(invoice) && BillsNets(invoice, lines, p)
    ensures var money, source := MoneyOf(invoice, lines, p), SourceTotals(invoice);
      && StatedEqual(money.untaxed, source.untaxed, p) && StatedEqual(money.tax, source.tax, p)
      && (StatedEqual(money.total, source.total, p) <==>
          !TieAcrossZero(Nets(invoice.lines), AllCharged(invoice.lines), p))
  {
    hide NetTotal, OnGrid, AllCharged, Nets, TaxesConsistent, MoneyOf, SourceTotals, LineSubtotal, MonetaryEqual,
      SomeAmountMissing, CurrencyRound, TieAcrossZero, BillsNets, Netted;
    NoneMissing(invoice);
    SourceTotalsMeaning(invoice);
    ConsistentMoney(invoice, lines, p);
    var n, t := Nets(invoice.lines), AllCharged(invoice.lines);
    TotalRounds(n, t, p);
    RoundedEqual(t, p);
    RoundedEqual(n, p);
  }

  lemma RoundedEqual(x: real, p: Precision)
    ensures MonetaryEqual(CurrencyRound(x, p), x, p)
    ensures MonetaryEqual(x, x, p)
  {
    hide CurrencyRound;
    RoundIdempotent(x, p);
  }

  /** The bill's money under a consistent source. */
  lemma ConsistentMoney(invoice: Invoice, lines: seq<BillLine>, p: Precision)
    requires Consistent(invoice) && BillsNets(invoice, lines, p)
    ensures var m := MoneyOf(invoice, lines, p);
      && m.untaxed == Nets(invoice.lines) && OnGrid(m.untaxed, p)
      && m.tax == CurrencyRound(AllCharged(invoice.lines), p) && m.total == m.untaxed + m.tax
  {
    hide NetTotal, OnGrid, AllCharged, Nets, TaxesConsistent, MoneyOf, LineSubtotal, CurrencyRound;
    ConsistentTotals(invoice.lines);
    GateTax(invoice, lines, p);
    SubtotalsAreNets(invoice.lines, lines, p);
    MoneyOnGrid(invoice, lines, p);
    UntaxedIsSum(invoice, lines, p);
  }

  lemma NoneMissing(invoice: Invoice)
    requires AllNetted(invoice) && forall i :: 0 <= i < |invoice.lines| ==> TaxesConsistent(invoice.lines[i])
    ensures !SomeAmountMissing(invoice.lines)
  {
    hide NetTotal;
  }

  lemma LinesAgree(invoice: Invoice, lines: seq<BillLine>, p: Precision)
    requires AllNetted(invoice) && BillsNets(invoice, lines, p)
    ensures forall i :: 0 <= i < |lines| ==> LineAgrees(invoice.lines[i], lines[i], p)
  {
    hide CurrencyRound, NetTotal, Extended;
    forall i | 0 <= i < |lines|
      ensures LineAgrees(invoice.lines[i], lines[i], p)
    {
      RoundIdempotent(Extended(lines[i].quantity, lines[i].unitPrice), p);
    }
  }

  lemma UntaxedIsSum(invoice: Invoice, lines: seq<BillLine>, p: Precision)
    ensures var m := MoneyOf(invoice, lines, p);
      m.untaxed == Sum(Subtotals(lines, p)) && m.total == m.untaxed + m.tax
  {
  }
}
