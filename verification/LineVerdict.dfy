/** What the product matcher answers for one line, read off the repository's answers alone: no plans, no chains, no
    outcome lists (`_match_line` in `app/matching/product.py`). */
module LineVerdict {
  import opened Core
  import opened MatchTypes
  import opened ProductMatching

  // ----- one answer

  predicate NoneActive(rows: seq<Product>) {
    forall k :: 0 <= k < |rows| ==> !rows[k].active
  }

  /** Exactly one record is active. */
  ghost predicate OnlyActive(rows: seq<Product>, id: int) {
    exists k :: 0 <= k < |rows| && rows[k].active && rows[k].id == id
      && forall j :: 0 <= j < |rows| && j != k ==> !rows[j].active
  }

  ghost predicate SeveralActive(rows: seq<Product>) {
    exists j, k :: 0 <= j < k < |rows| && rows[j].active && rows[k].active
  }

  // ----- which answers take part

  /** What one line is matched with. */
  datatype Query = Query(line: ProductLine, supplier: Option<int>, company: Option<int>, repository: Repository)

  /** The supplier-scoped repository is asked at all. */
  predicate SupplierAsked(q: Query) {
    && q.repository.supplierProducts.Some? && Clean(q.line.sellerCode).Some? && q.supplier.Some?
    && q.company.Some? && q.company.value > 0
  }

  function SupplierRows(q: Query): Option<seq<SupplierCode>>
    requires SupplierAsked(q)
  {
    q.repository.supplierProducts.value.codes(q.supplier.value, Clean(q.line.sellerCode).value, q.company.value)
  }

  /** The buyer code decides before the barcode is looked at. */
  predicate BuyerCodeSilent(q: Query) {
    Clean(q.line.buyerCode).Some? ==>
      var answer := q.repository.byDefaultCode(Clean(q.line.buyerCode).value);
      answer.Some? && NoneActive(answer.value)
  }

  predicate BarcodeSilent(q: Query) {
    Clean(q.line.barcode).Some? ==>
      var answer := q.repository.byBarcode(Clean(q.line.barcode).value);
      answer.Some? && NoneActive(answer.value)
  }

  /** The identity takes part in the verdict, and this is its answer. The barcode takes part only when the buyer code is
      absent or finds nothing; manufacturer code and profile SKU always do; supplierinfo does with exactly one row. */
  predicate TakesPart(q: Query, via: MatchedBy, rows: seq<Product>) {
    match via
    case BuyerCode =>
      Clean(q.line.buyerCode).Some? && q.repository.byDefaultCode(Clean(q.line.buyerCode).value) == Some(rows)
    case BarcodeIdentity =>
      && BuyerCodeSilent(q)
      && Clean(q.line.barcode).Some? && q.repository.byBarcode(Clean(q.line.barcode).value) == Some(rows)
    case ManufacturerCode =>
      && Clean(q.line.manufacturerCode).Some?
      && q.repository.byDefaultCode(Clean(q.line.manufacturerCode).value) == Some(rows)
    case ProfileSku => q.line.profileSku.Some? && q.repository.byDefaultCode(q.line.profileSku.value) == Some(rows)
    case SupplierProductCode =>
      && SupplierAsked(q) && SupplierRows(q).Some? && |SupplierRows(q).value| == 1
      && q.repository.supplierProducts.value.variants(SupplierRows(q).value[0], q.company.value) == Some(rows)
    case SellerCode => false
  }

  /** More than one supplierinfo row carries the seller code. */
  predicate SeveralSupplierRows(q: Query) {
    SupplierAsked(q) && SupplierRows(q).Some? && |SupplierRows(q).value| > 1
  }

  // ----- answers and outcomes

  lemma {:induction false} ActiveMeaning(rows: seq<Product>, id: int)
    ensures Filter(IsActive, rows) == [] <==> NoneActive(rows)
    ensures |Filter(IsActive, rows)| > 1 <==> SeveralActive(rows)
    ensures |Filter(IsActive, rows)| == 1 && Filter(IsActive, rows)[0].id == id <==> OnlyActive(rows, id)
  {
    if rows != [] {
      var rest := rows[1..];
      ActiveMeaning(rest, id);
      assert forall k :: 0 <= k < |rest| ==> rest[k] == rows[k + 1];
      assert forall k :: 0 < k < |rows| ==> rows[k] == rest[k - 1];
      if rows[0].active {
        assert OnlyActive(rows, id) <==> rows[0].id == id && NoneActive(rest) by {
          if OnlyActive(rows, id) {
            var k :| 0 <= k < |rows| && rows[k].active && rows[k].id == id
              && forall j :: 0 <= j < |rows| && j != k ==> !rows[j].active;
            assert k == 0;
          }
        }
        assert SeveralActive(rows) <==> !NoneActive(rest) by {
          if k :| 0 <= k < |rest| && rest[k].active {
            assert rows[0].active && rows[k + 1].active;
          }
        }
      } else {
        assert OnlyActive(rows, id) <==> OnlyActive(rest, id) by {
          if OnlyActive(rest, id) {
            var k :| 0 <= k < |rest| && rest[k].active && rest[k].id == id
              && forall j :: 0 <= j < |rest| && j != k ==> !rest[j].active;
            assert rows[k + 1] == rest[k];
          }
        }
        assert SeveralActive(rows) <==> SeveralActive(rest) by {
          if j, k :| 0 <= j < k < |rest| && rest[j].active && rest[k].active {
            assert rows[j + 1].active && rows[k + 1].active;
          }
        }
      }
    }
  }

  lemma OutcomeMeaning(via: MatchedBy, rows: seq<Product>)
    ensures var o := OutcomeOf(via, rows);
      && o.via == Some(via)
      && (o.count > 1 <==> SeveralActive(rows)) && (o.count == 0 <==> NoneActive(rows))
      && (o.productId.Some? ==> o.count == 1)
      && (forall id :: o.productId == Some(id) <==> OnlyActive(rows, id))
  {
    forall id
      ensures OutcomeOf(via, rows).productId == Some(id) <==> OnlyActive(rows, id)
    {
      ActiveMeaning(rows, id);
    }
    ActiveMeaning(rows, 0);
  }

  /** The chain is the buyer code's answer, else the barcode's, else nothing. */
  lemma ChainAnswer(q: Query)
    ensures var r := ChainOutcome(LegacyPlan(q.line, q.repository));
      var buyer, barcode := Clean(q.line.buyerCode), Clean(q.line.barcode);
      r == if !BuyerCodeSilent(q)
           then LookupOutcome(BuyerCode, q.repository.byDefaultCode(buyer.value))
           else if !BarcodeSilent(q)
           then LookupOutcome(BarcodeIdentity, q.repository.byBarcode(barcode.value))
           else Done(Outcome(None, None, 0))
  {
    var plan := LegacyPlan(q.line, q.repository);
    ChainMeaning(plan);
    hide Clean, ChainOutcome;
    if Clean(q.line.buyerCode).Some? && q.repository.byDefaultCode(Clean(q.line.buyerCode).value).Some? {
      ActiveMeaning(q.repository.byDefaultCode(Clean(q.line.buyerCode).value).value, 0);
    }
    if Clean(q.line.barcode).Some? && q.repository.byBarcode(Clean(q.line.barcode).value).Some? {
      ActiveMeaning(q.repository.byBarcode(Clean(q.line.barcode).value).value, 0);
    }
    assert Silent(plan[0]) <==> BuyerCodeSilent(q);
    assert Silent(plan[1]) <==> BarcodeSilent(q);
    if !BuyerCodeSilent(q) {
      assert Decides(plan, 0);
    } else if !BarcodeSilent(q) {
      assert Decides(plan, 1);
    }
  }

  /** The manufacturer code and the profile SKU are both looked up. */
  lemma SkuAnswer(q: Query)
    ensures var code, sku := Clean(q.line.manufacturerCode), q.line.profileSku;
      var first, second := if code.Some? then q.repository.byDefaultCode(code.value) else None,
                           if sku.Some? then q.repository.byDefaultCode(sku.value) else None;
      LookupAll(SkuPlan(q.line, q.repository))
      == if (code.Some? && first.None?) || (sku.Some? && second.None?) then Raised
         else Done((if code.Some? then [OutcomeOf(ManufacturerCode, first.value)] else [])
                   + (if sku.Some? then [OutcomeOf(ProfileSku, second.value)] else []))
  {
    var code, sku := Clean(q.line.manufacturerCode), q.line.profileSku;
    hide Clean;
    assert LookupAll([]) == Done([]);
    if code.Some? {
      LookupNext([], Probe(ManufacturerCode, code, q.repository.byDefaultCode));
      assert [] + [Probe(ManufacturerCode, code, q.repository.byDefaultCode)]
          == [Probe(ManufacturerCode, code, q.repository.byDefaultCode)];
      var answer := q.repository.byDefaultCode(code.value);
      if answer.Some? {
        assert [] + [OutcomeOf(ManufacturerCode, answer.value)] == [OutcomeOf(ManufacturerCode, answer.value)];
      }
    }
    if sku.Some? {
      var before := if code.Some? then [Probe(ManufacturerCode, code, q.repository.byDefaultCode)] else [];
      LookupNext(before, Probe(ProfileSku, sku, q.repository.byDefaultCode));
      assert SkuPlan(q.line, q.repository) == before + [Probe(ProfileSku, sku, q.repository.byDefaultCode)];
    } else {
      assert SkuPlan(q.line, q.repository)
          == if code.Some? then [] + [Probe(ManufacturerCode, code, q.repository.byDefaultCode)] else [];
      assert forall xs: seq<Outcome> :: xs + [] == xs;
    }
  }

  lemma LookupNext(plan: seq<Probe>, probe: Probe)
    requires probe.identifier.Some?
    ensures var before, answer := LookupAll(plan), probe.lookup(probe.identifier.value);
      LookupAll(plan + [probe]) == if before.Raised? || answer.None? then Raised
                                   else Done(before.value + [OutcomeOf(probe.via, answer.value)])
  {
    assert (plan + [probe])[..|plan|] == plan;
  }

  // ----- the outcomes are the answers that take part

  /** What the supplierinfo rows alone decide: none, or more than one. */
  predicate RowOutcome(q: Query,
                       o: Outcome) {
    && SupplierAsked(q)
    && SupplierRows(q).Some?
    && |SupplierRows(q).value| != 1
    && o == Outcome(Some(SupplierProductCode), None, |SupplierRows(q).value|)
  }

  ghost predicate IsAnswer(q: Query,
                           o: Outcome) {
    || o == Outcome(None, None, 0)
    || RowOutcome(q, o)
    || exists via, rows :: TakesPart(q, via, rows) && o == OutcomeOf(via, rows)
  }

  /** The supplier-scoped outcome, if any. */
  lemma SupplierAnswer(q: Query)
    requires SupplierOutcome(Clean(q.line.sellerCode), q.supplier, q.company, q.repository).Done?
    ensures var o := SupplierOutcome(Clean(q.line.sellerCode), q.supplier, q.company, q.repository).value;
      && (o.Some? ==> IsAnswer(q, o.value))
      && (forall rows :: TakesPart(q, SupplierProductCode, rows) ==>
            o == Some(OutcomeOf(SupplierProductCode, rows)))
      && (forall x :: RowOutcome(q, x) ==> o == Some(x))
  {
    hide Clean, OutcomeOf;
    if SupplierAsked(q) {
      var rows := SupplierRows(q);
      if rows.Some? && |rows.value| == 1 {
        var variants := q.repository.supplierProducts.value.variants(rows.value[0], q.company.value);
        if variants.Some? {
          assert TakesPart(q, SupplierProductCode, variants.value);
        }
      }
    }
  }

  /** The chain's outcome: the buyer code's or the barcode's answer, or nothing. */
  lemma LegacyAnswer(q: Query)
    requires ChainOutcome(LegacyPlan(q.line, q.repository)).Done?
    ensures var o := ChainOutcome(LegacyPlan(q.line, q.repository)).value;
      && IsAnswer(q, o)
      && (forall rows :: TakesPart(q, BuyerCode, rows) && !NoneActive(rows) ==>
            o == OutcomeOf(BuyerCode, rows))
      && (forall rows :: TakesPart(q, BarcodeIdentity, rows) && !NoneActive(rows) ==>
            o == OutcomeOf(BarcodeIdentity, rows))
  {
    ChainAnswer(q);
    hide Clean, OutcomeOf, ChainOutcome;
    if !BuyerCodeSilent(q) {
      assert TakesPart(q, BuyerCode,
                       q.repository.byDefaultCode(Clean(q.line.buyerCode).value).value);
    } else if !BarcodeSilent(q) {
      assert TakesPart(q, BarcodeIdentity,
                       q.repository.byBarcode(Clean(q.line.barcode).value).value);
    }
  }

  lemma SkuAnswers(q: Query)
    requires LookupAll(SkuPlan(q.line, q.repository)).Done?
    ensures var found := LookupAll(SkuPlan(q.line, q.repository)).value;
      && (forall o :: o in found ==> IsAnswer(q, o))
      && (forall rows :: TakesPart(q, ManufacturerCode, rows) ==>
            OutcomeOf(ManufacturerCode, rows) in found)
      && (forall rows :: TakesPart(q, ProfileSku, rows) ==>
            OutcomeOf(ProfileSku, rows) in found)
  {
    SkuAnswer(q);
    hide Clean, OutcomeOf, LookupAll;
    var code := Clean(q.line.manufacturerCode);
    if code.Some? {
      assert TakesPart(q, ManufacturerCode,
                       q.repository.byDefaultCode(code.value).value);
    }
    if q.line.profileSku.Some? {
      assert TakesPart(q, ProfileSku,
                       q.repository.byDefaultCode(q.line.profileSku.value).value);
    }
  }

  lemma OutcomesAreAnswers(q: Query)
    requires Outcomes(q.line, q.supplier, q.company, q.repository).Done?
    ensures var outcomes := Outcomes(q.line, q.supplier, q.company, q.repository).value;
      && (forall o :: o in outcomes ==> IsAnswer(q, o))
      && (forall via, rows :: TakesPart(q, via, rows) && !NoneActive(rows) ==>
            OutcomeOf(via, rows) in outcomes)
      && (forall o :: RowOutcome(q, o) ==> o in outcomes)
  {
    SupplierAnswer(q);
    LegacyAnswer(q);
    SkuAnswers(q);
    hide Clean, OutcomeOf, LookupAll, ChainOutcome, SupplierOutcome, IsAnswer, RowOutcome, NoneActive, LegacyPlan,
      SkuPlan;
    var outcomes := Outcomes(q.line, q.supplier, q.company, q.repository).value;
    forall via, rows | TakesPart(q, via, rows) && !NoneActive(rows)
      ensures OutcomeOf(via, rows) in outcomes
    {
      match via
      case SupplierProductCode =>
      case BuyerCode =>
      case BarcodeIdentity =>
      case ManufacturerCode =>
      case ProfileSku =>
      case SellerCode =>
    }
  }

  // ----- the verdict

  /** An identity that takes part names exactly this product. */
  ghost predicate Names(q: Query,
                        via: MatchedBy, id: int) {
    exists rows :: TakesPart(q, via, rows) && OnlyActive(rows, id)
  }

  /** Some identity that takes part has several answers. */
  ghost predicate Unclear(q: Query) {
    || SeveralSupplierRows(q)
    || exists via, rows :: TakesPart(q, via, rows) && SeveralActive(rows)
  }

  ghost predicate Named(q: Query, id: int) {
    exists via :: Names(q, via, id)
  }

  ghost predicate Contradicted(q: Query) {
    exists a, b :: a != b && Named(q, a) && Named(q, b)
  }

  lemma UnclearMeans(q: Query)
    requires Outcomes(q.line, q.supplier, q.company, q.repository).Done?
    ensures Ambiguous(Outcomes(q.line, q.supplier, q.company, q.repository).value)
       <==> Unclear(q)
  {
    OutcomesAreAnswers(q);
    hide Outcomes, OutcomeOf, TakesPart;
    var outcomes := Outcomes(q.line, q.supplier, q.company, q.repository).value;
    if o :| o in outcomes && o.count > 1 {
      assert IsAnswer(q, o);
      if via, rows :| TakesPart(q, via, rows) && o == OutcomeOf(via, rows) {
        OutcomeMeaning(via, rows);
      }
    }
    if via, rows :| TakesPart(q, via, rows) && SeveralActive(rows) {
      OutcomeMeaning(via, rows);
      assert OutcomeOf(via, rows) in outcomes;
    }
    if SeveralSupplierRows(q) {
      var count := |SupplierRows(q).value|;
      var o := Outcome(Some(SupplierProductCode), None, count);
      assert RowOutcome(q, o) && o in outcomes;
    }
  }

  lemma NamesMeans(q: Query, id: int)
    requires Outcomes(q.line, q.supplier, q.company, q.repository).Done?
    ensures ProductMatching.Names(Outcomes(q.line, q.supplier, q.company, q.repository).value, id)
       <==> Named(q, id)
  {
    OutcomesAreAnswers(q);
    hide Outcomes, OutcomeOf, TakesPart;
    var outcomes := Outcomes(q.line, q.supplier, q.company, q.repository).value;
    if o :| o in outcomes && o.productId == Some(id) {
      assert IsAnswer(q, o);
      var via, rows :| TakesPart(q, via, rows) && o == OutcomeOf(via, rows);
      OutcomeMeaning(via, rows);
      assert Names(q, via, id);
    }
    if via :| Names(q, via, id) {
      var rows :| TakesPart(q, via, rows) && OnlyActive(rows, id);
      OutcomeMeaning(via, rows);
      assert OutcomeOf(via, rows) in outcomes;
    }
  }

  lemma ThreeAnswers(rows: seq<Product>)
    ensures NoneActive(rows) || SeveralActive(rows) || exists id :: OnlyActive(rows, id)
    ensures NoneActive(rows) ==> !SeveralActive(rows) && forall id :: !OnlyActive(rows, id)
  {
    if k :| 0 <= k < |rows| && rows[k].active {
      if j :| 0 <= j < |rows| && j != k && rows[j].active {
        var a, b := if j < k then j else k, if j < k then k else j;
        assert rows[a].active && rows[b].active;
      } else {
        assert OnlyActive(rows, rows[k].id);
      }
    }
  }

  /** Every identity that takes part is silent. */
  ghost predicate AllSilent(q: Query) {
    && !SeveralSupplierRows(q)
    && forall via, rows :: TakesPart(q, via, rows) ==> NoneActive(rows)
  }

  lemma SilentMeans(q: Query)
    ensures AllSilent(q) <==>
      !Unclear(q) && forall id :: !Named(q, id)
  {
    hide TakesPart, SeveralSupplierRows, OnlyActive, SeveralActive, NoneActive;
    if AllSilent(q) {
      forall via, rows | TakesPart(q, via, rows)
        ensures !SeveralActive(rows) && forall id :: !OnlyActive(rows, id)
      {
        ThreeAnswers(rows);
      }
    } else if !SeveralSupplierRows(q) {
      var via, rows :| TakesPart(q, via, rows) && !NoneActive(rows);
      ThreeAnswers(rows);
      if id :| OnlyActive(rows, id) {
        assert Names(q, via, id) && Named(q, id);
      }
    }
  }

  lemma DisagreeMeans(outcomes: seq<Outcome>)
    ensures Disagree(outcomes) <==>
      exists a, b :: a != b && ProductMatching.Names(outcomes, a) && ProductMatching.Names(outcomes, b)
  {
    if x, y :| x in outcomes && y in outcomes && x.productId.Some? && y.productId.Some? && x.productId != y.productId {
      assert ProductMatching.Names(outcomes, x.productId.value) && ProductMatching.Names(outcomes, y.productId.value);
    }
  }

  lemma CombinedVerdict(q: Query, advisory: Option<Outcome>)
    requires Outcomes(q.line, q.supplier, q.company, q.repository).Done?
    ensures var m := Combined(Outcomes(q.line, q.supplier, q.company, q.repository).value, advisory);
      && m.status != InvalidInput
      && (m.status == MultipleMatches <==> Unclear(q) || Contradicted(q))
      && (forall id :: m.productId == Some(id) <==> m.status != MultipleMatches && Named(q, id))
      && (m.status == NotFound <==> AllSilent(q))
  {
    var outcomes := Outcomes(q.line, q.supplier, q.company, q.repository).value;
    CombinedMeaning(outcomes, advisory);
    UnclearMeans(q);
    DisagreeMeans(outcomes);
    SilentMeans(q);
    hide Outcomes, Combined, Unclear, Named, ProductMatching.Names, AllSilent, Ambiguous, Disagree;
    forall id
      ensures ProductMatching.Names(outcomes, id) <==> Named(q, id)
    {
      NamesMeans(q, id);
    }
    var m := Combined(outcomes, advisory);
    assert m.status == MultipleMatches <==> Unclear(q) || Contradicted(q);
    assert m.productId.Some? ==> Named(q, m.productId.value);
  }

  /** The verdict of a line whose lookups all answered: several products or rows are ambiguous, a product is matched
      exactly when every identity that takes part names it or nothing, and nothing is found exactly when all are
      silent. */
  lemma VerdictExactly(q: Query)
    requires MatchLine(q.line, q.supplier, q.company, q.repository).Done?
    ensures var m := MatchLine(q.line, q.supplier, q.company, q.repository).value;
      && (m.status == InvalidInput <==> Blank(q.line.lineNumber) || Anonymous(q.line))
      && (m.status != InvalidInput ==>
            && (m.status == MultipleMatches <==> Unclear(q) || Contradicted(q))
            && (forall id :: m.productId == Some(id) <==> m.status != MultipleMatches && Named(q, id))
            && (m.status == NotFound <==> AllSilent(q)))
  {
    hide Unclear, Contradicted, AllSilent, Named, Combined, Outcomes;
    if !Blank(q.line.lineNumber) && Identified(q.line) {
      var advisory := AdvisoryOutcome(Clean(q.line.sellerCode), ChainOutcome(LegacyPlan(q.line, q.repository)).value,
                                      q.repository).value;
      CombinedVerdict(q, advisory);
    }
  }

  /** The line states no product identifier at all. */
  predicate Anonymous(line: ProductLine) {
    && Blank(line.buyerCode) && Blank(line.barcode) && Blank(line.sellerCode) && Blank(line.manufacturerCode)
    && line.profileSku.None?
  }

  /** A buyer code that names one product decides over the barcode, whatever the barcode finds: the line is that product
      exactly when no SKU and no supplierinfo row is ambiguous or names another one, and ambiguous otherwise. */
  lemma BuyerCodeDecides(q: Query, id: int)
    requires MatchLine(q.line, q.supplier, q.company, q.repository).Done? && !Blank(q.line.lineNumber)
    requires !Blank(q.line.buyerCode) && q.repository.byDefaultCode(Clean(q.line.buyerCode).value).Some?
    requires OnlyActive(q.repository.byDefaultCode(Clean(q.line.buyerCode).value).value, id)
    ensures var m := MatchLine(q.line, q.supplier, q.company, q.repository).value;
      && (m.status == Matched || m.status == MultipleMatches)
      && (m.status == Matched ==> m.productId == Some(id))
      && (m.status == Matched <==> OthersAgree(q, id))
  {
    var rows := q.repository.byDefaultCode(Clean(q.line.buyerCode).value).value;
    var m := MatchLine(q.line, q.supplier, q.company, q.repository).value;
    VerdictExactly(q);
    assert TakesPart(q, BuyerCode, rows);
    assert Names(q, BuyerCode, id) && Named(q, id);
    NoBarcodeThen(q, rows, id);
    hide MatchLine, TakesPart, OnlyActive, SeveralActive, NoneActive, SeveralSupplierRows, AllSilent;
    assert m.status != NotFound by { SilentMeans(q); }
    if OthersAgree(q, id) {
      forall via, other | TakesPart(q, via, other)
        ensures !SeveralActive(other) && forall x :: OnlyActive(other, x) ==> x == id
      {
        OnlyOneActive(other, id);
      }
    } else if !Unclear(q) {
      var via, other :| Other(via) && TakesPart(q, via, other) && !NoneActive(other) && !OnlyActive(other, id);
      ThreeAnswers(other);
      var x :| OnlyActive(other, x);
      assert Names(q, via, x) && Named(q, x);
    }
  }

  predicate Other(via: MatchedBy) {
    via != BuyerCode && via != BarcodeIdentity
  }

  /** No SKU and no supplierinfo row is ambiguous or names another product. */
  ghost predicate OthersAgree(q: Query, id: int) {
    && !SeveralSupplierRows(q)
    && forall via, rows :: Other(via) && TakesPart(q, via, rows) ==> NoneActive(rows) || OnlyActive(rows, id)
  }

  lemma OnlyOneActive(rows: seq<Product>, id: int)
    requires NoneActive(rows) || OnlyActive(rows, id)
    ensures !SeveralActive(rows) && forall x :: OnlyActive(rows, x) ==> x == id
  {
  }

  lemma NoBarcodeThen(q: Query, rows: seq<Product>, id: int)
    requires TakesPart(q, BuyerCode, rows) && OnlyActive(rows, id)
    ensures forall via, other :: TakesPart(q, via, other) && !Other(via) ==> other == rows
  {
  }

  // ----- the identity that is reported

  /** The order in which identities are reported; buyer code and barcode never both take part with an answer. */
  predicate Precedes(a: MatchedBy, b: MatchedBy) {
    || (a == SupplierProductCode && b != SupplierProductCode)
    || ((a == BuyerCode || a == BarcodeIdentity) && (b == ManufacturerCode || b == ProfileSku))
    || (a == ManufacturerCode && b == ProfileSku)
  }

  lemma {:induction false} FirstFiltered<A(!new)>(f: A -> bool, xs: seq<A>, k: nat)
    requires k < |xs| && f(xs[k]) && forall j :: 0 <= j < k ==> !f(xs[j])
    ensures Filter(f, xs) != [] && Filter(f, xs)[0] == xs[k]
  {
    if k != 0 {
      FirstFiltered(f, xs[1..], k - 1);
    }
  }

  /** The outcomes one by one, and which identity each of them is. */
  lemma OutcomeParts(q: Query) returns (s: Option<Outcome>, l: Outcome, m: Option<Outcome>, p: Option<Outcome>)
    requires Outcomes(q.line, q.supplier, q.company, q.repository).Done?
    ensures Outcomes(q.line, q.supplier, q.company, q.repository).value
         == (if s.Some? then [s.value] else []) + [l]
            + ((if m.Some? then [m.value] else []) + (if p.Some? then [p.value] else []))
    ensures s.Some? ==> s.value.via == Some(SupplierProductCode)
    ensures m.Some? ==> m.value.via == Some(ManufacturerCode)
    ensures p.Some? ==> p.value.via == Some(ProfileSku)
    ensures l.via == None || l.via == Some(BuyerCode) || l.via == Some(BarcodeIdentity)
    ensures l.via == None ==> l.productId.None?
    ensures forall id :: Names(q, SupplierProductCode, id) <==> s.Some? && s.value.productId == Some(id)
    ensures forall id :: Names(q, ManufacturerCode, id) <==> m.Some? && m.value.productId == Some(id)
    ensures forall id :: Names(q, ProfileSku, id) <==> p.Some? && p.value.productId == Some(id)
    ensures forall id :: Names(q, BuyerCode, id) <==> l.via == Some(BuyerCode) && l.productId == Some(id)
    ensures forall id :: Names(q, BarcodeIdentity, id) <==> l.via == Some(BarcodeIdentity) && l.productId == Some(id)
  {
    s := SupplierOutcome(Clean(q.line.sellerCode), q.supplier, q.company, q.repository).value;
    l := ChainOutcome(LegacyPlan(q.line, q.repository)).value;
    var code, sku := Clean(q.line.manufacturerCode), q.line.profileSku;
    SkuAnswer(q);
    m := if code.Some? then Some(OutcomeOf(ManufacturerCode, q.repository.byDefaultCode(code.value).value)) else None;
    p := if sku.Some? then Some(OutcomeOf(ProfileSku, q.repository.byDefaultCode(sku.value).value)) else None;
    SupplierNames(q);
    LegacyNames(q);
    SkuNames(q);
    hide OutcomeOf, ChainOutcome, LookupAll, Clean, SupplierOutcome, Names;
  }

  lemma SupplierNames(q: Query)
    requires SupplierOutcome(Clean(q.line.sellerCode), q.supplier, q.company, q.repository).Done?
    ensures var s := SupplierOutcome(Clean(q.line.sellerCode), q.supplier, q.company, q.repository).value;
      && (s.Some? ==> s.value.via == Some(SupplierProductCode))
      && forall id :: Names(q, SupplierProductCode, id) <==> s.Some? && s.value.productId == Some(id)
  {
    OutcomeMeansAll();
    hide OutcomeOf, OnlyActive, Clean;
  }

  lemma LegacyNames(q: Query)
    requires ChainOutcome(LegacyPlan(q.line, q.repository)).Done?
    ensures var l := ChainOutcome(LegacyPlan(q.line, q.repository)).value;
      && (l.via == None || l.via == Some(BuyerCode) || l.via == Some(BarcodeIdentity))
      && (l.via == None ==> l.productId.None?)
      && (forall id :: Names(q, BuyerCode, id) <==> l.via == Some(BuyerCode) && l.productId == Some(id))
      && (forall id :: Names(q, BarcodeIdentity, id) <==> l.via == Some(BarcodeIdentity) && l.productId == Some(id))
  {
    ChainAnswer(q);
    OutcomeMeansAll();
    forall rows
      ensures NoneActive(rows) ==> forall id :: !OnlyActive(rows, id)
    {
      ThreeAnswers(rows);
    }
    hide OutcomeOf, OnlyActive, ChainOutcome, Clean, NoneActive;
  }

  lemma SkuNames(q: Query)
    requires LookupAll(SkuPlan(q.line, q.repository)).Done?
    ensures var code, sku := Clean(q.line.manufacturerCode), q.line.profileSku;
      && (code.Some? ==> q.repository.byDefaultCode(code.value).Some?)
      && (sku.Some? ==> q.repository.byDefaultCode(sku.value).Some?)
      && (forall id :: Names(q, ManufacturerCode, id) <==>
            && code.Some?
            && OutcomeOf(ManufacturerCode, q.repository.byDefaultCode(code.value).value).productId == Some(id))
      && (forall id :: Names(q, ProfileSku, id) <==>
            && sku.Some?
            && OutcomeOf(ProfileSku, q.repository.byDefaultCode(sku.value).value).productId == Some(id))
  {
    SkuAnswer(q);
    OutcomeMeansAll();
    hide OutcomeOf, OnlyActive, LookupAll, Clean;
  }

  lemma OutcomeMeansAll()
    ensures forall via, rows :: OutcomeOf(via, rows).via == Some(via)
    ensures forall via, rows, id :: OutcomeOf(via, rows).productId == Some(id) <==> OnlyActive(rows, id)
  {
    forall via, rows, id
      ensures OutcomeOf(via, rows).productId == Some(id) <==> OnlyActive(rows, id)
    {
      OutcomeMeaning(via, rows);
    }
  }

  /** Whichever outcome first has a product is the reported one. */
  lemma FirstProduct(s: Option<Outcome>, l: Outcome, m: Option<Outcome>, p: Option<Outcome>) returns (o: Outcome)
    requires (s.Some? && HasProduct(s.value)) || HasProduct(l) || (m.Some? && HasProduct(m.value))
      || (p.Some? && HasProduct(p.value))
    ensures var xs := (if s.Some? then [s.value] else []) + [l]
                      + ((if m.Some? then [m.value] else []) + (if p.Some? then [p.value] else []));
      Filter(HasProduct, xs) != [] && Filter(HasProduct, xs)[0] == o
    ensures o == if s.Some? && HasProduct(s.value) then s.value else if HasProduct(l) then l
                 else if m.Some? && HasProduct(m.value) then m.value else p.value
  {
    var xs := (if s.Some? then [s.value] else []) + [l]
              + ((if m.Some? then [m.value] else []) + (if p.Some? then [p.value] else []));
    var n: nat := if s.Some? then 1 else 0;
    var k: nat := if s.Some? && HasProduct(s.value) then 0 else if HasProduct(l) then n
                  else if m.Some? && HasProduct(m.value) then n + 1
                  else if m.Some? then n + 2 else n + 1;
    FirstFiltered(HasProduct, xs, k);
    o := xs[k];
  }

  lemma CombinedReports(outcomes: seq<Outcome>, advisory: Option<Outcome>)
    requires Combined(outcomes, advisory).status == Matched
    ensures var matched := Filter(HasProduct, outcomes);
      matched != [] && Combined(outcomes, advisory).matchedBy == matched[0].via
  {
    hide FirstAmbiguous, FirstSeen;
  }

  lemma ReportedVia(q: Query)
    requires MatchLine(q.line, q.supplier, q.company, q.repository).Done?
    requires MatchLine(q.line, q.supplier, q.company, q.repository).value.status == Matched
    ensures Outcomes(q.line, q.supplier, q.company, q.repository).Done?
    ensures var m := MatchLine(q.line, q.supplier, q.company, q.repository).value;
      var matched := Filter(HasProduct, Outcomes(q.line, q.supplier, q.company, q.repository).value);
      matched != [] && m.matchedBy == matched[0].via
  {
    hide Outcomes, ChainOutcome, AdvisoryOutcome, Clean, Combined;
    var advisory := AdvisoryOutcome(Clean(q.line.sellerCode), ChainOutcome(LegacyPlan(q.line, q.repository)).value,
                                    q.repository).value;
    CombinedReports(Outcomes(q.line, q.supplier, q.company, q.repository).value, advisory);
  }

  /** Among the identities of a matched line that name a product, all name the same one. */
  lemma OneProduct(q: Query) returns (id: int)
    requires MatchLine(q.line, q.supplier, q.company, q.repository).Done?
    requires MatchLine(q.line, q.supplier, q.company, q.repository).value.status == Matched
    ensures MatchLine(q.line, q.supplier, q.company, q.repository).value.productId == Some(id)
    ensures Named(q, id) && forall x :: Named(q, x) ==> x == id
  {
    var m := MatchLine(q.line, q.supplier, q.company, q.repository).value;
    VerdictExactly(q);
    if m.productId.None? {
      MatchedNames(q);
    }
    id := m.productId.value;
    hide MatchLine, Named;
  }

  lemma MatchedNames(q: Query)
    requires MatchLine(q.line, q.supplier, q.company, q.repository).Done?
    requires MatchLine(q.line, q.supplier, q.company, q.repository).value.status == Matched
    ensures MatchLine(q.line, q.supplier, q.company, q.repository).value.productId.Some?
  {
    var advisory := AdvisoryOutcome(Clean(q.line.sellerCode), ChainOutcome(LegacyPlan(q.line, q.repository)).value,
                                    q.repository).value;
    hide Outcomes, ChainOutcome, AdvisoryOutcome, Clean, Combined;
    CombinedMeaning(Outcomes(q.line, q.supplier, q.company, q.repository).value, advisory);
  }

  /** A matched line reports the first identity, in that order, that names its product. */
  lemma PrimaryExactly(q: Query, via: MatchedBy)
    requires MatchLine(q.line, q.supplier, q.company, q.repository).Done?
    requires MatchLine(q.line, q.supplier, q.company, q.repository).value.status == Matched
    ensures var m := MatchLine(q.line, q.supplier, q.company, q.repository).value;
      && m.productId.Some?
      && (m.matchedBy == Some(via) <==>
            Names(q, via, m.productId.value) && forall v :: Precedes(v, via) ==> !Names(q, v, m.productId.value))
  {
    var id := OneProduct(q);
    ReportedVia(q);
    hide MatchLine, Filter;
    var s, l, m, p := OutcomeParts(q);
    hide Outcomes;
    assert forall v, x :: Names(q, v, x) ==> Named(q, x);
    var w :| Names(q, w, id);
    assert !Names(q, SellerCode, id);
    hide Named, Names;
    var o := FirstProduct(s, l, m, p);
    assert MatchLine(q.line, q.supplier, q.company, q.repository).value.matchedBy == o.via;
    PrimaryOf(q, s, l, m, p, o, id, via);
  }

  lemma PrimaryOf(q: Query, s: Option<Outcome>, l: Outcome, m: Option<Outcome>, p: Option<Outcome>, o: Outcome, id: int,
                  via: MatchedBy)
    requires s.Some? ==> s.value.via == Some(SupplierProductCode)
    requires m.Some? ==> m.value.via == Some(ManufacturerCode)
    requires p.Some? ==> p.value.via == Some(ProfileSku)
    requires l.via == None || l.via == Some(BuyerCode) || l.via == Some(BarcodeIdentity)
    requires forall x :: Names(q, SupplierProductCode, x) <==> s.Some? && s.value.productId == Some(x)
    requires forall x :: Names(q, ManufacturerCode, x) <==> m.Some? && m.value.productId == Some(x)
    requires forall x :: Names(q, ProfileSku, x) <==> p.Some? && p.value.productId == Some(x)
    requires forall x :: Names(q, BuyerCode, x) <==> l.via == Some(BuyerCode) && l.productId == Some(x)
    requires forall x :: Names(q, BarcodeIdentity, x) <==> l.via == Some(BarcodeIdentity) && l.productId == Some(x)
    requires forall v, x :: Names(q, v, x) ==> x == id
    requires (exists w :: Names(q, w, id)) && !Names(q, SellerCode, id)
    requires l.via == None ==> l.productId.None?
    requires o == if s.Some? && HasProduct(s.value) then s.value else if HasProduct(l) then l
                  else if m.Some? && HasProduct(m.value) then m.value else p.value
    ensures o.via == Some(via) <==> Names(q, via, id) && forall v :: Precedes(v, via) ==> !Names(q, v, id)
  {
    var w :| Names(q, w, id);
    assert s.Some? && HasProduct(s.value) ==> Names(q, SupplierProductCode, s.value.productId.value);
    assert HasProduct(l) ==> Names(q, l.via.value, l.productId.value);
    assert m.Some? && HasProduct(m.value) ==> Names(q, ManufacturerCode, m.value.productId.value);
    assert p.Some? && HasProduct(p.value) ==> Names(q, ProfileSku, p.value.productId.value);
    assert HasProduct(o) && o.via.Some? && Names(q, o.via.value, id);
    forall v | Precedes(v, o.via.value)
      ensures !Names(q, v, id)
    {
    }
    if Names(q, via, id) && o.via != Some(via) {
      assert Precedes(o.via.value, via);
    }
  }

  /** What a result carries besides its status: a count of nothing, one or several, and a reporting identity and
      corroboration only for a matched line. */
  lemma CarriedExactly(q: Query)
    requires MatchLine(q.line, q.supplier, q.company, q.repository).Done?
    ensures var m := MatchLine(q.line, q.supplier, q.company, q.repository).value;
      && (m.status == InvalidInput || m.status == NotFound <==> m.count == 0)
      && (m.status == Matched <==> m.count == 1) && (m.status == MultipleMatches <==> m.count >= 2)
      && (m.status == Matched <==> m.productId.Some?)
      && (m.status != Matched ==> m.matchedBy.None? && m.corroboratedBy == [])
  {
    hide Outcomes, ChainOutcome, AdvisoryOutcome, Clean, Combined;
    if !Blank(q.line.lineNumber) && Identified(q.line) {
      var advisory := AdvisoryOutcome(Clean(q.line.sellerCode), ChainOutcome(LegacyPlan(q.line, q.repository)).value,
                                      q.repository).value;
      CombinedCarries(Outcomes(q.line, q.supplier, q.company, q.repository).value, advisory);
    }
  }

  lemma CombinedCarries(outcomes: seq<Outcome>, advisory: Option<Outcome>)
    ensures var m := Combined(outcomes, advisory);
      && m.status != InvalidInput && (m.status == NotFound <==> m.count == 0)
      && (m.status == Matched <==> m.count == 1) && (m.status == MultipleMatches <==> m.count >= 2)
      && (m.status == Matched <==> m.productId.Some?)
      && (m.status != Matched ==> m.matchedBy.None? && m.corroboratedBy == [])
  {
    CombinedMeaning(outcomes, advisory);
    FirstAmbiguousCount(outcomes);
    hide FirstAmbiguous, FirstSeen;
  }

  lemma {:induction false} FirstAmbiguousCount(outcomes: seq<Outcome>)
    ensures FirstAmbiguous(outcomes).Some? ==> FirstAmbiguous(outcomes).value.count >= 2
  {
    if outcomes != [] {
      FirstAmbiguousCount(outcomes[1..]);
    }
  }

  // ----- failed lookups

  /** A lookup that the line needs fails. The seller code is probed as a default code only when neither the buyer code
      nor the barcode finds anything. */
  predicate LookupFails(q: Query) {
    || (!Blank(q.line.buyerCode) && q.repository.byDefaultCode(Clean(q.line.buyerCode).value).None?)
    || (BuyerCodeSilent(q) && !Blank(q.line.barcode) && q.repository.byBarcode(Clean(q.line.barcode).value).None?)
    || (!Blank(q.line.manufacturerCode) && q.repository.byDefaultCode(Clean(q.line.manufacturerCode).value).None?)
    || (q.line.profileSku.Some? && q.repository.byDefaultCode(q.line.profileSku.value).None?)
    || (BuyerCodeSilent(q) && BarcodeSilent(q) && !Blank(q.line.sellerCode)
        && q.repository.byDefaultCode(Clean(q.line.sellerCode).value).None?)
    || (SupplierAsked(q)
        && (SupplierRows(q).None?
            || (|SupplierRows(q).value| == 1
                && q.repository.supplierProducts.value.variants(SupplierRows(q).value[0], q.company.value).None?)))
  }

  lemma SupplierRaised(q: Query)
    ensures SupplierOutcome(Clean(q.line.sellerCode), q.supplier, q.company, q.repository).Raised? <==>
      && SupplierAsked(q)
      && (SupplierRows(q).None?
          || (|SupplierRows(q).value| == 1
              && q.repository.supplierProducts.value.variants(SupplierRows(q).value[0], q.company.value).None?))
  {
    hide Clean;
  }

  lemma LegacyRaised(q: Query)
    ensures var r := ChainOutcome(LegacyPlan(q.line, q.repository));
      && (r.Raised? <==>
            || (Clean(q.line.buyerCode).Some? && q.repository.byDefaultCode(Clean(q.line.buyerCode).value).None?)
            || (BuyerCodeSilent(q) && Clean(q.line.barcode).Some?
                && q.repository.byBarcode(Clean(q.line.barcode).value).None?))
      && (r.Done? ==> (r.value.count == 0 <==> BuyerCodeSilent(q) && BarcodeSilent(q)))
  {
    ChainAnswer(q);
    forall rows
      ensures NoneActive(rows) <==> Filter(IsActive, rows) == []
    {
      ActiveMeaning(rows, 0);
    }
    hide ChainOutcome, Filter, NoneActive, Clean;
  }

  lemma SkusRaised(q: Query)
    ensures LookupAll(SkuPlan(q.line, q.repository)).Raised? <==>
      || (Clean(q.line.manufacturerCode).Some?
          && q.repository.byDefaultCode(Clean(q.line.manufacturerCode).value).None?)
      || (q.line.profileSku.Some? && q.repository.byDefaultCode(q.line.profileSku.value).None?)
  {
    SkuAnswer(q);
    hide LookupAll, Clean, OutcomeOf;
  }

  /** The line fails exactly when it is answerable at all and a lookup it needs fails. */
  lemma RaisedExactly(q: Query)
    ensures MatchLine(q.line, q.supplier, q.company, q.repository).Raised? <==>
      !Blank(q.line.lineNumber) && !Anonymous(q.line) && LookupFails(q)
  {
    SupplierRaised(q);
    LegacyRaised(q);
    SkusRaised(q);
    hide ChainOutcome, LookupAll, Combined, OutcomeOf, SupplierOutcome, SkuPlan, LegacyPlan, BuyerCodeSilent,
      BarcodeSilent, SupplierRows, SupplierAsked, Strip;
  }
}
