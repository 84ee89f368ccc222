/** The advisory engine's T0 tier against the deterministic matcher over one Odoo database: both start from the same
    supplierinfo rows, but T0 looks among purchasable variants and the matcher among all active ones. */
module StaleAgreement {
  import opened Core
  import opened Sorting
  import opened SuggestionEngine
  import PM = ProductMatching

  /** The records of `product.product` and `product.supplierinfo`. */
  datatype Database = Database(variants: seq<Variant>, rows: seq<SupplierRow>)

  predicate InScope(company: Option<int>, companyId: int) {
    company.None? || company.value == companyId
  }

  ghost predicate UniqueVariants(variants: seq<Variant>) {
    forall i, j :: 0 <= i < j < |variants| ==> variants[i].productId != variants[j].productId
  }

  /** The catalog reader reads active, purchasable, in-scope variants and in-scope supplierinfo, in any order. */
  ghost predicate FaithfulSnapshot(catalog: Catalog, db: Database, companyId: int) {
    && multiset(catalog.variants) == multiset(Filter((v: Variant) => Eligible(v, companyId), db.variants))
    && multiset(catalog.mappings) == multiset(Filter((row: SupplierRow) => InScope(row.companyId, companyId), db.rows))
  }

  /** A bounded read returns up to two of the matching records, in any order. */
  ghost predicate BoundedRead<T>(answer: seq<T>, matching: seq<T>) {
    |answer| == (if |matching| < 2 then |matching| else 2) && multiset(answer) <= multiset(matching)
  }

  /** The variants a supplierinfo row leads to: its own variant, or every variant of its template. */
  predicate LeadsTo(row: SupplierRow, v: Variant) {
    v.templateId == row.templateId && (row.productId.None? || row.productId.value == v.productId)
  }

  /** Odoo hides archived records, so the matcher's read sees active variants only. */
  function ActiveOf(db: Database, row: SupplierRow, companyId: int): seq<Variant> {
    Filter((v: Variant) => v.active && InScope(v.companyId, companyId) && LeadsTo(row, v), db.variants)
  }

  function PurchasableOf(db: Database, row: SupplierRow, companyId: int): seq<Variant> {
    Filter((v: Variant) => Eligible(v, companyId) && LeadsTo(row, v), db.variants)
  }

  function MatchingRows(db: Database, line: SuggestionLine, seller: string): seq<SupplierRow> {
    Filter((row: SupplierRow) => ExactRowFor(row, line, seller), db.rows)
  }

  function CodeOf(row: SupplierRow): PM.SupplierCode {
    PM.SupplierCode(row.templateId, row.productId)
  }

  function AsProduct(v: Variant): PM.Product {
    PM.Product(v.productId, v.active)
  }

  function CodesRead(repository: PM.Repository, line: SuggestionLine, seller: string): Option<seq<PM.SupplierCode>>
    requires repository.supplierProducts.Some? && line.supplierId.Some?
  {
    repository.supplierProducts.value.codes(line.supplierId.value, seller, line.companyId)
  }

  /** The repository answers with what the database holds. */
  ghost predicate Answers(repository: PM.Repository, db: Database, line: SuggestionLine, seller: string) {
    && repository.supplierProducts.Some? && line.supplierId.Some?
    && (exists read ::
          && BoundedRead(read, MatchingRows(db, line, seller))
          && CodesRead(repository, line, seller) == Some(Map(CodeOf, read)))
    && (forall row :: row in db.rows ==> AnswersVariants(repository, db, row, line.companyId))
  }

  ghost predicate AnswersVariants(repository: PM.Repository, db: Database, row: SupplierRow, companyId: int) {
    && repository.supplierProducts.Some?
    && exists read ::
      && BoundedRead(read, ActiveOf(db, row, companyId))
      && repository.supplierProducts.value.variants(CodeOf(row), companyId) == Some(Map(AsProduct, read))
  }

  // ----- what each side sees

  lemma SingleRead<T(!new)>(answer: seq<T>, matching: seq<T>)
    requires BoundedRead(answer, matching)
    ensures |answer| == 1 <==> |matching| == 1
    ensures |matching| == 1 ==> answer == matching
  {
    if |matching| == 1 {
      assert matching == [matching[0]] && answer == [answer[0]];
      assert answer[0] in multiset(answer);
      assert answer[0] in multiset(matching);
    }
  }

  lemma EligibleCounts(catalog: Catalog, db: Database, companyId: int)
    requires FaithfulSnapshot(catalog, db, companyId)
    ensures multiset(EligibleVariants(catalog, companyId))
         == multiset(Filter((v: Variant) => Eligible(v, companyId), db.variants))
  {
    var eligible := (v: Variant) => Eligible(v, companyId);
    SortByMultiset(Filter(eligible, catalog.variants), IdLe);
    forall v
      ensures multiset(Filter(eligible, catalog.variants))[v] == multiset(Filter(eligible, db.variants))[v]
    {
      FilterCounts(eligible, catalog.variants, v);
      FilterCounts(eligible, db.variants, v);
    }
  }

  /** Filtering the eligible variants further is filtering the database. */
  lemma EligibleFiltered(catalog: Catalog, db: Database, companyId: int, p: Variant -> bool)
    requires FaithfulSnapshot(catalog, db, companyId)
    ensures multiset(Filter(p, EligibleVariants(catalog, companyId)))
         == multiset(Filter((v: Variant) => Eligible(v, companyId) && p(v), db.variants))
  {
    EligibleCounts(catalog, db, companyId);
    var both := (v: Variant) => Eligible(v, companyId) && p(v);
    forall v
      ensures multiset(Filter(p, EligibleVariants(catalog, companyId)))[v] == multiset(Filter(both, db.variants))[v]
    {
      FilterCounts(p, EligibleVariants(catalog, companyId), v);
      FilterCounts((w: Variant) => Eligible(w, companyId), db.variants, v);
      FilterCounts(both, db.variants, v);
    }
  }

  lemma {:induction false} ByIdMeaning(eligible: seq<Variant>, id: int)
    ensures ById(eligible, id).None? <==> Filter((v: Variant) => v.productId == id, eligible) == []
    ensures ById(eligible, id).Some? ==>
      ById(eligible, id).value in eligible && ById(eligible, id).value.productId == id
  {
    if eligible != [] {
      var n := |eligible| - 1;
      ByIdMeaning(eligible[..n], id);
      FilterConcat((v: Variant) => v.productId == id, eligible[..n], [eligible[n]]);
      assert eligible == eligible[..n] + [eligible[n]];
    }
  }

  /** T0's variant of a row is the only purchasable one it leads to. */
  lemma SingleVariantMeaning(line: SuggestionLine, catalog: Catalog, policy: Policy, db: Database, row: SupplierRow)
    requires FaithfulSnapshot(catalog, db, line.companyId) && UniqueVariants(db.variants)
    ensures var v := SingleVariant(ContextOf(line, catalog, policy), row);
      var purchasable := PurchasableOf(db, row, line.companyId);
      (v.Some? <==> |purchasable| == 1) && (v.Some? ==> purchasable == [v.value])
  {
    var eligible := EligibleVariants(catalog, line.companyId);
    var purchasable := PurchasableOf(db, row, line.companyId);
    var leads := (v: Variant) => LeadsTo(row, v);
    EligibleFiltered(catalog, db, line.companyId, leads);
    SamePurchasable(db, row, line.companyId);
    SameSingle(Filter(leads, eligible), purchasable);
    if row.productId.None? {
      SameFilter((v: Variant) => v.templateId == row.templateId, leads, eligible);
    } else {
      var id := row.productId.value;
      ByIdMeaning(eligible, id);
      EligibleUnique(catalog, db, line.companyId);
      OnlyOne(eligible, id, leads);
    }
  }

  lemma SamePurchasable(db: Database, row: SupplierRow, companyId: int)
    ensures PurchasableOf(db, row, companyId)
         == Filter((v: Variant) => Eligible(v, companyId) && ((w: Variant) => LeadsTo(row, w))(v), db.variants)
  {
    SameFilter((v: Variant) => Eligible(v, companyId) && LeadsTo(row, v),
               (v: Variant) => Eligible(v, companyId) && ((w: Variant) => LeadsTo(row, w))(v), db.variants);
  }

  lemma {:induction false} SameFilter<A(!new)>(p: A -> bool, q: A -> bool, xs: seq<A>)
    requires forall x :: x in xs ==> p(x) == q(x)
    ensures Filter(p, xs) == Filter(q, xs)
  {
    if xs != [] {
      assert xs[0] in xs && forall x :: x in xs[1..] ==> x in xs;
      SameFilter(p, q, xs[1..]);
    }
  }

  ghost predicate OneRecordPerId(variants: seq<Variant>) {
    (forall v, w :: v in variants && w in variants && v.productId == w.productId ==> v == w)
    && forall v :: multiset(variants)[v] <= 1
  }

  lemma EligibleUnique(catalog: Catalog, db: Database, companyId: int)
    requires FaithfulSnapshot(catalog, db, companyId) && UniqueVariants(db.variants)
    ensures OneRecordPerId(EligibleVariants(catalog, companyId))
  {
    EligibleCounts(catalog, db, companyId);
    var eligible := EligibleVariants(catalog, companyId);
    var kept := Filter((v: Variant) => Eligible(v, companyId), db.variants);
    UniqueRecords(db.variants);
    forall v
      ensures multiset(eligible)[v] <= 1 && (v in eligible ==> v in db.variants)
    {
      FilterCounts((w: Variant) => Eligible(w, companyId), db.variants, v);
      assert v in eligible ==> v in multiset(eligible);
    }
  }

  lemma {:induction false} UniqueRecords(variants: seq<Variant>)
    requires UniqueVariants(variants)
    ensures OneRecordPerId(variants)
  {
    if variants != [] {
      var n := |variants| - 1;
      UniqueRecords(variants[..n]);
      assert variants == variants[..n] + [variants[n]];
      assert variants[n] !in variants[..n];
      assert variants[n] !in multiset(variants[..n]);
    }
  }

  /** With one record per id, at most one eligible variant fits a row that names its variant. */
  lemma OnlyOne(eligible: seq<Variant>, id: int, leads: Variant -> bool)
    requires OneRecordPerId(eligible) && forall v :: leads(v) ==> v.productId == id
    ensures var v := ById(eligible, id);
      Filter(leads, eligible) == if v.Some? && leads(v.value) then [v.value] else []
  {
    ByIdMeaning(eligible, id);
    var v, fits := ById(eligible, id), Filter(leads, eligible);
    forall x | x in fits
      ensures v.Some? && x == v.value
    {
      assert x in Filter((w: Variant) => w.productId == id, eligible);
    }
    forall x
      ensures multiset(fits)[x] <= 1
    {
      FilterCounts(leads, eligible, x);
    }
    Repeated(fits);
    assert fits == [] || fits[0] in fits;
    if v.Some? && leads(v.value) {
      assert v.value in fits;
    }
  }

  lemma Repeated(xs: seq<Variant>)
    ensures |xs| >= 2 && (forall x, y :: x in xs && y in xs ==> x == y) ==> multiset(xs)[xs[0]] >= 2
  {
    if |xs| >= 2 {
      assert xs[0] in xs && xs[1] in xs;
      assert xs == [xs[0], xs[1]] + xs[2..];
    }
  }

  // ----- both sides, over the same database

  /** The one variant found is `id`. */
  predicate Only(found: seq<Variant>, id: int) {
    |found| == 1 && found[0].productId == id
  }

  /** T0 names `id`. */
  predicate StaleNames(line: SuggestionLine, catalog: Catalog, policy: Policy, lex: Lexicon, id: int) {
    var stale := StaleSupplierinfoOf(ContextOf(line, catalog, policy), lex);
    stale.Names? && stale.productId == id
  }

  /** The matcher's supplierinfo outcome is uniquely `id`. */
  predicate MatcherNames(line: SuggestionLine, repository: PM.Repository, id: int) {
    var outcome := PM.SupplierOutcome(Clean(line.sellerCode), line.supplierId, Some(line.companyId), repository);
    outcome.Done? && outcome.value.Some? && outcome.value.value.productId == Some(id)
  }

  lemma StaleMeaning(line: SuggestionLine, catalog: Catalog, policy: Policy, lex: Lexicon, db: Database, seller: string,
                     id: int)
    requires FaithfulSnapshot(catalog, db, line.companyId) && UniqueVariants(db.variants)
    requires Clean(line.sellerCode) == Some(seller) && line.supplierId.Some?
    ensures var rows := MatchingRows(db, line, seller);
      StaleNames(line, catalog, policy, lex, id) <==>
        |rows| == 1 && Only(PurchasableOf(db, rows[0], line.companyId), id)
  {
    var exact, rows := ExactRows(catalog.mappings, line, seller), MatchingRows(db, line, seller);
    SameExactRows(line, catalog, db, seller);
    SameSingle(exact, rows);
    if |exact| == 1 {
      SingleVariantMeaning(line, catalog, policy, db, exact[0]);
    }
  }

  lemma SameExactRows(line: SuggestionLine, catalog: Catalog, db: Database, seller: string)
    requires FaithfulSnapshot(catalog, db, line.companyId)
    ensures multiset(ExactRows(catalog.mappings, line, seller)) == multiset(MatchingRows(db, line, seller))
  {
    var exact := (row: SupplierRow) => ExactRowFor(row, line, seller);
    forall row
      ensures multiset(Filter(exact, catalog.mappings))[row] == multiset(Filter(exact, db.rows))[row]
    {
      FilterCounts(exact, catalog.mappings, row);
      FilterCounts(exact, db.rows, row);
      FilterCounts((r: SupplierRow) => InScope(r.companyId, line.companyId), db.rows, row);
    }
  }

  lemma RowsRead(line: SuggestionLine, repository: PM.Repository, db: Database, seller: string)
    requires Answers(repository, db, line, seller)
    ensures var rows := MatchingRows(db, line, seller);
      var codes := CodesRead(repository, line, seller);
      codes.Some? && (|codes.value| == 1 <==> |rows| == 1) && (|rows| == 1 ==> codes.value[0] == CodeOf(rows[0]))
  {
    var rows := MatchingRows(db, line, seller);
    hide MatchingRows;
    var read :| BoundedRead(read, rows)
      && CodesRead(repository, line, seller) == Some(Map(CodeOf, read));
    SingleRead(read, rows);
  }

  lemma VariantsRead(repository: PM.Repository, db: Database, row: SupplierRow, companyId: int, id: int)
    requires AnswersVariants(repository, db, row, companyId)
    ensures var variants := repository.supplierProducts.value.variants(CodeOf(row), companyId);
      && variants.Some?
      && (PM.OutcomeOf(PM.SupplierProductCode, variants.value).productId == Some(id) <==>
            Only(ActiveOf(db, row, companyId), id))
  {
    var active := ActiveOf(db, row, companyId);
    assert forall v :: v in active ==> v.active;
    hide ActiveOf;
    var read :| BoundedRead(read, active)
      && repository.supplierProducts.value.variants(CodeOf(row), companyId) == Some(Map(AsProduct, read));
    SingleRead(read, active);
    AllActive(read, active);
  }

  lemma MatcherMeaning(line: SuggestionLine, repository: PM.Repository, db: Database, seller: string, id: int)
    requires Clean(line.sellerCode) == Some(seller) && line.companyId > 0 && Answers(repository, db, line, seller)
    ensures var rows := MatchingRows(db, line, seller);
      MatcherNames(line, repository, id) <==> |rows| == 1 && Only(ActiveOf(db, rows[0], line.companyId), id)
  {
    RowsRead(line, repository, db, seller);
    var rows := MatchingRows(db, line, seller);
    if |rows| == 1 {
      assert rows[0] in rows;
      assert rows[0] in db.rows;
      VariantsRead(repository, db, rows[0], line.companyId, id);
    }
    hide Answers, AnswersVariants, MatchingRows, ActiveOf, Only, PM.OutcomeOf;
  }

  lemma AllActive(read: seq<Variant>, active: seq<Variant>)
    requires BoundedRead(read, active) && forall v :: v in active ==> v.active
    ensures PM.OutcomeOf(PM.SupplierProductCode, Map(AsProduct, read))
         == PM.Outcome(Some(PM.SupplierProductCode), if |read| == 1 then Some(read[0].productId) else None, |read|)
  {
    var products := Map(AsProduct, read);
    forall p | p in products
      ensures PM.IsActive(p)
    {
      var i :| 0 <= i < |products| && products[i] == p;
      assert read[i] in multiset(read);
      assert read[i] in multiset(active);
    }
    KeepAll(products);
  }

  lemma {:induction false} KeepAll(products: seq<PM.Product>)
    requires forall p :: p in products ==> PM.IsActive(p)
    ensures Filter(PM.IsActive, products) == products
  {
    if products != [] {
      assert products[0] in products && forall p :: p in products[1..] ==> p in products;
      KeepAll(products[1..]);
      assert products == [products[0]] + products[1..];
    }
  }

  /** The exact agreement: T0 and the matcher name the same product, whichever it is, exactly when the one supplierinfo
      row (if there is one) leads to a single active variant precisely when it leads to a single purchasable one. */
  lemma AgreementExact(line: SuggestionLine, catalog: Catalog, policy: Policy, lex: Lexicon, repository: PM.Repository,
                       db: Database, seller: string)
    requires FaithfulSnapshot(catalog, db, line.companyId) && UniqueVariants(db.variants)
    requires Clean(line.sellerCode) == Some(seller) && line.companyId > 0 && Answers(repository, db, line, seller)
    ensures (forall id :: StaleNames(line, catalog, policy, lex, id) <==> MatcherNames(line, repository, id)) <==>
      var rows := MatchingRows(db, line, seller);
      |rows| == 1 ==>
        (|PurchasableOf(db, rows[0], line.companyId)| == 1 <==> |ActiveOf(db, rows[0], line.companyId)| == 1)
  {
    var rows := MatchingRows(db, line, seller);
    forall id
      ensures StaleNames(line, catalog, policy, lex, id) <==>
        |rows| == 1 && Only(PurchasableOf(db, rows[0], line.companyId), id)
      ensures MatcherNames(line, repository, id) <==> |rows| == 1 && Only(ActiveOf(db, rows[0], line.companyId), id)
    {
      StaleMeaning(line, catalog, policy, lex, db, seller, id);
      MatcherMeaning(line, repository, db, seller, id);
    }
    hide StaleNames, MatcherNames, FaithfulSnapshot, Answers, MatchingRows, PurchasableOf, ActiveOf, Only;
    if |rows| == 1 {
      PurchasableIsActive(db, rows[0], line.companyId);
      SameOnly(PurchasableOf(db, rows[0], line.companyId), ActiveOf(db, rows[0], line.companyId));
    }
  }

  lemma SameOnly(some: seq<Variant>, all: seq<Variant>)
    requires forall v :: v in some ==> v in all
    ensures (forall id :: Only(some, id) <==> Only(all, id)) <==> (|some| == 1 <==> |all| == 1)
  {
    if |some| == 1 {
      assert Only(some, some[0].productId) && some[0] in some;
    }
    if |all| == 1 {
      assert Only(all, all[0].productId);
    }
  }

  lemma PurchasableIsActive(db: Database, row: SupplierRow, companyId: int)
    ensures forall v :: v in PurchasableOf(db, row, companyId) ==> v in ActiveOf(db, row, companyId)
  {
  }

  /** Agreement holds for a row naming a purchasable variant, and for a template whose active variants are all
      purchasable. */
  lemma AgreementSuffices(db: Database, row: SupplierRow, companyId: int)
    requires forall v :: v in ActiveOf(db, row, companyId) ==> v.purchaseOk
    ensures PurchasableOf(db, row, companyId) == ActiveOf(db, row, companyId)
  {
    forall v | v in db.variants
      ensures (Eligible(v, companyId) && LeadsTo(row, v))
           == (v.active && InScope(v.companyId, companyId) && LeadsTo(row, v))
    {
      if v.active && InScope(v.companyId, companyId) && LeadsTo(row, v) {
        assert v in ActiveOf(db, row, companyId);
      }
    }
    SameFilter((v: Variant) => Eligible(v, companyId) && LeadsTo(row, v),
               (v: Variant) => v.active && InScope(v.companyId, companyId) && LeadsTo(row, v), db.variants);
  }

  function ExampleVariant(id: int, purchasable: bool): Variant {
    Variant(id, 3, "", None, true, purchasable, None, None)
  }

  function ExampleLine(): SuggestionLine {
    SuggestionLine("R", 1, 1, "1", Some(7), Some("A1"), None, None)
  }

  function ExampleRow(): SupplierRow {
    SupplierRow(1, 7, Some("A1"), 3, None, None)
  }

  function ExampleDatabase(): Database {
    Database([ExampleVariant(10, true), ExampleVariant(11, false)], [ExampleRow()])
  }

  lemma ExampleReads()
    ensures MatchingRows(ExampleDatabase(), ExampleLine(), "A1") == [ExampleRow()]
    ensures PurchasableOf(ExampleDatabase(), ExampleRow(), 1) == [ExampleVariant(10, true)]
    ensures |ActiveOf(ExampleDatabase(), ExampleRow(), 1)| == 2
  {
  }

  lemma ExampleCode()
    ensures Clean(ExampleLine().sellerCode) == Some("A1")
  {
  }

  /** A template with two active variants of which one is purchasable: T0 names it, the matcher finds two. */
  lemma TwoActiveOnePurchasable(policy: Policy, lex: Lexicon, repository: PM.Repository, catalog: Catalog)
    requires FaithfulSnapshot(catalog, ExampleDatabase(), 1)
      && Answers(repository, ExampleDatabase(), ExampleLine(), "A1")
    ensures StaleNames(ExampleLine(), catalog, policy, lex, 10) && !MatcherNames(ExampleLine(), repository, 10)
  {
    ExampleReads();
    ExampleCode();
    hide StaleNames, MatcherNames, MatchingRows, PurchasableOf, ActiveOf, FaithfulSnapshot, Answers, Clean;
    StaleMeaning(ExampleLine(), catalog, policy, lex, ExampleDatabase(), "A1", 10);
    MatcherMeaning(ExampleLine(), repository, ExampleDatabase(), "A1", 10);
  }
}
