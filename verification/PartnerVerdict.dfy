/** What the supplier matcher and the precedence rule answer, read off the partner records alone: no groups, no
    dictionaries (`app/matching/partner.py` and `app/application/effective_supplier.py`). */
module PartnerVerdict {
  import opened Core
  import opened MatchTypes
  import opened ProductMatching
  import opened PartnerMatching
  import opened EffectiveSupplier

  // ----- the tax-number match

  /** The record is partner `id` or one of its contacts. */
  predicate BelongsTo(p: Partner, id: int) {
    p.commercialId == Some(id) || (p.commercialId == None && p.id == id)
  }

  /** The last record of an id. */
  ghost predicate LastOf(rows: seq<Partner>, id: int, record: Partner) {
    && record.id == id
    && exists k :: 0 <= k < |rows| && rows[k] == record && forall j :: k < j < |rows| ==> rows[j].id != id
  }

  predicate Holds(rows: seq<Partner>, id: int) {
    exists k :: 0 <= k < |rows| && rows[k].id == id
  }

  /** The partner's own record: among the active rows, or else read by its id. */
  ghost predicate Own(active: seq<Partner>, find: FindByIds, id: int, record: Partner) {
    || LastOf(active, id, record)
    || (!Holds(active, id) && find([id]).Some? && LastOf(find([id]).value, id, record))
  }

  /** An active record that is its own commercial partner, with the tax number, in the company or in none. */
  predicate Vouches(record: Partner, id: int, tax: string, company: Option<int>) {
    && record.active && record.id == id && BelongsTo(record, id) && Clean(record.taxNumber) == Some(tax)
    && (company == None || record.companyId == None || record.companyId == company)
  }

  lemma {:induction false} LastMeaning(rows: seq<Partner>, id: int, record: Partner)
    ensures ById(rows, id) == Some(record) <==> LastOf(rows, id, record)
  {
    if rows != [] {
      var n := |rows| - 1;
      LastMeaning(rows[..n], id, record);
      assert forall k :: 0 <= k < n ==> rows[..n][k] == rows[k];
      if rows[n].id == id {
        assert LastOf(rows, id, rows[n]);
      }
    }
  }

  lemma {:induction false} HeldMeaning(rows: seq<Partner>, id: int)
    ensures ById(rows, id).Some? <==> Holds(rows, id)
  {
    if rows != [] {
      var n := |rows| - 1;
      HeldMeaning(rows[..n], id);
      assert forall k :: 0 <= k < n ==> rows[..n][k] == rows[k];
    }
  }

  lemma CanonicalMeaning(p: Partner, id: int)
    ensures Canonical(p) == id <==> BelongsTo(p, id)
  {
  }

  /** The ids read in one batch: the commercial partners that are not active rows themselves, each once. */
  lemma MissingExactly(active: seq<Partner>, id: int)
    ensures Distinct(Missing(active))
    ensures id in Missing(active) <==> (exists p :: p in active && BelongsTo(p, id)) && !Holds(active, id)
  {
    KeysMeaning(active);
    forall p: Partner, key: int
      ensures Canonical(p) == key <==> BelongsTo(p, key)
    {
      CanonicalMeaning(p, key);
    }
    forall key: int
      ensures ById(active, key).Some? <==> Holds(active, key)
    {
      HeldMeaning(active, key);
    }
    FilteredDistinct((key: int) => ById(active, key).None?, Keys(active));
    hide Holds, BelongsTo, Canonical, ById, Keys;
  }

  lemma {:induction false} FilteredDistinct<A(!new)>(f: A -> bool, xs: seq<A>)
    requires Distinct(xs)
    ensures Distinct(Filter(f, xs))
  {
    if xs != [] {
      FilteredDistinct(f, xs[1..]);
      assert xs[0] !in xs[1..];
    }
  }

  lemma OwnMeaning(active: seq<Partner>, find: FindByIds, id: int, record: Partner)
    requires active != [] && AllCanonical(active, id) && Loaded(active, find).Some?
    ensures OwnRecord(active, Loaded(active, find).value, id) == Some(record) <==> Own(active, find, id, record)
  {
    LastMeaning(active, id, record);
    HeldMeaning(active, id);
    assert active[0] in active;
    OneKey(active);
    assert Keys(active) == [id];
    assert [id][1..] == [];
    assert Missing(active) == if Holds(active, id) then [] else [id];
    if find([id]).Some? {
      LastMeaning(find([id]).value, id, record);
    }
    hide LastOf, Holds, Keys, Missing;
    assert [id] != [];
  }

  /** MATCHED p exactly when some row is active, every active row belongs to p, and p's own record vouches for it;
      INVALID_INPUT exactly without a tax number, NOT_FOUND exactly without an active row, and otherwise ambiguous. */
  lemma PartnerExactly(taxNumber: Option<string>, company: Option<int>, findByTax: FindByTax, findByIds: FindByIds,
                       id: int)
    requires MatchPartner(taxNumber, company, findByTax, findByIds).Done?
    ensures var m := MatchPartner(taxNumber, company, findByTax, findByIds).value;
      && (m.status == InvalidInput <==> Clean(taxNumber) == None)
      && (m.status == Matched <==> m.partnerId.Some?)
      && (Clean(taxNumber).Some? ==>
            && findByTax(Clean(taxNumber).value).Some?
            && var rows := findByTax(Clean(taxNumber).value).value;
            && (m.status == NotFound <==> forall p :: p in rows ==> !p.active)
            && (m.partnerId == Some(id) <==> Supplied(rows, findByIds, id, Clean(taxNumber).value, company)))
  {
    if Clean(taxNumber).Some? {
      var tax := Clean(taxNumber).value;
      var rows := findByTax(tax).value;
      var active := Filter(IsActivePartner, rows);
      MatchedExactly(taxNumber, company, findByTax, findByIds, id);
      if active != [] {
        assert active[0] in active;
      }
      if active != [] && AllCanonical(active, id) {
        SuppliedMeaning(rows, findByIds, id, tax, company);
      }
      AllBelong(rows, id);
      hide Own, Proves, Vouches, OwnRecord, Loaded, Clean, BelongsTo, Canonical, Groups, GroupVerdict;
    } else {
      hide Clean;
    }
  }

  lemma AllBelong(rows: seq<Partner>, id: int)
    ensures AllCanonical(Filter(IsActivePartner, rows), id) <==> forall p :: p in rows && p.active ==> BelongsTo(p, id)
  {
    forall p: Partner
      ensures Canonical(p) == id <==> BelongsTo(p, id)
    {
      CanonicalMeaning(p, id);
    }
    hide Canonical, BelongsTo;
  }

  lemma SuppliedMeaning(rows: seq<Partner>, find: FindByIds, id: int, tax: string, company: Option<int>)
    requires var active := Filter(IsActivePartner, rows);
      active != [] && AllCanonical(active, id) && Loaded(active, find).Some?
    ensures var active := Filter(IsActivePartner, rows);
      Proves(OwnRecord(active, Loaded(active, find).value, id), id, tax, company) <==>
      exists record :: Own(active, find, id, record) && Vouches(record, id, tax, company)
  {
    var active := Filter(IsActivePartner, rows);
    var own := OwnRecord(active, Loaded(active, find).value, id);
    forall record
      ensures own == Some(record) <==> Own(active, find, id, record)
    {
      OwnMeaning(active, find, id, record);
    }
    hide Own, OwnRecord, Clean;
    if own.Some? {
      assert Own(active, find, id, own.value);
    }
  }

  /** The partner that the tax number's rows supply. */
  ghost predicate Supplied(rows: seq<Partner>, find: FindByIds, id: int, tax: string, company: Option<int>) {
    && (exists p :: p in rows && p.active) && (forall p :: p in rows && p.active ==> BelongsTo(p, id))
    && exists record :: Own(Filter(IsActivePartner, rows), find, id, record) && Vouches(record, id, tax, company)
  }

  /** The match fails exactly when a lookup it needs does: by tax number, or by the ids of the commercial partners that
      are not active rows themselves, when there are any. */
  lemma PartnerRaisedExactly(taxNumber: Option<string>, company: Option<int>, findByTax: FindByTax,
                             findByIds: FindByIds)
    ensures MatchPartner(taxNumber, company, findByTax, findByIds).Raised? <==>
      && Clean(taxNumber).Some?
      && (findByTax(Clean(taxNumber).value) == None
          || var active := Filter(IsActivePartner, findByTax(Clean(taxNumber).value).value);
             Missing(active) != [] && findByIds(Missing(active)) == None)
  {
    hide Clean, Groups, GroupVerdict;
  }

  /** An ambiguous match counts the commercial partners, or the rows of the single one that does not vouch. */
  lemma CountExactly(taxNumber: Option<string>, company: Option<int>, findByTax: FindByTax, findByIds: FindByIds)
    requires MatchPartner(taxNumber, company, findByTax, findByIds).Done?
    requires MatchPartner(taxNumber, company, findByTax, findByIds).value.status == MultipleMatches
    ensures var active := Filter(IsActivePartner, findByTax(Clean(taxNumber).value).value);
      var partners := set p | p in active :: Canonical(p);
      MatchPartner(taxNumber, company, findByTax, findByIds).value.count ==
      if |partners| == 1 then |active| else |partners|
  {
    var active := Filter(IsActivePartner, findByTax(Clean(taxNumber).value).value);
    var partners := set p | p in active :: Canonical(p);
    KeysMeaning(active);
    DistinctCount(Keys(active), partners);
    hide Clean, ValidCanonical, OwnRecord, Loaded;
    if |Keys(active)| == 1 {
      OneKey(active);
      AllKept((p: Partner) => Canonical(p) == Keys(active)[0], active);
    }
  }

  lemma {:induction false} AllKept<A(!new)>(f: A -> bool, xs: seq<A>)
    requires forall x :: x in xs ==> f(x)
    ensures Filter(f, xs) == xs
  {
    if xs != [] {
      AllKept(f, xs[1..]);
    }
  }

  lemma {:induction false} DistinctCount<A(!new)>(xs: seq<A>, s: set<A>)
    requires Distinct(xs) && forall x :: x in xs <==> x in s
    ensures |s| == |xs|
  {
    if xs == [] {
      assert s == {};
    } else {
      var n := |xs| - 1;
      assert xs == xs[..n] + [xs[n]];
      assert xs[n] !in xs[..n];
      DistinctCount(xs[..n], s - {xs[n]});
    }
  }

  // ----- the precedence rule

  /** A MATCHED result with a positive partner id. */
  predicate Names(raw: Option<PartnerMatch>, id: int) {
    raw.Some? && raw.value.status == Matched && raw.value.partnerId == Some(id) && id > 0
  }

  /** The tax-number match wins when it names a partner; otherwise the accepted resolution's partner, under its own
      origin and as a certain match; otherwise nobody. */
  lemma ResolveExactly(raw: Option<PartnerMatch>, accepted: Option<AcceptedSupplier>)
    ensures Resolve(raw, accepted) ==
      if raw.Some? && raw.value.partnerId.Some? && Names(raw, raw.value.partnerId.value) then
        Some(Effective(raw.value.partnerId.value, Deterministic, raw.value))
      else if accepted.Some? then
        Some(Effective(accepted.value.partnerId, accepted.value.origin,
                       PartnerMatch(Matched, Some(accepted.value.partnerId), 1)))
      else None
    ensures forall id :: ProductSupplier(raw) == Some(id) <==> Names(raw, id)
  {
  }

  /** Reclassification and the resolver name different suppliers exactly when the raw result is MATCHED without naming a
      positive partner while an accepted resolution is proven. */
  lemma DisagreeExactly(raw: PartnerMatch, lookup: () -> Attempt<AcceptedLookup>)
    requires WellFormedLookup(lookup()) && lookup().Done?
    ensures ReclassifiedSupplier(raw, lookup).Done? && ResolveLazily(Done(raw), lookup).Done?
    ensures ReclassifiedSupplier(raw, lookup).value != PartnerOf(ResolveLazily(Done(raw), lookup).value) <==>
      && raw.status == Matched && (raw.partnerId == None || raw.partnerId.value <= 0)
      && lookup().value.Proven?
  {
    ReclassificationAgrees(raw, lookup);
  }

  /** Which remediation modes are accepted, and as what. */
  lemma OriginExactly(mode: string)
    ensures AcceptedOrigin(mode) == Some(MatchExisting) <==> mode == "match_existing"
    ensures AcceptedOrigin(mode) == Some(CreatePermanentSupplier) <==> mode == "create_permanent_supplier"
    ensures AcceptedOrigin(mode) == Some(OneOffVendor) <==> mode == "one_off_vendor"
    ensures AcceptedOrigin(mode) != Some(Deterministic)
    ensures AcceptedOrigin(mode) == None <==> mode !in {"match_existing", "create_permanent_supplier", "one_off_vendor"}
  {
  }

  /** An accepted resolution is used under the origin of its mode and for its own partner, which is the single record
      read for it, its own commercial partner, in the company or in none; whether it is active does not matter. */
  lemma AcceptedOnlyWhenProven(effect: Effect, company: int, read: int -> Option<seq<Partner>>, origin: Origin)
    ensures LookupAccepted(Some(effect), company, read) == Done(Proven(AcceptedSupplier(origin, effect.partnerId))) <==>
      && AcceptedOrigin(effect.mode) == Some(origin) && effect.partnerId > 0 && read(effect.partnerId).Some?
      && SoleRecord(read(effect.partnerId).value, effect.partnerId, company)
  {
    if effect.partnerId > 0 && read(effect.partnerId).Some? {
      SoleMeaning(read(effect.partnerId).value, effect.partnerId, company);
    }
    hide RowsOf, SoleRecord;
  }

  ghost predicate OnlyAt<A(!new)>(f: A -> bool, xs: seq<A>, k: int) {
    0 <= k < |xs| && f(xs[k]) && forall j :: 0 <= j < |xs| && j != k ==> !f(xs[j])
  }

  lemma {:induction false} FilterNone<A(!new)>(f: A -> bool, xs: seq<A>)
    ensures Filter(f, xs) == [] <==> forall j :: 0 <= j < |xs| ==> !f(xs[j])
  {
    if xs != [] {
      FilterNone(f, xs[1..]);
      assert forall j :: 0 < j < |xs| ==> xs[j] == xs[1..][j - 1];
    }
  }

  lemma {:induction false} FilterOne<A(!new)>(f: A -> bool, xs: seq<A>, x: A)
    ensures Filter(f, xs) == [x] <==> exists k :: OnlyAt(f, xs, k) && xs[k] == x
  {
    if xs != [] {
      var rest := xs[1..];
      assert forall j :: 0 < j < |xs| ==> xs[j] == rest[j - 1];
      if f(xs[0]) {
        FilterNone(f, rest);
        if Filter(f, rest) == [] {
          assert OnlyAt(f, xs, 0);
        }
      } else {
        FilterOne(f, rest, x);
        if k :| OnlyAt(f, rest, k) && rest[k] == x {
          assert OnlyAt(f, xs, k + 1);
        }
        if k :| OnlyAt(f, xs, k) && xs[k] == x {
          assert OnlyAt(f, rest, k - 1);
        }
      }
    }
  }

  predicate OwnPartner(p: Partner, id: int, company: int) {
    BelongsTo(p, id) && (p.companyId == None || p.companyId == Some(company))
  }

  /** A single record of the id is read, and it is its own commercial partner in the company or in none. */
  ghost predicate SoleRecord(rows: seq<Partner>, id: int, company: int) {
    exists k ::
      && 0 <= k < |rows| && rows[k].id == id && OwnPartner(rows[k], id, company)
      && forall j :: 0 <= j < |rows| && j != k ==> rows[j].id != id
  }

  lemma SoleMeaning(rows: seq<Partner>, id: int, company: int)
    ensures SoleRecord(rows, id, company) <==> |RowsOf(rows, id)| == 1 && OwnPartner(RowsOf(rows, id)[0], id, company)
    ensures |RowsOf(rows, id)| == 1 ==> RowsOf(rows, id)[0].id == id
  {
    var found := RowsOf(rows, id);
    var f := (row: Partner) => row.id == id;
    if |found| == 1 {
      FilterOne(f, rows, found[0]);
      assert found == [found[0]];
      var k :| OnlyAt(f, rows, k) && rows[k] == found[0];
    }
    hide OwnPartner;
    if SoleRecord(rows, id, company) {
      var k :| 0 <= k < |rows| && rows[k].id == id && OwnPartner(rows[k], id, company)
               && forall j :: 0 <= j < |rows| && j != k ==> rows[j].id != id;
      assert OnlyAt(f, rows, k);
      FilterOne(f, rows, rows[k]);
    }
  }
}
