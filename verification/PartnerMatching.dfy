/** Deterministic supplier matching by tax number (`app/matching/partner.py`): a company and its contacts are one
    commercial counterparty. */
module PartnerMatching {
  import opened Core
  import opened MatchTypes
  import opened ProductMatching
  import Sorting

  datatype Partner = Partner(id: int, taxNumber: Option<string>, active: bool, companyId: Option<int>,
                             commercialId: Option<int>)

  datatype Group = Group(commercialId: int, partner: Option<Partner>, contacts: seq<Partner>)

  type FindByTax = string -> Option<seq<Partner>>
  type FindByIds = seq<int> -> Option<seq<Partner>>

  predicate IsActivePartner(p: Partner) {
    p.active
  }

  /** `canonical_partner_id`. */
  function Canonical(p: Partner): int {
    if p.commercialId.Some? then p.commercialId.value else p.id
  }

  /** `{p.id: p for p in rows}.get(id)`: the last row of an id wins. */
  function ById(rows: seq<Partner>, id: int): Option<Partner> {
    if rows == [] then None
    else if rows[|rows| - 1].id == id then Some(rows[|rows| - 1])
    else ById(rows[..|rows| - 1], id)
  }

  function ContactsOf(candidates: seq<Partner>, id: int): seq<Partner> {
    Filter((p: Partner) => Canonical(p) == id, candidates)
  }

  function Keys(candidates: seq<Partner>): seq<int> {
    FirstSeen(Map(Canonical, candidates))
  }

  function Missing(candidates: seq<Partner>): seq<int> {
    Filter((id: int) => ById(candidates, id).None?, Keys(candidates))
  }

  /** The partners read by id in one call; nothing is read when every canonical partner is a candidate. */
  function Loaded(candidates: seq<Partner>, find: FindByIds): Option<seq<Partner>> {
    if Missing(candidates) == [] then Some([]) else find(Missing(candidates))
  }

  function OwnRecord(candidates: seq<Partner>, loaded: seq<Partner>, id: int): Option<Partner> {
    if ById(candidates, id).Some? then ById(candidates, id) else ById(loaded, id)
  }

  function GroupOf(candidates: seq<Partner>, loaded: seq<Partner>, id: int): Group {
    Group(id, OwnRecord(candidates, loaded, id), ContactsOf(candidates, id))
  }

  function Groups(candidates: seq<Partner>, loaded: seq<Partner>): seq<Group> {
    Map((id: int) => GroupOf(candidates, loaded, id), Keys(candidates))
  }

  /** The contact belongs to group `id`, or not. */
  function Contact(p: Partner, id: int): seq<Partner> {
    if id == Canonical(p) then [p] else []
  }

  lemma NextContact(candidates: seq<Partner>, i: nat)
    requires i < |candidates|
    ensures var key := Canonical(candidates[i]);
      && Keys(candidates[..i + 1]) == (if key in Keys(candidates[..i]) then Keys(candidates[..i])
                                       else Keys(candidates[..i]) + [key])
      && (forall id ::
            ContactsOf(candidates[..i + 1], id) == ContactsOf(candidates[..i], id) + Contact(candidates[i], id))
  {
    assert candidates[..i + 1] == candidates[..i] + [candidates[i]];
    var keys := Map(Canonical, candidates[..i + 1]);
    assert keys[..i] == Map(Canonical, candidates[..i]);
    forall id
      ensures ContactsOf(candidates[..i + 1], id) == ContactsOf(candidates[..i], id) + Contact(candidates[i], id)
    {
      FilterConcat((p: Partner) => Canonical(p) == id, candidates[..i], [candidates[i]]);
    }
  }

  lemma NoContacts()
    ensures Keys([]) == [] && forall id :: ContactsOf([], id) == []
  {
  }

  /** The dictionary of lists, in first-seen order. */
  method CollectContacts(candidates: seq<Partner>) returns (order: seq<int>, contacts: map<int, seq<Partner>>)
    ensures order == Keys(candidates)
    ensures forall id :: id in order ==> id in contacts && contacts[id] == ContactsOf(candidates, id)
  {
    hide Keys, ContactsOf;
    order, contacts := [], map[];
    NoContacts();
    for i := 0 to |candidates|
      invariant order == Keys(candidates[..i])
      invariant forall id :: id in contacts <==> id in order
      invariant forall id :: (if id in contacts then contacts[id] else []) == ContactsOf(candidates[..i], id)
    {
      var key := Canonical(candidates[i]);
      NextContact(candidates, i);
      if key !in contacts {
        order, contacts := order + [key], contacts[key := []];
      }
      contacts := contacts[key := contacts[key] + [candidates[i]]];
    }
    assert candidates[..|candidates|] == candidates;
  }

  /** `group_by_commercial_partner`. */
  method GroupByCommercialPartner(candidates: seq<Partner>, find: FindByIds) returns (r: Attempt<seq<Group>>)
    ensures r.Raised? <==> Loaded(candidates, find).None?
    ensures r.Done? ==> r.value == Groups(candidates, Loaded(candidates, find).value)
  {
    hide Keys, ContactsOf, OwnRecord, Loaded, Missing;
    var order, contacts := CollectContacts(candidates);
    var loaded := Loaded(candidates, find);
    if loaded.None? {
      return Raised;
    }
    var groups := [];
    for i := 0 to |order|
      invariant |groups| == i
      invariant forall j :: 0 <= j < i ==> groups[j] == GroupOf(candidates, loaded.value, order[j])
    {
      assert order[i] in order;
      groups := groups + [Group(order[i], OwnRecord(candidates, loaded.value, order[i]), contacts[order[i]])];
    }
    return Done(groups);
  }

  /** The groups partition the candidates: every candidate is in exactly one group, its own, as often as it was read. */
  lemma GroupsPartition(candidates: seq<Partner>, loaded: seq<Partner>)
    ensures var groups := Groups(candidates, loaded);
      && (forall i, j :: 0 <= i < j < |groups| ==> groups[i].commercialId != groups[j].commercialId)
      && (forall i :: 0 <= i < |groups| ==> groups[i].contacts != [])
      && (forall i, p :: 0 <= i < |groups| ==>
            multiset(groups[i].contacts)[p] == if Canonical(p) == groups[i].commercialId then multiset(candidates)[p]
                                               else 0)
      && (forall p :: p in candidates ==> exists i :: 0 <= i < |groups| && groups[i].commercialId == Canonical(p))
  {
    var groups := Groups(candidates, loaded);
    KeysMeaning(candidates);
    forall i | 0 <= i < |groups|
      ensures groups[i].contacts != []
    {
      assert Keys(candidates)[i] in Keys(candidates);
      var p :| p in candidates && Canonical(p) == Keys(candidates)[i];
      assert p in groups[i].contacts;
    }
    forall i, p | 0 <= i < |groups|
      ensures multiset(groups[i].contacts)[p] == if Canonical(p) == groups[i].commercialId then multiset(candidates)[p]
                                                 else 0
    {
      Sorting.FilterCounts((q: Partner) => Canonical(q) == groups[i].commercialId, candidates, p);
    }
    forall p | p in candidates
      ensures exists i :: 0 <= i < |groups| && groups[i].commercialId == Canonical(p)
    {
      assert Canonical(p) in Keys(candidates);
      var i :| 0 <= i < |Keys(candidates)| && Keys(candidates)[i] == Canonical(p);
      assert groups[i].commercialId == Canonical(p);
    }
  }

  lemma KeysMeaning(candidates: seq<Partner>)
    ensures Distinct(Keys(candidates))
    ensures forall id :: id in Keys(candidates) <==> exists p :: p in candidates && Canonical(p) == id
  {
    var ids := Map(Canonical, candidates);
    FirstSeenMeaning(ids);
    forall id
      ensures id in ids <==> exists p :: p in candidates && Canonical(p) == id
    {
      if p :| p in candidates && Canonical(p) == id {
        var i :| 0 <= i < |candidates| && candidates[i] == p;
        assert ids[i] == id;
      }
      if id in ids {
        var i :| 0 <= i < |ids| && ids[i] == id;
        assert candidates[i] in candidates;
      }
    }
  }

  /** `_is_valid_canonical_partner`. */
  predicate ValidCanonical(group: Group, tax: string, company: Option<int>) {
    && group.partner.Some? && group.partner.value.id == group.commercialId
    && Canonical(group.partner.value) == group.partner.value.id && group.partner.value.active
    && Clean(group.partner.value.taxNumber) == Some(tax)
    && (company.None? || group.partner.value.companyId == company || group.partner.value.companyId.None?)
  }

  /** `match_invoice`. */
  function MatchPartner(taxNumber: Option<string>, company: Option<int>, findByTax: FindByTax,
                        findByIds: FindByIds): Attempt<PartnerMatch> {
    var tax := Clean(taxNumber);
    if tax.None? then Done(PartnerMatch(InvalidInput, None, 0))
    else if findByTax(tax.value).None? then Raised
    else
      var active := Filter(IsActivePartner, findByTax(tax.value).value);
      if active == [] then Done(PartnerMatch(NotFound, None, 0))
      else if Loaded(active, findByIds).None? then Raised
      else Done(GroupVerdict(Groups(active, Loaded(active, findByIds).value), tax.value, company))
  }

  function GroupVerdict(groups: seq<Group>, tax: string, company: Option<int>): PartnerMatch {
    if |groups| != 1 then PartnerMatch(MultipleMatches, None, |groups|)
    else if !ValidCanonical(groups[0], tax, company) then PartnerMatch(MultipleMatches, None, |groups[0].contacts|)
    else PartnerMatch(Matched, Some(groups[0].commercialId), 1)
  }

  /** The record that stands for partner `id`, and what proves that it is the supplier. */
  ghost predicate Proves(record: Option<Partner>, id: int, tax: string, company: Option<int>) {
    && record.Some? && record.value.id == id && record.value.active
    && (record.value.commercialId.None? || record.value.commercialId.value == id)
    && Clean(record.value.taxNumber) == Some(tax)
    && (company.None? || record.value.companyId.None? || record.value.companyId == company)
  }

  ghost predicate AllCanonical(rows: seq<Partner>, id: int) {
    forall p :: p in rows ==> Canonical(p) == id
  }

  lemma OneKey(rows: seq<Partner>)
    requires rows != []
    ensures |Keys(rows)| >= 1 && Keys(rows)[0] == Canonical(rows[0])
    ensures |Keys(rows)| == 1 <==> AllCanonical(rows, Canonical(rows[0]))
  {
    KeysMeaning(rows);
    FirstKey(Map(Canonical, rows));
    assert Map(Canonical, rows)[0] == Canonical(rows[0]);
    var keys := Keys(rows);
    hide Keys;
    if |keys| > 1 {
      assert keys[1] in keys && keys[0] != keys[1];
    } else {
      forall p | p in rows
        ensures Canonical(p) == Canonical(rows[0])
      {
        assert Canonical(p) in keys;
      }
    }
  }

  lemma {:induction false} FirstKey(xs: seq<int>)
    requires xs != []
    ensures |FirstSeen(xs)| >= 1 && FirstSeen(xs)[0] == xs[0]
  {
    if |xs| > 1 {
      FirstKey(xs[..|xs| - 1]);
    } else {
      assert xs[..0] == [];
    }
  }

  /** The whole verdict: MATCHED p exactly when there is an active candidate, every active candidate belongs to p and
      p's own record proves it; NOT_FOUND exactly without active candidates; ambiguous otherwise. */
  lemma MatchedExactly(taxNumber: Option<string>, company: Option<int>, findByTax: FindByTax, findByIds: FindByIds,
                       id: int)
    requires Clean(taxNumber).Some? && findByTax(Clean(taxNumber).value).Some?
    requires MatchPartner(taxNumber, company, findByTax, findByIds).Done?
    ensures var m := MatchPartner(taxNumber, company, findByTax, findByIds).value;
      var active := Filter(IsActivePartner, findByTax(Clean(taxNumber).value).value);
      && (m.status == NotFound <==> active == [])
      && (m.status == Matched <==> m.partnerId.Some?) && m.status != InvalidInput
      && (m.partnerId == Some(id) <==>
            && active != [] && AllCanonical(active, id)
            && Proves(OwnRecord(active, Loaded(active, findByIds).value, id), id, Clean(taxNumber).value, company))
  {
    var active := Filter(IsActivePartner, findByTax(Clean(taxNumber).value).value);
    if active != [] {
      OneKey(active);
      assert active[0] in active;
      hide Keys, OwnRecord, Loaded;
    }
  }

  // ----- row order

  lemma {:induction false} ByIdMeaning(rows: seq<Partner>, p: Partner)
    requires forall i, j :: 0 <= i < j < |rows| ==> rows[i].id != rows[j].id
    ensures ById(rows, p.id) == Some(p) <==> p in rows
  {
    if rows != [] {
      var n := |rows| - 1;
      ByIdMeaning(rows[..n], p);
      assert rows == rows[..n] + [rows[n]];
      if p in rows[..n] {
        var i :| 0 <= i < n && rows[i] == p;
      }
    }
  }

  lemma {:induction false} ByIdFinds(rows: seq<Partner>, id: int)
    ensures ById(rows, id).Some? ==> ById(rows, id).value in rows && ById(rows, id).value.id == id
  {
    if rows != [] {
      ByIdFinds(rows[..|rows| - 1], id);
    }
  }

  lemma SameById(xs: seq<Partner>, ys: seq<Partner>, id: int)
    requires forall p :: p in xs <==> p in ys
    requires forall i, j :: 0 <= i < j < |xs| ==> xs[i].id != xs[j].id
    requires forall i, j :: 0 <= i < j < |ys| ==> ys[i].id != ys[j].id
    ensures ById(xs, id) == ById(ys, id)
  {
    ByIdFinds(xs, id);
    ByIdFinds(ys, id);
    if ById(xs, id).Some? {
      ByIdMeaning(ys, ById(xs, id).value);
    } else if ById(ys, id).Some? {
      ByIdMeaning(xs, ById(ys, id).value);
    }
  }

  /** The order in which Odoo returns the rows never matters: two answers with the same rows give one verdict. */
  lemma RowOrderIrrelevant(taxNumber: Option<string>, company: Option<int>, one: FindByTax, two: FindByTax,
                           findByIds: FindByIds)
    requires Clean(taxNumber).Some?
    requires var tax := Clean(taxNumber).value;
      one(tax).Some? && two(tax).Some? && SameRows(one(tax).value, two(tax).value)
    requires MatchPartner(taxNumber, company, one, findByIds).Done?
      && MatchPartner(taxNumber, company, two, findByIds).Done?
    ensures var m := MatchPartner(taxNumber, company, one, findByIds).value;
      var n := MatchPartner(taxNumber, company, two, findByIds).value;
      m.status == n.status && m.partnerId == n.partnerId
  {
    var tax := Clean(taxNumber).value;
    var xs, ys := Filter(IsActivePartner, one(tax).value), Filter(IsActivePartner, two(tax).value);
    FilterUnique(one(tax).value);
    FilterUnique(two(tax).value);
    assert forall p :: p in xs <==> p in ys;
    forall id: int
      ensures MatchPartner(taxNumber, company, one, findByIds).value.partnerId == Some(id)
         <==> MatchPartner(taxNumber, company, two, findByIds).value.partnerId == Some(id)
    {
      MatchedExactly(taxNumber, company, one, findByIds, id);
      MatchedExactly(taxNumber, company, two, findByIds, id);
      if xs != [] && ys != [] && AllCanonical(xs, id) {
        SameOwnRecord(xs, ys, findByIds, id);
      }
    }
    MatchedExactly(taxNumber, company, one, findByIds, 0);
    MatchedExactly(taxNumber, company, two, findByIds, 0);
    NonEmptyTogether(xs, ys);
  }

  ghost predicate UniqueIds(rows: seq<Partner>) {
    forall i, j :: 0 <= i < j < |rows| ==> rows[i].id != rows[j].id
  }

  ghost predicate SameRows(xs: seq<Partner>, ys: seq<Partner>) {
    UniqueIds(xs) && UniqueIds(ys) && forall p :: p in xs <==> p in ys
  }

  lemma NonEmptyTogether(xs: seq<Partner>, ys: seq<Partner>)
    requires forall p :: p in xs <==> p in ys
    ensures xs == [] <==> ys == []
  {
    if xs != [] {
      assert xs[0] in ys;
    }
    if ys != [] {
      assert ys[0] in xs;
    }
  }

  lemma {:induction false} FilterUnique(rows: seq<Partner>)
    requires UniqueIds(rows)
    ensures UniqueIds(Filter(IsActivePartner, rows))
  {
    if rows != [] {
      FilterUnique(rows[1..]);
      var rest := Filter(IsActivePartner, rows[1..]);
      forall i | 0 <= i < |rest|
        ensures rest[i].id != rows[0].id
      {
        assert rest[i] in rows[1..];
      }
    }
  }

  lemma SameOwnRecord(xs: seq<Partner>, ys: seq<Partner>, find: FindByIds, id: int)
    requires UniqueIds(xs) && UniqueIds(ys) && (forall p :: p in xs <==> p in ys)
    requires xs != [] && ys != [] && AllCanonical(xs, id)
    requires Loaded(xs, find).Some? && Loaded(ys, find).Some?
    ensures OwnRecord(xs, Loaded(xs, find).value, id) == OwnRecord(ys, Loaded(ys, find).value, id)
  {
    assert xs[0] in xs && ys[0] in ys;
    OneKey(xs);
    OneKey(ys);
    assert Keys(xs) == [id] == Keys(ys);
    SameById(xs, ys, id);
    assert [id][1..] == [];
  }
}
