/**
  The companies map page (`companies_map_view`): addresses from
  `crm.address.list` are composed into one string per company and joined
  onto the active companies; the page shows the companies that have one.
 */
module CompanyMap {
  import opened Wrappers
  import opened PyStr
  import opened PyValue

  /** An item of `crm.address.list` that is a dict: `ENTITY_ID`, `COUNTRY`, `REGION`, `CITY`, `ADDRESS_1`. */
  datatype AddressRecord = AddressRecord(
    entityId: Scalar,
    country: Option<string>,
    region: Option<string>,
    city: Option<string>,
    address1: Option<string>)

  /** An item of `crm.company.list` that is a dict: `ID` and `TITLE`. */
  datatype CompanyRecord = CompanyRecord(id: Scalar, title: Option<string>)

  /** An entry of `companies`: `{"id", "title", "address"}`. */
  datatype MapCompany = MapCompany(id: string, title: string, address: string)

  /** `str(v or "").strip()`. */
  function IdText(v: Scalar): string {
    if Truthy(v) then Strip(StrOf(v)) else ""
  }

  /** The parts that are truthy, in order. */
  function NonEmptyParts(parts: seq<Option<string>>): (r: seq<string>)
    ensures forall i :: 0 <= i < |r| ==> r[i] != ""
  {
    if parts == [] then []
    else (if OrEmpty(parts[0]) != "" then [parts[0].value] else []) + NonEmptyParts(parts[1..])
  }

  /** `", ".join(xs)`. */
  function JoinComma(xs: seq<string>): string {
    if xs == [] then "" else if |xs| == 1 then xs[0] else xs[0] + ", " + JoinComma(xs[1..])
  }

  /** The address parts in the order they are joined. */
  function Parts(a: AddressRecord): seq<Option<string>> {
    [a.country, a.region, a.city, a.address1]
  }

  /** `", ".join(p for p in parts if p)`. */
  function AddressOf(a: AddressRecord): string {
    JoinComma(NonEmptyParts(Parts(a)))
  }

  /** Joining non-empty strings gives "" only for no strings at all. */
  lemma JoinCommaEmpty(xs: seq<string>)
    requires forall i :: 0 <= i < |xs| ==> xs[i] != ""
    ensures JoinComma(xs) == "" <==> xs == []
  {
  }

  /** No part is kept iff every part is missing or empty. */
  lemma {:induction false} NonEmptyPartsEmpty(parts: seq<Option<string>>)
    ensures NonEmptyParts(parts) == [] <==> forall i :: 0 <= i < |parts| ==> OrEmpty(parts[i]) == ""
  {
    if parts != [] {
      NonEmptyPartsEmpty(parts[1..]);
      assert forall i :: 1 <= i < |parts| ==> parts[i] == parts[1..][i - 1];
    }
  }

  /** The composed address is empty iff every part is missing or empty. */
  lemma AddressEmpty(a: AddressRecord)
    ensures AddressOf(a) == "" <==> forall i :: 0 <= i < 4 ==> OrEmpty(Parts(a)[i]) == ""
  {
    NonEmptyPartsEmpty(Parts(a));
    JoinCommaEmpty(NonEmptyParts(Parts(a)));
  }

  /** With all four parts given, the address is country, region, city and street in that order. */
  lemma AddressAllParts(a: AddressRecord, country: string, region: string, city: string, street: string)
    requires a.country == Some(country) && a.region == Some(region) && a.city == Some(city) && a.address1 == Some(street)
    requires country != "" && region != "" && city != "" && street != ""
    ensures AddressOf(a) == country + ", " + region + ", " + city + ", " + street
  {
    var ps := Parts(a);
    assert ps[1..][1..][1..][1..] == [];
    assert NonEmptyParts(ps[1..][1..][1..]) == [street];
    assert NonEmptyParts(ps[1..][1..]) == [city, street];
    assert NonEmptyParts(ps[1..]) == [region, city, street];
    var xs := [country, region, city, street];
    assert NonEmptyParts(ps) == xs;
    assert xs[1..][1..][1..] == [street];
    assert JoinComma(xs[1..][1..]) == city + ", " + street;
    assert JoinComma(xs[1..]) == region + ", " + (city + ", " + street);
  }

  /** Missing or empty parts are skipped. */
  lemma AddressSkipsEmpty(a: AddressRecord, city: string)
    requires OrEmpty(a.country) == "" && OrEmpty(a.region) == "" && a.city == Some(city) && city != ""
    requires OrEmpty(a.address1) == ""
    ensures AddressOf(a) == city
  {
    var ps := Parts(a);
    assert ps[1..][1..][1..][1..] == [];
    assert NonEmptyParts(ps[1..][1..][1..]) == [];
    assert NonEmptyParts(ps[1..][1..]) == [city];
    assert NonEmptyParts(ps[1..]) == [city];
    assert NonEmptyParts(ps) == [city];
  }

  /** The record is used: it has an entity id and a non-empty address. */
  predicate UsableAddress(a: Option<AddressRecord>) {
    a.Some? && IdText(a.value.entityId) != "" && AddressOf(a.value) != ""
  }

  /** The record is used, for company `cid`. */
  predicate AddressFor(a: Option<AddressRecord>, cid: string) {
    UsableAddress(a) && IdText(a.value.entityId) == cid
  }

  /** `address_by_company_id` after the first loop has seen `addresses`; `None` stands for a non-dict item. */
  function AddressIndex(addresses: seq<Option<AddressRecord>>): map<string, string> {
    if addresses == [] then map[]
    else
      var m := AddressIndex(addresses[..|addresses| - 1]);
      var a := addresses[|addresses| - 1];
      if UsableAddress(a) then m[IdText(a.value.entityId) := AddressOf(a.value)] else m
  }

  /** The first loop of `companies_map_view`. */
  method BuildAddressIndex(addresses: seq<Option<AddressRecord>>) returns (index: map<string, string>)
    ensures index == AddressIndex(addresses)
  {
    index := map[];
    for i := 0 to |addresses|
      invariant index == AddressIndex(addresses[..i])
    {
      assert addresses[..i + 1][..i] == addresses[..i];
      if addresses[i].None? {
        continue;
      }
      var a := addresses[i].value;
      var cid := IdText(a.entityId);
      if cid == "" {
        continue;
      }
      var addr := JoinComma(NonEmptyParts([a.country, a.region, a.city, a.address1]));
      if addr != "" {
        index := index[cid := addr];
      }
    }
    assert addresses[..|addresses|] == addresses;
  }

  /** The position of the last usable record for company `cid`, or -1. */
  function LastAddressFor(addresses: seq<Option<AddressRecord>>, cid: string): (i: int)
    ensures -1 <= i < |addresses|
    ensures i >= 0 ==> AddressFor(addresses[i], cid)
    ensures forall j :: i < j < |addresses| ==> !AddressFor(addresses[j], cid)
  {
    if addresses == [] then -1
    else
      if AddressFor(addresses[|addresses| - 1], cid) then |addresses| - 1
      else
        var i := LastAddressFor(addresses[..|addresses| - 1], cid);
        assert forall j :: i < j < |addresses| - 1 ==> addresses[j] == addresses[..|addresses| - 1][j];
        i
  }

  /**
    A company has an address iff some usable record names it; a later
    record for the same company overwrites an earlier one. Non-dict items,
    records without an entity id and records with no address parts are
    ignored.
   */
  lemma {:induction false} AddressIndexLookup(addresses: seq<Option<AddressRecord>>, cid: string)
    ensures cid in AddressIndex(addresses) <==> LastAddressFor(addresses, cid) >= 0
    ensures cid in AddressIndex(addresses) ==>
              AddressIndex(addresses)[cid] == AddressOf(addresses[LastAddressFor(addresses, cid)].value)
  {
    if addresses != [] {
      var init := addresses[..|addresses| - 1];
      AddressIndexLookup(init, cid);
      if !AddressFor(addresses[|addresses| - 1], cid) {
        assert LastAddressFor(addresses, cid) == LastAddressFor(init, cid);
        if LastAddressFor(init, cid) >= 0 {
          assert addresses[LastAddressFor(addresses, cid)] == init[LastAddressFor(init, cid)];
        }
      }
    }
  }

  /** Every stored address is non-empty and stored under a non-empty id. */
  lemma {:induction false} AddressIndexNonEmpty(addresses: seq<Option<AddressRecord>>)
    ensures forall cid :: cid in AddressIndex(addresses) ==> cid != "" && AddressIndex(addresses)[cid] != ""
  {
    if addresses != [] {
      AddressIndexNonEmpty(addresses[..|addresses| - 1]);
    }
  }

  /** `(c.get("TITLE") or "").strip() or f"Компания #{cid}"`. */
  function TitleOf(c: CompanyRecord, cid: string): string {
    var t := Strip(OrEmpty(c.title));
    if t != "" then t else "Компания #" + cid
  }

  /** The entry a company gives, if it is a dict with an id that has an address. */
  function EntryOf(c: Option<CompanyRecord>, index: map<string, string>): Option<MapCompany> {
    if c.None? then None
    else
      var cid := IdText(c.value.id);
      if cid == "" || cid !in index || index[cid] == "" then None
      else Some(MapCompany(cid, TitleOf(c.value, cid), index[cid]))
  }

  /** `companies` after the second loop has seen `companies`. */
  function MapCompanies(companies: seq<Option<CompanyRecord>>, index: map<string, string>): seq<MapCompany> {
    if companies == [] then []
    else
      var e := EntryOf(companies[|companies| - 1], index);
      MapCompanies(companies[..|companies| - 1], index) + (if e.Some? then [e.value] else [])
  }

  /** The second loop of `companies_map_view`. */
  method JoinCompanies(companies: seq<Option<CompanyRecord>>, index: map<string, string>) returns (result: seq<MapCompany>)
    ensures result == MapCompanies(companies, index)
  {
    result := [];
    for i := 0 to |companies|
      invariant result == MapCompanies(companies[..i], index)
    {
      assert companies[..i + 1][..i] == companies[..i];
      if companies[i].None? {
        continue;
      }
      var c := companies[i].value;
      var cid := IdText(c.id);
      if cid == "" {
        continue;
      }
      if cid !in index || index[cid] == "" {
        continue;
      }
      var addr := index[cid];
      var title := Strip(OrEmpty(c.title));
      if title == "" {
        title := "Компания #" + cid;
      }
      result := result + [MapCompany(cid, title, addr)];
    }
    assert companies[..|companies|] == companies;
  }

  /** The page context: the companies, and `has_companies`. */
  method CompaniesMapView(companies: seq<Option<CompanyRecord>>, addresses: seq<Option<AddressRecord>>)
    returns (result: seq<MapCompany>, hasCompanies: bool)
    ensures result == MapCompanies(companies, AddressIndex(addresses))
    ensures hasCompanies <==> result != []
  {
    var index := BuildAddressIndex(addresses);
    result := JoinCompanies(companies, index);
    hasCompanies := |result| > 0;
  }

  // ----- What the page promises -----

  /** The output keeps the order of the companies list. */
  lemma {:induction false} MapCompaniesAppend(a: seq<Option<CompanyRecord>>, b: seq<Option<CompanyRecord>>, index: map<string, string>)
    ensures MapCompanies(a + b, index) == MapCompanies(a, index) + MapCompanies(b, index)
    decreases |b|
  {
    if b == [] {
      assert a + b == a;
    } else {
      var b' := b[..|b| - 1];
      MapCompaniesAppend(a, b', index);
      assert (a + b)[..|a + b| - 1] == a + b';
      assert (a + b)[|a + b| - 1] == b[|b| - 1];
    }
  }

  /**
    Every shown company comes from the companies list, has a non-empty id
    and title, and carries the address stored for its id, which is not
    empty.
   */
  lemma {:induction false} MapCompaniesSound(companies: seq<Option<CompanyRecord>>, index: map<string, string>, k: nat)
    requires k < |MapCompanies(companies, index)|
    ensures var e := MapCompanies(companies, index)[k];
            e.id != "" && e.title != "" && e.id in index && e.address == index[e.id] && e.address != "" &&
            exists i :: 0 <= i < |companies| && EntryOf(companies[i], index) == Some(e)
  {
    var init := companies[..|companies| - 1];
    if k < |MapCompanies(init, index)| {
      MapCompaniesSound(init, index, k);
      var e := MapCompanies(init, index)[k];
      var i :| 0 <= i < |init| && EntryOf(init[i], index) == Some(e);
      assert companies[i] == init[i];
    } else {
      var e := MapCompanies(companies, index)[k];
      assert EntryOf(companies[|companies| - 1], index) == Some(e);
    }
  }

  /** Every company that is a dict with an id that has an address is shown. */
  lemma {:induction false} MapCompaniesComplete(companies: seq<Option<CompanyRecord>>, index: map<string, string>, i: nat)
    requires i < |companies| && EntryOf(companies[i], index).Some?
    ensures EntryOf(companies[i], index).value in MapCompanies(companies, index)
  {
    var init := companies[..|companies| - 1];
    if i < |init| {
      MapCompaniesComplete(init, index, i);
      assert companies[i] == init[i];
    }
  }

  /** A shown company's title is its stripped `TITLE`, or "Компания #<id>" when that is empty. */
  lemma ShownTitle(c: CompanyRecord, index: map<string, string>)
    requires EntryOf(Some(c), index).Some?
    ensures var e := EntryOf(Some(c), index).value;
            e.id == IdText(c.id) &&
            (Strip(OrEmpty(c.title)) != "" ==> e.title == Strip(OrEmpty(c.title))) &&
            (Strip(OrEmpty(c.title)) == "" ==> e.title == "Компания #" + IdText(c.id))
  {
  }

  /** `has_companies` holds iff some listed company has a stored address. */
  lemma HasCompaniesIff(companies: seq<Option<CompanyRecord>>, index: map<string, string>)
    ensures MapCompanies(companies, index) != [] <==>
              exists i :: 0 <= i < |companies| && EntryOf(companies[i], index).Some?
  {
    if MapCompanies(companies, index) != [] {
      MapCompaniesSound(companies, index, 0);
    }
    if exists i :: 0 <= i < |companies| && EntryOf(companies[i], index).Some? {
      var i :| 0 <= i < |companies| && EntryOf(companies[i], index).Some?;
      MapCompaniesComplete(companies, index, i);
    }
  }
}
