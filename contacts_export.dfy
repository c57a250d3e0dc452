/**
  `_collect_contacts_for_export`: the rows the CSV and XLSX exports write
  under the header `имя,фамилия,номер телефона,почта,компания`. The contact
  and company lists the CRM returns are inputs; the date filter the method
  would send with `crm.contact.list` is an output.
 */
module ContactExport {
  import opened Wrappers
  import opened PyStr
  import opened PyValue
  import opened PyDict
  import opened ContactNormalize
  import opened ContactIngest
  import opened ContactIndex

  /** The header row both exports write. */
  const ExportHeader: seq<string> := ["имя", "фамилия", "номер телефона", "почта", "компания"]

  /** The `filter` of the contact list call. */
  function ExportFilter(dateFrom: Option<string>, dateTo: Option<string>): (f: map<string, string>)
    ensures f.Keys <= {">=DATE_CREATE", "<=DATE_CREATE"}
    ensures ">=DATE_CREATE" in f <==> OrEmpty(dateFrom) != ""
    ensures ">=DATE_CREATE" in f ==> f[">=DATE_CREATE"] == OrEmpty(dateFrom) + " 00:00:00"
    ensures "<=DATE_CREATE" in f <==> OrEmpty(dateTo) != ""
    ensures "<=DATE_CREATE" in f ==> f["<=DATE_CREATE"] == OrEmpty(dateTo) + " 23:59:59"
  {
    var from: map<string, string> :=
      if OrEmpty(dateFrom) != "" then map[">=DATE_CREATE" := OrEmpty(dateFrom) + " 00:00:00"] else map[];
    if OrEmpty(dateTo) != "" then from["<=DATE_CREATE" := OrEmpty(dateTo) + " 23:59:59"] else from
  }

  /**
    An item of `crm.contact.list`: `NAME`, `LAST_NAME`, the `VALUE`s of the
    `PHONE` and `EMAIL` multi-fields (a missing or `None` list is empty, a
    missing or `None` value is `None`), `COMPANY_ID` and `COMPANY_TITLE`.
   */
  datatype ExportContact = ExportContact(
    name: Option<string>,
    lastName: Option<string>,
    phones: seq<Option<string>>,
    emails: seq<Option<string>>,
    companyId: Scalar,
    companyTitle: Option<string>)

  /** One exported row: `(name, last_name, phone, email, company_title)`. */
  datatype ExportRow = ExportRow(name: string, lastName: string, phone: string, email: string, company: string)

  /** The cells of an exported row, in header order. */
  function Cells(r: ExportRow): seq<string> {
    [r.name, r.lastName, r.phone, r.email, r.company]
  }

  /**
    `companies_by_id = {cid: title for title, cid in companies_map.items()}`:
    a later title with the same id replaces an earlier one.
   */
  function InvertDict(d: Dict<string, int>): map<int, string> {
    if d == [] then map[] else InvertDict(d[..|d| - 1])[d[|d| - 1].1 := d[|d| - 1].0]
  }

  /** The position of the last entry of `d` with id `cid`, or -1. */
  function LastWithId(d: Dict<string, int>, cid: int): (i: int)
    ensures -1 <= i < |d|
    ensures i >= 0 ==> d[i].1 == cid
    ensures forall j :: i < j < |d| ==> d[j].1 != cid
  {
    if d == [] then -1
    else if d[|d| - 1].1 == cid then |d| - 1
    else
      var i := LastWithId(d[..|d| - 1], cid);
      assert forall j :: i < j < |d| - 1 ==> d[j] == d[..|d| - 1][j];
      i
  }

  /** An id is in the inverted map iff some title has it, and it maps to the last such title. */
  lemma {:induction false} InvertDictLookup(d: Dict<string, int>, cid: int)
    ensures cid in InvertDict(d) <==> LastWithId(d, cid) >= 0
    ensures cid in InvertDict(d) ==> InvertDict(d)[cid] == d[LastWithId(d, cid)].0
  {
    if d != [] {
      var init := d[..|d| - 1];
      InvertDictLookup(init, cid);
      if d[|d| - 1].1 != cid {
        assert LastWithId(d, cid) == LastWithId(init, cid);
        if LastWithId(init, cid) >= 0 {
          assert d[LastWithId(d, cid)] == init[LastWithId(init, cid)];
        }
      }
    }
  }

  /** `x[0].get("VALUE", "") or ""` when the list is non-empty, else "". */
  function FirstValue(values: seq<Option<string>>): string {
    if values != [] then OrEmpty(values[0]) else ""
  }

  /**
    `COMPANY_TITLE`, or, when that is empty and `COMPANY_ID` is truthy and
    converts with `int()`, the title the companies map has for that id.
   */
  function TitleOf(c: ExportContact, byId: map<int, string>): string {
    var title := OrEmpty(c.companyTitle);
    if title != "" then title
    else if Truthy(c.companyId) && ToInt(c.companyId).Some? && ToInt(c.companyId).value in byId then
      byId[ToInt(c.companyId).value]
    else ""
  }

  function RowOf(c: ExportContact, byId: map<int, string>): ExportRow {
    ExportRow(OrEmpty(c.name), OrEmpty(c.lastName), FirstValue(c.phones), FirstValue(c.emails), TitleOf(c, byId))
  }

  /** `company_filter.lower() if company_filter else None`. */
  function FilterNorm(companyFilter: Option<string>): Option<string> {
    if OrEmpty(companyFilter) != "" then Some(Lower(OrEmpty(companyFilter))) else None
  }

  /** Under an active filter, a row needs a title whose lower-cased form contains it. */
  predicate Keep(r: ExportRow, filterNorm: Option<string>) {
    match filterNorm
    case None => true
    case Some(f) => f == "" || (r.company != "" && Contains(Lower(r.company), f))
  }

  /** The rows after the loop has seen `contacts`. */
  function ExportRows(contacts: seq<ExportContact>, byId: map<int, string>, filterNorm: Option<string>): seq<ExportRow> {
    if contacts == [] then []
    else
      var r := RowOf(contacts[|contacts| - 1], byId);
      ExportRows(contacts[..|contacts| - 1], byId, filterNorm) + (if Keep(r, filterNorm) then [r] else [])
  }

  /** The row of one contact, with the company title resolved. */
  method ExportRowFor(c: ExportContact, byId: map<int, string>) returns (r: ExportRow)
    ensures r == RowOf(c, byId)
  {
    var name := OrEmpty(c.name);
    var lastName := OrEmpty(c.lastName);
    var phone := "";
    if c.phones != [] {
      phone := OrEmpty(c.phones[0]);
    }
    var email := "";
    if c.emails != [] {
      email := OrEmpty(c.emails[0]);
    }
    var companyTitle := OrEmpty(c.companyTitle);
    if companyTitle == "" {
      if Truthy(c.companyId) {
        match ToInt(c.companyId)
        case Some(cid) =>
          if cid in byId {
            companyTitle := byId[cid];
          }
        case None =>
      }
    }
    r := ExportRow(name, lastName, phone, email, companyTitle);
  }

  /**
    `_collect_contacts_for_export`: the filter it sends, and the rows it
    returns for the contacts the CRM lists under that filter.
   */
  method CollectContactsForExport(dateFrom: Option<string>, dateTo: Option<string>, companyFilter: Option<string>,
                                  contacts: seq<ExportContact>, companyItems: seq<CompanyItem>)
    returns (filters: map<string, string>, rows: seq<ExportRow>)
    ensures filters == ExportFilter(dateFrom, dateTo)
    ensures rows == ExportRows(contacts, InvertDict(CompaniesOf(companyItems)), FilterNorm(companyFilter))
  {
    filters := map[];
    if OrEmpty(dateFrom) != "" {
      filters := filters[">=DATE_CREATE" := OrEmpty(dateFrom) + " 00:00:00"];
    }
    if OrEmpty(dateTo) != "" {
      filters := filters["<=DATE_CREATE" := OrEmpty(dateTo) + " 23:59:59"];
    }
    var companies := GetCompaniesMap(companyItems);
    var byId := InvertDict(companies);
    var filterNorm := FilterNorm(companyFilter);
    rows := [];
    for i := 0 to |contacts|
      invariant rows == ExportRows(contacts[..i], byId, filterNorm)
    {
      assert contacts[..i + 1][..i] == contacts[..i];
      var r := ExportRowFor(contacts[i], byId);
      if filterNorm.Some? && !Keep(r, filterNorm) {
        continue;
      }
      rows := rows + [r];
    }
    assert contacts[..|contacts|] == contacts;
  }

  // ----- What the export promises -----

  /** The export keeps the order of the contact list: it distributes over concatenation. */
  lemma {:induction false} ExportRowsAppend(a: seq<ExportContact>, b: seq<ExportContact>, byId: map<int, string>, filterNorm: Option<string>)
    ensures ExportRows(a + b, byId, filterNorm) == ExportRows(a, byId, filterNorm) + ExportRows(b, byId, filterNorm)
    decreases |b|
  {
    if b == [] {
      assert a + b == a;
    } else {
      var b' := b[..|b| - 1];
      var last := RowOf(b[|b| - 1], byId);
      var tail: seq<ExportRow> := if Keep(last, filterNorm) then [last] else [];
      ExportRowsAppend(a, b', byId, filterNorm);
      assert (a + b)[..|a + b| - 1] == a + b';
      assert (a + b)[|a + b| - 1] == b[|b| - 1];
      assert ExportRows(a + b, byId, filterNorm) == ExportRows(a + b', byId, filterNorm) + tail;
      assert ExportRows(b, byId, filterNorm) == ExportRows(b', byId, filterNorm) + tail;
    }
  }

  /** Every exported row is the row of a listed contact, and passes the filter. */
  lemma {:induction false} ExportRowsKept(contacts: seq<ExportContact>, byId: map<int, string>, filterNorm: Option<string>, m: nat)
    requires m < |ExportRows(contacts, byId, filterNorm)|
    ensures Keep(ExportRows(contacts, byId, filterNorm)[m], filterNorm)
    ensures exists i :: 0 <= i < |contacts| && ExportRows(contacts, byId, filterNorm)[m] == RowOf(contacts[i], byId)
  {
    var init := contacts[..|contacts| - 1];
    var rs := ExportRows(contacts, byId, filterNorm);
    if m < |ExportRows(init, byId, filterNorm)| {
      ExportRowsKept(init, byId, filterNorm, m);
      var i :| 0 <= i < |init| && ExportRows(init, byId, filterNorm)[m] == RowOf(init[i], byId);
      assert contacts[i] == init[i];
    } else {
      assert rs[m] == RowOf(contacts[|contacts| - 1], byId);
    }
  }

  /** Every listed contact whose row passes the filter is exported. */
  lemma {:induction false} ExportRowsComplete(contacts: seq<ExportContact>, byId: map<int, string>, filterNorm: Option<string>, i: nat)
    requires i < |contacts| && Keep(RowOf(contacts[i], byId), filterNorm)
    ensures RowOf(contacts[i], byId) in ExportRows(contacts, byId, filterNorm)
  {
    var init := contacts[..|contacts| - 1];
    if i < |init| {
      ExportRowsComplete(init, byId, filterNorm, i);
      assert contacts[i] == init[i];
    }
  }

  /** Without a company filter, every contact gives exactly one row, in order. */
  lemma {:induction false} ExportUnfiltered(contacts: seq<ExportContact>, byId: map<int, string>, i: nat)
    requires i < |contacts|
    ensures |ExportRows(contacts, byId, None)| == |contacts|
    ensures ExportRows(contacts, byId, None)[i] == RowOf(contacts[i], byId)
  {
    var init := contacts[..|contacts| - 1];
    if i < |init| {
      ExportUnfiltered(init, byId, i);
      assert contacts[i] == init[i];
    } else if init != [] {
      ExportUnfiltered(init, byId, 0);
    }
  }

  /**
    A missing `COMPANY_TITLE` falls back to the normalised title of the
    company the `COMPANY_ID` names: the last listed company with that id.
   */
  lemma TitleFallback(c: ExportContact, items: seq<CompanyItem>, cid: int)
    requires OrEmpty(c.companyTitle) == "" && Truthy(c.companyId) && ToInt(c.companyId) == Some(cid)
    ensures var d := CompaniesOf(items);
            TitleOf(c, InvertDict(d)) == if LastWithId(d, cid) >= 0 then d[LastWithId(d, cid)].0 else ""
  {
    InvertDictLookup(CompaniesOf(items), cid);
  }

  /** A title given by the CRM is used as is, and an unusable id gives no title. */
  lemma TitleGivenOrNone(c: ExportContact, byId: map<int, string>)
    ensures OrEmpty(c.companyTitle) != "" ==> TitleOf(c, byId) == OrEmpty(c.companyTitle)
    ensures OrEmpty(c.companyTitle) == "" && ToInt(c.companyId).None? ==> TitleOf(c, byId) == ""
  {
  }

  // ----- Export, then import -----

  /** The CSV row the reader builds from an exported row under the export header. */
  function ReadBack(r: ExportRow): DictRow {
    [(Some(ExportHeader[0]), Some(r.name)), (Some(ExportHeader[1]), Some(r.lastName)),
     (Some(ExportHeader[2]), Some(r.phone)), (Some(ExportHeader[3]), Some(r.email)),
     (Some(ExportHeader[4]), Some(r.company))]
  }

  /** A header cell with no whitespace at its ends and no capital letter is its own CSV key. */
  lemma PlainHeaderKey(h: string)
    requires h != [] && !IsSpace(h[0]) && !IsSpace(h[|h| - 1])
    requires Lower(h) == h
    ensures CsvKey(h) == h
  {
    StripOfStripped(h);
  }

  /** The export header cells are their own CSV keys. */
  lemma HeaderKeys()
    ensures forall j :: 0 <= j < |ExportHeader| ==> CsvKey(ExportHeader[j]) == ExportHeader[j]
  {
    PlainHeaderKey(ExportHeader[0]);
    PlainHeaderKey(ExportHeader[1]);
    PlainHeaderKey(ExportHeader[2]);
    PlainHeaderKey(ExportHeader[3]);
    PlainHeaderKey(ExportHeader[4]);
  }

  /** The row the CSV reader builds from an exported row: each header holds its stripped cell. */
  predicate ReadBackOf(row: Row, r: ExportRow) {
    row == map[ExportHeader[0] := Strip(r.name), ExportHeader[1] := Strip(r.lastName),
               ExportHeader[2] := Strip(r.phone), ExportHeader[3] := Strip(r.email),
               ExportHeader[4] := Strip(r.company)]
  }

  /** Reading an exported row back under the export header keeps each cell under its header. */
  lemma ReadBackRow(r: ExportRow)
    ensures ReadBackOf(CsvRowOf(ReadBack(r)), r)
  {
    HeaderKeys();
    var raw := ReadBack(r);
    assert raw[..1][..0] == [];
    assert raw[..2][..1] == raw[..1];
    assert raw[..3][..2] == raw[..2];
    assert raw[..4][..3] == raw[..3];
    assert raw[..5] == raw;
    assert raw[..5][..4] == raw[..4];
    assert CsvRowOf(raw[..1]) == map[ExportHeader[0] := Strip(r.name)];
    assert CsvRowOf(raw[..2]) == CsvRowOf(raw[..1])[ExportHeader[1] := Strip(r.lastName)];
    assert CsvRowOf(raw[..3]) == CsvRowOf(raw[..2])[ExportHeader[2] := Strip(r.phone)];
    assert CsvRowOf(raw[..4]) == CsvRowOf(raw[..3])[ExportHeader[3] := Strip(r.email)];
    assert CsvRowOf(raw) == CsvRowOf(raw[..4])[ExportHeader[4] := Strip(r.company)];
  }

  /** `take(keys)` on a row that has the first synonym and none of the others. */
  lemma TakeOnly(row: Row, keys: seq<string>, v: string)
    requires keys != [] && keys[0] in row && row[keys[0]] == v && IsStripped(v)
    requires forall j :: 1 <= j < |keys| ==> keys[j] !in row
    ensures Take(row, keys) == v
  {
    if !Hit(row, keys[0]) {
      assert NoHit(row, keys[1..]);
    } else {
      StripOfStripped(v);
    }
  }

  lemma ReadBackFirstName(row: Row, r: ExportRow)
    requires ReadBackOf(row, r)
    ensures Take(row, FirstNameKeys) == Strip(r.name)
  {
    TakeOnly(row, FirstNameKeys, Strip(r.name));
  }

  lemma ReadBackLastName(row: Row, r: ExportRow)
    requires ReadBackOf(row, r)
    ensures Take(row, LastNameKeys) == Strip(r.lastName)
  {
    TakeOnly(row, LastNameKeys, Strip(r.lastName));
  }

  lemma ReadBackPhone(row: Row, r: ExportRow)
    requires ReadBackOf(row, r)
    ensures Take(row, PhoneKeys) == Strip(r.phone)
  {
    TakeOnly(row, PhoneKeys, Strip(r.phone));
  }

  lemma ReadBackEmail(row: Row, r: ExportRow)
    requires ReadBackOf(row, r)
    ensures Take(row, EmailKeys) == Strip(r.email)
  {
    TakeOnly(row, EmailKeys, Strip(r.email));
  }

  lemma ReadBackCompany(row: Row, r: ExportRow)
    requires ReadBackOf(row, r)
    ensures Take(row, CompanyKeys) == Strip(r.company)
  {
    TakeOnly(row, CompanyKeys, Strip(r.company));
  }

  /**
    Re-importing an exported file reads every row back as the same contact,
    up to surrounding whitespace: the export header names exactly the
    first synonym of each canonical field.
   */
  lemma ExportImportRoundTrip(r: ExportRow)
    ensures ExtractRowCommon(CsvRowOf(ReadBack(r))) ==
              ContactRecord(Strip(r.name), Strip(r.lastName), Strip(r.phone), Strip(r.email), Strip(r.company))
  {
    var row := CsvRowOf(ReadBack(r));
    ReadBackRow(r);
    ReadBackFirstName(row, r);
    ReadBackLastName(row, r);
    ReadBackPhone(row, r);
    ReadBackEmail(row, r);
    ReadBackCompany(row, r);
  }

  /** A contact whose cells carry no surrounding whitespace comes back unchanged. */
  lemma ExportImportExact(r: ExportRow)
    requires IsStripped(r.name) && IsStripped(r.lastName) && IsStripped(r.phone)
    requires IsStripped(r.email) && IsStripped(r.company)
    ensures ExtractRowCommon(CsvRowOf(ReadBack(r))) == ContactRecord(r.name, r.lastName, r.phone, r.email, r.company)
  {
    ExportImportRoundTrip(r);
    StripOfStripped(r.name);
    StripOfStripped(r.lastName);
    StripOfStripped(r.phone);
    StripOfStripped(r.email);
    StripOfStripped(r.company);
  }

  /** Header matching ignores case: a header typed in capitals reads as the export header. */
  lemma CsvKeyIgnoresCase(h: string)
    ensures CsvKey(h) == CsvKey(Lower(h))
  {
    StripLower(h);
    LowerIdempotent(Strip(h));
  }
}
