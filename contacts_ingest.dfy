/**
  Reading an uploaded contacts file: the CSV and XLSX readers turn each data
  row into a header-keyed row, and `_extract_row_common` resolves the header
  synonyms into the five canonical fields. The byte-level CSV tokeniser and
  the workbook reader are library code: their output (the `DictReader` rows
  and the worksheet cells) is the input here.
 */
module ContactIngest {
  import opened Wrappers
  import opened PyStr
  import opened PyValue

  /** The canonical row `{first_name, last_name, phone, email, company}`. */
  datatype ContactRecord = ContactRecord(
    firstName: string,
    lastName: string,
    phone: string,
    email: string,
    company: string)

  /** A row keyed by lower-cased header. */
  type Row = map<string, string>

  const FirstNameKeys: seq<string> := ["имя", "first_name"]
  const LastNameKeys: seq<string> := ["фамилия", "last_name"]
  const PhoneKeys: seq<string> := ["номер телефона", "телефон", "phone"]
  const EmailKeys: seq<string> := ["почта", "email"]
  const CompanyKeys: seq<string> := ["компания", "company"]

  /** Every header `_extract_row_common` looks at. */
  predicate IsSynonym(k: string) {
    k in FirstNameKeys || k in LastNameKeys || k in PhoneKeys || k in EmailKeys || k in CompanyKeys
  }

  /** `row.get(k)` is a non-empty string. */
  predicate Hit(row: Row, k: string) {
    k in row && row[k] != ""
  }

  /** Synonym `i` is the first one, in table order, with a non-empty value. */
  predicate FirstHitAt(row: Row, keys: seq<string>, i: int) {
    0 <= i < |keys| && Hit(row, keys[i]) && forall j :: 0 <= j < i ==> !Hit(row, keys[j])
  }

  predicate NoHit(row: Row, keys: seq<string>) {
    forall j :: 0 <= j < |keys| ==> !Hit(row, keys[j])
  }

  /**
    `take(keys)`: the stripped value of the first synonym with a non-empty
    value, or "" when there is none.
   */
  function Take(row: Row, keys: seq<string>): (r: string)
    ensures IsStripped(r)
    ensures NoHit(row, keys) ==> r == ""
    ensures forall i :: FirstHitAt(row, keys, i) ==> r == Strip(row[keys[i]])
  {
    if keys == [] then ""
    else if Hit(row, keys[0]) then Strip(row[keys[0]])
    else
      assert forall i :: FirstHitAt(row, keys, i) ==> i > 0 && FirstHitAt(row, keys[1..], i - 1);
      Take(row, keys[1..])
  }

  /** `_extract_row_common(row)`: the five canonical fields, each stripped. */
  function ExtractRowCommon(row: Row): (r: ContactRecord)
    ensures IsStripped(r.firstName) && IsStripped(r.lastName) && IsStripped(r.phone)
    ensures IsStripped(r.email) && IsStripped(r.company)
  {
    ContactRecord(
      Take(row, FirstNameKeys),
      Take(row, LastNameKeys),
      Take(row, PhoneKeys),
      Take(row, EmailKeys),
      Take(row, CompanyKeys))
  }

  /** Only the synonym headers matter: every other column is ignored. */
  lemma ExtractIgnoresOtherKeys(row1: Row, row2: Row)
    requires forall k :: IsSynonym(k) ==> (k in row1 <==> k in row2)
    requires forall k :: IsSynonym(k) && k in row1 ==> row1[k] == row2[k]
    ensures ExtractRowCommon(row1) == ExtractRowCommon(row2)
  {
    TakeAgrees(row1, row2, FirstNameKeys);
    TakeAgrees(row1, row2, LastNameKeys);
    TakeAgrees(row1, row2, PhoneKeys);
    TakeAgrees(row1, row2, EmailKeys);
    TakeAgrees(row1, row2, CompanyKeys);
  }

  lemma {:induction false} TakeAgrees(row1: Row, row2: Row, keys: seq<string>)
    requires forall i :: 0 <= i < |keys| ==> (keys[i] in row1 <==> keys[i] in row2)
    requires forall i :: 0 <= i < |keys| && keys[i] in row1 ==> row1[keys[i]] == row2[keys[i]]
    ensures Take(row1, keys) == Take(row2, keys)
  {
    if keys != [] {
      TakeAgrees(row1, row2, keys[1..]);
    }
  }

  // ----- CSV -----

  /**
    One `DictReader` row: the dict's `(key, value)` items, keys unique, in
    its iteration order. A key is `None` for surplus values and a value is
    `None` for a missing one.
   */
  type DictRow = seq<(Option<string>, Option<string>)>

  /** The header key a `DictReader` key is stored under, `k.strip().lower()`. */
  function CsvKey(k: string): string {
    Lower(Strip(k))
  }

  /** `normalized_row` after the loop has seen the entries of `raw`. */
  function CsvRowOf(raw: DictRow): Row {
    if raw == [] then map[]
    else
      var m := CsvRowOf(raw[..|raw| - 1]);
      var entry := raw[|raw| - 1];
      if OrEmpty(entry.0) == "" then m
      else m[CsvKey(OrEmpty(entry.0)) := Strip(OrEmpty(entry.1))]
  }

  /** Entry `i` has a non-empty key normalising to `key`. */
  predicate EntryFor(raw: DictRow, key: string, i: int) {
    0 <= i < |raw| && OrEmpty(raw[i].0) != "" && CsvKey(OrEmpty(raw[i].0)) == key
  }

  /** The position of the last entry for `key`, or -1 when there is none. */
  function LastEntry(raw: DictRow, key: string): (i: int)
    ensures -1 <= i < |raw|
    ensures i >= 0 ==> EntryFor(raw, key, i)
    ensures forall j :: i < j < |raw| ==> !EntryFor(raw, key, j)
  {
    if raw == [] then -1
    else if EntryFor(raw, key, |raw| - 1) then |raw| - 1
    else
      var i := LastEntry(raw[..|raw| - 1], key);
      assert forall j :: i < j < |raw| - 1 ==> (EntryFor(raw, key, j) <==> EntryFor(raw[..|raw| - 1], key, j));
      i
  }

  /**
    A key is present iff some entry with a non-empty key normalises to it,
    and it holds the stripped value of the last such entry (`None` as "").
   */
  lemma {:induction false} CsvRowLookup(raw: DictRow, key: string)
    ensures key in CsvRowOf(raw) <==> LastEntry(raw, key) >= 0
    ensures LastEntry(raw, key) >= 0 ==> CsvRowOf(raw)[key] == Strip(OrEmpty(raw[LastEntry(raw, key)].1))
  {
    if raw != [] && !EntryFor(raw, key, |raw| - 1) {
      CsvRowLookup(raw[..|raw| - 1], key);
      CsvRowLookupStep(raw, key);
    }
  }

  /** The last entry is not for `key`: the lookup is that of the shorter row. */
  lemma CsvRowLookupStep(raw: DictRow, key: string)
    requires raw != [] && !EntryFor(raw, key, |raw| - 1)
    ensures (key in CsvRowOf(raw)) == (key in CsvRowOf(raw[..|raw| - 1]))
    ensures key in CsvRowOf(raw) ==> CsvRowOf(raw)[key] == CsvRowOf(raw[..|raw| - 1])[key]
    ensures LastEntry(raw, key) == LastEntry(raw[..|raw| - 1], key)
    ensures LastEntry(raw, key) >= 0 ==> raw[LastEntry(raw, key)] == raw[..|raw| - 1][LastEntry(raw, key)]
  {
  }

  /** The inner loop of `parse_csv_file`: header keys normalised, values stripped. */
  method NormalizeCsvRow(raw: DictRow) returns (row: Row)
    ensures row == CsvRowOf(raw)
  {
    row := map[];
    var i := 0;
    while i < |raw|
      invariant 0 <= i <= |raw|
      invariant row == CsvRowOf(raw[..i])
    {
      assert raw[..i + 1][..i] == raw[..i];
      var (k, v) := raw[i];
      if OrEmpty(k) != "" {
        row := row[CsvKey(OrEmpty(k)) := Strip(OrEmpty(v))];
      }
      i := i + 1;
    }
    assert raw[..i] == raw;
  }

  /** The records `parse_csv_file` collects from the first rows of the reader. */
  function CsvRecordsOf(rows: seq<DictRow>): seq<ContactRecord> {
    if rows == [] then []
    else
      var init := CsvRecordsOf(rows[..|rows| - 1]);
      var raw := rows[|rows| - 1];
      if raw == [] then init else init + [ExtractRowCommon(CsvRowOf(raw))]
  }

  /** `parse_csv_file`: a blank file gives no rows; empty reader rows are skipped. */
  function CsvRecords(text: string, rows: seq<DictRow>): seq<ContactRecord> {
    if Strip(text) == "" then [] else CsvRecordsOf(rows)
  }

  /** `parse_csv_file`, on the decoded text and the rows `DictReader` yields for it. */
  method ParseCsvFile(text: string, rows: seq<DictRow>) returns (records: seq<ContactRecord>)
    ensures records == CsvRecords(text, rows)
  {
    records := [];
    if Strip(text) == "" {
      return;
    }
    var i := 0;
    while i < |rows|
      invariant 0 <= i <= |rows|
      invariant records == CsvRecordsOf(rows[..i])
    {
      assert rows[..i + 1][..i] == rows[..i];
      if rows[i] != [] {
        var row := NormalizeCsvRow(rows[i]);
        records := records + [ExtractRowCommon(row)];
      }
      i := i + 1;
    }
    assert rows[..i] == rows;
  }

  /** At most one record per reader row, and one for each non-empty row. */
  lemma {:induction false} CsvRecordsCount(rows: seq<DictRow>)
    ensures |CsvRecordsOf(rows)| <= |rows|
    ensures (forall i :: 0 <= i < |rows| ==> rows[i] != []) ==> |CsvRecordsOf(rows)| == |rows|
  {
    if rows != [] {
      CsvRecordsCount(rows[..|rows| - 1]);
    }
  }

  // ----- XLSX -----

  /**
    A worksheet cell value (`None` for an empty cell); formulas are already
    evaluated (`data_only=True`).
   */
  type Cell = Scalar

  /** The header list: `str(h).strip().lower()` of each cell of the first row. */
  function XlsxHeaders(first: seq<Cell>): seq<string> {
    seq(|first|, i requires 0 <= i < |first| => Lower(Strip(StrOf(first[i]))))
  }

  /** One header per cell, each already in the form the synonym table uses: stripped and lower-case. */
  lemma XlsxHeadersNormalised(first: seq<Cell>)
    ensures |XlsxHeaders(first)| == |first|
    ensures forall i :: 0 <= i < |first| ==>
              IsStripped(XlsxHeaders(first)[i]) && Lower(XlsxHeaders(first)[i]) == XlsxHeaders(first)[i]
  {
    forall i | 0 <= i < |first|
      ensures IsStripped(XlsxHeaders(first)[i]) && Lower(XlsxHeaders(first)[i]) == XlsxHeaders(first)[i]
    {
      var h := Strip(StrOf(first[i]));
      LowerKeepsStripped(h);
      LowerIdempotent(h);
    }
  }

  /** The header cell " ИМЯ " normalises to the synonym "имя". */
  lemma XlsxHeaderCyrillic()
    ensures XlsxHeaders([Str(" ИМЯ ")]) == ["имя"]
  {
    var cell := " ИМЯ ";
    assert cell == " " + "ИМЯ" + " ";
    StripPadding(" ", "ИМЯ", " ");
    assert LowerChar('И') == 'и' && LowerChar('М') == 'м' && LowerChar('Я') == 'я';
    LowerPointwise("ИМЯ");
    assert Lower("ИМЯ") == "имя";
    assert XlsxHeaders([Str(cell)])[0] == Lower(Strip(cell));
  }

  /** A row holding only a first name gives a record with only that name. */
  lemma FirstNameOnly(name: string)
    requires name != [] && IsStripped(name)
    ensures ExtractRowCommon(map["имя" := name]) == ContactRecord(name, "", "", "", "")
  {
    assert FirstHitAt(map["имя" := name], FirstNameKeys, 0);
    StripOfStripped(name);
  }

  /** A sheet whose header cell reads " ИМЯ " fills the first name from that column. */
  lemma XlsxHeaderSynonym(name: string)
    requires name != [] && IsStripped(name)
    ensures XlsxRecords([[Str(" ИМЯ ")], [Str(name)]]) == [ContactRecord(name, "", "", "", "")]
  {
    var sheet := [[Str(" ИМЯ ")], [Str(name)]];
    XlsxHeaderCyrillic();
    assert sheet[1..] == [[Str(name)]];
    assert XlsxRowOf(["имя"], [Str(name)], 0) == map[];
    assert CellValue([Str(name)][0]) == name;
    assert XlsxRowOf(["имя"], [Str(name)], 1) == map["имя" := name];
    var rows := [[Str(name)]];
    assert rows[..0] == [] && rows[0] == [Str(name)];
    assert AnyTruthy(rows[0]) by { assert Truthy(rows[0][0]); }
    FirstNameOnly(name);
    assert XlsxRecordsOf(["имя"], rows) == [ContactRecord(name, "", "", "", "")];
  }

  /** `"" if v is None else str(v)`. */
  function CellValue(c: Cell): string {
    if c.Null? then "" else StrOf(c)
  }

  /** The row after the `zip` loop has seen its first `n` header/value pairs. */
  function XlsxRowOf(headers: seq<string>, values: seq<Cell>, n: nat): Row
    requires n <= |headers| && n <= |values|
  {
    if n == 0 then map[]
    else
      var m := XlsxRowOf(headers, values, n - 1);
      if headers[n - 1] == "" then m else m[headers[n - 1] := CellValue(values[n - 1])]
  }

  function Min(a: nat, b: nat): nat {
    if a <= b then a else b
  }

  /** `any(row_values)`. */
  predicate AnyTruthy(values: seq<Cell>) {
    exists i :: 0 <= i < |values| && Truthy(values[i])
  }

  /** `any(row_values)`, scanning the cells. */
  method AnyTruthyCell(values: seq<Cell>) returns (any: bool)
    ensures any == AnyTruthy(values)
  {
    any := false;
    var j := 0;
    while j < |values|
      invariant 0 <= j <= |values|
      invariant any <==> exists m :: 0 <= m < j && Truthy(values[m])
    {
      if Truthy(values[j]) {
        any := true;
      }
      j := j + 1;
    }
  }

  /** The inner loop of `parse_xlsx_file`: `zip` stops at the shorter list. */
  method BuildXlsxRow(headers: seq<string>, values: seq<Cell>) returns (row: Row)
    ensures row == XlsxRowOf(headers, values, Min(|headers|, |values|))
  {
    row := map[];
    var n := Min(|headers|, |values|);
    var i := 0;
    while i < n
      invariant 0 <= i <= n
      invariant row == XlsxRowOf(headers, values, i)
    {
      if headers[i] != "" {
        row := row[headers[i] := CellValue(values[i])];
      }
      i := i + 1;
    }
  }

  /** The records collected from the data rows `rows` under `headers`. */
  function XlsxRecordsOf(headers: seq<string>, rows: seq<seq<Cell>>): seq<ContactRecord> {
    if rows == [] then []
    else
      var init := XlsxRecordsOf(headers, rows[..|rows| - 1]);
      var values := rows[|rows| - 1];
      if !AnyTruthy(values) then init
      else init + [ExtractRowCommon(XlsxRowOf(headers, values, Min(|headers|, |values|)))]
  }

  /** `parse_xlsx_file` on the active sheet's rows; a sheet without rows gives none. */
  function XlsxRecords(sheet: seq<seq<Cell>>): seq<ContactRecord> {
    if sheet == [] then [] else XlsxRecordsOf(XlsxHeaders(sheet[0]), sheet[1..])
  }

  /** `parse_xlsx_file`, on the values of the active sheet's rows. */
  method ParseXlsxFile(sheet: seq<seq<Cell>>) returns (records: seq<ContactRecord>)
    ensures records == XlsxRecords(sheet)
  {
    records := [];
    if sheet == [] {
      return;
    }
    var headers := XlsxHeaders(sheet[0]);
    var rows := sheet[1..];
    var i := 0;
    while i < |rows|
      invariant 0 <= i <= |rows|
      invariant records == XlsxRecordsOf(headers, rows[..i])
    {
      assert rows[..i + 1][..i] == rows[..i];
      var values := rows[i];
      var any := AnyTruthyCell(values);
      if any {
        var row := BuildXlsxRow(headers, values);
        records := records + [ExtractRowCommon(row)];
      }
      i := i + 1;
    }
    assert rows[..i] == rows;
  }

  /** A data row without a truthy cell gives no record; every other data row gives one. */
  lemma {:induction false} XlsxRecordsCount(headers: seq<string>, rows: seq<seq<Cell>>)
    ensures |XlsxRecordsOf(headers, rows)| <= |rows|
    ensures (forall i :: 0 <= i < |rows| ==> AnyTruthy(rows[i])) ==> |XlsxRecordsOf(headers, rows)| == |rows|
    ensures (forall i :: 0 <= i < |rows| ==> !AnyTruthy(rows[i])) ==> XlsxRecordsOf(headers, rows) == []
  {
    if rows != [] {
      XlsxRecordsCount(headers, rows[..|rows| - 1]);
    }
  }

  // ----- Dispatch -----

  datatype Format = Csv | Xlsx

  const UnsupportedFormat: string := "Поддерживаются только CSV и XLSX"

  /** The parser `parse_uploaded_file` picks from the lower-cased file name. */
  function DetectFormat(name: Option<string>): (r: Result<Format, string>)
    ensures r == Success(Csv) <==> EndsWith(Lower(OrEmpty(name)), ".csv")
    ensures r == Success(Xlsx) <==>
              !EndsWith(Lower(OrEmpty(name)), ".csv") &&
              (EndsWith(Lower(OrEmpty(name)), ".xlsx") || EndsWith(Lower(OrEmpty(name)), ".xlsm"))
    ensures r.Failure? ==> r.error == UnsupportedFormat
  {
    var lowered := Lower(OrEmpty(name));
    if EndsWith(lowered, ".csv") then Success(Csv)
    else if EndsWith(lowered, ".xlsx") || EndsWith(lowered, ".xlsm") then Success(Xlsx)
    else Failure(UnsupportedFormat)
  }

  /**
    An uploaded file: its name, and what the CSV reader and the workbook
    reader make of its content (only the one the name selects is used).
   */
  datatype Upload = Upload(
    name: Option<string>,
    text: string,
    csvRows: seq<DictRow>,
    sheet: seq<seq<Cell>>)

  /** `parse_uploaded_file`: dispatch on the extension; an unknown one fails before parsing. */
  method ParseUploadedFile(upload: Upload) returns (r: Result<seq<ContactRecord>, string>)
    ensures DetectFormat(upload.name) == Success(Csv) ==> r == Success(CsvRecords(upload.text, upload.csvRows))
    ensures DetectFormat(upload.name) == Success(Xlsx) ==> r == Success(XlsxRecords(upload.sheet))
    ensures DetectFormat(upload.name).Failure? ==> r == Failure(UnsupportedFormat)
  {
    var format := DetectFormat(upload.name);
    match format
    case Failure(e) =>
      r := Failure(e);
    case Success(Csv) =>
      var records := ParseCsvFile(upload.text, upload.csvRows);
      r := Success(records);
    case Success(Xlsx) =>
      var records := ParseXlsxFile(upload.sheet);
      r := Success(records);
  }
}
