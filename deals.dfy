/**
  Deal "manuals" (`load_manuals`): code-to-label dictionaries for the deal
  type, stage, currency and the CRM's list-type user fields; and
  `humanize_deal_row`, which adds readable labels to a deal row in place.
 */
module Deals {
  import opened Wrappers
  import opened PyStr
  import opened PyValue

  /** The user field that holds a deal's priority. */
  const PriorityCode: string := "UF_CRM_1760383363428"

  /** A code-to-label dictionary: `{STATUS_ID: NAME}`, `{ID: VALUE}`, ... */
  type Table = map<Scalar, Scalar>

  /** A value of the `manuals` dict: a dictionary, or the `<code>__label` caption of a field. */
  datatype ManualValue = TableOf(table: Table) | Caption(text: Scalar)

  type Manuals = map<string, ManualValue>

  // ----- load_manuals -----

  /** `{k: v for (k, v) in pairs}`: a later pair with the same key wins. */
  function TableFrom(pairs: seq<(Scalar, Scalar)>): Table {
    if pairs == [] then map[]
    else TableFrom(pairs[..|pairs| - 1])[pairs[|pairs| - 1].0 := pairs[|pairs| - 1].1]
  }

  /** A key is in the table iff some pair has it, and it holds the value of the last such pair. */
  lemma {:induction false} TableFromLookup(pairs: seq<(Scalar, Scalar)>, k: Scalar)
    ensures k in TableFrom(pairs) <==> exists i :: 0 <= i < |pairs| && pairs[i].0 == k
    ensures k in TableFrom(pairs) ==>
              exists i :: 0 <= i < |pairs| && pairs[i].0 == k && TableFrom(pairs)[k] == pairs[i].1 &&
                forall j :: i < j < |pairs| ==> pairs[j].0 != k
  {
    if pairs != [] {
      var init := pairs[..|pairs| - 1];
      TableFromLookup(init, k);
      assert forall i :: 0 <= i < |init| ==> init[i] == pairs[i];
      if pairs[|pairs| - 1].0 != k && k in TableFrom(init) {
        var i :| 0 <= i < |init| && init[i].0 == k && TableFrom(init)[k] == init[i].1 &&
                 forall j :: i < j < |init| ==> init[j].0 != k;
        assert forall j :: i < j < |pairs| ==> pairs[j].0 != k;
      }
    }
  }

  /** The metadata `crm.deal.fields` gives for a field: not a dict, or `items`, `formLabel` and `title`. */
  datatype FieldMeta = NotADict | Meta(items: seq<(Scalar, Scalar)>, formLabel: Scalar, title: Scalar)

  /** The field gets a manual: a `UF_CRM_` code whose metadata has non-empty `items`. */
  predicate HasManual(code: string, meta: FieldMeta) {
    StartsWith(code, "UF_CRM_") && meta.Meta? && meta.items != []
  }

  /** `meta.get('formLabel') or meta.get('title') or code`. */
  function CaptionOf(code: string, meta: FieldMeta): Scalar
    requires meta.Meta?
  {
    if Truthy(meta.formLabel) then meta.formLabel
    else if Truthy(meta.title) then meta.title
    else Str(code)
  }

  /** The key of a field's caption. */
  function CaptionKey(code: string): string {
    code + "__label"
  }

  /** The base manuals, before the loop over the deal fields. */
  function BaseManuals(stages: seq<(Scalar, Scalar)>, dealTypes: seq<(Scalar, Scalar)>, currencies: seq<(Scalar, Scalar)>): Manuals {
    map["STAGE_ID" := TableOf(TableFrom(stages)),
        "TYPE_ID" := TableOf(TableFrom(dealTypes)),
        "CURRENCY_ID" := TableOf(TableFrom(currencies))]
  }

  /** `manuals` after the loop has seen the deal fields `fields`. */
  function ManualsOf(base: Manuals, fields: seq<(string, FieldMeta)>): Manuals {
    if fields == [] then base
    else
      var m := ManualsOf(base, fields[..|fields| - 1]);
      var (code, meta) := fields[|fields| - 1];
      if HasManual(code, meta) then
        m[code := TableOf(TableFrom(meta.items))][CaptionKey(code) := Caption(CaptionOf(code, meta))]
      else m
  }

  /**
    `load_manuals`, given what `crm.status.entity.items` returned for the
    stages and the deal types (`STATUS_ID`, `NAME`), `crm.currency.list`
    (`CURRENCY` and the unescaped `FULL_NAME`) and `crm.deal.fields`.
   */
  method LoadManuals(stages: seq<(Scalar, Scalar)>, dealTypes: seq<(Scalar, Scalar)>, currencies: seq<(Scalar, Scalar)>,
                     fields: seq<(string, FieldMeta)>)
    returns (manuals: Manuals)
    ensures manuals == ManualsOf(BaseManuals(stages, dealTypes, currencies), fields)
  {
    manuals := BaseManuals(stages, dealTypes, currencies);
    for i := 0 to |fields|
      invariant manuals == ManualsOf(BaseManuals(stages, dealTypes, currencies), fields[..i])
    {
      assert fields[..i + 1][..i] == fields[..i];
      var (code, meta) := fields[i];
      if StartsWith(code, "UF_CRM_") && meta.Meta? && meta.items != [] {
        manuals := manuals[code := TableOf(TableFrom(meta.items))];
        manuals := manuals[CaptionKey(code) := Caption(CaptionOf(code, meta))];
      }
    }
    assert fields[..|fields|] == fields;
  }

  /** The dictionaries `humanize_deal_row` looks up are there, and are dictionaries. */
  predicate Ready(manuals: Manuals) {
    && "TYPE_ID" in manuals && manuals["TYPE_ID"].TableOf?
    && "STAGE_ID" in manuals && manuals["STAGE_ID"].TableOf?
    && "CURRENCY_ID" in manuals && manuals["CURRENCY_ID"].TableOf?
    && (PriorityCode in manuals ==> manuals[PriorityCode].TableOf?)
  }

  /** A caption key never collides with the base dictionaries or the priority field. */
  lemma CaptionKeyDistinct(code: string)
    ensures CaptionKey(code) != "TYPE_ID" && CaptionKey(code) != "STAGE_ID" && CaptionKey(code) != "CURRENCY_ID"
    ensures CaptionKey(code) != PriorityCode
  {
    var k := CaptionKey(code);
    assert k[|k| - 1] == 'l';
  }

  /** A `UF_CRM_` code is none of the base dictionaries. */
  lemma UserFieldDistinct(code: string)
    requires StartsWith(code, "UF_CRM_")
    ensures code != "TYPE_ID" && code != "STAGE_ID" && code != "CURRENCY_ID"
  {
    assert code[0] == "UF_CRM_"[0] == 'U';
  }

  /** What `load_manuals` returns is ready for `humanize_deal_row`. */
  lemma {:induction false} ManualsReady(base: Manuals, fields: seq<(string, FieldMeta)>)
    requires Ready(base)
    ensures Ready(ManualsOf(base, fields))
  {
    if fields != [] {
      ManualsReady(base, fields[..|fields| - 1]);
      var (code, meta) := fields[|fields| - 1];
      if HasManual(code, meta) {
        CaptionKeyDistinct(code);
        UserFieldDistinct(code);
      }
    }
  }

  /** The base dictionaries are kept: no `UF_CRM_` field or caption replaces them. */
  lemma {:induction false} BaseKept(base: Manuals, fields: seq<(string, FieldMeta)>, key: string)
    requires key in base && (key == "TYPE_ID" || key == "STAGE_ID" || key == "CURRENCY_ID")
    ensures key in ManualsOf(base, fields) && ManualsOf(base, fields)[key] == base[key]
  {
    if fields != [] {
      BaseKept(base, fields[..|fields| - 1], key);
      var (code, meta) := fields[|fields| - 1];
      if HasManual(code, meta) {
        CaptionKeyDistinct(code);
        UserFieldDistinct(code);
      }
    }
  }

  /** The position of the last field with code `code` that gets a manual, or -1. */
  function LastManualField(fields: seq<(string, FieldMeta)>, code: string): (i: int)
    ensures -1 <= i < |fields|
    ensures i >= 0 ==> fields[i].0 == code && HasManual(code, fields[i].1)
    ensures forall j :: i < j < |fields| ==> !(fields[j].0 == code && HasManual(code, fields[j].1))
  {
    if fields == [] then -1
    else if fields[|fields| - 1].0 == code && HasManual(code, fields[|fields| - 1].1) then |fields| - 1
    else
      var i := LastManualField(fields[..|fields| - 1], code);
      assert forall j :: i < j < |fields| - 1 ==> fields[j] == fields[..|fields| - 1][j];
      i
  }

  /** A code that is not itself the caption key of another code. */
  predicate PlainCode(code: string) {
    !EndsWith(code, "__label")
  }

  lemma CaptionKeyEndsWith(code: string)
    ensures EndsWith(CaptionKey(code), "__label")
  {
    assert CaptionKey(code)[|code|..] == "__label";
  }

  lemma CaptionKeyInjective(a: string, b: string)
    requires CaptionKey(a) == CaptionKey(b)
    ensures a == b
  {
    assert a == CaptionKey(a)[..|a|];
    assert b == CaptionKey(b)[..|b|];
  }

  /**
    A field code gets a dictionary and a caption iff some listed field with
    that code starts with `UF_CRM_` and has non-empty `items`; the last such
    field gives `{ID: VALUE}` of its items and the caption `formLabel`, else
    `title`, else the code. (Codes are assumed not to end in `__label`, as
    the CRM's `UF_CRM_<number>` codes do not; otherwise one field's caption
    could overwrite another field's dictionary.)
   */
  lemma {:induction false} ManualsLookup(base: Manuals, fields: seq<(string, FieldMeta)>, code: string)
    requires code !in base && CaptionKey(code) !in base
    requires PlainCode(code) && forall j :: 0 <= j < |fields| ==> PlainCode(fields[j].0)
    ensures code in ManualsOf(base, fields) <==> LastManualField(fields, code) >= 0
    ensures CaptionKey(code) in ManualsOf(base, fields) <==> LastManualField(fields, code) >= 0
    ensures LastManualField(fields, code) >= 0 ==>
              var meta := fields[LastManualField(fields, code)].1;
              ManualsOf(base, fields)[code] == TableOf(TableFrom(meta.items)) &&
              ManualsOf(base, fields)[CaptionKey(code)] == Caption(CaptionOf(code, meta))
  {
    if fields != [] {
      var init := fields[..|fields| - 1];
      assert forall j :: 0 <= j < |init| ==> init[j] == fields[j];
      ManualsLookup(base, init, code);
      var (c, meta) := fields[|fields| - 1];
      if !(c == code && HasManual(code, meta)) {
        assert LastManualField(fields, code) == LastManualField(init, code);
        if LastManualField(init, code) >= 0 {
          assert fields[LastManualField(fields, code)] == init[LastManualField(init, code)];
        }
        if HasManual(c, meta) {
          OtherFieldKeys(c, code);
        }
      }
    }
  }

  /** Another plain field's dictionary and caption leave `code` and its caption alone. */
  lemma OtherFieldKeys(c: string, code: string)
    requires c != code && PlainCode(c) && PlainCode(code)
    ensures c != CaptionKey(code) && CaptionKey(c) != code && CaptionKey(c) != CaptionKey(code)
  {
    CaptionKeyEndsWith(c);
    CaptionKeyEndsWith(code);
    if CaptionKey(c) == CaptionKey(code) {
      CaptionKeyInjective(c, code);
    }
  }

  // ----- humanize_deal_row -----

  /** A deal row of `crm.deal.list`, updated in place. */
  class DealRow {
    var fields: map<string, Scalar>

    constructor (fields: map<string, Scalar>)
      ensures this.fields == fields
    {
      this.fields := fields;
    }
  }

  /** `row.get(key)`. */
  function Get(fields: map<string, Scalar>, key: string): Scalar {
    if key in fields then fields[key] else Null
  }

  /** `table.get(key, default)`. */
  function Lookup(table: Table, key: Scalar, default: Scalar): Scalar {
    if key in table then table[key] else default
  }

  /** The label of the code under `key`, or the code itself when the dictionary has none. */
  function LabelOrCode(manuals: Manuals, name: string, fields: map<string, Scalar>, key: string): Scalar
    requires name in manuals && manuals[name].TableOf?
  {
    Lookup(manuals[name].table, Get(fields, key), Get(fields, key))
  }

  /** The priority label: `None` without the priority key, and `None` for a value the dictionary lacks. */
  function PriorityLabel(manuals: Manuals, fields: map<string, Scalar>): Scalar
    requires Ready(manuals)
  {
    if PriorityCode !in fields then Null
    else
      var table: Table := if PriorityCode in manuals then manuals[PriorityCode].table else map[];
      Lookup(table, fields[PriorityCode], Null)
  }

  /** The keys `humanize_deal_row` writes. */
  const LabelKeys: set<string> := {"TYPE_ID_H", "STAGE_ID_H", "CURRENCY_H", "UF_PRIORITY_H"}

  /** The row after `humanize_deal_row`. */
  function Humanized(fields: map<string, Scalar>, manuals: Manuals): map<string, Scalar>
    requires Ready(manuals)
  {
    fields["TYPE_ID_H" := LabelOrCode(manuals, "TYPE_ID", fields, "TYPE_ID")]
          ["STAGE_ID_H" := LabelOrCode(manuals, "STAGE_ID", fields, "STAGE_ID")]
          ["CURRENCY_H" := LabelOrCode(manuals, "CURRENCY_ID", fields, "CURRENCY_ID")]
          ["UF_PRIORITY_H" := PriorityLabel(manuals, fields)]
  }

  /** `humanize_deal_row(row, manuals)`: it updates the row and returns the same object. */
  method HumanizeDealRow(row: DealRow, manuals: Manuals) returns (r: DealRow)
    requires Ready(manuals)
    modifies row
    ensures r == row
    ensures row.fields == Humanized(old(row.fields), manuals)
  {
    ghost var before := row.fields;
    row.fields := row.fields["TYPE_ID_H" := Lookup(manuals["TYPE_ID"].table, Get(row.fields, "TYPE_ID"), Get(row.fields, "TYPE_ID"))];
    row.fields := row.fields["STAGE_ID_H" := Lookup(manuals["STAGE_ID"].table, Get(row.fields, "STAGE_ID"), Get(row.fields, "STAGE_ID"))];
    row.fields := row.fields["CURRENCY_H" := Lookup(manuals["CURRENCY_ID"].table, Get(row.fields, "CURRENCY_ID"), Get(row.fields, "CURRENCY_ID"))];
    var priority := Null;
    if PriorityCode in row.fields {
      var table: Table := if PriorityCode in manuals then manuals[PriorityCode].table else map[];
      priority := Lookup(table, row.fields[PriorityCode], Null);
    }
    assert PriorityCode in row.fields <==> PriorityCode in before;
    row.fields := row.fields["UF_PRIORITY_H" := priority];
    return row;
  }

  /** Humanising adds exactly the four label keys and leaves every other key as it was. */
  lemma HumanizedKeys(fields: map<string, Scalar>, manuals: Manuals, k: string)
    requires Ready(manuals)
    ensures Humanized(fields, manuals).Keys == fields.Keys + LabelKeys
    ensures k !in LabelKeys && k in fields ==> Humanized(fields, manuals)[k] == fields[k]
  {
  }

  /**
    The type, stage and currency labels are the dictionary's label when the
    code is listed, and the code itself otherwise.
   */
  lemma HumanizedLabels(fields: map<string, Scalar>, manuals: Manuals)
    requires Ready(manuals)
    ensures var h := Humanized(fields, manuals);
            var t := manuals["TYPE_ID"].table;
            var s := manuals["STAGE_ID"].table;
            var c := manuals["CURRENCY_ID"].table;
            (Get(fields, "TYPE_ID") in t ==> h["TYPE_ID_H"] == t[Get(fields, "TYPE_ID")]) &&
            (Get(fields, "TYPE_ID") !in t ==> h["TYPE_ID_H"] == Get(fields, "TYPE_ID")) &&
            (Get(fields, "STAGE_ID") in s ==> h["STAGE_ID_H"] == s[Get(fields, "STAGE_ID")]) &&
            (Get(fields, "STAGE_ID") !in s ==> h["STAGE_ID_H"] == Get(fields, "STAGE_ID")) &&
            (Get(fields, "CURRENCY_ID") in c ==> h["CURRENCY_H"] == c[Get(fields, "CURRENCY_ID")]) &&
            (Get(fields, "CURRENCY_ID") !in c ==> h["CURRENCY_H"] == Get(fields, "CURRENCY_ID"))
  {
  }

  /**
    The priority label is `None` when the row has no priority key or the
    dictionary has no entry for its value; there is no fallback to the
    code. Otherwise it is the dictionary's label.
   */
  lemma HumanizedPriority(fields: map<string, Scalar>, manuals: Manuals)
    requires Ready(manuals)
    ensures var h := Humanized(fields, manuals)["UF_PRIORITY_H"];
            (PriorityCode !in fields ==> h == Null) &&
            (PriorityCode in fields && (PriorityCode !in manuals || fields[PriorityCode] !in manuals[PriorityCode].table) ==> h == Null) &&
            (PriorityCode in fields && PriorityCode in manuals && fields[PriorityCode] in manuals[PriorityCode].table ==>
               h == manuals[PriorityCode].table[fields[PriorityCode]])
  {
  }

  /** Humanising a humanised row changes nothing: the labels depend only on the codes. */
  lemma HumanizeIdempotent(fields: map<string, Scalar>, manuals: Manuals)
    requires Ready(manuals)
    ensures Humanized(Humanized(fields, manuals), manuals) == Humanized(fields, manuals)
  {
    var h := Humanized(fields, manuals);
    assert Get(h, "TYPE_ID") == Get(fields, "TYPE_ID");
    assert Get(h, "STAGE_ID") == Get(fields, "STAGE_ID");
    assert Get(h, "CURRENCY_ID") == Get(fields, "CURRENCY_ID");
    assert PriorityLabel(manuals, h) == PriorityLabel(manuals, fields);
  }
}
