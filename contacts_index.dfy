/**
  The two snapshots `import_contacts` takes of the CRM before it writes:
  existing companies by normalised title (`get_companies_map`) and existing
  contacts by normalised phone and e-mail (`build_existing_contacts_index`).
  The remote lists are inputs.
 */
module ContactIndex {
  import opened Wrappers
  import opened PyStr
  import opened PyValue
  import opened PyDict
  import opened ContactNormalize

  /** An item of `crm.company.list`: its `TITLE` and `ID`. */
  datatype CompanyItem = CompanyItem(title: Option<string>, id: Scalar)

  /** The entry an item contributes to the companies map, if any. */
  function CompanyEntry(c: CompanyItem): (e: Option<(string, int)>)
    ensures e.Some? ==> e.value.0 != "" && Norm(e.value.0) == e.value.0
  {
    var title := Norm(OrEmpty(c.title));
    if title != "" && Truthy(c.id) && ToInt(c.id).Some? then
      NormIdempotent(OrEmpty(c.title));
      NormIsNormal(OrEmpty(c.title));
      Some((title, ToInt(c.id).value))
    else None
  }

  /** The companies map after the loop has seen `items`. */
  function CompaniesOf(items: seq<CompanyItem>): Dict<string, int> {
    if items == [] then []
    else
      var d := CompaniesOf(items[..|items| - 1]);
      match CompanyEntry(items[|items| - 1])
      case None => d
      case Some((title, cid)) => Put(d, title, cid)
  }

  /** `get_companies_map` on the listed companies. */
  method GetCompaniesMap(items: seq<CompanyItem>) returns (result: Dict<string, int>)
    ensures result == CompaniesOf(items)
  {
    result := [];
    for i := 0 to |items|
      invariant result == CompaniesOf(items[..i])
    {
      assert items[..i + 1][..i] == items[..i];
      var title := Norm(OrEmpty(items[i].title));
      var cid := items[i].id;
      if title != "" && Truthy(cid) {
        match ToInt(cid)
        case Some(n) =>
          result := Put(result, title, n);
        case None =>
      }
    }
    assert items[..|items|] == items;
  }

  /** Position of the last item contributing an entry for `title`, or -1. */
  function LastCompanyFor(items: seq<CompanyItem>, title: string): (i: int)
    ensures -1 <= i < |items|
    ensures i >= 0 ==> CompanyEntry(items[i]).Some? && CompanyEntry(items[i]).value.0 == title
    ensures forall j :: i < j < |items| ==> CompanyEntry(items[j]).None? || CompanyEntry(items[j]).value.0 != title
  {
    if items == [] then -1
    else
      var e := CompanyEntry(items[|items| - 1]);
      if e.Some? && e.value.0 == title then |items| - 1
      else
        var i := LastCompanyFor(items[..|items| - 1], title);
        assert forall j :: 0 <= j < |items| - 1 ==> items[j] == items[..|items| - 1][j];
        i
  }

  /**
    Every title maps to the id of the last company with that normalised
    title whose `ID` is an integer; no other title is present.
   */
  lemma {:induction false} CompaniesLookup(items: seq<CompanyItem>, title: string)
    ensures Get(CompaniesOf(items), title) ==
              if LastCompanyFor(items, title) >= 0 then Some(CompanyEntry(items[LastCompanyFor(items, title)]).value.1)
              else None
  {
    if items != [] {
      var init := items[..|items| - 1];
      CompaniesLookup(init, title);
      match CompanyEntry(items[|items| - 1])
      case None =>
        assert CompaniesOf(items) == CompaniesOf(init);
        CompaniesLookupStep(items, title);
      case Some((t, cid)) =>
        PutGet(CompaniesOf(init), t, cid, title);
        if t != title {
          CompaniesLookupStep(items, title);
        }
    }
  }

  lemma CompaniesLookupStep(items: seq<CompanyItem>, title: string)
    requires items != []
    requires CompanyEntry(items[|items| - 1]).None? || CompanyEntry(items[|items| - 1]).value.0 != title
    ensures LastCompanyFor(items, title) == LastCompanyFor(items[..|items| - 1], title)
    ensures LastCompanyFor(items, title) >= 0 ==>
              items[LastCompanyFor(items, title)] == items[..|items| - 1][LastCompanyFor(items, title)]
  {
  }

  /** Each normalised title occurs once, as a non-empty normalised string. */
  lemma {:induction false} CompaniesWellFormed(items: seq<CompanyItem>)
    ensures UniqueKeys(CompaniesOf(items))
    ensures forall i :: 0 <= i < |CompaniesOf(items)| ==>
              CompaniesOf(items)[i].0 != "" && Norm(CompaniesOf(items)[i].0) == CompaniesOf(items)[i].0
  {
    if items != [] {
      var init := items[..|items| - 1];
      CompaniesWellFormed(init);
      match CompanyEntry(items[|items| - 1])
      case None =>
      case Some((t, cid)) =>
        PutUnique(CompaniesOf(init), t, cid);
        PutKeys(CompaniesOf(init), t, cid);
    }
  }

  /** `Put` adds the key `k` and no other. */
  lemma PutKeys<V>(d: Dict<string, V>, k: string, v: V)
    ensures forall i :: 0 <= i < |Put(d, k, v)| ==> Put(d, k, v)[i].0 == k || (i < |d| && Put(d, k, v)[i].0 == d[i].0)
  {
  }

  // ----- Existing contacts -----

  datatype KeyKind = PhoneKind | EmailKind

  /** A duplicate-detection key, `("phone", value)` or `("email", value)`. */
  datatype Key = Key(kind: KeyKind, value: string)

  /**
    An item of `crm.contact.list`: the `VALUE`s of its `PHONE` and `EMAIL`
    multi-fields (a missing or `None` list is empty).
   */
  datatype ContactItem = ContactItem(phones: seq<Option<string>>, emails: seq<Option<string>>)

  /** The key `("phone", norm_phone(value))`, when that is non-empty. */
  function PhoneKey(value: Option<string>): set<Key> {
    var np := NormPhone(OrEmpty(value));
    if np != "" then {Key(PhoneKind, np)} else {}
  }

  /** The key `("email", norm_email(value))`, when that is non-empty. */
  function EmailKey(value: Option<string>): set<Key> {
    var ne := NormEmail(OrEmpty(value));
    if ne != "" then {Key(EmailKind, ne)} else {}
  }

  /** The keys of a multi-field list, `key` giving the key of each value. */
  function KeysOf(key: Option<string> -> set<Key>, values: seq<Option<string>>): set<Key> {
    if values == [] then {} else KeysOf(key, values[..|values| - 1]) + key(values[|values| - 1])
  }

  function ItemKeys(c: ContactItem): set<Key> {
    KeysOf(PhoneKey, c.phones) + KeysOf(EmailKey, c.emails)
  }

  /** The index after the loop has seen `items`. */
  function ContactsIndex(items: seq<ContactItem>): set<Key> {
    if items == [] then {} else ContactsIndex(items[..|items| - 1]) + ItemKeys(items[|items| - 1])
  }

  /** `build_existing_contacts_index` on the listed contacts. */
  method BuildExistingContactsIndex(items: seq<ContactItem>) returns (index: set<Key>)
    ensures index == ContactsIndex(items)
  {
    index := {};
    for i := 0 to |items|
      invariant index == ContactsIndex(items[..i])
    {
      assert items[..i + 1][..i] == items[..i];
      index := AddPhoneKeys(index, items[i].phones);
      index := AddEmailKeys(index, items[i].emails);
    }
    assert items[..|items|] == items;
  }

  /** The loop over `PHONE`: adds each non-empty normalised phone. */
  method AddPhoneKeys(start: set<Key>, phones: seq<Option<string>>) returns (index: set<Key>)
    ensures index == start + KeysOf(PhoneKey, phones)
  {
    index := start;
    for j := 0 to |phones|
      invariant index == start + KeysOf(PhoneKey, phones[..j])
    {
      assert phones[..j + 1][..j] == phones[..j];
      var np := NormPhone(OrEmpty(phones[j]));
      if np != "" {
        index := index + {Key(PhoneKind, np)};
      }
    }
    assert phones[..|phones|] == phones;
  }

  /** The loop over `EMAIL`: adds each non-empty normalised address. */
  method AddEmailKeys(start: set<Key>, emails: seq<Option<string>>) returns (index: set<Key>)
    ensures index == start + KeysOf(EmailKey, emails)
  {
    index := start;
    for j := 0 to |emails|
      invariant index == start + KeysOf(EmailKey, emails[..j])
    {
      assert emails[..j + 1][..j] == emails[..j];
      var ne := NormEmail(OrEmpty(emails[j]));
      if ne != "" {
        index := index + {Key(EmailKind, ne)};
      }
    }
    assert emails[..|emails|] == emails;
  }

  /** A key of the list is the key of one of its values. */
  lemma {:induction false} KeysMembership(key: Option<string> -> set<Key>, values: seq<Option<string>>, k: Key)
    ensures k in KeysOf(key, values) <==> exists j :: 0 <= j < |values| && k in key(values[j])
  {
    if values != [] {
      var init := values[..|values| - 1];
      KeysMembership(key, init, k);
      if k in KeysOf(key, init) {
        var j :| 0 <= j < |init| && k in key(init[j]);
        assert values[j] == init[j];
      }
      if exists j :: 0 <= j < |values| && k in key(values[j]) {
        var j :| 0 <= j < |values| && k in key(values[j]);
        if j < |init| {
          assert values[j] == init[j];
        }
      }
    }
  }

  /** A key is in the index iff some listed contact carries it. */
  lemma {:induction false} ContactsIndexMembership(items: seq<ContactItem>, k: Key)
    ensures k in ContactsIndex(items) <==> exists i :: 0 <= i < |items| && k in ItemKeys(items[i])
  {
    if items != [] {
      var init := items[..|items| - 1];
      ContactsIndexMembership(init, k);
      if k in ContactsIndex(init) {
        var i :| 0 <= i < |init| && k in ItemKeys(init[i]);
        assert items[i] == init[i];
      }
      if exists i :: 0 <= i < |items| && k in ItemKeys(items[i]) {
        var i :| 0 <= i < |items| && k in ItemKeys(items[i]);
        if i < |init| {
          assert items[i] == init[i];
        }
      }
    }
  }

  /**
    A key is in the index iff it is the non-empty normalised phone or e-mail
    of some multi-field value of some listed contact; keys never mix kinds.
   */
  lemma ContactsIndexSpec(items: seq<ContactItem>, k: Key)
    ensures k in ContactsIndex(items) <==>
              k.value != "" &&
              exists i :: 0 <= i < |items| &&
                if k.kind == PhoneKind then
                  exists j :: 0 <= j < |items[i].phones| && NormPhone(OrEmpty(items[i].phones[j])) == k.value
                else
                  exists j :: 0 <= j < |items[i].emails| && NormEmail(OrEmpty(items[i].emails[j])) == k.value
  {
    ContactsIndexMembership(items, k);
    forall i | 0 <= i < |items|
      ensures k in ItemKeys(items[i]) <==>
                k.value != "" &&
                if k.kind == PhoneKind then
                  exists j :: 0 <= j < |items[i].phones| && NormPhone(OrEmpty(items[i].phones[j])) == k.value
                else
                  exists j :: 0 <= j < |items[i].emails| && NormEmail(OrEmpty(items[i].emails[j])) == k.value
    {
      KeysMembership(PhoneKey, items[i].phones, k);
      KeysMembership(EmailKey, items[i].emails, k);
    }
  }

  /** Every key of the index is normalised: a fixed point of its normaliser. */
  lemma IndexKeysNormalised(items: seq<ContactItem>, k: Key)
    requires k in ContactsIndex(items)
    ensures k.value != ""
    ensures k.kind == PhoneKind ==> NormPhone(k.value) == k.value
    ensures k.kind == EmailKind ==> NormEmail(k.value) == k.value
  {
    ContactsIndexSpec(items, k);
    var i :| 0 <= i < |items| &&
      if k.kind == PhoneKind then
        exists j :: 0 <= j < |items[i].phones| && NormPhone(OrEmpty(items[i].phones[j])) == k.value
      else
        exists j :: 0 <= j < |items[i].emails| && NormEmail(OrEmpty(items[i].emails[j])) == k.value;
    if k.kind == PhoneKind {
      var j :| 0 <= j < |items[i].phones| && NormPhone(OrEmpty(items[i].phones[j])) == k.value;
      NormPhoneIdempotent(OrEmpty(items[i].phones[j]));
    } else {
      var j :| 0 <= j < |items[i].emails| && NormEmail(OrEmpty(items[i].emails[j])) == k.value;
      NormEmailIdempotent(OrEmpty(items[i].emails[j]));
    }
  }
}
