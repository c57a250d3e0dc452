/**
  What `import_contacts` promises about its rows taken together: the
  `seen_in_file` set holds exactly the keys of the rows created so far, the
  first row with a key wins, created rows never share a key, a contact the
  CRM already has blocks the row, and a row imported twice is a duplicate
  the second time. The batch calls deliver every payload once, in order.
 */
module ContactImportFacts {
  import opened Wrappers
  import opened PyStr
  import opened PyDict
  import opened ContactNormalize
  import opened ContactIngest
  import opened ContactIndex
  import opened ContactImport

  /** One more row: `seen_in_file` and the payloads grow only when the row is created. */
  lemma RunStepParts(vs: seq<RowView>, i: nat, existing: set<Key>)
    requires i < |vs|
    ensures Run(vs[..i + 1], existing).seen ==
              if VerdictAt(vs, existing, i) == Created then Run(vs[..i], existing).seen + SetOf(vs[i].keys)
              else Run(vs[..i], existing).seen
    ensures Run(vs[..i + 1], existing).payloads ==
              if VerdictAt(vs, existing, i) == Created then Run(vs[..i], existing).payloads + [vs[i].payload]
              else Run(vs[..i], existing).payloads
  {
    RunStep(vs, i, existing);
  }

  /** A key is seen after row `i` iff it was seen before, or row `i` was created with it. */
  lemma SeenStep(vs: seq<RowView>, i: nat, existing: set<Key>, k: Key)
    requires i < |vs|
    ensures k in Run(vs[..i + 1], existing).seen <==>
              k in Run(vs[..i], existing).seen || (VerdictAt(vs, existing, i) == Created && k in vs[i].keys)
  {
    RunStepParts(vs, i, existing);
  }

  /** One row never removes a key from `seen_in_file`. */
  lemma SeenGrows(vs: seq<RowView>, i: nat, existing: set<Key>)
    requires i < |vs|
    ensures Run(vs[..i], existing).seen <= Run(vs[..i + 1], existing).seen
  {
    RunStepParts(vs, i, existing);
  }

  /** `seen_in_file` only grows. */
  lemma {:induction false} SeenMonotone(vs: seq<RowView>, i: nat, j: nat, existing: set<Key>)
    requires i <= j <= |vs|
    ensures Run(vs[..i], existing).seen <= Run(vs[..j], existing).seen
    decreases j - i
  {
    if i < j {
      SeenMonotone(vs, i, j - 1, existing);
      SeenGrows(vs, j - 1, existing);
    }
  }

  /**
    After `n` rows, a key is in `seen_in_file` iff it is a key of one of
    those rows that was created; empty and duplicate rows add nothing.
   */
  lemma {:induction false} SeenIsCreatedKeys(vs: seq<RowView>, n: nat, existing: set<Key>, k: Key)
    requires n <= |vs|
    ensures k in Run(vs[..n], existing).seen <==>
              exists i :: 0 <= i < n && VerdictAt(vs, existing, i) == Created && k in vs[i].keys
  {
    if n > 0 {
      SeenIsCreatedKeys(vs, n - 1, existing, k);
      SeenStep(vs, n - 1, existing, k);
    } else {
      assert vs[..0] == [];
    }
  }

  /**
    The payloads of the created rows among the first rows of `vs`, in row
    order: the `m`-th payload belongs to the `m`-th created row.
   */
  function CreatedPayloads(vs: seq<RowView>, existing: set<Key>, n: nat): seq<Payload>
    requires n <= |vs|
  {
    if n == 0 then []
    else CreatedPayloads(vs, existing, n - 1) + (if VerdictAt(vs, existing, n - 1) == Created then [vs[n - 1].payload] else [])
  }

  /** The payloads are sent in the order of their rows; rows not created send nothing. */
  lemma {:induction false} PayloadsInOrder(vs: seq<RowView>, n: nat, existing: set<Key>)
    requires n <= |vs|
    ensures Run(vs[..n], existing).payloads == CreatedPayloads(vs, existing, n)
  {
    if n > 0 {
      PayloadsInOrder(vs, n - 1, existing);
      RunStepParts(vs, n - 1, existing);
    } else {
      assert vs[..0] == [];
    }
  }

  /**
    The first occurrence wins: once a row is created, every later row with
    a name that shares one of its keys is a duplicate.
   */
  lemma FirstOccurrenceWins(vs: seq<RowView>, i: nat, j: nat, existing: set<Key>, k: Key)
    requires i < j < |vs|
    requires VerdictAt(vs, existing, i) == Created
    requires !vs[j].blank
    requires k in vs[i].keys && k in vs[j].keys
    ensures VerdictAt(vs, existing, j) == Duplicate
  {
    SeenStep(vs, i, existing, k);
    SeenMonotone(vs, i + 1, j, existing);
    CollidesWith(vs[j].keys, existing, Run(vs[..j], existing).seen, k);
  }

  /** Two created rows never share a phone key or an e-mail key. */
  lemma CreatedRowsDisjoint(vs: seq<RowView>, i: nat, j: nat, existing: set<Key>, k: Key)
    requires i < j < |vs|
    requires VerdictAt(vs, existing, i) == Created
    requires VerdictAt(vs, existing, j) == Created
    ensures !(k in vs[i].keys && k in vs[j].keys)
  {
    if k in vs[i].keys && k in vs[j].keys {
      FirstOccurrenceWins(vs, i, j, existing, k);
    }
  }

  /**
    A named row whose phone normalises to the phone of a contact already in
    the CRM is a duplicate, whatever the rows before it.
   */
  lemma ExistingPhoneBlocks(rows: seq<ContactRecord>, i: nat, items: seq<ContactItem>, companies: Dict<string, int>, c: nat, p: nat)
    requires i < |rows| && !IsBlank(rows[i])
    requires c < |items| && p < |items[c].phones|
    requires NormPhone(Strip(rows[i].phone)) != ""
    requires NormPhone(OrEmpty(items[c].phones[p])) == NormPhone(Strip(rows[i].phone))
    ensures VerdictAt(Views(rows, companies), ContactsIndex(items), i) == Duplicate
  {
    var vs := Views(rows, companies);
    var k := Key(PhoneKind, NormPhone(Strip(rows[i].phone)));
    ContactsIndexSpec(items, k);
    assert vs[i].keys[0] == k;
    CollidesWith(vs[i].keys, ContactsIndex(items), Run(vs[..i], ContactsIndex(items)).seen, k);
  }

  /** The same for a contact already in the CRM with the row's e-mail. */
  lemma ExistingEmailBlocks(rows: seq<ContactRecord>, i: nat, items: seq<ContactItem>, companies: Dict<string, int>, c: nat, e: nat)
    requires i < |rows| && !IsBlank(rows[i])
    requires c < |items| && e < |items[c].emails|
    requires NormEmail(Strip(rows[i].email)) != ""
    requires NormEmail(OrEmpty(items[c].emails[e])) == NormEmail(Strip(rows[i].email))
    ensures VerdictAt(Views(rows, companies), ContactsIndex(items), i) == Duplicate
  {
    var vs := Views(rows, companies);
    var k := Key(EmailKind, NormEmail(Strip(rows[i].email)));
    ContactsIndexSpec(items, k);
    var keys := vs[i].keys;
    assert keys[|keys| - 1] == k;
    CollidesWith(keys, ContactsIndex(items), Run(vs[..i], ContactsIndex(items)).seen, k);
  }

  /** The contact the CRM holds after a payload was created: its phone and e-mail lists. */
  function ContactOf(p: Payload): ContactItem {
    ContactItem(
      if p.phone.Some? then [Some(p.phone.value.value)] else [],
      if p.email.Some? then [Some(p.email.value.value)] else [])
  }

  /**
    Importing a row again once its contact exists is a duplicate: every key
    of the row is a key of the contact its payload creates.
   */
  lemma ReimportIsDuplicate(rec: ContactRecord, companies: Dict<string, int>, items: seq<ContactItem>, c: nat, seen: set<Key>)
    requires !IsBlank(rec) && RowKeys(rec) != []
    requires c < |items| && items[c] == ContactOf(PayloadOf(rec, companies))
    ensures Classify(IsBlank(rec), RowKeys(rec), ContactsIndex(items), seen) == Duplicate
  {
    var k := RowKeys(rec)[0];
    var item := items[c];
    ContactsIndexSpec(items, k);
    if k.kind == PhoneKind {
      assert NormPhone(OrEmpty(item.phones[0])) == k.value;
    } else {
      assert NormEmail(OrEmpty(item.emails[0])) == k.value;
    }
    CollidesWith(RowKeys(rec), ContactsIndex(items), seen, k);
  }

  /**
    `COMPANY_ID` is set iff the row names a company whose normalised title
    is in the companies map with a non-zero id, and it is the id of the last
    listed company with that title.
   */
  lemma PayloadCompany(rec: ContactRecord, items: seq<CompanyItem>)
    ensures PayloadOf(rec, CompaniesOf(items)).companyId.Some? <==>
              Strip(rec.company) != "" && LastCompanyFor(items, Norm(rec.company)) >= 0 &&
              CompanyEntry(items[LastCompanyFor(items, Norm(rec.company))]).value.1 != 0
    ensures PayloadOf(rec, CompaniesOf(items)).companyId.Some? ==>
              PayloadOf(rec, CompaniesOf(items)).companyId.value ==
                CompanyEntry(items[LastCompanyFor(items, Norm(rec.company))]).value.1
  {
    StripIdempotent(rec.company);
    assert Norm(Strip(rec.company)) == Norm(rec.company);
    CompaniesLookup(items, Norm(rec.company));
  }

  /**
    Payload `j` is sent in batch call `j / 50` under the command key
    `c<j % 50>`.
   */
  lemma PayloadSentAt(ps: seq<Payload>, j: nat)
    requires j < |ps|
    ensures j / BatchSize < |Batches(ps)|
    ensures CmdKey(j % BatchSize) in Batches(ps)[j / BatchSize].cmd
    ensures Batches(ps)[j / BatchSize].cmd[CmdKey(j % BatchSize)] == ContactAdd(ps[j])
  {
    var b := j / BatchSize;
    BatchAt(ps, b);
    var slice := Slice(ps, b);
    assert slice[j % BatchSize] == ps[j];
    CmdMapSpec(slice);
  }

  /**
    A row without names does not claim its keys: a later named row with the
    same phone key is created.
   */
  lemma BlankRowClaimsNothing(phone: Key, p: Payload, q: Payload)
    ensures
      var vs := [RowView(true, [phone], p), RowView(false, [phone], q)];
      VerdictAt(vs, {}, 0) == Empty && VerdictAt(vs, {}, 1) == Created
  {
    var vs := [RowView(true, [phone], p), RowView(false, [phone], q)];
    assert vs[..0] == [];
    RunStep(vs, 0, {});
    assert Run(vs[..1], {}).seen == {};
    assert [phone][1..] == [];
    assert VerdictAt(vs, {}, 0) == Empty;
    assert !Collides([phone], {}, {});
    assert VerdictAt(vs, {}, 1) == Created;
  }

  /**
    A duplicate does not claim its keys either: the second row repeats the
    first row's e-mail key and is skipped, so the third row, which repeats
    only the second row's phone key, is created.
   */
  lemma DuplicateClaimsNothing(phone1: Key, phone2: Key, email: Key, p: Payload)
    requires phone1 != phone2 && email != phone2
    ensures
      var vs := [RowView(false, [phone1, email], p), RowView(false, [phone2, email], p), RowView(false, [phone2], p)];
      VerdictAt(vs, {}, 0) == Created && VerdictAt(vs, {}, 1) == Duplicate && VerdictAt(vs, {}, 2) == Created
  {
    var vs := [RowView(false, [phone1, email], p), RowView(false, [phone2, email], p), RowView(false, [phone2], p)];
    assert vs[..0] == [];
    RunStep(vs, 0, {});
    RunStep(vs, 1, {});
    if Collides([phone1, email], {}, {}) {
      CollidesHasWitness([phone1, email], {}, {});
    }
    assert VerdictAt(vs, {}, 0) == Created;
    assert SetOf([phone1, email]) == {phone1, email};
    assert Run(vs[..1], {}).seen == {phone1, email};
    CollidesWith(vs[1].keys, {}, {phone1, email}, email);
    assert VerdictAt(vs, {}, 1) == Duplicate;
    assert Run(vs[..2], {}).seen == {phone1, email};
    assert [phone2][1..] == [];
    assert !Collides([phone2], {}, {phone1, email});
  }
}
