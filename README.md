# Bitrix24 internship portal: a Dafny model of its data handling

The portal is a Django application embedded in a Bitrix24 CRM. This project models the parts of it
that turn CRM data into pages, files and CRM commands, and proves what they promise:

- **Contacts** (`contacts/services.py`)
  - normalisation of titles, phones and e-mails (`norm`, `norm_phone`, `norm_email`);
  - the header-synonym table of `_extract_row_common`;
  - the CSV and XLSX readers and the `parse_uploaded_file` dispatch;
  - the company map and the index of existing contacts;
  - the import loop, with duplicate detection and batching into 50-command `batch` calls;
  - the export row builder with its company filter, and the CSV header row.
- **Employees** (`employees/services.py`)
  - the department map (`fetch_departments`);
  - the manager chain (`build_manager_chain`), which climbs `PARENT` links and stops on cycles.
- **Company map** (`map/views.py`): the address index, the join of companies with addresses, and `has_companies`.
- **Deals** (`services.py`)
  - the reference tables of `load_manuals`;
  - `humanize_deal_row`, which adds readable labels to a deal row in place.
- **QR product page** (`qr/views.py`): the merge of the live product with the snapshot stored with the link.

How the source is modelled:

- Each CRM list the source fetches is an input sequence, and each value it reads from a CRM record is a `Scalar`: `None`, a string or an integer.
- Python's `strip()`, `lower()`, `isdigit()`, `int()` and `str()` are written out in `PyStr` and `PyValue`.
- A Python `dict` whose iteration order matters is an association list (`PyDict`); other dicts are Dafny maps.
- Loops of the source are methods with loop invariants.
  - Each method is proved equal to a specification function.
  - The properties are lemmas about that function.
- The row dictionary of `humanize_deal_row` is a field of a `DealRow` object that the method updates in place.

A row whose phone an earlier row already used is not always skipped as a duplicate. `seen_in_file` grows only when a contact is created (`contacts/services.py:236-241`). So a phone that first appears on a blank row (line 223) or on a duplicate row (line 237) does not block a later row. `ContactImportFacts.BlankRowClaimsNothing` and `ContactImportFacts.DuplicateClaimsNothing` state both cases.

## Model

| member | source | states |
|---|---|---|
| PyStr.Strip | internship_b24/contacts/services.py:14 | `strip()` leaves no whitespace (Python's `isspace` set) at either end |
| PyStr.StripPadded | internship_b24/contacts/services.py:14 | `strip()` removes only whitespace, and only at the ends: the input is the result padded with whitespace |
| PyStr.StripIdempotent | internship_b24/contacts/services.py:14 | stripping twice is stripping once |
| PyStr.LowerIdempotent | internship_b24/contacts/services.py:14 | lower-casing twice is lower-casing once |
| PyStr.StripLower | internship_b24/contacts/services.py:94 | stripping and lower-casing commute |
| PyStr.Digits | internship_b24/contacts/services.py:20 | the digits of a string are digits only, no longer than it, and a digit string is its own digits |
| PyStr.DigitsConcat | internship_b24/contacts/services.py:20 | the digits of a concatenation are the concatenation of the digits |
| PyStr.NatToString | internship_b24/qr/views.py:88 | `str(n)` of a natural number is a non-empty digit string |
| PyStr.IntToStringRoundTrip | internship_b24/contacts/services.py:153 | `int(str(i)) == i` for every integer |
| PyStr.NatToStringInjective | internship_b24/contacts/services.py:259 | different numbers print differently |
| PyValue.ToIntPadded | internship_b24/contacts/services.py:152-155 | `int()` accepts a decimal numeral with any whitespace around it and returns its value |
| PyValue.ToIntAccepts | internship_b24/contacts/services.py:152-155 | `int(s)` of a string succeeds iff `s.strip()` is one or more digits with at most a leading sign; an empty text, a lone sign or any other character raises |
| PyValue.ToIntOfString | internship_b24/contacts/services.py:336 | an integer and its decimal string convert to the same `int` |
| PyDict.PutGet | internship_b24/contacts/services.py:153 | after `d[k] = v`, `d.get(k)` is `v` and every other key reads as before |
| PyDict.PutUnique | internship_b24/contacts/services.py:147-156 | assignment keeps keys unique and adds an entry only for a new key |
| ContactNormalize.NormIsNormal | internship_b24/contacts/services.py:13-14 | a normalised title has no whitespace at its ends and no upper-case letter |
| ContactNormalize.NormIdempotent | internship_b24/contacts/services.py:13-14 | normalising a normalised title changes nothing |
| ContactNormalize.NormEmailIdempotent | internship_b24/contacts/services.py:30-31 | normalising a normalised e-mail changes nothing |
| ContactNormalize.NormPhoneSpec | internship_b24/contacts/services.py:17-27 | the result is digits only; 10-digit and 8-prefixed 11-digit numbers become 7 plus the last ten digits; other lengths are kept; no result is left in either rewritten form |
| ContactNormalize.NormPhoneIdempotent | internship_b24/contacts/services.py:17-27 | normalising a normalised phone changes nothing |
| ContactNormalize.NormPhoneSameNumber | internship_b24/contacts/services.py:22-27 | the national, the 8-prefixed and the 7-prefixed forms of a number normalise to the same key |
| ContactNormalize.NormPhoneIgnoresSeparator | internship_b24/contacts/services.py:20 | inserting a non-digit (space, dash, bracket) does not change the key |
| ContactIngest.Take | internship_b24/contacts/services.py:53-58 | the stripped value of the first synonym with a non-empty value, or "" when none has one |
| ContactIngest.ExtractRowCommon | internship_b24/contacts/services.py:60-66 | all five fields of the record come out stripped |
| ContactIngest.ExtractIgnoresOtherKeys | internship_b24/contacts/services.py:45-66 | two rows that agree on the synonym keys give the same record, whatever other columns they have |
| ContactIngest.TakeAgrees | internship_b24/contacts/services.py:53-58 | `take` reads only the keys it is given |
| ContactIngest.CsvRowLookup | internship_b24/contacts/services.py:90-95 | a normalised header is in the row iff some non-empty raw header normalises to it, and its value is the stripped value of the last such column |
| ContactIngest.NormalizeCsvRow | internship_b24/contacts/services.py:90-95 | the header-normalising loop builds the row of the raw pairs |
| ContactIngest.ParseCsvFile | internship_b24/contacts/services.py:69-99 | a blank file gives no rows; otherwise one record per non-empty reader row, in order |
| ContactIngest.CsvRecordsCount | internship_b24/contacts/services.py:86-97 | at most one record per reader row, exactly one when no reader row is empty |
| ContactIngest.XlsxHeadersNormalised | internship_b24/contacts/services.py:108 | there is one header per cell of the first row, each stripped and lower-case, the form the synonym table uses |
| ContactIngest.XlsxHeaderCyrillic | internship_b24/contacts/services.py:108 | the header cell " ИМЯ " becomes the synonym "имя" |
| ContactIngest.FirstNameOnly | internship_b24/contacts/services.py:60-66 | a row holding only "имя" gives a record with that first name and every other field "" |
| ContactIngest.XlsxHeaderSynonym | internship_b24/contacts/services.py:102-123 | a sheet whose header cell reads " ИМЯ " fills the first name from that column |
| ContactIngest.AnyTruthyCell | internship_b24/contacts/services.py:115 | the scan returns `any(row_values)` |
| ContactIngest.BuildXlsxRow | internship_b24/contacts/services.py:118-121 | the zip loop builds the row of the first `min(len)` header/cell pairs, skipping empty headers |
| ContactIngest.ParseXlsxFile | internship_b24/contacts/services.py:102-123 | a sheet without rows gives none; otherwise one record per data row with a truthy cell |
| ContactIngest.XlsxRecordsCount | internship_b24/contacts/services.py:113-123 | at most one record per data row; one each when all have a truthy cell, none when none has one |
| ContactIngest.DetectFormat | internship_b24/contacts/services.py:126-132 | CSV iff the lower-cased name ends in `.csv`; XLSX iff it does not and ends in `.xlsx` or `.xlsm`; otherwise the "only CSV and XLSX" error |
| ContactIngest.ParseUploadedFile | internship_b24/contacts/services.py:126-132 | dispatches to the CSV or XLSX reader by name, or fails with the unsupported-format error |
| ContactIndex.CompanyEntry | internship_b24/contacts/services.py:149-155 | a company contributes an entry only with a non-empty normalised title |
| ContactIndex.GetCompaniesMap | internship_b24/contacts/services.py:138-156 | the loop builds the companies dictionary of the listed companies |
| ContactIndex.CompaniesLookup | internship_b24/contacts/services.py:147-156 | a title maps to the id of the last listed company with that normalised title and an int-convertible, truthy id; otherwise it is absent |
| ContactIndex.CompaniesWellFormed | internship_b24/contacts/services.py:147-156 | the dictionary has unique keys, all non-empty normalised titles |
| ContactIndex.BuildExistingContactsIndex | internship_b24/contacts/services.py:159-182 | the loop builds the index of the listed contacts |
| ContactIndex.AddPhoneKeys | internship_b24/contacts/services.py:173-176 | the inner phone loop adds exactly the phone keys of the values |
| ContactIndex.AddEmailKeys | internship_b24/contacts/services.py:177-180 | the inner e-mail loop adds exactly the e-mail keys of the values |
| ContactIndex.KeysMembership | internship_b24/contacts/services.py:173-180 | a key comes from a multi-field list iff one of its values yields it |
| ContactIndex.ContactsIndexMembership | internship_b24/contacts/services.py:172-180 | a key is in the index iff one of the contacts yields it |
| ContactIndex.ContactsIndexSpec | internship_b24/contacts/services.py:170-182 | `("phone", p)` is in the index iff `p` is non-empty and some contact has a phone normalising to `p`; likewise for e-mails |
| ContactIndex.IndexKeysNormalised | internship_b24/contacts/services.py:173-180 | every indexed value is non-empty and already normalised |
| ContactImport.CollidesWith | internship_b24/contacts/services.py:236 | a row with a key already in the index or already seen collides |
| ContactImport.CollidesHasWitness | internship_b24/contacts/services.py:236 | a row collides only through one of its own keys |
| ContactImport.Run | internship_b24/contacts/services.py:197-261 | every row is counted exactly once as created, duplicate or empty, and one payload is queued per created row |
| ContactImport.CmdKeyInjective | internship_b24/contacts/services.py:259 | different counters give different command keys |
| ContactImport.CmdMapKeys | internship_b24/contacts/services.py:259-260 | the command keys of a batch are `c0` to `c(n-1)` |
| ContactImport.CmdMapLength | internship_b24/contacts/services.py:259-260 | a batch has one command per queued payload |
| ContactImport.CmdMapAt | internship_b24/contacts/services.py:259-260 | the `i`-th payload is the `crm.contact.add` command under `ci` |
| ContactImport.CmdMapSpec | internship_b24/contacts/services.py:259-260 | one command per payload, the `i`-th under `ci` |
| ContactImport.CmdMapSnoc | internship_b24/contacts/services.py:259-260 | queueing a payload adds it under the next free key |
| ContactImport.BatchesAppend | internship_b24/contacts/services.py:263-268 | full batches, then a last partial batch, are flushed in that order |
| ContactImport.FullBatch | internship_b24/contacts/services.py:264-265 | the 50th queued command flushes the batch after the earlier ones |
| ContactImport.BatchesCount | internship_b24/contacts/services.py:205-268 | `n` payloads are sent in `ceil(n / 50)` batch calls |
| ContactImport.BatchAt | internship_b24/contacts/services.py:205-268 | batch call `i` sends payloads `50i` to `50i + 49`, or fewer at the end |
| ContactImport.BatchesShape | internship_b24/contacts/services.py:207-212 | every batch call has `halt` 0 and between 1 and 50 commands keyed `c0` onwards, so no empty batch is sent |
| ContactImport.BatchesTotal | internship_b24/contacts/services.py:259-268 | the batch calls carry as many commands as there are payloads |
| ContactImport.HundredAndOne | internship_b24/contacts/services.py:205-268 | 101 payloads are sent as batches of 50, 50 and 1 |
| ContactImport.ClassifyRow | internship_b24/contacts/services.py:221-238 | a row without names is empty; one with a known key is a duplicate; otherwise it is created; the keys are the phone key then the e-mail key |
| ContactImport.BuildPayload | internship_b24/contacts/services.py:243-256 | the payload has the names, the raw phone and e-mail when their keys are non-empty, and `COMPANY_ID` when the company is known with a non-zero id |
| ContactImport.QueueAdd | internship_b24/contacts/services.py:259-262 | queueing below 50 commands keeps the batching invariant |
| ContactImport.QueueFlush | internship_b24/contacts/services.py:263-265 | the flush at 50 commands keeps the batching invariant |
| ContactImport.Enqueue | internship_b24/contacts/services.py:258-265 | queueing a command, flushing at 50, keeps the sent calls equal to the batches of the payloads so far |
| ContactImport.Flush | internship_b24/contacts/services.py:267-268 | the final flush makes the sent calls exactly the batches of all payloads |
| ContactImport.RunStep | internship_b24/contacts/services.py:214-265 | the import after `i + 1` rows is one loop pass after `i` rows |
| ContactImport.StepByVerdict | internship_b24/contacts/services.py:221-261 | an empty row or a duplicate only bumps its counter; a created row adds its keys to `seen_in_file` and queues its payload |
| ContactImport.ImportRow | internship_b24/contacts/services.py:214-265 | the loop body performs one pass of the import and keeps the batching invariant |
| ContactImport.ImportContacts | internship_b24/contacts/services.py:185-274 | the counters sum to the number of rows; the statistics and the batch calls are those of the import run; every call has `halt` 0 and 1 to 50 commands |
| ContactImportFacts.RunStepParts | internship_b24/contacts/services.py:236-261 | `seen_in_file` and the payloads grow only when the row is created |
| ContactImportFacts.SeenStep | internship_b24/contacts/services.py:240-241 | a key is seen after a row iff it was seen before, or the row was created with it |
| ContactImportFacts.SeenGrows | internship_b24/contacts/services.py:240-241 | a row never removes a key from `seen_in_file` |
| ContactImportFacts.SeenMonotone | internship_b24/contacts/services.py:201-241 | `seen_in_file` only grows |
| ContactImportFacts.SeenIsCreatedKeys | internship_b24/contacts/services.py:201-241 | after `n` rows, `seen_in_file` holds exactly the keys of the created rows among them |
| ContactImportFacts.PayloadsInOrder | internship_b24/contacts/services.py:258-261 | the payloads are queued in row order, one per created row |
| ContactImportFacts.FirstOccurrenceWins | internship_b24/contacts/services.py:236-241 | after a row is created, any later named row sharing one of its keys is a duplicate |
| ContactImportFacts.CreatedRowsDisjoint | internship_b24/contacts/services.py:229-241 | two created rows never share a phone or an e-mail key |
| ContactImportFacts.ExistingPhoneBlocks | internship_b24/contacts/services.py:226-238 | a named row whose phone normalises like a phone of an existing contact is a duplicate |
| ContactImportFacts.ExistingEmailBlocks | internship_b24/contacts/services.py:226-238 | a named row whose e-mail normalises like an e-mail of an existing contact is a duplicate |
| ContactImportFacts.ReimportIsDuplicate | internship_b24/contacts/services.py:226-251 | once the contact a row created exists, importing the row again is a duplicate |
| ContactImportFacts.PayloadCompany | internship_b24/contacts/services.py:253-256 | `COMPANY_ID` is set iff the row names a company whose normalised title is known with a non-zero id, and it is the id of the last listed such company |
| ContactImportFacts.PayloadSentAt | internship_b24/contacts/services.py:259-265 | payload `j` is sent in batch call `j / 50` under key `c(j % 50)` |
| ContactImportFacts.BlankRowClaimsNothing | internship_b24/contacts/services.py:222-241 | a blank row does not claim its phone: a later named row with that phone is created |
| ContactImportFacts.DuplicateClaimsNothing | internship_b24/contacts/services.py:236-241 | a duplicate does not claim its other keys: a later row repeating only those is created |
| ContactExport.ExportFilter | internship_b24/contacts/services.py:289-293 | the date filter has `>=DATE_CREATE` iff a start date is given, with " 00:00:00" appended, and `<=DATE_CREATE` iff an end date is given, with " 23:59:59" |
| ContactExport.InvertDictLookup | internship_b24/contacts/services.py:313 | the id-to-title map sends an id to the title of the last company entry with that id |
| ContactExport.ExportRowFor | internship_b24/contacts/services.py:320-338 | the row of a contact: names or "", first phone and e-mail or "", the given company title or else the title of its id |
| ContactExport.CollectContactsForExport | internship_b24/contacts/services.py:278-347 | the filters are the date filter, and the rows are the kept rows of the contacts in order |
| ContactExport.ExportRowsAppend | internship_b24/contacts/services.py:319-345 | the export of two lists of contacts is the concatenation of their exports |
| ContactExport.ExportRowsKept | internship_b24/contacts/services.py:340-345 | every exported row passes the company filter and is the row of one of the contacts |
| ContactExport.ExportRowsComplete | internship_b24/contacts/services.py:340-345 | every contact whose row passes the filter is exported |
| ContactExport.ExportUnfiltered | internship_b24/contacts/services.py:317-345 | without a company filter, every contact gives exactly its row, in order |
| ContactExport.TitleFallback | internship_b24/contacts/services.py:331-338 | without a title, a contact with a truthy, int-convertible company id gets the title of the last company with that id, or "" |
| ContactExport.TitleGivenOrNone | internship_b24/contacts/services.py:331-338 | a given title is kept; without one, and with an id that `int()` rejects, the title is "" |
| ContactExport.PlainHeaderKey | internship_b24/contacts/services.py:94 | a lower-case header without surrounding whitespace is its own key |
| ContactExport.HeaderKeys | internship_b24/contacts/services.py:364 | each header the CSV export writes is its own normalised key on import |
| ContactExport.ReadBackRow | internship_b24/contacts/services.py:364-367 | reading an exported CSV line back maps each header to its stripped cell |
| ContactExport.ReadBackFirstName | internship_b24/contacts/services.py:364-367 | the importer takes the first name from the "имя" column of an exported line |
| ContactExport.ReadBackLastName | internship_b24/contacts/services.py:364-367 | the importer takes the last name from the "фамилия" column |
| ContactExport.ReadBackPhone | internship_b24/contacts/services.py:364-367 | the importer takes the phone from the "номер телефона" column |
| ContactExport.ReadBackEmail | internship_b24/contacts/services.py:364-367 | the importer takes the e-mail from the "почта" column |
| ContactExport.ReadBackCompany | internship_b24/contacts/services.py:364-367 | the importer takes the company from the "компания" column |
| ContactExport.ExportImportRoundTrip | internship_b24/contacts/services.py:364-367 | importing an exported line gives back its five cells, stripped |
| ContactExport.ExportImportExact | internship_b24/contacts/services.py:364-367 | cells without surrounding whitespace come back unchanged |
| ContactExport.CsvKeyIgnoresCase | internship_b24/contacts/services.py:94 | a header and its lower-cased form have the same key, so capitalised headers import the same way |
| Employees.IntOrNone | internship_b24/employees/services.py:50-51 | a falsy value gives `None`, a truthy one its `int()`, and a truthy value `int()` rejects raises |
| Employees.FetchDepartments | internship_b24/employees/services.py:37-54 | the loop builds the department map of the records, or raises as they do |
| Employees.DepartmentsFailurePersists | internship_b24/employees/services.py:42-52 | once a record raises, the whole call raises the same error |
| Employees.DepartmentsLookup | internship_b24/employees/services.py:42-52 | a department id is in the map iff some record's id converts to it, and the entry is the last such record's |
| Employees.DepartmentsFailure | internship_b24/employees/services.py:43-51 | the call raises iff some record with an int id has a truthy head or parent that `int()` rejects; records with a bad id are skipped |
| Employees.KnownIds | internship_b24/employees/services.py:82-85 | only heads with a non-empty user record are kept |
| Employees.WalkInMap | internship_b24/employees/services.py:69-79 | the walk visits only departments of the map, each once |
| Employees.WalkFollowsParents | internship_b24/employees/services.py:71-79 | the walk starts at the user's department and each next department is the `PARENT` of the one before |
| Employees.WalkBound | internship_b24/employees/services.py:69-72 | the walk ends, even on cyclic `PARENT` links, after at most one step per department |
| Employees.HeadIdsBound | internship_b24/employees/services.py:76-78 | at most one head per visited department |
| Employees.HeadIdsExcludeUser | internship_b24/employees/services.py:76-78 | no collected head is the user or 0 |
| Employees.HeadIdsAppend | internship_b24/employees/services.py:71-79 | heads are collected level by level, nearest first |
| Employees.HeadIdsOne | internship_b24/employees/services.py:76-78 | a department adds its head unless it has none or it is the user |
| Employees.KnownIdsAppend | internship_b24/employees/services.py:82-85 | dropping unknown heads keeps the order of the rest |
| Employees.KnownIdsSound | internship_b24/employees/services.py:82-85 | every kept head is one of the heads, and there are no more of them |
| Employees.KnownIdsAll | internship_b24/employees/services.py:82-85 | when every head has a user record, none is dropped |
| Employees.EntriesStep | internship_b24/employees/services.py:82-87 | one more head appends its entry iff its user record is non-empty |
| Employees.EntriesSound | internship_b24/employees/services.py:81-87 | every entry is a known head with its stripped "NAME LAST_NAME", and there are no more entries than heads |
| Employees.EntriesComplete | internship_b24/employees/services.py:81-87 | when every head has a user record, there is one entry per head, in order |
| Employees.NoDepartmentNoChain | internship_b24/employees/services.py:67-71 | a user without departments, or in department 0, has an empty chain |
| Employees.WalkAdvance | internship_b24/employees/services.py:71-79 | one pass of the first loop keeps its invariant |
| Employees.WalkMeetsHead | internship_b24/employees/services.py:77 | a truthy head on the walk forces `int(user["ID"])` |
| Employees.CollectHeads | internship_b24/employees/services.py:66-79 | the first loop collects the heads along the walk, or raises when a truthy head meets a user id that `int()` rejects |
| Employees.ChainEntries | internship_b24/employees/services.py:81-89 | the second loop builds the entries of the known heads |
| Employees.BuildManagerChain | internship_b24/employees/services.py:57-89 | the method computes the manager chain, including its two error cases |
| Employees.ManagerChainSpec | internship_b24/employees/services.py:57-89 | a chain has at most one entry per department and never names the user |
| CompanyMap.NonEmptyParts | internship_b24/map/views.py:84 | only non-empty parts are joined |
| CompanyMap.JoinCommaEmpty | internship_b24/map/views.py:84 | joining non-empty parts gives "" iff there are none |
| CompanyMap.NonEmptyPartsEmpty | internship_b24/map/views.py:84 | no part survives iff all are empty |
| CompanyMap.AddressEmpty | internship_b24/map/views.py:78-86 | the address is "" iff country, region, city and street are all empty |
| CompanyMap.AddressAllParts | internship_b24/map/views.py:78-84 | with all four parts present, the address is "country, region, city, street" |
| CompanyMap.AddressSkipsEmpty | internship_b24/map/views.py:78-84 | a record with only a city gives just the city, with no stray commas |
| CompanyMap.BuildAddressIndex | internship_b24/map/views.py:66-87 | the loop builds the address index of the records |
| CompanyMap.AddressIndexLookup | internship_b24/map/views.py:66-87 | a company id is indexed iff some dict record for it has a non-empty address; the entry is the last such record's address |
| CompanyMap.AddressIndexNonEmpty | internship_b24/map/views.py:74-87 | no empty id and no empty address is indexed |
| CompanyMap.JoinCompanies | internship_b24/map/views.py:89-109 | the loop lists the companies to show |
| CompanyMap.CompaniesMapView | internship_b24/map/views.py:66-114 | the view's list is the join of the companies with the address index, and `has_companies` is true iff the list is non-empty |
| CompanyMap.MapCompaniesAppend | internship_b24/map/views.py:90-109 | companies are listed in their CRM order |
| CompanyMap.MapCompaniesSound | internship_b24/map/views.py:91-109 | every listed company has a non-empty id, title and address, and its indexed address |
| CompanyMap.MapCompaniesComplete | internship_b24/map/views.py:91-109 | every company with an id and an address is listed |
| CompanyMap.ShownTitle | internship_b24/map/views.py:104 | the title is the stripped `TITLE`, or "Компания #id" when that is empty |
| CompanyMap.HasCompaniesIff | internship_b24/map/views.py:114 | `has_companies` iff some company has both an id and an address |
| Deals.TableFromLookup | internship_b24/services.py:12-19 | a code is in a reference table iff some item has it, and it maps to the value of the last such item |
| Deals.LoadManuals | internship_b24/services.py:5-22 | the method builds the stage, type and currency tables, then a table and a caption per list-type user field |
| Deals.CaptionKeyDistinct | internship_b24/services.py:20 | a caption key is never a base table's key or the priority code |
| Deals.UserFieldDistinct | internship_b24/services.py:18 | a `UF_CRM_` code is never a base table's key |
| Deals.ManualsReady | internship_b24/services.py:11-20 | the user-field loop keeps the three base tables |
| Deals.BaseKept | internship_b24/services.py:11-20 | the stage, type and currency tables are not overwritten |
| Deals.CaptionKeyEndsWith | internship_b24/services.py:20 | every caption key ends in `__label` |
| Deals.CaptionKeyInjective | internship_b24/services.py:20 | different codes have different caption keys |
| Deals.ManualsLookup | internship_b24/services.py:17-20 | a code has a table and a caption iff some field with that code is a `UF_CRM_` dict with items; the entries are the last such field's items and `formLabel`, else `title`, else the code |
| Deals.OtherFieldKeys | internship_b24/services.py:17-20 | the keys of two different user fields never clash |
| Deals.DealRow.constructor | internship_b24/services.py:25 | a deal row holding the given fields |
| Deals.HumanizeDealRow | internship_b24/services.py:25-32 | the row is updated in place to its humanised fields and the same row is returned |
| Deals.HumanizedKeys | internship_b24/services.py:27-31 | the four label keys are added and every other field is kept |
| Deals.HumanizedLabels | internship_b24/services.py:27-29 | a type, stage or currency code with a table entry shows that entry; any other code shows itself |
| Deals.HumanizedPriority | internship_b24/services.py:30-31 | the priority label is the table entry of the row's priority value, or `None` when the row has no priority or the table lacks it |
| Deals.HumanizeIdempotent | internship_b24/services.py:25-32 | humanising a humanised row changes nothing |
| QrPublic.PublicPageOf | internship_b24/qr/views.py:94-102 | the page carries the link's product id and key |
| QrPublic.LiveFields | internship_b24/qr/views.py:81-86 | with a live product: title, picture and description are live unless empty, else cached; price and currency are always live |
| QrPublic.CachedFields | internship_b24/qr/views.py:87-92 | without a live product every field is cached, and the title falls back to "Товар id", so it is never empty |
| QrPublic.PlaceholderInjective | internship_b24/qr/views.py:88 | different products get different placeholder titles |
| QrPublic.LinkFor | internship_b24/qr/views.py:41-47 | the stored link snapshots the product: without the CRM, its page shows the product's id, picture, price, currency and description, and its name when that is non-empty (`or ""` changes nothing, since the fields are strings) |
| QrPublic.SnapshotCoversOutage | internship_b24/qr/views.py:41-92 | for a link made from a named product, the page is the same whether or not the CRM still returns that product |

## Left out

- The CRM REST calls (`call_list_method`, `call_api_method`, `b24_call`) are not modelled: their results are inputs, and the batch calls are an output log.
- The CSV tokeniser (`csv.DictReader`, `csv.writer`), UTF-8-SIG decoding, and the workbook reader and writer (openpyxl) are not modelled: the model starts from the header/value pairs and cell values they produce.
  - `ContactExport.ReadBack` therefore pairs the export header with the cells of a row without quoting or escaping.
- `urlencode` of the payload is not modelled: a command keeps the payload as a structure.
- `html.unescape` of the currency `FULL_NAME` is not modelled: names are taken as already unescaped.
- `lower()` covers ASCII and the basic Cyrillic capitals (U+0410-042F and U+0400-040F); other scripts are left unchanged.
- `isdigit()` covers ASCII digits only.
- `int()` on strings accepts whitespace, a sign and ASCII digits, but no underscores and no non-ASCII digits.
- Values are `None`, strings or integers. Floats, lists and other JSON values in CRM fields are not modelled.
- In the address and company records, non-string `COUNTRY`, `REGION`, `CITY`, `ADDRESS_1` and `TITLE` values are not modelled.
- `get_product_by_id` (`qr/services.py`) is not modelled: `live` is its result, `None` or a product.
- Of `qr_form_view`, only the snapshot that `ProductLink.objects.create` stores is modelled (`QrPublic.LinkFor`). The form handling and `created_by` are not.
- QR image rendering, URL building, Django views and templates, forms, `json.dumps` and settings are not part of this model.
- `count_outbound_calls_24h`, `generate_test_calls`, `fetch_active_users` and the employees view with its sorting are not part of this model.
- Concurrency and CRM data that changes between calls are not modelled.
- Deals.ManualsLookup: requires that no field code ends in `__label`, and that neither the code nor its caption key is a base table key. A user field named like another field's caption key would overwrite that caption, and the lemma does not cover that case.
- Deals.HumanizeDealRow: requires the stage, type and currency tables that `load_manuals` always builds. Without them the source raises `KeyError`, which the model does not cover.
