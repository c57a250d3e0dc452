/**
  `import_contacts`: each parsed row is skipped as empty, skipped as a
  duplicate of an existing contact or of an earlier row of the same file, or
  turned into a `crm.contact.add` command; the commands go to the CRM in
  `batch` calls of at most 50. The CRM lists are inputs and the batch calls
  the method would send are its output, in order.
 */
module ContactImport {
  import opened Wrappers
  import opened PyStr
  import opened PyValue
  import opened PyDict
  import opened ContactNormalize
  import opened ContactIngest
  import opened ContactIndex

  /** The CRM's limit of commands per `batch` call. */
  const BatchSize: nat := 50

  datatype ImportStats = ImportStats(created: nat, skippedDuplicates: nat, skippedEmpty: nat)

  /** What happens to one row. */
  datatype Verdict = Created | Duplicate | Empty

  /** `{"VALUE": value, "VALUE_TYPE": "WORK"}`. */
  datatype FieldValue = FieldValue(value: string, valueType: string)

  /** The `fields` of a `crm.contact.add` command; absent keys are `None`. */
  datatype Payload = Payload(
    name: string,
    lastName: string,
    phone: Option<FieldValue>,
    email: Option<FieldValue>,
    companyId: Option<int>)

  /** `"crm.contact.add?" + urlencode({"fields": payload})`, kept structured. */
  datatype Command = ContactAdd(fields: Payload)

  /** One `batch` call: `{"halt": 0, "cmd": batch_cmd}`. */
  datatype BatchCall = BatchCall(halt: int, cmd: map<string, Command>)

  /** Neither a first nor a last name, after stripping: `not (fn or ln)`. */
  predicate IsBlank(rec: ContactRecord) {
    Strip(rec.firstName) == "" && Strip(rec.lastName) == ""
  }

  /** The row's keys: its phone key, then its e-mail key, each when non-empty. */
  function RowKeys(rec: ContactRecord): seq<Key> {
    var np := NormPhone(Strip(rec.phone));
    var ne := NormEmail(Strip(rec.email));
    (if np != "" then [Key(PhoneKind, np)] else []) + (if ne != "" then [Key(EmailKind, ne)] else [])
  }

  /** `any(k in existing_index or k in seen_in_file for k in keys)`. */
  predicate Collides(keys: seq<Key>, existing: set<Key>, seen: set<Key>) {
    keys != [] && (keys[0] in existing || keys[0] in seen || Collides(keys[1..], existing, seen))
  }

  /** A key that is already known makes its row collide. */
  lemma {:induction false} CollidesWith(keys: seq<Key>, existing: set<Key>, seen: set<Key>, k: Key)
    requires k in keys && (k in existing || k in seen)
    ensures Collides(keys, existing, seen)
  {
    if keys[0] != k {
      CollidesWith(keys[1..], existing, seen, k);
    }
  }

  /** A row collides only through one of its keys. */
  lemma {:induction false} CollidesHasWitness(keys: seq<Key>, existing: set<Key>, seen: set<Key>)
    requires Collides(keys, existing, seen)
    ensures exists k :: k in keys && (k in existing || k in seen)
  {
    if !(keys[0] in existing || keys[0] in seen) {
      CollidesHasWitness(keys[1..], existing, seen);
      var k :| k in keys[1..] && (k in existing || k in seen);
      assert k in keys;
    }
  }

  /** The checks of the loop body, on a row's blankness and keys. */
  function Classify(blank: bool, keys: seq<Key>, existing: set<Key>, seen: set<Key>): Verdict {
    if blank then Empty
    else if Collides(keys, existing, seen) then Duplicate
    else Created
  }

  /** `COMPANY_ID`: the id of the company with that normalised title, unless it is 0. */
  function CompanyIdFor(company: string, companies: Dict<string, int>): Option<int> {
    if company == "" then None
    else
      match Get(companies, Norm(company))
      case Some(cid) => if cid != 0 then Some(cid) else None
      case None => None
  }

  /** The payload of an accepted row. */
  function PayloadOf(rec: ContactRecord, companies: Dict<string, int>): Payload {
    var phone := Strip(rec.phone);
    var email := Strip(rec.email);
    Payload(
      Strip(rec.firstName),
      Strip(rec.lastName),
      if NormPhone(phone) != "" then Some(FieldValue(phone, "WORK")) else None,
      if NormEmail(email) != "" then Some(FieldValue(email, "WORK")) else None,
      CompanyIdFor(Strip(rec.company), companies))
  }

  /** What the loop body computes from a row before it decides: blankness, keys, payload. */
  datatype RowView = RowView(blank: bool, keys: seq<Key>, payload: Payload)

  function ViewOf(rec: ContactRecord, companies: Dict<string, int>): RowView {
    RowView(IsBlank(rec), RowKeys(rec), PayloadOf(rec, companies))
  }

  function Views(rows: seq<ContactRecord>, companies: Dict<string, int>): (vs: seq<RowView>)
    ensures |vs| == |rows|
    ensures forall i :: 0 <= i < |rows| ==> vs[i] == ViewOf(rows[i], companies)
  {
    seq(|rows|, i requires 0 <= i < |rows| => ViewOf(rows[i], companies))
  }

  /** The state of the import after some rows: `seen_in_file`, the counters, the payloads created. */
  datatype Progress = Progress(seen: set<Key>, stats: ImportStats, payloads: seq<Payload>)

  function SetOf(keys: seq<Key>): set<Key> {
    set k | k in keys
  }

  /** One pass of the loop body. */
  function Step(p: Progress, v: RowView, existing: set<Key>): Progress {
    match Classify(v.blank, v.keys, existing, p.seen)
    case Empty => p.(stats := p.stats.(skippedEmpty := p.stats.skippedEmpty + 1))
    case Duplicate => p.(stats := p.stats.(skippedDuplicates := p.stats.skippedDuplicates + 1))
    case Created =>
      Progress(p.seen + SetOf(v.keys), p.stats.(created := p.stats.created + 1), p.payloads + [v.payload])
  }

  /**
    The state after the loop has seen the rows `vs`: each row bumps exactly
    one counter, and one payload is created per `created`.
   */
  function Run(vs: seq<RowView>, existing: set<Key>): (p: Progress)
    ensures p.stats.created + p.stats.skippedDuplicates + p.stats.skippedEmpty == |vs|
    ensures |p.payloads| == p.stats.created
  {
    if vs == [] then Progress({}, ImportStats(0, 0, 0), [])
    else Step(Run(vs[..|vs| - 1], existing), vs[|vs| - 1], existing)
  }

  /** The verdict on row `i`, given the rows before it. */
  function VerdictAt(vs: seq<RowView>, existing: set<Key>, i: int): Verdict
    requires 0 <= i < |vs|
  {
    Classify(vs[i].blank, vs[i].keys, existing, Run(vs[..i], existing).seen)
  }

  // ----- Batches -----

  /** `f"c{n}"`. */
  function CmdKey(n: nat): string {
    "c" + NatToString(n)
  }

  /** `batch_cmd` after the payloads `ps` were added to an empty one. */
  function CmdMap(ps: seq<Payload>): map<string, Command> {
    if ps == [] then map[] else CmdMap(ps[..|ps| - 1])[CmdKey(|ps| - 1) := ContactAdd(ps[|ps| - 1])]
  }

  /** Distinct counts give distinct command keys. */
  lemma CmdKeyInjective(i: nat, n: nat)
    requires i != n
    ensures CmdKey(i) != CmdKey(n)
  {
    if CmdKey(i) == CmdKey(n) {
      assert CmdKey(i)[1..] == NatToString(i);
      assert CmdKey(n)[1..] == NatToString(n);
      NatToStringInjective(i, n);
    }
  }

  /** The keys of the command map are `c0` … `c(k-1)`. */
  lemma {:induction false} CmdMapKeys(ps: seq<Payload>)
    ensures CmdMap(ps).Keys == set i | 0 <= i < |ps| :: CmdKey(i)
  {
    if ps != [] {
      CmdMapKeys(ps[..|ps| - 1]);
    }
  }

  /** The command map has one entry per payload. */
  lemma {:induction false} CmdMapLength(ps: seq<Payload>)
    ensures |CmdMap(ps)| == |ps|
  {
    if ps != [] {
      var init := ps[..|ps| - 1];
      var n := |ps| - 1;
      CmdMapLength(init);
      CmdMapKeys(init);
      forall i | 0 <= i < n
        ensures CmdKey(i) != CmdKey(n)
      {
        CmdKeyInjective(i, n);
      }
      assert CmdKey(n) !in CmdMap(init);
    }
  }

  /** The `i`-th payload is under `ci`. */
  lemma {:induction false} CmdMapAt(ps: seq<Payload>, i: nat)
    requires i < |ps|
    ensures CmdKey(i) in CmdMap(ps) && CmdMap(ps)[CmdKey(i)] == ContactAdd(ps[i])
  {
    var init := ps[..|ps| - 1];
    var n := |ps| - 1;
    if i < n {
      CmdMapAt(init, i);
      CmdKeyInjective(i, n);
      assert init[i] == ps[i];
    }
  }

  /** The command map has one entry per payload, the `i`-th under `ci`. */
  lemma CmdMapSpec(ps: seq<Payload>)
    ensures |CmdMap(ps)| == |ps|
    ensures forall i :: 0 <= i < |ps| ==> CmdKey(i) in CmdMap(ps) && CmdMap(ps)[CmdKey(i)] == ContactAdd(ps[i])
  {
    CmdMapLength(ps);
    forall i | 0 <= i < |ps|
      ensures CmdKey(i) in CmdMap(ps) && CmdMap(ps)[CmdKey(i)] == ContactAdd(ps[i])
    {
      CmdMapAt(ps, i);
    }
  }

  /** Adding one more command to a waiting batch. */
  lemma CmdMapSnoc(ps: seq<Payload>, p: Payload)
    ensures |CmdMap(ps)| == |ps|
    ensures CmdMap(ps + [p]) == CmdMap(ps)[CmdKey(|ps|) := ContactAdd(p)]
    ensures |CmdMap(ps + [p])| == |ps| + 1
  {
    CmdMapSpec(ps);
    CmdMapSpec(ps + [p]);
    assert (ps + [p])[..|ps|] == ps;
  }

  /** `flush_batch` after every 50 commands, and once more at the end. */
  function Batches(ps: seq<Payload>): seq<BatchCall>
    decreases |ps|
  {
    if ps == [] then []
    else if |ps| <= BatchSize then [BatchCall(0, CmdMap(ps))]
    else [BatchCall(0, CmdMap(ps[..BatchSize]))] + Batches(ps[BatchSize..])
  }

  /** Flushing a full prefix and then a last batch `b`. */
  lemma {:induction false} BatchesAppend(a: seq<Payload>, b: seq<Payload>)
    requires |a| % BatchSize == 0 && 0 < |b| <= BatchSize
    ensures Batches(a + b) == Batches(a) + [BatchCall(0, CmdMap(b))]
    decreases |a|
  {
    if a == [] {
      assert a + b == b;
    } else {
      assert (a + b)[..BatchSize] == a[..BatchSize];
      assert (a + b)[BatchSize..] == a[BatchSize..] + b;
      BatchesAppend(a[BatchSize..], b);
      if |a| == BatchSize {
        assert a[..BatchSize] == a;
      }
    }
  }

  /** The batch that fills up at `done + 50` payloads is flushed after the earlier ones. */
  lemma FullBatch(ps: seq<Payload>, done: nat)
    requires done % BatchSize == 0 && |ps| == done + BatchSize
    ensures Batches(ps) == Batches(ps[..done]) + [BatchCall(0, CmdMap(ps[done..]))]
  {
    assert ps[..done] + ps[done..] == ps;
    BatchesAppend(ps[..done], ps[done..]);
  }

  /** The `i`-th slice of 50 payloads; the last one may be shorter. */
  function Slice(ps: seq<Payload>, i: nat): seq<Payload>
    requires BatchSize * i <= |ps|
  {
    ps[BatchSize * i..Min(BatchSize * i + BatchSize, |ps|)]
  }

  /** There are `ceil(n / 50)` batch calls. */
  lemma {:induction false} BatchesCount(ps: seq<Payload>)
    ensures |Batches(ps)| == (|ps| + BatchSize - 1) / BatchSize
    decreases |ps|
  {
    if |ps| > BatchSize {
      BatchesCount(ps[BatchSize..]);
    }
  }

  /** After the first full batch, the rest of the payloads are flushed as if on their own. */
  lemma BatchesTail(ps: seq<Payload>)
    requires |ps| > BatchSize
    ensures |Batches(ps)| == 1 + |Batches(ps[BatchSize..])|
    ensures forall i :: 0 < i < |Batches(ps)| ==> Batches(ps)[i] == Batches(ps[BatchSize..])[i - 1]
  {
  }

  /** The slices of what follows the first 50 payloads are the later slices. */
  lemma SliceShift(ps: seq<Payload>, i: nat)
    requires 0 < i && BatchSize * i < |ps|
    ensures Slice(ps[BatchSize..], i - 1) == Slice(ps, i)
  {
    var lo := BatchSize * i;
    assert BatchSize * (i - 1) == lo - BatchSize;
  }

  /** Batch call `i` sends the `i`-th slice of 50 payloads. */
  lemma {:induction false} BatchAt(ps: seq<Payload>, i: nat)
    requires BatchSize * i < |ps|
    ensures i < |Batches(ps)| && Batches(ps)[i] == BatchCall(0, CmdMap(Slice(ps, i)))
    decreases i
  {
    if i == 0 {
      if |ps| <= BatchSize {
        assert Slice(ps, 0) == ps;
      } else {
        assert Slice(ps, 0) == ps[..BatchSize];
      }
    } else {
      var rest := ps[BatchSize..];
      BatchesTail(ps);
      BatchAt(rest, i - 1);
      SliceShift(ps, i);
    }
  }

  /** Every batch call has `halt` 0 and between 1 and 50 commands, keyed `c0` … `c(k-1)`. */
  lemma BatchesShape(ps: seq<Payload>, i: nat)
    requires i < |Batches(ps)|
    ensures Batches(ps)[i].halt == 0
    ensures 1 <= |Batches(ps)[i].cmd| <= BatchSize
    ensures Batches(ps)[i].cmd.Keys == set j | 0 <= j < |Batches(ps)[i].cmd| :: CmdKey(j)
  {
    BatchesCount(ps);
    BatchAt(ps, i);
    CmdMapSpec(Slice(ps, i));
    CmdMapKeys(Slice(ps, i));
  }

  /** The number of commands over all batch calls. */
  function TotalCommands(calls: seq<BatchCall>): nat {
    if calls == [] then 0 else |calls[0].cmd| + TotalCommands(calls[1..])
  }

  /** Every payload is sent exactly once. */
  lemma {:induction false} BatchesTotal(ps: seq<Payload>)
    ensures TotalCommands(Batches(ps)) == |ps|
    decreases |ps|
  {
    if ps != [] {
      if |ps| <= BatchSize {
        CmdMapSpec(ps);
      } else {
        CmdMapSpec(ps[..BatchSize]);
        BatchesTotal(ps[BatchSize..]);
        assert Batches(ps)[1..] == Batches(ps[BatchSize..]);
      }
    }
  }

  /** 101 accepted rows give three batch calls, of 50, 50 and 1 commands. */
  lemma HundredAndOne(ps: seq<Payload>)
    requires |ps| == 101
    ensures |Batches(ps)| == 3
    ensures |Batches(ps)[0].cmd| == 50 && |Batches(ps)[1].cmd| == 50 && |Batches(ps)[2].cmd| == 1
  {
    BatchesCount(ps);
    BatchAt(ps, 0);
    BatchAt(ps, 1);
    BatchAt(ps, 2);
    CmdMapSpec(Slice(ps, 0));
    CmdMapSpec(Slice(ps, 1));
    CmdMapSpec(Slice(ps, 2));
  }

  // ----- The import -----

  /**
    The checks at the top of the loop body: a row without names is empty;
    otherwise it is a duplicate when one of its keys is in the snapshot or
    already seen in the file.
   */
  method ClassifyRow(row: ContactRecord, existingIndex: set<Key>, seenInFile: set<Key>)
    returns (verdict: Verdict, keys: seq<Key>)
    ensures verdict == Classify(IsBlank(row), RowKeys(row), existingIndex, seenInFile)
    ensures keys == RowKeys(row)
  {
    var fn := Strip(row.firstName);
    var ln := Strip(row.lastName);
    var phoneRaw := Strip(row.phone);
    var emailRaw := Strip(row.email);
    var np := NormPhone(phoneRaw);
    var ne := NormEmail(emailRaw);
    keys := [];
    if np != "" {
      keys := keys + [Key(PhoneKind, np)];
    }
    if ne != "" {
      keys := keys + [Key(EmailKind, ne)];
    }
    assert keys == RowKeys(row);
    if !(fn != "" || ln != "") {
      verdict := Empty;
    } else if Collides(keys, existingIndex, seenInFile) {
      verdict := Duplicate;
    } else {
      verdict := Created;
    }
  }

  /** The payload of an accepted row, with `COMPANY_ID` when the company is known. */
  method BuildPayload(row: ContactRecord, companies: Dict<string, int>) returns (payload: Payload)
    ensures payload == PayloadOf(row, companies)
  {
    var fn := Strip(row.firstName);
    var ln := Strip(row.lastName);
    var phoneRaw := Strip(row.phone);
    var emailRaw := Strip(row.email);
    var companyRaw := Strip(row.company);
    payload := Payload(
      fn,
      ln,
      if NormPhone(phoneRaw) != "" then Some(FieldValue(phoneRaw, "WORK")) else None,
      if NormEmail(emailRaw) != "" then Some(FieldValue(emailRaw, "WORK")) else None,
      None);
    if companyRaw != "" {
      match Get(companies, Norm(companyRaw))
      case Some(cid) =>
        if cid != 0 {
          payload := payload.(companyId := Some(cid));
        }
      case None =>
    }
  }

  /**
    The batching state once the payloads `ps` were enqueued: the first `done`
    of them went out in full batch calls, the rest wait in `batch_cmd`.
   */
  ghost predicate QueueState(ps: seq<Payload>, calls: seq<BatchCall>, batchCmd: map<string, Command>, done: nat) {
    done % BatchSize == 0 && done <= |ps| && |ps| - done < BatchSize &&
    calls == Batches(ps[..done]) && batchCmd == CmdMap(ps[done..])
  }

  lemma NextMultiple(n: nat)
    requires n % BatchSize == 0
    ensures (n + BatchSize) % BatchSize == 0
  {
  }

  /** A command joins a batch that stays below 50. */
  lemma QueueAdd(ps: seq<Payload>, calls: seq<BatchCall>, batchCmd: map<string, Command>, done: nat, payload: Payload)
    requires QueueState(ps, calls, batchCmd, done) && |ps| + 1 - done < BatchSize
    ensures QueueState(ps + [payload], calls, batchCmd[CmdKey(|batchCmd|) := ContactAdd(payload)], done)
  {
    var ps' := ps + [payload];
    CmdMapSnoc(ps[done..], payload);
    assert ps'[done..] == ps[done..] + [payload];
    assert ps'[..done] == ps[..done];
    assert calls == Batches(ps'[..done]);
    assert batchCmd[CmdKey(|batchCmd|) := ContactAdd(payload)] == CmdMap(ps'[done..]);
  }

  /** The 50th command of a batch: the batch is sent and a new one starts. */
  lemma QueueFlush(ps: seq<Payload>, calls: seq<BatchCall>, batchCmd: map<string, Command>, done: nat, payload: Payload)
    requires QueueState(ps, calls, batchCmd, done) && |ps| + 1 - done == BatchSize
    ensures QueueState(ps + [payload], calls + [BatchCall(0, batchCmd[CmdKey(|batchCmd|) := ContactAdd(payload)])],
                       map[], done + BatchSize)
  {
    var ps' := ps + [payload];
    var full := batchCmd[CmdKey(|batchCmd|) := ContactAdd(payload)];
    CmdMapSnoc(ps[done..], payload);
    assert ps'[done..] == ps[done..] + [payload];
    assert full == CmdMap(ps'[done..]);
    assert ps'[..done] == ps[..done];
    assert calls == Batches(ps'[..done]);
    FullBatch(ps', done);
    assert ps'[..done + BatchSize] == ps';
    assert calls + [BatchCall(0, full)] == Batches(ps'[..done + BatchSize]);
    assert ps'[done + BatchSize..] == [];
    NextMultiple(done);
  }

  /**
    `batch_cmd[f"c{len(batch_cmd)}"] = ...`, then `flush_batch()` once 50
    commands are waiting.
   */
  method Enqueue(batchCmd: map<string, Command>, calls: seq<BatchCall>, payload: Payload, ghost ps: seq<Payload>, ghost done: nat)
    returns (batchCmd': map<string, Command>, calls': seq<BatchCall>, ghost done': nat)
    requires QueueState(ps, calls, batchCmd, done)
    ensures QueueState(ps + [payload], calls', batchCmd', done')
  {
    CmdMapSnoc(ps[done..], payload);
    batchCmd' := batchCmd[CmdKey(|batchCmd|) := ContactAdd(payload)];
    if |batchCmd'| >= BatchSize {
      QueueFlush(ps, calls, batchCmd, done, payload);
      calls' := calls + [BatchCall(0, batchCmd')];
      batchCmd' := map[];
      done' := done + BatchSize;
    } else {
      QueueAdd(ps, calls, batchCmd, done, payload);
      calls' := calls;
      done' := done;
    }
  }

  /** The final `flush_batch()`: sends what is waiting, if anything. */
  method Flush(batchCmd: map<string, Command>, calls: seq<BatchCall>, ghost ps: seq<Payload>, ghost done: nat)
    returns (calls': seq<BatchCall>)
    requires QueueState(ps, calls, batchCmd, done)
    ensures calls' == Batches(ps)
  {
    CmdMapSpec(ps[done..]);
    assert ps[..done] + ps[done..] == ps;
    if |batchCmd| > 0 {
      BatchesAppend(ps[..done], ps[done..]);
      calls' := calls + [BatchCall(0, batchCmd)];
    } else {
      assert ps[..done] == ps;
      calls' := calls;
    }
  }

  /** The loop of `import_contacts` after `i` rows, restated one row at a time. */
  lemma RunStep(vs: seq<RowView>, i: nat, existing: set<Key>)
    requires i < |vs|
    ensures Run(vs[..i + 1], existing) == Step(Run(vs[..i], existing), vs[i], existing)
  {
    assert vs[..i + 1][..i] == vs[..i];
  }

  /** `Step` once the verdict and the keys of the row are known. */
  lemma StepByVerdict(p: Progress, v: RowView, existing: set<Key>, verdict: Verdict)
    requires verdict == Classify(v.blank, v.keys, existing, p.seen)
    ensures Step(p, v, existing) ==
            match verdict
            case Empty => p.(stats := p.stats.(skippedEmpty := p.stats.skippedEmpty + 1))
            case Duplicate => p.(stats := p.stats.(skippedDuplicates := p.stats.skippedDuplicates + 1))
            case Created => Progress(p.seen + SetOf(v.keys), p.stats.(created := p.stats.created + 1),
                                     p.payloads + [v.payload])
  {
  }

  /** One pass of the loop body of `import_contacts`. */
  method ImportRow(row: ContactRecord, existingIndex: set<Key>, companies: Dict<string, int>,
                   seenInFile: set<Key>, stats: ImportStats,
                   batchCmd: map<string, Command>, calls: seq<BatchCall>, ghost ps: seq<Payload>, ghost done: nat)
    returns (seenInFile': set<Key>, stats': ImportStats,
             batchCmd': map<string, Command>, calls': seq<BatchCall>, ghost ps': seq<Payload>, ghost done': nat)
    requires QueueState(ps, calls, batchCmd, done)
    ensures Progress(seenInFile', stats', ps') == Step(Progress(seenInFile, stats, ps), ViewOf(row, companies), existingIndex)
    ensures QueueState(ps', calls', batchCmd', done')
  {
    var verdict, keys := ClassifyRow(row, existingIndex, seenInFile);
    StepByVerdict(Progress(seenInFile, stats, ps), ViewOf(row, companies), existingIndex, verdict);
    seenInFile', stats', batchCmd', calls', ps', done' := seenInFile, stats, batchCmd, calls, ps, done;
    if verdict == Empty {
      stats' := stats.(skippedEmpty := stats.skippedEmpty + 1);
    } else if verdict == Duplicate {
      stats' := stats.(skippedDuplicates := stats.skippedDuplicates + 1);
    } else {
      seenInFile' := seenInFile + SetOf(keys);
      var payload := BuildPayload(row, companies);
      batchCmd', calls', done' := Enqueue(batchCmd, calls, payload, ps, done);
      ps' := ps + [payload];
      stats' := stats.(created := stats.created + 1);
    }
  }

  /**
    `import_contacts` on parsed rows, the listed companies and the listed
    contacts: the counters, and the batch calls it makes in order.
   */
  method ImportContacts(rows: seq<ContactRecord>, companyItems: seq<CompanyItem>, contactItems: seq<ContactItem>)
    returns (stats: ImportStats, calls: seq<BatchCall>)
    ensures stats.created + stats.skippedDuplicates + stats.skippedEmpty == |rows|
    ensures stats == Run(Views(rows, CompaniesOf(companyItems)), ContactsIndex(contactItems)).stats
    ensures calls == Batches(Run(Views(rows, CompaniesOf(companyItems)), ContactsIndex(contactItems)).payloads)
    ensures TotalCommands(calls) == stats.created
    ensures forall i :: 0 <= i < |calls| ==> calls[i].halt == 0 && 1 <= |calls[i].cmd| <= BatchSize
  {
    var companies := GetCompaniesMap(companyItems);
    var existingIndex := BuildExistingContactsIndex(contactItems);
    stats := ImportStats(0, 0, 0);
    var seenInFile: set<Key> := {};
    var batchCmd: map<string, Command> := map[];
    calls := [];
    ghost var ps: seq<Payload> := [];
    ghost var done: nat := 0;
    ghost var vs := Views(rows, companies);

    for i := 0 to |rows|
      invariant Run(vs[..i], existingIndex) == Progress(seenInFile, stats, ps)
      invariant QueueState(ps, calls, batchCmd, done)
    {
      RunStep(vs, i, existingIndex);
      seenInFile, stats, batchCmd, calls, ps, done :=
        ImportRow(rows[i], existingIndex, companies, seenInFile, stats, batchCmd, calls, ps, done);
    }

    assert vs[..|rows|] == vs;
    calls := Flush(batchCmd, calls, ps, done);
    BatchesTotal(ps);
    forall i | 0 <= i < |calls|
      ensures calls[i].halt == 0 && 1 <= |calls[i].cmd| <= BatchSize
    {
      BatchesShape(ps, i);
    }
  }
}
