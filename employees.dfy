/**
  The employee page's department map (`fetch_departments`) and the chain of
  managers above an employee (`build_manager_chain`), which walks the
  `PARENT` links of that map nearest-first and collects the heads.
 */
module Employees {
  import opened Wrappers
  import opened PyStr
  import opened PyValue

  /** The message of the `ValueError` that `int(...)` raises. */
  const IntError: string := "invalid literal for int()"

  // ----- fetch_departments -----

  /** An item of `department.get`: `ID`, `NAME`, `UF_HEAD`, `PARENT` (`Null` when missing). */
  datatype DeptRecord = DeptRecord(id: Scalar, name: Scalar, head: Scalar, parent: Scalar)

  /** An entry of the department map. */
  datatype Dept = Dept(id: int, name: Scalar, head: Option<int>, parent: Option<int>)

  /** `int(v) if v else None`, where `int(v)` may raise. */
  function IntOrNone(v: Scalar): (r: Result<Option<int>, string>)
    ensures !Truthy(v) ==> r == Success(None)
    ensures Truthy(v) && ToInt(v).Some? ==> r == Success(Some(ToInt(v).value))
    ensures Truthy(v) && ToInt(v).None? ==> r == Failure(IntError)
  {
    if !Truthy(v) then Success(None)
    else match ToInt(v)
      case Some(n) => Success(Some(n))
      case None => Failure(IntError)
  }

  /** The entry a record with integer id `did` gives, or the error converting its head or parent raises. */
  function DeptOf(r: DeptRecord, did: int): Result<Dept, string> {
    match IntOrNone(r.head)
    case Failure(e) => Failure(e)
    case Success(head) =>
      match IntOrNone(r.parent)
      case Failure(e) => Failure(e)
      case Success(parent) => Success(Dept(did, r.name, head, parent))
  }

  /** The department map after the loop has seen `records`. */
  function DepartmentsOf(records: seq<DeptRecord>): Result<map<int, Dept>, string> {
    if records == [] then Success(map[])
    else
      match DepartmentsOf(records[..|records| - 1])
      case Failure(e) => Failure(e)
      case Success(m) =>
        var r := records[|records| - 1];
        match ToInt(r.id)
        case None => Success(m)
        case Some(did) =>
          match DeptOf(r, did)
          case Failure(e) => Failure(e)
          case Success(d) => Success(m[did := d])
  }

  /** `fetch_departments`, given the items `department.get` returned. */
  method FetchDepartments(records: seq<DeptRecord>) returns (r: Result<map<int, Dept>, string>)
    ensures r == DepartmentsOf(records)
  {
    var depts: map<int, Dept> := map[];
    for i := 0 to |records|
      invariant DepartmentsOf(records[..i]) == Success(depts)
    {
      assert records[..i + 1][..i] == records[..i];
      match ToInt(records[i].id)
      case None =>
      case Some(did) =>
        var head := IntOrNone(records[i].head);
        if head.Failure? {
          DepartmentsFailurePersists(records, i + 1);
          return Failure(head.error);
        }
        var parent := IntOrNone(records[i].parent);
        if parent.Failure? {
          DepartmentsFailurePersists(records, i + 1);
          return Failure(parent.error);
        }
        depts := depts[did := Dept(did, records[i].name, head.value, parent.value)];
    }
    assert records[..|records|] == records;
    return Success(depts);
  }

  /** Once a record raises, the whole call raises. */
  lemma {:induction false} DepartmentsFailurePersists(records: seq<DeptRecord>, n: nat)
    requires n <= |records| && DepartmentsOf(records[..n]).Failure?
    ensures DepartmentsOf(records) == DepartmentsOf(records[..n])
    decreases |records| - n
  {
    if n < |records| {
      assert records[..n + 1][..n] == records[..n];
      DepartmentsFailurePersists(records, n + 1);
    } else {
      assert records[..n] == records;
    }
  }

  /** The position of the last record whose `ID` converts to `did`, or -1. */
  function LastDeptRecord(records: seq<DeptRecord>, did: int): (i: int)
    ensures -1 <= i < |records|
    ensures i >= 0 ==> ToInt(records[i].id) == Some(did)
    ensures forall j :: i < j < |records| ==> ToInt(records[j].id) != Some(did)
  {
    if records == [] then -1
    else if ToInt(records[|records| - 1].id) == Some(did) then |records| - 1
    else
      var i := LastDeptRecord(records[..|records| - 1], did);
      assert forall j :: i < j < |records| - 1 ==> records[j] == records[..|records| - 1][j];
      i
  }

  /**
    When no record raises, the map has an entry exactly for the ids that
    convert with `int()`; records whose `ID` does not are skipped. The
    entry is built from the last record with that id: its `ID`, its `NAME`,
    and `UF_HEAD` and `PARENT` as integers, or `None` when falsy.
   */
  lemma {:induction false} DepartmentsLookup(records: seq<DeptRecord>, did: int)
    requires DepartmentsOf(records).Success?
    ensures did in DepartmentsOf(records).value <==> LastDeptRecord(records, did) >= 0
    ensures did in DepartmentsOf(records).value ==>
              var r := records[LastDeptRecord(records, did)];
              DeptOf(r, did) == Success(DepartmentsOf(records).value[did])
  {
    if records != [] {
      var init := records[..|records| - 1];
      assert DepartmentsOf(init).Success?;
      DepartmentsLookup(init, did);
      if ToInt(records[|records| - 1].id) != Some(did) {
        assert LastDeptRecord(records, did) == LastDeptRecord(init, did);
        if LastDeptRecord(init, did) >= 0 {
          assert records[LastDeptRecord(records, did)] == init[LastDeptRecord(init, did)];
        }
      }
    }
  }

  /** The call raises iff a record with an integer id has a truthy `UF_HEAD` or `PARENT` that is not one. */
  lemma {:induction false} DepartmentsFailure(records: seq<DeptRecord>)
    ensures DepartmentsOf(records).Failure? <==>
              exists i :: 0 <= i < |records| && ToInt(records[i].id).Some? &&
                (IntOrNone(records[i].head).Failure? || IntOrNone(records[i].parent).Failure?)
  {
    if records != [] {
      var init := records[..|records| - 1];
      DepartmentsFailure(init);
      assert forall i :: 0 <= i < |init| ==> init[i] == records[i];
    }
  }

  // ----- build_manager_chain -----

  /** `cur` is truthy: present and not zero. */
  predicate Live(cur: Option<int>) {
    cur.Some? && cur.value != 0
  }

  /**
    The departments the `while cur` loop visits from `cur`, having already
    visited `visited`: it stops at a falsy id, a repeated id or an id
    missing from the map.
   */
  function Walk(depts: map<int, Dept>, cur: Option<int>, visited: set<int>): seq<int>
    decreases |depts.Keys - visited|
  {
    if !Live(cur) || cur.value in visited || cur.value !in depts then []
    else
      var c := cur.value;
      Shrinks(depts.Keys, visited, c);
      [c] + Walk(depts, depts[c].parent, visited + {c})
  }

  /** Visiting one more department leaves fewer to visit. */
  lemma Shrinks(keys: set<int>, visited: set<int>, c: int)
    requires c in keys && c !in visited
    ensures |keys - (visited + {c})| < |keys - visited|
  {
    assert keys - (visited + {c}) == (keys - visited) - {c};
  }

  /** A head that counts: truthy, and not the user (`int(user["ID"])`). */
  predicate Counts(head: Option<int>, uid: Option<int>) {
    Live(head) && uid != head
  }

  /** The `UF_HEAD` of a department of the map. */
  function HeadOf(depts: map<int, Dept>, d: int): Option<int> {
    if d in depts then depts[d].head else None
  }

  /** The heads of the departments on `path`, nearest first, one per level, without the user. */
  function HeadIds(depts: map<int, Dept>, path: seq<int>, uid: Option<int>): seq<int> {
    if path == [] then []
    else
      var init := path[..|path| - 1];
      var head := HeadOf(depts, path[|path| - 1]);
      HeadIds(depts, init, uid) + (if Counts(head, uid) then [head.value] else [])
  }

  /** The employee whose chain is built: `ID` and `UF_DEPARTMENT` (empty when missing). */
  datatype UserRecord = UserRecord(id: Scalar, departments: seq<Scalar>)

  /** A user dict of `users_by_id`, field by field; `{}` is falsy. */
  type UserFields = map<string, Scalar>

  /** An entry of the chain: `{"id": mid, "name": name}`. */
  datatype ChainEntry = ChainEntry(id: int, name: string)

  /** `u.get(key, "")` inside an f-string: a missing key gives "", `None` gives "None". */
  function FieldText(u: UserFields, key: string): string {
    if key in u then StrOf(u[key]) else ""
  }

  /** `f'{NAME} {LAST_NAME}'.strip()`. */
  function DisplayName(u: UserFields): string {
    Strip(FieldText(u, "NAME") + " " + FieldText(u, "LAST_NAME"))
  }

  /** `cur` before the loop: the first department of the user, converted with `int()`. */
  function StartOf(user: UserRecord): Result<Option<int>, string> {
    if user.departments == [] then Success(None)
    else match ToInt(user.departments[0])
      case Some(d) => Success(Some(d))
      case None => Failure(IntError)
  }

  /** Whether the walk meets a truthy head, which makes the loop evaluate `int(user["ID"])`. */
  predicate MeetsHead(depts: map<int, Dept>, path: seq<int>) {
    exists i :: 0 <= i < |path| && Live(HeadOf(depts, path[i]))
  }

  /** `users_by_id.get(mid)` is a non-empty record. */
  predicate Known(users: map<int, UserFields>, mid: int) {
    mid in users && |users[mid]| > 0
  }

  /** The heads the users map knows, in order; unknown and empty users are dropped. */
  function KnownIds(ids: seq<int>, users: map<int, UserFields>): (r: seq<int>)
    ensures forall i :: 0 <= i < |r| ==> Known(users, r[i])
  {
    if ids == [] then []
    else
      var mid := ids[|ids| - 1];
      KnownIds(ids[..|ids| - 1], users) + (if Known(users, mid) then [mid] else [])
  }

  /** The entry for a known head: its id and display name. */
  function EntryOf(users: map<int, UserFields>, mid: int): ChainEntry
    requires mid in users
  {
    ChainEntry(mid, DisplayName(users[mid]))
  }

  /** The entries of the known heads, in order. */
  function Entries(ids: seq<int>, users: map<int, UserFields>): seq<ChainEntry> {
    var known := KnownIds(ids, users);
    seq(|known|, k requires 0 <= k < |known| => EntryOf(users, known[k]))
  }

  /** The manager chain, or the error one of the `int(...)` conversions raises. */
  function ManagerChain(user: UserRecord, depts: map<int, Dept>, users: map<int, UserFields>): Result<seq<ChainEntry>, string> {
    match StartOf(user)
    case Failure(e) => Failure(e)
    case Success(start) =>
      var path := Walk(depts, start, {});
      if ToInt(user.id).None? && MeetsHead(depts, path) then Failure(IntError)
      else Success(Entries(HeadIds(depts, path, ToInt(user.id)), users))
  }

  /** The walk only visits departments of the map, each once, none already visited. */
  lemma {:induction false} WalkInMap(depts: map<int, Dept>, cur: Option<int>, visited: set<int>)
    ensures forall i :: 0 <= i < |Walk(depts, cur, visited)| ==> Walk(depts, cur, visited)[i] in depts
    ensures forall i :: 0 <= i < |Walk(depts, cur, visited)| ==> Walk(depts, cur, visited)[i] !in visited
    ensures forall i, j :: 0 <= i < j < |Walk(depts, cur, visited)| ==> Walk(depts, cur, visited)[i] != Walk(depts, cur, visited)[j]
    decreases |depts.Keys - visited|
  {
    if Live(cur) && cur.value !in visited && cur.value in depts {
      var c := cur.value;
      Shrinks(depts.Keys, visited, c);
      WalkInMap(depts, depts[c].parent, visited + {c});
    }
  }

  /**
    The walk follows `PARENT` links: it starts at `cur`, and every visited
    department's successor is its parent.
   */
  lemma {:induction false} WalkFollowsParents(depts: map<int, Dept>, cur: Option<int>, visited: set<int>)
    ensures var w := Walk(depts, cur, visited);
            (w != [] ==> Some(w[0]) == cur) &&
            (forall i :: 0 <= i < |w| - 1 ==> w[i] in depts && Some(w[i + 1]) == depts[w[i]].parent)
    decreases |depts.Keys - visited|
  {
    if Live(cur) && cur.value !in visited && cur.value in depts {
      var c := cur.value;
      Shrinks(depts.Keys, visited, c);
      WalkFollowsParents(depts, depts[c].parent, visited + {c});
    }
  }

  /** A sequence without repetitions is no longer than any set holding its elements. */
  lemma {:induction false} DistinctBound(s: seq<int>, keys: set<int>)
    requires forall i :: 0 <= i < |s| ==> s[i] in keys
    requires forall i, j :: 0 <= i < j < |s| ==> s[i] != s[j]
    ensures |s| <= |keys|
  {
    if s != [] {
      var x := s[|s| - 1];
      var init := s[..|s| - 1];
      forall i | 0 <= i < |init|
        ensures init[i] in keys - {x}
      {
        assert init[i] == s[i];
      }
      DistinctBound(init, keys - {x});
    }
  }

  /** The walk terminates on any map, cyclic `PARENT` links included: it visits at most every department once. */
  lemma WalkBound(depts: map<int, Dept>, start: Option<int>)
    ensures |Walk(depts, start, {})| <= |depts|
  {
    WalkInMap(depts, start, {});
    DistinctBound(Walk(depts, start, {}), depts.Keys);
  }

  /** At most one head per visited department. */
  lemma {:induction false} HeadIdsBound(depts: map<int, Dept>, path: seq<int>, uid: Option<int>)
    ensures |HeadIds(depts, path, uid)| <= |path|
  {
    if path != [] {
      HeadIdsBound(depts, path[..|path| - 1], uid);
    }
  }

  /** The user is never their own manager, and every head is truthy. */
  lemma {:induction false} HeadIdsExcludeUser(depts: map<int, Dept>, path: seq<int>, uid: Option<int>, k: nat)
    requires k < |HeadIds(depts, path, uid)|
    ensures Some(HeadIds(depts, path, uid)[k]) != uid && HeadIds(depts, path, uid)[k] != 0
  {
    var init := path[..|path| - 1];
    if k < |HeadIds(depts, init, uid)| {
      HeadIdsExcludeUser(depts, init, uid, k);
    }
  }

  /** Heads are listed level by level: the chain distributes over splitting the path. */
  lemma {:induction false} HeadIdsAppend(depts: map<int, Dept>, a: seq<int>, b: seq<int>, uid: Option<int>)
    ensures HeadIds(depts, a + b, uid) == HeadIds(depts, a, uid) + HeadIds(depts, b, uid)
    decreases |b|
  {
    if b == [] {
      assert a + b == a;
    } else {
      var b' := b[..|b| - 1];
      HeadIdsAppend(depts, a, b', uid);
      assert (a + b)[..|a + b| - 1] == a + b';
      assert (a + b)[|a + b| - 1] == b[|b| - 1];
    }
  }

  /** A department whose head is the user, or has none, contributes nothing; any other contributes its head. */
  lemma HeadIdsOne(depts: map<int, Dept>, d: int, uid: Option<int>)
    ensures HeadIds(depts, [d], uid) == if Counts(HeadOf(depts, d), uid) then [HeadOf(depts, d).value] else []
  {
    assert [d][..0] == [];
  }

  /** Heads absent from the users map are dropped without reordering the rest. */
  lemma {:induction false} KnownIdsAppend(a: seq<int>, b: seq<int>, users: map<int, UserFields>)
    ensures KnownIds(a + b, users) == KnownIds(a, users) + KnownIds(b, users)
    decreases |b|
  {
    if b == [] {
      assert a + b == a;
    } else {
      var b' := b[..|b| - 1];
      KnownIdsAppend(a, b', users);
      assert (a + b)[..|a + b| - 1] == a + b';
      assert (a + b)[|a + b| - 1] == b[|b| - 1];
    }
  }

  /** Every known head is one of the heads, and there are no more of them. */
  lemma {:induction false} KnownIdsSound(ids: seq<int>, users: map<int, UserFields>)
    ensures |KnownIds(ids, users)| <= |ids|
    ensures forall k :: 0 <= k < |KnownIds(ids, users)| ==> KnownIds(ids, users)[k] in ids
  {
    if ids != [] {
      var init := ids[..|ids| - 1];
      KnownIdsSound(init, users);
      forall k | 0 <= k < |KnownIds(ids, users)|
        ensures KnownIds(ids, users)[k] in ids
      {
        var front := KnownIds(init, users);
        if k < |front| {
          var j :| 0 <= j < |init| && init[j] == front[k];
          assert ids[j] == init[j];
        } else {
          assert KnownIds(ids, users)[k] == ids[|ids| - 1];
        }
      }
    }
  }

  /** When every head is a known user, none is dropped. */
  lemma {:induction false} KnownIdsAll(ids: seq<int>, users: map<int, UserFields>)
    requires forall i :: 0 <= i < |ids| ==> Known(users, ids[i])
    ensures KnownIds(ids, users) == ids
  {
    if ids != [] {
      var init := ids[..|ids| - 1];
      assert forall i :: 0 <= i < |init| ==> init[i] == ids[i];
      KnownIdsAll(init, users);
      assert init + [ids[|ids| - 1]] == ids;
    }
  }

  /** One more head: the second loop appends its entry iff the users map knows it. */
  lemma EntriesStep(ids: seq<int>, i: nat, users: map<int, UserFields>)
    requires i < |ids|
    ensures Entries(ids[..i + 1], users) ==
              Entries(ids[..i], users) + (if Known(users, ids[i]) then [EntryOf(users, ids[i])] else [])
  {
    assert ids[..i + 1][..i] == ids[..i];
  }

  /** Every entry names a known user by their display name, and there are no more entries than heads. */
  lemma EntriesSound(ids: seq<int>, users: map<int, UserFields>)
    ensures |Entries(ids, users)| <= |ids|
    ensures forall k :: 0 <= k < |Entries(ids, users)| ==>
              var e := Entries(ids, users)[k];
              e.id in ids && e.id in users && e.name == DisplayName(users[e.id])
  {
    KnownIdsSound(ids, users);
  }

  /** When every head is a known user, there is one entry per head, in order. */
  lemma EntriesComplete(ids: seq<int>, users: map<int, UserFields>)
    requires forall i :: 0 <= i < |ids| ==> Known(users, ids[i])
    ensures |Entries(ids, users)| == |ids|
    ensures forall k :: 0 <= k < |ids| ==> ids[k] in users && Entries(ids, users)[k] == EntryOf(users, ids[k])
  {
    KnownIdsAll(ids, users);
  }

  /** An employee without departments, or whose first department is 0, has no managers. */
  lemma NoDepartmentNoChain(user: UserRecord, depts: map<int, Dept>, users: map<int, UserFields>)
    requires user.departments == [] || ToInt(user.departments[0]) == Some(0)
    ensures ManagerChain(user, depts, users) == Success([])
  {
    assert Walk(depts, StartOf(user).value, {}) == [];
    assert |Entries([], users)| == 0;
  }

  /** The loop's state: the departments visited so far and the heads collected from them. */
  ghost predicate WalkState(depts: map<int, Dept>, start: Option<int>, walked: seq<int>, cur: Option<int>,
                            visited: set<int>, uid: Option<int>, chainIds: seq<int>)
  {
    && (forall i :: 0 <= i < |walked| ==> walked[i] in depts)
    && (forall x :: x in visited <==> x in walked)
    && Walk(depts, start, {}) == walked + Walk(depts, cur, visited)
    && chainIds == HeadIds(depts, walked, uid)
    && (uid.None? ==> !MeetsHead(depts, walked))
  }

  /** One iteration of the first loop keeps its state. */
  lemma WalkAdvance(depts: map<int, Dept>, start: Option<int>, walked: seq<int>, cur: Option<int>,
                    visited: set<int>, uid: Option<int>, chainIds: seq<int>)
    requires WalkState(depts, start, walked, cur, visited, uid, chainIds)
    requires Live(cur) && cur.value !in visited && cur.value in depts
    requires uid.None? ==> !Live(HeadOf(depts, cur.value))
    ensures var c := cur.value;
            var head := HeadOf(depts, c);
            WalkState(depts, start, walked + [c], depts[c].parent, visited + {c}, uid,
                      chainIds + (if Counts(head, uid) then [head.value] else []))
  {
    var c := cur.value;
    var head := HeadOf(depts, c);
    var walked' := walked + [c];
    var visited' := visited + {c};
    var chainIds' := chainIds + (if Counts(head, uid) then [head.value] else []);
    assert Walk(depts, cur, visited) == [c] + Walk(depts, depts[c].parent, visited');
    assert Walk(depts, start, {}) == walked' + Walk(depts, depts[c].parent, visited');
    HeadIdsOne(depts, c, uid);
    HeadIdsAppend(depts, walked, [c], uid);
    assert chainIds' == HeadIds(depts, walked', uid);
    assert forall x :: x in visited' <==> x in walked';
    assert forall i :: 0 <= i < |walked'| ==> walked'[i] in depts;
    if uid.None? {
      forall i | 0 <= i < |walked'|
        ensures !Live(HeadOf(depts, walked'[i]))
      {
        if i < |walked| {
          assert walked'[i] == walked[i];
        }
      }
    }
    assert WalkState(depts, start, walked', depts[c].parent, visited', uid, chainIds');
  }

  /** A truthy head on the walk forces `int(user["ID"])`. */
  lemma WalkMeetsHead(depts: map<int, Dept>, start: Option<int>, walked: seq<int>, cur: Option<int>,
                      visited: set<int>, uid: Option<int>, chainIds: seq<int>)
    requires WalkState(depts, start, walked, cur, visited, uid, chainIds)
    requires Live(cur) && cur.value !in visited && cur.value in depts && Live(HeadOf(depts, cur.value))
    ensures MeetsHead(depts, Walk(depts, start, {}))
  {
    assert Walk(depts, cur, visited) == [cur.value] + Walk(depts, depts[cur.value].parent, visited + {cur.value});
    assert Walk(depts, start, {})[|walked|] == cur.value;
  }

  /** The first loop of `build_manager_chain`: the heads along the walk. */
  method CollectHeads(user: UserRecord, depts: map<int, Dept>, start: Option<int>) returns (r: Result<seq<int>, string>)
    ensures var path := Walk(depts, start, {});
            r == if ToInt(user.id).None? && MeetsHead(depts, path) then Failure(IntError)
                 else Success(HeadIds(depts, path, ToInt(user.id)))
  {
    var uid := ToInt(user.id);
    var chainIds: seq<int> := [];
    var cur := start;
    var visited: set<int> := {};
    ghost var walked: seq<int> := [];
    while Live(cur) && cur.value !in visited
      invariant WalkState(depts, start, walked, cur, visited, uid, chainIds)
      invariant visited <= depts.Keys
      decreases |depts.Keys - visited|
    {
      var c := cur.value;
      if c !in depts {
        break;
      }
      var dept := depts[c];
      var head := dept.head;
      if Live(head) && uid.None? {
        WalkMeetsHead(depts, start, walked, cur, visited, uid, chainIds);
        return Failure(IntError);
      }
      WalkAdvance(depts, start, walked, cur, visited, uid, chainIds);
      Shrinks(depts.Keys, visited, c);
      if Live(head) && head != uid {
        chainIds := chainIds + [head.value];
      }
      visited := visited + {c};
      walked := walked + [c];
      cur := dept.parent;
    }
    assert Walk(depts, cur, visited) == [];
    assert walked == Walk(depts, start, {});
    return Success(chainIds);
  }

  /** The second loop: the entries of the heads the users map knows. */
  method ChainEntries(chainIds: seq<int>, users: map<int, UserFields>) returns (chain: seq<ChainEntry>)
    ensures chain == Entries(chainIds, users)
  {
    chain := [];
    for i := 0 to |chainIds|
      invariant chain == Entries(chainIds[..i], users)
    {
      EntriesStep(chainIds, i, users);
      var mid := chainIds[i];
      if mid !in users || |users[mid]| == 0 {
        continue;
      }
      var name := Strip(FieldText(users[mid], "NAME") + " " + FieldText(users[mid], "LAST_NAME"));
      chain := chain + [ChainEntry(mid, name)];
    }
    assert chainIds[..|chainIds|] == chainIds;
  }

  /** `build_manager_chain(user, depts, users_by_id)`. */
  method BuildManagerChain(user: UserRecord, depts: map<int, Dept>, users: map<int, UserFields>)
    returns (r: Result<seq<ChainEntry>, string>)
    ensures r == ManagerChain(user, depts, users)
  {
    var start: Option<int> := None;
    if user.departments != [] {
      match ToInt(user.departments[0])
      case None =>
        return Failure(IntError);
      case Some(d) =>
        start := Some(d);
    }
    var ids := CollectHeads(user, depts, start);
    if ids.Failure? {
      return Failure(ids.error);
    }
    var chain := ChainEntries(ids.value, users);
    return Success(chain);
  }

  /**
    Whatever the department map, a successful chain is no longer than the
    number of departments and never names the user.
   */
  lemma ManagerChainSpec(user: UserRecord, depts: map<int, Dept>, users: map<int, UserFields>)
    requires ManagerChain(user, depts, users).Success?
    ensures |ManagerChain(user, depts, users).value| <= |depts|
    ensures forall k :: 0 <= k < |ManagerChain(user, depts, users).value| ==>
              Some(ManagerChain(user, depts, users).value[k].id) != ToInt(user.id)
  {
    var start := StartOf(user).value;
    var path := Walk(depts, start, {});
    var ids := HeadIds(depts, path, ToInt(user.id));
    var chain := ManagerChain(user, depts, users).value;
    assert chain == Entries(ids, users);
    WalkBound(depts, start);
    HeadIdsBound(depts, path, ToInt(user.id));
    EntriesSound(ids, users);
    forall k | 0 <= k < |chain|
      ensures Some(chain[k].id) != ToInt(user.id)
    {
      var i :| 0 <= i < |ids| && ids[i] == chain[k].id;
      HeadIdsExcludeUser(depts, path, ToInt(user.id), i);
    }
  }
}
