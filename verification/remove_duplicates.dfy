/**
 * The clean-up of duplicated `socioeconomic_data` records: the records are
 * grouped by student in the order they are fetched, the students with more
 * than one record are the duplicates, and on a "si" answer every record of a
 * duplicated student but the first is deleted. Whether a delete succeeds is
 * the parameter `deletes`; the operator's answer is the parameter `answer`.
 */
module RemoveDuplicates {
  import opened Text

  /** A `socioeconomic_data` row as the script selects it. */
  datatype Record = Record(id: int, studentId: string)

  /** The ids of one student's records, in fetch order. */
  function IdsOf(records: seq<Record>, sid: string): (ids: seq<int>)
    ensures |ids| <= |records|
  {
    if records == [] then []
    else
      var r := records[|records| - 1];
      IdsOf(records[..|records| - 1], sid) + if r.studentId == sid then [r.id] else []
  }

  /** The students in the order their first record is fetched, each once. */
  function StudentOrder(records: seq<Record>): (order: seq<string>)
    ensures forall k, j :: 0 <= k < j < |order| ==> order[k] != order[j]
  {
    if records == [] then []
    else
      var init := StudentOrder(records[..|records| - 1]);
      var sid := records[|records| - 1].studentId;
      if sid in init then init else init + [sid]
  }

  /** `grouped`: each student's record ids, in fetch order. */
  function Grouped(records: seq<Record>): map<string, seq<int>> {
    map sid | sid in StudentOrder(records) :: IdsOf(records, sid)
  }

  lemma {:induction false} IdsOfMembers(records: seq<Record>, sid: string, x: int)
    ensures x in IdsOf(records, sid) <==> exists i :: 0 <= i < |records| && records[i] == Record(x, sid)
  {
    if records != [] {
      var init := records[..|records| - 1];
      IdsOfMembers(init, sid, x);
      if exists i :: 0 <= i < |init| && init[i] == Record(x, sid) {
        var i :| 0 <= i < |init| && init[i] == Record(x, sid);
        assert records[i] == Record(x, sid);
      }
      if exists i :: 0 <= i < |records| && records[i] == Record(x, sid) {
        var i :| 0 <= i < |records| && records[i] == Record(x, sid);
        if i < |init| {
          assert init[i] == Record(x, sid);
        }
      }
    }
  }

  /** A student is listed exactly when some record is theirs. */
  lemma {:induction false} StudentOrderMembers(records: seq<Record>, sid: string)
    ensures sid in StudentOrder(records) <==> IdsOf(records, sid) != []
  {
    if records != [] {
      StudentOrderMembers(records[..|records| - 1], sid);
    }
  }

  /** One more record appends its id to its student's list and changes nothing else. */
  lemma GroupedStep(records: seq<Record>, i: nat)
    requires i < |records|
    ensures var g := Grouped(records[..i]);
      var r := records[i];
      Grouped(records[..i + 1]) == g[r.studentId := (if r.studentId in g then g[r.studentId] else []) + [r.id]]
  {
    assert records[..i + 1] == records[..i] + [records[i]];
    GroupedAppend(records[..i], records[i]);
  }

  lemma GroupedAppend(init: seq<Record>, r: Record)
    ensures var g := Grouped(init);
      Grouped(init + [r]) == g[r.studentId := (if r.studentId in g then g[r.studentId] else []) + [r.id]]
  {
    var prefix := init + [r];
    assert prefix[..|init|] == init;
    var g := Grouped(init);
    var h := g[r.studentId := (if r.studentId in g then g[r.studentId] else []) + [r.id]];
    forall sid
      ensures sid in Grouped(prefix) <==> sid in h
    {
      StudentOrderMembers(prefix, sid);
      StudentOrderMembers(init, sid);
    }
    forall sid | sid in h
      ensures Grouped(prefix)[sid] == h[sid]
    {
      StudentOrderMembers(init, sid);
    }
  }

  /** The grouping loop: a `defaultdict(list)` filled record by record. */
  method GroupByStudent(records: seq<Record>) returns (order: seq<string>, grouped: map<string, seq<int>>)
    ensures order == StudentOrder(records) && grouped == Grouped(records)
  {
    order := [];
    grouped := map[];
    var i := 0;
    while i < |records|
      invariant 0 <= i <= |records|
      invariant order == StudentOrder(records[..i]) && grouped == Grouped(records[..i])
    {
      var r := records[i];
      GroupedStep(records, i);
      assert records[..i + 1][..i] == records[..i];
      assert r.studentId in grouped <==> r.studentId in order;
      if r.studentId !in grouped {
        assert [] + [r.id] == [r.id];
        order := order + [r.studentId];
        grouped := grouped[r.studentId := [r.id]];
      } else {
        grouped := grouped[r.studentId := grouped[r.studentId] + [r.id]];
      }
      i := i + 1;
    }
    assert records[..i] == records;
  }

  /** `duplicates`: the students with more than one record, with their ids, in the grouping's order. */
  function Duplicates(order: seq<string>, grouped: map<string, seq<int>>): (dups: seq<(string, seq<int>)>)
    requires forall sid :: sid in order ==> sid in grouped
    ensures forall k :: 0 <= k < |dups| ==>
      dups[k].0 in order && dups[k].1 == grouped[dups[k].0] && |dups[k].1| > 1
    ensures forall sid :: sid in order && |grouped[sid]| > 1 ==> exists k :: 0 <= k < |dups| && dups[k].0 == sid
  {
    if order == [] then []
    else
      var init := Duplicates(order[..|order| - 1], grouped);
      var sid := order[|order| - 1];
      var dups := if |grouped[sid]| > 1 then init + [(sid, grouped[sid])] else init;
      assert forall k :: 0 <= k < |init| ==> dups[k] == init[k];
      forall s | s in order && |grouped[s]| > 1
        ensures exists k :: 0 <= k < |dups| && dups[k].0 == s
      {
        if s == sid {
          assert dups[|dups| - 1].0 == s;
        } else {
          assert s in order[..|order| - 1];
          var k :| 0 <= k < |init| && init[k].0 == s;
          assert dups[k].0 == s;
        }
      }
      dups
  }

  /** The ids to delete: every id of a duplicated student but the first, student by student. */
  function ToDelete(dups: seq<(string, seq<int>)>): seq<int> {
    if dups == [] then []
    else
      var ids := dups[|dups| - 1].1;
      ToDelete(dups[..|dups| - 1]) + if ids == [] then [] else ids[1..]
  }

  /** `total_to_delete`: the sum of one less than each duplicated student's count. */
  function TotalToDelete(dups: seq<(string, seq<int>)>): int {
    if dups == [] then 0 else TotalToDelete(dups[..|dups| - 1]) + |dups[|dups| - 1].1| - 1
  }

  /** The announced total is the number of deletes planned. */
  lemma {:induction false} TotalCountsPlannedDeletes(dups: seq<(string, seq<int>)>)
    requires forall k :: 0 <= k < |dups| ==> |dups[k].1| > 1
    ensures TotalToDelete(dups) == |ToDelete(dups)|
  {
    if dups != [] {
      TotalCountsPlannedDeletes(dups[..|dups| - 1]);
    }
  }

  /** Every id of a duplicated student but the first is planned. */
  lemma {:induction false} LaterIdPlanned(dups: seq<(string, seq<int>)>, k: nat, j: nat)
    requires k < |dups| && 0 < j < |dups[k].1|
    ensures dups[k].1[j] in ToDelete(dups)
  {
    var init := dups[..|dups| - 1];
    var ids := dups[|dups| - 1].1;
    assert ToDelete(dups) == ToDelete(init) + if ids == [] then [] else ids[1..];
    if k == |dups| - 1 {
      assert ids[1..][j - 1] == ids[j];
    } else {
      assert init[k] == dups[k];
      LaterIdPlanned(init, k, j);
    }
  }

  /** A planned id is a later id of some duplicated student. */
  lemma {:induction false} PlannedIdOrigin(dups: seq<(string, seq<int>)>, x: int) returns (k: nat, j: nat)
    requires x in ToDelete(dups)
    ensures k < |dups| && 0 < j < |dups[k].1| && dups[k].1[j] == x
  {
    var init := dups[..|dups| - 1];
    var ids := dups[|dups| - 1].1;
    assert ToDelete(dups) == ToDelete(init) + if ids == [] then [] else ids[1..];
    if x in ToDelete(init) {
      k, j := PlannedIdOrigin(init, x);
      assert init[k] == dups[k];
    } else {
      var m :| 0 <= m < |ids[1..]| && ids[1..][m] == x;
      k, j := |dups| - 1, m + 1;
    }
  }

  lemma ToDeleteMembers(dups: seq<(string, seq<int>)>, x: int)
    ensures x in ToDelete(dups) <==> exists k :: 0 <= k < |dups| && |dups[k].1| > 0 && x in dups[k].1[1..]
  {
    if x in ToDelete(dups) {
      var k, j := PlannedIdOrigin(dups, x);
      assert dups[k].1[1..][j - 1] == x;
    }
    if exists k :: 0 <= k < |dups| && |dups[k].1| > 0 && x in dups[k].1[1..] {
      var k :| 0 <= k < |dups| && |dups[k].1| > 0 && x in dups[k].1[1..];
      var m :| 0 <= m < |dups[k].1[1..]| && dups[k].1[1..][m] == x;
      LaterIdPlanned(dups, k, m + 1);
    }
  }

  /** Deletion happens only on an answer that lowercases to exactly "si". */
  predicate Confirmed(answer: string) {
    Lower(answer) == "si"
  }

  /** The number of ids whose delete succeeds. */
  function Deleted(ids: seq<int>, deletes: int -> bool): (n: nat)
    ensures n <= |ids|
  {
    if ids == [] then 0 else Deleted(ids[..|ids| - 1], deletes) + if deletes(ids[|ids| - 1]) then 1 else 0
  }

  lemma DeletedAppend(ids: seq<int>, x: int, deletes: int -> bool)
    ensures Deleted(ids + [x], deletes) == Deleted(ids, deletes) + if deletes(x) then 1 else 0
  {
    assert (ids + [x])[..|ids|] == ids;
  }

  /** The delete loop: the planned ids in order, counting the deletes that succeed. */
  method DeleteDuplicates(dups: seq<(string, seq<int>)>, deletes: int -> bool) returns (attempts: seq<int>, deletedCount: nat)
    ensures attempts == ToDelete(dups)
    ensures deletedCount == Deleted(attempts, deletes) && deletedCount <= |attempts|
  {
    attempts := [];
    deletedCount := 0;
    var k := 0;
    while k < |dups|
      invariant 0 <= k <= |dups|
      invariant attempts == ToDelete(dups[..k]) && deletedCount == Deleted(attempts, deletes)
    {
      var ids := dups[k].1;
      var idsToDelete := if ids == [] then [] else ids[1..];
      ToDeleteStep(dups, k);
      attempts, deletedCount := DeleteEach(idsToDelete, deletes, attempts, deletedCount);
      k := k + 1;
    }
    assert dups[..k] == dups;
  }

  lemma ToDeleteStep(dups: seq<(string, seq<int>)>, k: nat)
    requires k < |dups|
    ensures ToDelete(dups[..k + 1]) == ToDelete(dups[..k]) + (if dups[k].1 == [] then [] else dups[k].1[1..])
  {
    assert dups[..k + 1][..k] == dups[..k];
  }

  /** The inner delete loop over one student's later ids, appending each attempt and counting the successes. */
  method DeleteEach(idsToDelete: seq<int>, deletes: int -> bool, attempts0: seq<int>, count0: nat)
    returns (attempts: seq<int>, deletedCount: nat)
    requires count0 == Deleted(attempts0, deletes)
    ensures attempts == attempts0 + idsToDelete
    ensures deletedCount == Deleted(attempts, deletes)
  {
    attempts, deletedCount := attempts0, count0;
    var j := 0;
    while j < |idsToDelete|
      invariant 0 <= j <= |idsToDelete|
      invariant attempts == attempts0 + idsToDelete[..j] && deletedCount == Deleted(attempts, deletes)
    {
      assert idsToDelete[..j + 1] == idsToDelete[..j] + [idsToDelete[j]];
      DeletedAppend(attempts, idsToDelete[j], deletes);
      if deletes(idsToDelete[j]) {
        deletedCount := deletedCount + 1;
      }
      attempts := attempts + [idsToDelete[j]];
      j := j + 1;
    }
    assert idsToDelete[..j] == idsToDelete;
  }

  /** What a run of the script leaves: the grouping, the plan and the deletes it attempted. */
  datatype Outcome = Outcome(
    order: seq<string>, grouped: map<string, seq<int>>, duplicates: seq<(string, seq<int>)>,
    totalToDelete: int, attempts: seq<int>, deletedCount: nat)

  /**
   * The script: group, find the duplicates, and delete all but the first
   * record of each only when there are duplicates and the answer is "si".
   */
  method RemoveDuplicateRecords(records: seq<Record>, answer: string, deletes: int -> bool) returns (o: Outcome)
    ensures o.grouped == Grouped(records) && o.order == StudentOrder(records)
    ensures forall sid :: sid in o.order ==> sid in o.grouped
    ensures o.duplicates == Duplicates(o.order, o.grouped)
    ensures o.totalToDelete == TotalToDelete(o.duplicates) && o.totalToDelete == |ToDelete(o.duplicates)|
    ensures o.attempts == (if o.duplicates != [] && Confirmed(answer) then ToDelete(o.duplicates) else [])
    ensures o.deletedCount == Deleted(o.attempts, deletes)
  {
    var order, grouped := GroupByStudent(records);
    forall sid | sid in order
      ensures sid in grouped
    {
      StudentOrderMembers(records, sid);
    }
    var dups := Duplicates(order, grouped);
    var total := TotalToDelete(dups);
    TotalCountsPlannedDeletes(dups);
    var attempts: seq<int> := [];
    var deletedCount := 0;
    if dups != [] && Confirmed(answer) {
      attempts, deletedCount := DeleteDuplicates(dups, deletes);
    }
    o := Outcome(order, grouped, dups, total, attempts, deletedCount);
  }

  // ----- after a fully successful clean-up -----

  /** Record ids are the table's primary key: no two records share one. */
  predicate DistinctIds(records: seq<Record>) {
    forall i, j :: 0 <= i < j < |records| ==> records[i].id != records[j].id
  }

  /** The records left once the ids in `gone` are deleted. */
  function Remaining(records: seq<Record>, gone: seq<int>): (rest: seq<Record>)
    ensures |rest| <= |records|
  {
    if records == [] then []
    else
      var r := records[|records| - 1];
      Remaining(records[..|records| - 1], gone) + if r.id in gone then [] else [r]
  }

  /** The ids of a list that are not in `gone`, in order. */
  function Without(ids: seq<int>, gone: seq<int>): seq<int> {
    if ids == [] then [] else Without(ids[..|ids| - 1], gone) + if ids[|ids| - 1] in gone then [] else [ids[|ids| - 1]]
  }

  lemma {:induction false} IdsOfRemaining(records: seq<Record>, gone: seq<int>, sid: string)
    ensures IdsOf(Remaining(records, gone), sid) == Without(IdsOf(records, sid), gone)
  {
    if records != [] {
      var init := records[..|records| - 1];
      var r := records[|records| - 1];
      IdsOfRemaining(init, gone, sid);
      var rest := Remaining(init, gone);
      var before := IdsOf(init, sid);
      if r.id !in gone {
        assert Remaining(records, gone) == rest + [r];
        assert (rest + [r])[..|rest|] == rest;
        if r.studentId == sid {
          assert (before + [r.id])[..|before|] == before;
        } else {
          assert IdsOf(rest + [r], sid) == IdsOf(rest, sid) + [] == IdsOf(rest, sid);
          assert IdsOf(records, sid) == before + [] == before;
        }
      } else {
        assert Remaining(records, gone) == rest + [] == rest;
        if r.studentId == sid {
          assert (before + [r.id])[..|before|] == before;
          assert Without(before + [r.id], gone) == Without(before, gone) + [] == Without(before, gone);
        } else {
          assert IdsOf(records, sid) == before + [] == before;
        }
      }
    }
  }

  /** Keeping only the first of a list whose other elements are all gone. */
  lemma {:induction false} WithoutKeepsFirst(ids: seq<int>, gone: seq<int>)
    requires |ids| > 0 && ids[0] !in gone
    requires forall i :: 0 < i < |ids| ==> ids[i] in gone
    ensures Without(ids, gone) == [ids[0]]
  {
    if |ids| > 1 {
      WithoutKeepsFirst(ids[..|ids| - 1], gone);
    }
  }

  /** With distinct record ids, an id belongs to one student only and once. */
  lemma IdsOfDisjoint(records: seq<Record>, a: string, b: string, x: int)
    requires DistinctIds(records) && x in IdsOf(records, a) && x in IdsOf(records, b)
    ensures a == b
  {
    IdsOfMembers(records, a, x);
    IdsOfMembers(records, b, x);
    var i :| 0 <= i < |records| && records[i] == Record(x, a);
    var j :| 0 <= j < |records| && records[j] == Record(x, b);
    assert i == j;
  }

  lemma {:induction false} IdsOfDistinct(records: seq<Record>, sid: string)
    requires DistinctIds(records)
    ensures forall i, j :: 0 <= i < j < |IdsOf(records, sid)| ==> IdsOf(records, sid)[i] != IdsOf(records, sid)[j]
  {
    if records != [] {
      var init := records[..|records| - 1];
      var r := records[|records| - 1];
      IdsOfDistinct(init, sid);
      if r.studentId == sid {
        IdsOfMembers(init, sid, r.id);
      }
    }
  }

  /**
   * Within one student's ids, exactly the ids after the first are planned
   * for deletion.
   */
  lemma PlannedAreTheLaterIds(records: seq<Record>, sid: string, i: nat)
    requires DistinctIds(records) && i < |IdsOf(records, sid)|
    ensures IdsOf(records, sid)[i] in ToDelete(Duplicates(StudentOrder(records), Grouped(records))) <==> i > 0
  {
    var ids := IdsOf(records, sid);
    var order := StudentOrder(records);
    var grouped := Grouped(records);
    GroupedIsIdsOf(records);
    var dups := Duplicates(order, grouped);
    var x := ids[i];
    IdsOfDistinct(records, sid);
    if i > 0 {
      StudentOrderMembers(records, sid);
      var k :| 0 <= k < |dups| && dups[k].0 == sid;
      LaterIdPlanned(dups, k, i);
    }
    if x in ToDelete(dups) {
      var k, j := PlannedIdOrigin(dups, x);
      var other := dups[k].0;
      assert dups[k].1 == IdsOf(records, other);
      IdsOfDisjoint(records, sid, other, x);
    }
  }

  /** The grouping holds, for each listed student, exactly that student's ids. */
  lemma GroupedIsIdsOf(records: seq<Record>)
    ensures forall s :: s in StudentOrder(records) ==> s in Grouped(records) && Grouped(records)[s] == IdsOf(records, s)
  {
  }

  /** The ids of a student left once the planned ids are deleted: the first one only. */
  lemma OneLeftPerStudent(records: seq<Record>, sid: string)
    requires DistinctIds(records)
    ensures var remaining := Remaining(records, ToDelete(Duplicates(StudentOrder(records), Grouped(records))));
      IdsOf(remaining, sid) == if IdsOf(records, sid) == [] then [] else [IdsOf(records, sid)[0]]
  {
    var gone := ToDelete(Duplicates(StudentOrder(records), Grouped(records)));
    IdsOfRemaining(records, gone, sid);
    var ids := IdsOf(records, sid);
    if ids != [] {
      forall i | 0 <= i < |ids|
        ensures ids[i] in gone <==> i > 0
      {
        PlannedAreTheLaterIds(records, sid, i);
      }
      WithoutKeepsFirst(ids, gone);
    }
  }

  /** A grouping in which every student has one record has no duplicates. */
  lemma {:induction false} NoDuplicatesWhenSingle(order: seq<string>, grouped: map<string, seq<int>>)
    requires forall sid :: sid in order ==> sid in grouped
    requires forall sid :: sid in grouped ==> |grouped[sid]| == 1
    ensures Duplicates(order, grouped) == []
  {
    if order != [] {
      NoDuplicatesWhenSingle(order[..|order| - 1], grouped);
    }
  }

  /**
   * When every planned delete succeeds, the same students remain, each with
   * exactly one record (the first fetched), so no duplicate is left.
   */
  lemma FullCleanupLeavesOneEach(records: seq<Record>)
    requires DistinctIds(records)
    ensures forall sid :: sid in Grouped(records) ==> Grouped(records)[sid] != []
    ensures var remaining := Remaining(records, ToDelete(Duplicates(StudentOrder(records), Grouped(records))));
      Grouped(remaining).Keys == Grouped(records).Keys
      && (forall sid :: sid in Grouped(remaining) ==> Grouped(remaining)[sid] == [Grouped(records)[sid][0]])
      && Duplicates(StudentOrder(remaining), Grouped(remaining)) == []
  {
    var remaining := Remaining(records, ToDelete(Duplicates(StudentOrder(records), Grouped(records))));
    SameStudentsRemain(records, remaining);
    FirstRecordsRemain(records, remaining);
    NoDuplicatesRemain(records, remaining);
  }

  lemma SameStudentsRemain(records: seq<Record>, remaining: seq<Record>)
    requires DistinctIds(records)
    requires remaining == Remaining(records, ToDelete(Duplicates(StudentOrder(records), Grouped(records))))
    ensures forall sid :: sid in Grouped(records) ==> Grouped(records)[sid] != []
    ensures Grouped(remaining).Keys == Grouped(records).Keys
  {
    forall sid
      ensures sid in Grouped(records) ==> Grouped(records)[sid] != []
      ensures sid in Grouped(remaining) <==> sid in Grouped(records)
    {
      OneEachAfterCleanup(records, remaining, sid);
    }
  }

  lemma FirstRecordsRemain(records: seq<Record>, remaining: seq<Record>)
    requires DistinctIds(records)
    requires remaining == Remaining(records, ToDelete(Duplicates(StudentOrder(records), Grouped(records))))
    ensures forall sid :: sid in Grouped(remaining) ==>
      sid in Grouped(records) && Grouped(records)[sid] != [] && Grouped(remaining)[sid] == [Grouped(records)[sid][0]]
  {
    forall sid | sid in Grouped(remaining)
      ensures sid in Grouped(records) && Grouped(records)[sid] != []
      ensures Grouped(remaining)[sid] == [Grouped(records)[sid][0]]
    {
      OneEachAfterCleanup(records, remaining, sid);
    }
  }

  lemma NoDuplicatesRemain(records: seq<Record>, remaining: seq<Record>)
    requires DistinctIds(records)
    requires remaining == Remaining(records, ToDelete(Duplicates(StudentOrder(records), Grouped(records))))
    ensures Duplicates(StudentOrder(remaining), Grouped(remaining)) == []
  {
    FirstRecordsRemain(records, remaining);
    NoDuplicatesWhenSingle(StudentOrder(remaining), Grouped(remaining));
  }

  /** What the full clean-up leaves of one student. */
  lemma OneEachAfterCleanup(records: seq<Record>, remaining: seq<Record>, sid: string)
    requires DistinctIds(records)
    requires remaining == Remaining(records, ToDelete(Duplicates(StudentOrder(records), Grouped(records))))
    ensures sid in Grouped(records) ==> Grouped(records)[sid] != []
    ensures sid in Grouped(remaining) <==> sid in Grouped(records)
    ensures sid in Grouped(remaining) ==> Grouped(remaining)[sid] == [Grouped(records)[sid][0]]
  {
    StudentOrderMembers(records, sid);
    StudentOrderMembers(remaining, sid);
    OneLeftPerStudent(records, sid);
  }
}
