/**
 * The student endpoints: GET /sat-list (every student scored, optionally
 * filtered by level, highest score first) and GET /student/<id> (one
 * profile with its quintile label, barriers and lowest key-subject grades).
 * The database read is a parameter: the students `get_students` returned,
 * or the student `get_student_by_id` found.
 */
module StudentsRoutes {
  import opened Py
  import opened Text
  import opened Records
  import RC = RiskCalculator
  import F = Formatters
  import Sorting

  // ----- GET /sat-list -----

  datatype SatEntry = SatEntry(
    id: Option<string>, name: Option<string>, course: Option<string>,
    level: RC.RiskLevel, score: real, keyBarriers: seq<string>,
    materiasEnRiesgo: nat, quintil: Option<string>)

  /** The names of the first three key barriers. */
  function TopBarrierNames(bs: seq<RC.Barrier>): (names: seq<string>)
    ensures |names| == if |bs| < 3 then |bs| else 3
    ensures forall k :: 0 <= k < |names| ==> names[k] == RC.BarrierName(bs[k].kind)
  {
    var top := if |bs| < 3 then bs else bs[..3];
    seq(|top|, k requires 0 <= k < |top| => RC.BarrierName(top[k].kind))
  }

  /** `risk_level_filter and risk_level != risk_level_filter`: the student is left out of the list. */
  predicate FilteredOut(filter: Option<string>, level: RC.RiskLevel) {
    TruthyStr(filter) && RC.LevelName(level) != filter.value
  }

  /** The entry of one student that passes the filter; TypeError when its grades cannot be counted. */
  function SatEntryOf(s: Student): Result<SatEntry> {
    var a := RC.CalculateRiskScore(s);
    var rows := if s.academicPerformance.Val? then s.academicPerformance.v else [];
    if s.academicPerformance.Null? then Err("TypeError")
    else
      match RC.FailingCount(rows)
      case None => Err("TypeError")
      case Some(n) =>
        Ok(SatEntry(GetOpt(s.id), GetOpt(s.nombre), GetOpt(s.grado), a.level, a.score,
                    TopBarrierNames(RC.KeyBarriers(s)), n, Get(s.quintilAgrupado, "Desconocido")))
  }

  /** The unsorted list of entries, in database order; an error of any kept student fails the request. */
  function SatEntries(students: seq<Student>, filter: Option<string>): Result<seq<SatEntry>> {
    if students == [] then Ok([])
    else
      var last := students[|students| - 1];
      match SatEntries(students[..|students| - 1], filter)
      case Err(e) => Err(e)
      case Ok(prefix) =>
        if FilteredOut(filter, RC.CalculateRiskScore(last).level) then Ok(prefix)
        else
          match SatEntryOf(last)
          case Err(e) => Err(e)
          case Ok(entry) => Ok(prefix + [entry])
  }

  /** The sort key of `sort(key=risk_score, reverse=True)`. */
  function DescendingScore(e: SatEntry): real { -e.score }

  /** `get_sat_list`: the entries sorted by score, highest first (HTTP 500 on an error). */
  method GetSatList(students: seq<Student>, filter: Option<string>) returns (r: Result<seq<SatEntry>>)
    ensures SatEntries(students, filter).Err? ==> r.Err?
    ensures SatEntries(students, filter).Ok? ==> r == Ok(Sorting.SortBy(SatEntries(students, filter).value, DescendingScore))
  {
    var withRisk: seq<SatEntry> := [];
    var i := 0;
    while i < |students|
      invariant 0 <= i <= |students|
      invariant SatEntries(students[..i], filter) == Ok(withRisk)
    {
      assert students[..i + 1][..i] == students[..i];
      var a := RC.CalculateRiskScore(students[i]);
      if !FilteredOut(filter, a.level) {
        var entry := SatEntryOf(students[i]);
        if entry.Err? {
          SatEntriesErrSticky(students, filter, i + 1);
          assert students[..|students|] == students;
          return Err(entry.error);
        }
        withRisk := withRisk + [entry.value];
      }
      i := i + 1;
    }
    assert students[..|students|] == students;
    r := Ok(Sorting.SortBy(withRisk, DescendingScore));
  }

  /** Once a prefix fails, the whole list fails. */
  lemma {:induction false} SatEntriesErrSticky(students: seq<Student>, filter: Option<string>, n: nat)
    requires n <= |students| && SatEntries(students[..n], filter).Err?
    ensures SatEntries(students, filter).Err?
    decreases |students| - n
  {
    if n < |students| {
      assert students[..n + 1][..n] == students[..n];
      SatEntriesErrSticky(students, filter, n + 1);
    } else {
      assert students[..n] == students;
    }
  }

  /**
   * Every listed student has the requested level; without a filter every
   * student is listed.
   */
  lemma {:induction false} SatEntriesFilter(students: seq<Student>, filter: Option<string>)
    requires SatEntries(students, filter).Ok?
    ensures TruthyStr(filter) ==> forall k :: 0 <= k < |SatEntries(students, filter).value| ==>
              RC.LevelName(SatEntries(students, filter).value[k].level) == filter.value
    ensures !TruthyStr(filter) ==> |SatEntries(students, filter).value| == |students|
  {
    if students != [] {
      SatEntriesFilter(students[..|students| - 1], filter);
    }
  }

  /**
   * The SAT list is ordered by score, highest first, holds exactly the
   * unsorted entries, and keeps database order among equal scores.
   */
  lemma SatListOrdered(students: seq<Student>, filter: Option<string>, k: real)
    requires SatEntries(students, filter).Ok?
    ensures var sorted := Sorting.SortBy(SatEntries(students, filter).value, DescendingScore);
      (forall i, j :: 0 <= i < j < |sorted| ==> sorted[i].score >= sorted[j].score)
      && multiset(sorted) == multiset(SatEntries(students, filter).value)
      && Sorting.WithKey(sorted, DescendingScore, k) == Sorting.WithKey(SatEntries(students, filter).value, DescendingScore, k)
  {
    var entries := SatEntries(students, filter).value;
    Sorting.SortBySortedPermutation(entries, DescendingScore);
    Sorting.SortByStable(entries, DescendingScore, k);
    var sorted := Sorting.SortBy(entries, DescendingScore);
    forall i, j | 0 <= i < j < |sorted| ensures sorted[i].score >= sorted[j].score {
      assert DescendingScore(sorted[i]) <= DescendingScore(sorted[j]);
    }
  }

  // ----- GET /student/<id> -----

  /** `_format_quintil`: the label of the first key (bajo, medio, alto, acomodado) found in the lowered text. */
  function FormatQuintil(q: Option<string>): (r: string)
    ensures !TruthyStr(q) ==> r == "Desconocido"
    ensures TruthyStr(q) ==>
      var g := Lower(q.value);
      (Contains(g, "bajo") ==> r == "Q1-Q2 (Vulnerable)")
      && (!Contains(g, "bajo") && Contains(g, "medio") ==> r == "Q3 (Medio)")
      && (!Contains(g, "bajo") && !Contains(g, "medio") && Contains(g, "alto") ==> r == "Q4-Q5 (Alto)")
      && (!Contains(g, "bajo") && !Contains(g, "medio") && !Contains(g, "alto") && Contains(g, "acomodado")
          ==> r == "Q4 (Acomodado)")
      && (!Contains(g, "bajo") && !Contains(g, "medio") && !Contains(g, "alto") && !Contains(g, "acomodado")
          ==> r == q.value)
    ensures r == "Q1-Q2 (Vulnerable)" || r == "Q3 (Medio)" || r == "Q4-Q5 (Alto)" || r == "Q4 (Acomodado)"
            || r == "Desconocido" || r == q.value
  {
    if !TruthyStr(q) then "Desconocido"
    else
      var g := Lower(q.value);
      if Contains(g, "bajo") then "Q1-Q2 (Vulnerable)"
      else if Contains(g, "medio") then "Q3 (Medio)"
      else if Contains(g, "alto") then "Q4-Q5 (Alto)"
      else if Contains(g, "acomodado") then "Q4 (Acomodado)"
      else q.value
  }

  /**
   * The profile's quintile label agrees with the risk score: a group read as
   * vulnerable scores the full 100 quintile points, one read as middle at
   * least 50.
   */
  lemma FormatQuintilAgreesWithScore(s: Student)
    ensures FormatQuintil(Get(s.quintilAgrupado, "")) == "Q1-Q2 (Vulnerable)" && s.quintilAgrupado.Val?
            && s.quintilAgrupado.v != "Q1-Q2 (Vulnerable)"
            ==> RC.QuintilScore(s) == 100.0
    ensures FormatQuintil(Get(s.quintilAgrupado, "")) == "Q3 (Medio)" && s.quintilAgrupado.Val?
            && s.quintilAgrupado.v != "Q3 (Medio)"
            ==> RC.QuintilScore(s) >= 50.0
  {
    assert "Q1-Q2 (Vulnerable)" != "Q3 (Medio)" && "Q1-Q2 (Vulnerable)" != "Q4-Q5 (Alto)";
    assert "Q1-Q2 (Vulnerable)" != "Q4 (Acomodado)" && "Q1-Q2 (Vulnerable)" != "Desconocido";
    assert "Q3 (Medio)" != "Q4-Q5 (Alto)" && "Q3 (Medio)" != "Q4 (Acomodado)" && "Q3 (Medio)" != "Desconocido";
  }

  datatype KeyGrade = KeyGrade(subject: Option<string>, grade: Option<real>, avg: Option<real>)

  const KeySubjects: seq<string> := ["matemáticas", "biología", "física", "estudios sociales", "lengua"]

  predicate IsKeySubject(name: string) {
    exists k :: 0 <= k < |KeySubjects| && Contains(name, KeySubjects[k])
  }

  /** The entry of one academic row, if its subject is a key subject; AttributeError on a NULL subject. */
  function KeyGradeOf(row: GradeRecord): Result<Option<KeyGrade>> {
    match row.materia
    case Null => Err("AttributeError")
    case _ =>
      var name := Lower(if row.materia.Val? then row.materia.v else "");
      if IsKeySubject(name) then Ok(Some(KeyGrade(GetOpt(row.materia), Get(row.nota, 0.0), Get(row.promedioCurso, 0.0))))
      else Ok(None)
  }

  /** The key-subject entries of the rows, in row order. */
  function KeyGradeEntries(rows: seq<GradeRecord>): Result<seq<KeyGrade>> {
    if rows == [] then Ok([])
    else
      match KeyGradeEntries(rows[..|rows| - 1])
      case Err(e) => Err(e)
      case Ok(prefix) =>
        match KeyGradeOf(rows[|rows| - 1])
        case Err(e) => Err(e)
        case Ok(None) => Ok(prefix)
        case Ok(Some(g)) => Ok(prefix + [g])
  }

  function GradeKey(g: KeyGrade): real { if g.grade.Some? then g.grade.value else 0.0 }

  /** Sorting compares grades: with two or more entries a NULL grade raises TypeError. */
  predicate SortRaises(entries: seq<KeyGrade>) {
    |entries| >= 2 && exists k :: 0 <= k < |entries| && entries[k].grade.None?
  }

  function First5<T>(s: seq<T>): (r: seq<T>)
    ensures |r| == if |s| < 5 then |s| else 5
    ensures r == s[..|r|]
  {
    if |s| < 5 then s else s[..5]
  }

  /** What `_get_key_grades` returns: the five lowest key-subject entries, or None where it raises. */
  function KeyGradesOf(rows: seq<GradeRecord>): Option<seq<KeyGrade>> {
    match KeyGradeEntries(rows)
    case Err(_) => None
    case Ok(entries) => if SortRaises(entries) then None else Some(First5(Sorting.SortBy(entries, GradeKey)))
  }

  /** `_get_key_grades`: the key-subject grades, lowest first, at most five. */
  method GetKeyGrades(rows: seq<GradeRecord>) returns (r: Result<seq<KeyGrade>>)
    ensures KeyGradeEntries(rows).Err? ==> r.Err?
    ensures KeyGradeEntries(rows).Ok? ==>
      var entries := KeyGradeEntries(rows).value;
      r == if SortRaises(entries) then Err("TypeError") else Ok(First5(Sorting.SortBy(entries, GradeKey)))
    ensures r.Ok? <==> KeyGradesOf(rows).Some?
    ensures r.Ok? ==> r.value == KeyGradesOf(rows).value
  {
    var keyGrades: seq<KeyGrade> := [];
    var i := 0;
    while i < |rows|
      invariant 0 <= i <= |rows|
      invariant KeyGradeEntries(rows[..i]) == Ok(keyGrades)
    {
      assert rows[..i + 1][..i] == rows[..i];
      var g := KeyGradeOf(rows[i]);
      if g.Err? {
        KeyGradeEntriesErrSticky(rows, i + 1);
        return Err(g.error);
      }
      if g.value.Some? {
        keyGrades := keyGrades + [g.value.value];
      }
      i := i + 1;
    }
    assert rows[..|rows|] == rows;
    if SortRaises(keyGrades) {
      return Err("TypeError");
    }
    r := Ok(First5(Sorting.SortBy(keyGrades, GradeKey)));
  }

  lemma {:induction false} KeyGradeEntriesErrSticky(rows: seq<GradeRecord>, n: nat)
    requires n <= |rows| && KeyGradeEntries(rows[..n]).Err?
    ensures KeyGradeEntries(rows).Err?
    decreases |rows| - n
  {
    if n < |rows| {
      assert rows[..n + 1][..n] == rows[..n];
      KeyGradeEntriesErrSticky(rows, n + 1);
    } else {
      assert rows[..n] == rows;
    }
  }

  /**
   * The key grades shown are the lowest ones: sorted ascending, at most five,
   * and no key-subject grade left out is lower than one shown; together with
   * the ones left out they are exactly the key-subject entries.
   */
  lemma KeyGradesAreLowest(entries: seq<KeyGrade>)
    ensures var sorted := Sorting.SortBy(entries, GradeKey);
      var shown := First5(sorted);
      |shown| <= 5
      && (forall i, j :: 0 <= i < j < |shown| ==> GradeKey(shown[i]) <= GradeKey(shown[j]))
      && (forall i, j :: 0 <= i < |shown| && |shown| <= j < |sorted| ==> GradeKey(shown[i]) <= GradeKey(sorted[j]))
      && multiset(shown) + multiset(sorted[|shown|..]) == multiset(entries)
  {
    var sorted := Sorting.SortBy(entries, GradeKey);
    Sorting.SortBySortedPermutation(entries, GradeKey);
    var shown := First5(sorted);
    assert sorted == shown + sorted[|shown|..];
  }

  datatype RiskFactor = RiskFactor(name: string, value: string, weight: string)

  datatype ProfileResponse =
    | ProfileNotFound        // 404
    | ProfileError           // 500
    | Profile(id: Option<string>, name: Option<string>, course: Option<string>,
              level: RC.RiskLevel, score: real, riskFactors: seq<RiskFactor>,
              keyBarriers: seq<RC.Barrier>, keyGrades: seq<KeyGrade>)   // 200

  /** `get_student_profile` for the student the database returned (None: not found). */
  method GetStudentProfile(found: Option<Student>) returns (r: ProfileResponse)
    ensures found.None? ==> r == ProfileNotFound
    ensures found.Some? && RC.CalculateRiskScore(found.value).components.None? ==> r == ProfileError
    ensures r.Profile? ==>
      var s := found.value;
      var a := RC.CalculateRiskScore(s);
      a.components.Some? && r.level == a.level && r.score == a.score
      && r.keyBarriers == RC.KeyBarriers(s)
      && r.riskFactors == [
           RiskFactor("Quintil Socioeconómico", FormatQuintil(Get(s.quintilAgrupado, "")), "25%"),
           RiskFactor("Barreras Identificadas", NatToString(|RC.KeyBarriers(s)|) + " barreras", "20%")]
      && |r.keyGrades| <= 5
    ensures found.Some? && RC.CalculateRiskScore(found.value).components.Some? ==>
      var s := found.value;
      var rows := if s.academicPerformance.Val? then s.academicPerformance.v else [];
      (r.Profile? <==> !s.academicPerformance.Null? && KeyGradesOf(rows).Some?)
      && (r.Profile? ==> r.keyGrades == KeyGradesOf(rows).value)
    ensures r.Profile? ==>
      var s := found.value;
      r.id == GetOpt(s.id) && r.name == GetOpt(s.nombre) && r.course == GetOpt(s.grado)
    ensures found.Some? ==> r != ProfileNotFound
  {
    if found.None? {
      return ProfileNotFound;
    }
    var s := found.value;
    var a := RC.CalculateRiskScore(s);
    var keyBarriers := RC.KeyBarriers(s);
    if a.components.None? {
      return ProfileError;   // components["quintil"] raises KeyError on the fallback's empty dict
    }
    var quintilWeight := F.WeightText(RC.QuintilWeight);
    var barriersWeight := F.WeightText(RC.BarriersWeight);
    F.CalculatorWeightTexts();
    var factors := [
      RiskFactor("Quintil Socioeconómico", FormatQuintil(Get(s.quintilAgrupado, "")), quintilWeight),
      RiskFactor("Barreras Identificadas", NatToString(|keyBarriers|) + " barreras", barriersWeight)];
    if s.academicPerformance.Null? {
      return ProfileError;   // iterating None
    }
    var rows := if s.academicPerformance.Val? then s.academicPerformance.v else [];
    var keyGrades := GetKeyGrades(rows);
    if keyGrades.Err? {
      return ProfileError;
    }
    if KeyGradeEntries(rows).Ok? && !SortRaises(KeyGradeEntries(rows).value) {
      KeyGradesAreLowest(KeyGradeEntries(rows).value);
    }
    assert |keyGrades.value| <= 5;
    r := Profile(GetOpt(s.id), GetOpt(s.nombre), GetOpt(s.grado), a.level, a.score, factors, keyBarriers, keyGrades.value);
  }
}
