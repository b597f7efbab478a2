/**
 * The predictive early-warning script: one row per student and academic
 * subject with a non-zero grade, carrying the student's baseline risk
 * components and the student's grades in the other subjects; the class
 * weight of its classifier; and the grouping of the classifier's
 * probabilities into high- and medium-risk alerts per student.
 */
module EarlyWarning {
  import opened Py
  import opened Records
  import RiskCalculator

  // ----- subject names -----

  /** `SUBJECT_NAME_MAP`. */
  const SubjectNameMap: map<string, string> := map[
    "Matemática" := "Matemáticas", "matemática" := "Matemáticas",
    "MATEMÁTICA" := "Matemáticas", "MATEMÁTICAS" := "Matemáticas",
    "Animación lectura" := "Lengua y Literatura", "Animación Lectura" := "Lengua y Literatura",
    "Estudios sociales" := "Estudios Sociales", "estudios sociales" := "Estudios Sociales",
    "Ciencias naturales" := "Ciencias Naturales", "ciencias naturales" := "Ciencias Naturales"]

  /** `NON_ACADEMIC_SUBJECTS`. */
  const NonAcademicSubjects: set<string> := {"Acompañamiento", "PPE", "acompañamiento", "ppe"}

  /** The names the map merges into. */
  const MergedNames: set<string> := {"Matemáticas", "Lengua y Literatura", "Estudios Sociales", "Ciencias Naturales"}

  /** `normalize_subject_name`: the mapped name, or the name itself. */
  function NormalizeSubjectName(subject: string): (r: string)
    ensures subject !in SubjectNameMap ==> r == subject
    ensures subject in SubjectNameMap ==> r in MergedNames
  {
    if subject in SubjectNameMap then SubjectNameMap[subject] else subject
  }

  /** The merged names are none of the names that get merged. */
  lemma MergedNamesAreNotKeys()
    ensures forall v :: v in SubjectNameMap.Values ==> v !in SubjectNameMap
  {
    forall v | v in SubjectNameMap.Values
      ensures v !in SubjectNameMap
    {
      var k :| k in SubjectNameMap && SubjectNameMap[k] == v;
      assert v in MergedNames;
    }
  }

  /** Normalising twice is normalising once. */
  lemma NormalizeIdempotent(subject: string)
    ensures NormalizeSubjectName(NormalizeSubjectName(subject)) == NormalizeSubjectName(subject)
  {
    MergedNamesAreNotKeys();
  }

  /** A name is non-academic exactly when its normal form is: the map neither makes nor hides one. */
  lemma NonAcademicBeforeOrAfter(subject: string)
    ensures NormalizeSubjectName(subject) in NonAcademicSubjects <==> subject in NonAcademicSubjects
  {
    if subject in SubjectNameMap {
      assert NormalizeSubjectName(subject) in MergedNames;
    }
  }

  /**
   * `normalize_subject_name(record.get('materia', 'Unknown'))`: a missing
   * key reads "Unknown"; a NULL name looks itself up and stays None.
   */
  function SubjectOf(r: GradeRecord): (subject: Option<string>)
    ensures subject.None? <==> r.materia.Null?
    ensures r.materia.Absent? ==> subject == Some("Unknown")
    ensures r.materia.Val? && r.materia.v !in SubjectNameMap ==> subject == Some(r.materia.v)
    ensures r.materia.Val? && r.materia.v in SubjectNameMap ==> subject.value in MergedNames
    ensures r.materia.Val? ==> (IsAcademic(subject) <==> r.materia.v !in NonAcademicSubjects)
    ensures subject.Some? ==> NormalizeSubjectName(subject.value) == subject.value
  {
    match r.materia
    case Absent =>
      assert "Unknown" !in SubjectNameMap;
      Some(NormalizeSubjectName("Unknown"))
    case Null => None
    case Val(m) =>
      NormalizeIdempotent(m);
      NonAcademicBeforeOrAfter(m);
      Some(NormalizeSubjectName(m))
  }

  /** Not in `NON_ACADEMIC_SUBJECTS` (None never is). */
  predicate IsAcademic(subject: Option<string>) {
    subject.None? || subject.value !in NonAcademicSubjects
  }

  /** `mat_nota and mat_nota > 0`: the grade that goes into `notas_por_materia`. */
  function PositiveGrade(r: GradeRecord): (g: Option<real>)
    ensures g.Some? <==> r.nota.Val? && r.nota.v > 0.0
  {
    if r.nota.Val? && r.nota.v > 0.0 then Some(r.nota.v) else None
  }

  /** The grade of a row of the dataset: `not nota_final or nota_final == 0` skips the record. */
  function FinalGrade(r: GradeRecord): (g: Option<real>)
    ensures g.Some? <==> r.nota.Val? && r.nota.v != 0.0
  {
    if r.nota.Val? && r.nota.v != 0.0 then Some(r.nota.v) else None
  }

  /** The record puts a grade into `notas_por_materia`. */
  predicate Graded(r: GradeRecord) {
    IsAcademic(SubjectOf(r)) && PositiveGrade(r).Some?
  }

  // ----- grades per subject -----

  /** `notas_por_materia` after the records, in order. */
  function NotasOf(rows: seq<GradeRecord>): map<Option<string>, real> {
    if rows == [] then map[]
    else
      var d := NotasOf(rows[..|rows| - 1]);
      var r := rows[|rows| - 1];
      if Graded(r) then d[SubjectOf(r) := r.nota.v] else d
  }

  /** The position of the last record that files a grade under `k`. */
  predicate LastGradedAt(rows: seq<GradeRecord>, k: Option<string>, i: int) {
    0 <= i < |rows| && Graded(rows[i]) && SubjectOf(rows[i]) == k
    && forall j :: i < j < |rows| ==> !(Graded(rows[j]) && SubjectOf(rows[j]) == k)
  }

  /**
   * A subject has a grade exactly when one of its records has a positive
   * grade, and its grade is that of the last such record.
   */
  lemma {:induction false} LastOccurrenceWins(rows: seq<GradeRecord>, k: Option<string>)
    ensures k in NotasOf(rows) <==> exists i :: 0 <= i < |rows| && Graded(rows[i]) && SubjectOf(rows[i]) == k
    ensures k in NotasOf(rows) ==> exists i :: LastGradedAt(rows, k, i) && NotasOf(rows)[k] == rows[i].nota.v
  {
    if rows != [] {
      var init, n := rows[..|rows| - 1], |rows| - 1;
      LastOccurrenceWins(init, k);
      assert forall i :: 0 <= i < n ==> init[i] == rows[i];
      if Graded(rows[n]) && SubjectOf(rows[n]) == k {
        assert LastGradedAt(rows, k, n);
      } else if k in NotasOf(rows) {
        var i :| LastGradedAt(init, k, i) && NotasOf(init)[k] == init[i].nota.v;
        assert LastGradedAt(rows, k, i);
      }
    }
  }

  lemma NotasStep(rows: seq<GradeRecord>, i: nat)
    requires i < |rows|
    ensures NotasOf(rows[..i + 1]) == if Graded(rows[i]) then NotasOf(rows[..i])[SubjectOf(rows[i]) := rows[i].nota.v] else NotasOf(rows[..i])
  {
    assert rows[..i + 1][..i] == rows[..i];
  }

  /** The first loop over a student's records. */
  method BuildNotas(rows: seq<GradeRecord>) returns (notas: map<Option<string>, real>)
    ensures notas == NotasOf(rows)
  {
    notas := map[];
    var i := 0;
    while i < |rows|
      invariant 0 <= i <= |rows|
      invariant notas == NotasOf(rows[..i])
    {
      NotasStep(rows, i);
      var materia := SubjectOf(rows[i]);
      if IsAcademic(materia) {
        var nota := PositiveGrade(rows[i]);
        if nota.Some? {
          notas := notas[materia := nota.value];
        }
      }
      i := i + 1;
    }
    assert rows[..i] == rows;
  }

  // ----- the rows of the dataset -----

  /** The features of one row that this model keeps. */
  datatype SubjectRow = SubjectRow(
    studentId: Field<string>, subject: Option<string>, quintil: int,
    quintilComponent: real, barriersComponent: real, riskScoreBaseline: real,
    otherGrades: map<string, real>, notaFinal: real, failed: bool, atRisk: bool)

  /** `components.get('quintil', {}).get('score', 0)`: 0 when the risk score fell back. */
  function QuintilComponent(s: Student): (c: real)
    ensures 0.0 <= c <= 100.0
  {
    var a := RiskCalculator.CalculateRiskScore(s);
    if a.components.Some? then a.components.value.quintil else 0.0
  }

  /** `components.get('barriers', {}).get('score', 0)`. */
  function BarriersComponent(s: Student): (c: real)
    ensures 0.0 <= c <= 75.5
  {
    var a := RiskCalculator.CalculateRiskScore(s);
    if a.components.Some? then a.components.value.barriers else 0.0
  }

  /** `risk_score_baseline`: the quintil and barrier parts of the risk score, at their weights. */
  function Baseline(s: Student): real {
    QuintilComponent(s) * 0.25 + BarriersComponent(s) * 0.20
  }

  /** The baseline lies in 0..40.1: at most 25 from the quintil and 15.1 from the barriers. */
  lemma BaselineRange(s: Student)
    ensures 0.0 <= Baseline(s) <= 40.1
  {
  }

  /** The baseline is the quintil and barrier terms of the weighted risk total. */
  lemma BaselineIsPartOfRiskScore(s: Student)
    requires RiskCalculator.CalculateRiskScore(s).components.Some?
    ensures var c := RiskCalculator.CalculateRiskScore(s).components.value;
      Baseline(s) == RiskCalculator.WeightedTotal(c) - RiskCalculator.AttendanceWeight * c.attendance - RiskCalculator.GradesWeight * c.grades
  {
  }

  /**
   * The other-subject grades of a row: every subject of `notas_por_materia`
   * but the row's own. Building a column name from a None key raises.
   */
  function OtherGrades(notas: map<Option<string>, real>, subject: Option<string>): (r: Result<map<string, real>>)
    ensures r.Err? <==> None in notas && subject.Some?
    ensures r.Ok? ==> forall k :: k in r.value <==> Some(k) in notas && Some(k) != subject
    ensures r.Ok? ==> forall k :: k in r.value ==> r.value[k] == notas[Some(k)]
  {
    if None in notas && subject.Some? then Err("AttributeError: 'NoneType' object has no attribute 'replace'")
    else Ok(map k | k in Named(notas) && Some(k) != subject :: notas[Some(k)])
  }

  /** The subject names of the keys that are not None. */
  function Named(notas: map<Option<string>, real>): (names: set<string>)
    ensures forall k :: k in names <==> Some(k) in notas
  {
    set o | o in notas && o.Some? :: o.value
  }

  /** What every row of a student states. */
  predicate WellFormed(row: SubjectRow, s: Student) {
    row.studentId == s.id && row.quintil == RiskCalculator.QuintilOrFive(s)
    && row.notaFinal != 0.0 && IsAcademic(row.subject)
    && (row.failed <==> row.notaFinal < 7.0) && (row.atRisk <==> row.notaFinal < 7.5)
    && (row.subject.Some? ==> row.subject.value !in row.otherGrades)
    && row.riskScoreBaseline == Baseline(s)
  }

  /** The record makes a row. */
  predicate Kept(r: GradeRecord) {
    IsAcademic(SubjectOf(r)) && FinalGrade(r).Some?
  }

  /** The number of records that make a row. */
  function KeptCount(rows: seq<GradeRecord>): nat {
    if rows == [] then 0 else KeptCount(rows[..|rows| - 1]) + if Kept(rows[|rows| - 1]) then 1 else 0
  }

  function MakeRow(s: Student, subject: Option<string>, others: map<string, real>, nota: real): SubjectRow {
    SubjectRow(s.id, subject, RiskCalculator.QuintilOrFive(s), QuintilComponent(s), BarriersComponent(s), Baseline(s),
               others, nota, nota < 7.0, nota < 7.5)
  }

  /**
   * The second loop over a student's records, for the first records: one row
   * for each academic record with a non-zero grade.
   */
  function RowsOf(s: Student, rows: seq<GradeRecord>, notas: map<Option<string>, real>): (r: Result<seq<SubjectRow>>)
    ensures r.Err? <==> None in notas && SomeKeptNamed(rows)
    ensures r.Ok? ==> |r.value| == KeptCount(rows)
    ensures r.Ok? ==> forall i :: 0 <= i < |r.value| ==> WellFormed(r.value[i], s)
  {
    if rows == [] then Ok([])
    else
      var init := rows[..|rows| - 1];
      var prev := RowsOf(s, init, notas);
      var next := RowStep(s, prev, notas, rows[|rows| - 1]);
      SomeKeptNamedStep(rows);
      if next.Ok? then
        StepKeepsWellFormed(s, prev.value, notas, rows[|rows| - 1]);
        next
      else next
  }

  /** A step that succeeds keeps every row well formed. */
  lemma StepKeepsWellFormed(s: Student, prev: seq<SubjectRow>, notas: map<Option<string>, real>, r: GradeRecord)
    requires forall i :: 0 <= i < |prev| ==> WellFormed(prev[i], s)
    requires RowStep(s, Ok(prev), notas, r).Ok?
    ensures var next := RowStep(s, Ok(prev), notas, r).value;
      forall i :: 0 <= i < |next| ==> WellFormed(next[i], s)
  {
    var next := RowStep(s, Ok(prev), notas, r).value;
    forall i | 0 <= i < |next| ensures WellFormed(next[i], s) {
      if i < |prev| {
        assert next[i] == next[..|prev|][i];
      }
    }
  }

  /** Some record makes a row and names its subject. */
  predicate SomeKeptNamed(rows: seq<GradeRecord>) {
    exists i :: 0 <= i < |rows| && Kept(rows[i]) && SubjectOf(rows[i]).Some?
  }

  lemma SomeKeptNamedStep(rows: seq<GradeRecord>)
    requires rows != []
    ensures var last := rows[|rows| - 1];
      SomeKeptNamed(rows) <==> SomeKeptNamed(rows[..|rows| - 1]) || (Kept(last) && SubjectOf(last).Some?)
  {
    var init := rows[..|rows| - 1];
    if SomeKeptNamed(init) {
      var i :| 0 <= i < |init| && Kept(init[i]) && SubjectOf(init[i]).Some?;
      assert rows[i] == init[i];
    }
    if SomeKeptNamed(rows) {
      var i :| 0 <= i < |rows| && Kept(rows[i]) && SubjectOf(rows[i]).Some?;
      if i < |init| {
        assert init[i] == rows[i];
      }
    }
  }

  /** One record of the second loop: nothing, one more row, or the error. */
  function RowStep(s: Student, prev: Result<seq<SubjectRow>>, notas: map<Option<string>, real>, r: GradeRecord): (next: Result<seq<SubjectRow>>)
    ensures prev.Err? ==> next == prev
    ensures prev.Ok? ==> (next.Err? <==> Kept(r) && None in notas && SubjectOf(r).Some?)
    ensures prev.Ok? && next.Ok? ==>
      |next.value| == |prev.value| + (if Kept(r) then 1 else 0) && next.value[..|prev.value|] == prev.value
      && (Kept(r) ==> WellFormed(next.value[|prev.value|], s))
  {
    if prev.Err? || !Kept(r) then prev
    else
      var others := OtherGrades(notas, SubjectOf(r));
      if others.Err? then Err(others.error)
      else Ok(prev.value + [MakeRow(s, SubjectOf(r), others.value, FinalGrade(r).value)])
  }

  /** A failed subject is always an at-risk subject. */
  lemma FailedImpliesAtRisk(row: SubjectRow, s: Student)
    requires WellFormed(row, s)
    ensures row.failed ==> row.atRisk
  {
  }

  /** The rows of one student: none without academic records. */
  function StudentRows(s: Student): (r: Result<seq<SubjectRow>>)
    ensures !HasRows(s.academicPerformance) ==> r == Ok([])
    ensures r.Ok? ==> forall i :: 0 <= i < |r.value| ==> WellFormed(r.value[i], s)
  {
    if !HasRows(s.academicPerformance) then Ok([])
    else
      var rows := s.academicPerformance.v;
      RowsOf(s, rows, NotasOf(rows))
  }

  lemma RowsStep(s: Student, rows: seq<GradeRecord>, notas: map<Option<string>, real>, i: nat)
    requires i < |rows|
    ensures RowsOf(s, rows[..i + 1], notas) == RowStep(s, RowsOf(s, rows[..i], notas), notas, rows[i])
  {
    assert rows[..i + 1][..i] == rows[..i];
  }

  /** Once a prefix of a student's records fails, the whole student fails with the same error. */
  lemma {:induction false} RowsStop(s: Student, rows: seq<GradeRecord>, notas: map<Option<string>, real>, i: nat)
    requires i <= |rows| && RowsOf(s, rows[..i], notas).Err?
    ensures RowsOf(s, rows, notas) == RowsOf(s, rows[..i], notas)
    decreases |rows|
  {
    if i < |rows| {
      var init := rows[..|rows| - 1];
      assert init[..i] == rows[..i];
      RowsStop(s, init, notas, i);
      assert rows[..|rows|] == rows;
      RowsStep(s, rows, notas, |rows| - 1);
    } else {
      assert rows[..i] == rows;
    }
  }

  /** The two loops over one student's records. */
  method BuildStudentRows(s: Student) returns (r: Result<seq<SubjectRow>>)
    ensures r == StudentRows(s)
  {
    if !HasRows(s.academicPerformance) {
      return Ok([]);
    }
    var rows := s.academicPerformance.v;
    var notas := BuildNotas(rows);
    var data: seq<SubjectRow> := [];
    var i := 0;
    while i < |rows|
      invariant 0 <= i <= |rows|
      invariant RowsOf(s, rows[..i], notas) == Ok(data)
    {
      RowsStep(s, rows, notas, i);
      var next := AddRow(s, Ok(data), notas, rows[i]);
      if next.Err? {
        RowsStop(s, rows, notas, i + 1);
        return next;
      }
      data := next.value;
      i := i + 1;
    }
    assert rows[..i] == rows;
    r := Ok(data);
  }

  /** One iteration of the second loop. */
  method AddRow(s: Student, prev: Result<seq<SubjectRow>>, notas: map<Option<string>, real>, row: GradeRecord)
    returns (next: Result<seq<SubjectRow>>)
    requires prev.Ok?
    ensures next == RowStep(s, prev, notas, row)
  {
    next := prev;
    var materia := SubjectOf(row);
    var nota := FinalGrade(row);
    if IsAcademic(materia) && nota.Some? {
      var others := OtherGrades(notas, materia);
      if others.Err? {
        return Err(others.error);
      }
      next := Ok(prev.value + [MakeRow(s, materia, others.value, nota.value)]);
    }
  }

  /** The dataset after the students, in order; the first error stops the script. */
  function DataOf(students: seq<Student>): Result<seq<SubjectRow>> {
    if students == [] then Ok([])
    else DataStepOf(DataOf(students[..|students| - 1]), students[|students| - 1])
  }

  /** `pd.DataFrame([])['student_id']`: a frame built from no rows has no columns. */
  const NoStudentColumn := "KeyError: 'student_id'"

  /** One student of the loop: their rows appended, or the error. */
  function DataStepOf(prev: Result<seq<SubjectRow>>, s: Student): Result<seq<SubjectRow>> {
    if prev.Err? then prev
    else
      var rows := StudentRows(s);
      if rows.Err? then Err(rows.error) else Ok(prev.value + rows.value)
  }

  lemma DataStep(students: seq<Student>, i: nat)
    requires i < |students|
    ensures DataOf(students[..i + 1]) == DataStepOf(DataOf(students[..i]), students[i])
  {
    assert students[..i + 1][..i] == students[..i];
  }

  lemma {:induction false} DataStops(students: seq<Student>, i: nat)
    requires i <= |students| && DataOf(students[..i]).Err?
    ensures DataOf(students) == DataOf(students[..i])
    decreases |students| - i
  {
    if i < |students| {
      DataStep(students, i);
      DataStops(students, i + 1);
    } else {
      assert students[..i] == students;
    }
  }

  /**
   * `fetch_historical_data`: None when there are no students, else the
   * dataset. An empty dataset raises, since its frame has no `student_id`
   * column to count.
   */
  method FetchHistoricalData(students: seq<Student>) returns (r: Result<Option<seq<SubjectRow>>>)
    ensures students == [] ==> r == Ok(None)
    ensures students != [] ==> (r.Err? <==> DataOf(students).Err? || DataOf(students) == Ok([]))
    ensures students != [] && DataOf(students) == Ok([]) ==> r == Err(NoStudentColumn)
    ensures students != [] && r.Ok? ==> r.value == Some(DataOf(students).value) && r.value.value != []
  {
    if students == [] {
      return Ok(None);
    }
    var data: seq<SubjectRow> := [];
    var i := 0;
    while i < |students|
      invariant 0 <= i <= |students|
      invariant DataOf(students[..i]) == Ok(data)
    {
      DataStep(students, i);
      var rows := BuildStudentRows(students[i]);
      if rows.Err? {
        DataStops(students, i + 1);
        return Err(rows.error);
      }
      data := data + rows.value;
      i := i + 1;
    }
    assert students[..i] == students;
    if data == [] {
      return Err(NoStudentColumn);
    }
    r := Ok(Some(data));
  }

  /** Every row of the dataset is well formed for some student of the input. */
  lemma {:induction false} DataRowsWellFormed(students: seq<Student>)
    requires DataOf(students).Ok?
    ensures forall row :: row in DataOf(students).value ==> exists s :: s in students && WellFormed(row, s)
  {
    if students != [] {
      var init, s := students[..|students| - 1], students[|students| - 1];
      DataRowsWellFormed(init);
      var acc, rows := DataOf(init).value, StudentRows(s).value;
      forall row | row in DataOf(students).value
        ensures exists t :: t in students && WellFormed(row, t)
      {
        if row in acc {
          var t :| t in init && WellFormed(row, t);
          assert t in students;
        } else {
          assert row in rows;
          var k :| 0 <= k < |rows| && rows[k] == row;
          assert WellFormed(row, s) && s in students;
        }
      }
    }
  }

  // ----- class weight -----

  /** The cap on the weight of the positive class. */
  const MaxPosWeight: real := 10.0

  /**
   * `scale_pos_weight`: the ratio of negatives to positives among the
   * `n` training labels, of which `pos` are positive, capped at 10; with no
   * positives the ratio is infinite and the cap applies.
   */
  function ScalePosWeight(pos: nat, n: nat): (w: real)
    requires 0 < n && pos <= n
    ensures 0.0 <= w <= MaxPosWeight
    ensures pos == 0 ==> w == MaxPosWeight
    ensures pos > 0 ==> w == if (n - pos) as real / pos as real < MaxPosWeight then (n - pos) as real / pos as real else MaxPosWeight
  {
    if pos == 0 then MaxPosWeight
    else
      var ratio := (n - pos) as real / pos as real;
      if ratio < MaxPosWeight then ratio else MaxPosWeight
  }

  /** More positives among the same labels never raise the weight. */
  lemma ScalePosWeightAntitone(p: nat, q: nat, n: nat)
    requires 0 < n && p <= q <= n
    ensures ScalePosWeight(q, n) <= ScalePosWeight(p, n)
  {
    if p > 0 {
      assert (n - q) * p <= (n - p) * q by {
        assert n * p <= n * q;
      }
      assert ((n - q) as real) * (p as real) <= ((n - p) as real) * (q as real) by {
        assert ((n - q) as real) * (p as real) == ((n - q) * p) as real;
        assert ((n - p) as real) * (q as real) == ((n - p) * q) as real;
      }
      QuotientLe((n - q) as real, q as real, (n - p) as real, p as real);
    }
  }

  /** Cross-multiplying compares two quotients with positive denominators. */
  lemma QuotientLe(x: real, y: real, z: real, w: real)
    requires y > 0.0 && w > 0.0 && x * w <= z * y
    ensures x / y <= z / w
  {
    var a, b := x / y, z / w;
    assert x == a * y && z == b * w;
    assert (a - b) * (y * w) <= 0.0;
    assert y * w > 0.0;
  }

  // ----- alerts -----

  /** A row's predicted probability of failing, with what the alert reports about it. */
  datatype Prediction = Prediction(studentId: string, subject: Option<string>, prob: real, notaFinal: real, failed: bool)

  /** `prob > 0.5`. */
  predicate HighRisk(p: real) { p > 0.5 }

  /** `0.3 <= prob < 0.5`. */
  predicate MediumRisk(p: real) { 0.3 <= p < 0.5 }

  /** The buckets are disjoint, and a probability of exactly 0.5 is in neither. */
  lemma BucketsDisjoint(p: real)
    ensures !(HighRisk(p) && MediumRisk(p))
    ensures p == 0.5 ==> !HighRisk(p) && !MediumRisk(p)
  {
  }

  /** `df['student_id'].unique()`: each id once, in order of first appearance. */
  function Unique(ids: seq<string>): (u: seq<string>)
    ensures forall x :: x in u <==> x in ids
    ensures forall i, j :: 0 <= i < j < |u| ==> u[i] != u[j]
  {
    if ids == [] then []
    else
      var u := Unique(ids[..|ids| - 1]);
      var x := ids[|ids| - 1];
      assert forall y :: y in ids <==> y in ids[..|ids| - 1] || y == x;
      if x in u then u else u + [x]
  }

  function Ids(preds: seq<Prediction>): (ids: seq<string>)
    ensures |ids| == |preds| && forall i :: 0 <= i < |preds| ==> ids[i] == preds[i].studentId
  {
    if preds == [] then [] else Ids(preds[..|preds| - 1]) + [preds[|preds| - 1].studentId]
  }

  /** The student's predictions whose probability `inBucket` accepts, in order. */
  function Bucket(preds: seq<Prediction>, id: string, high: bool): (b: seq<Prediction>)
    ensures forall p :: p in b <==> p in preds && p.studentId == id && (if high then HighRisk(p.prob) else MediumRisk(p.prob))
  {
    if preds == [] then []
    else
      var p := preds[|preds| - 1];
      var b := Bucket(preds[..|preds| - 1], id, high);
      assert forall q :: q in preds <==> q in preds[..|preds| - 1] || q == p;
      if p.studentId == id && (if high then HighRisk(p.prob) else MediumRisk(p.prob)) then b + [p] else b
  }

  /** One student's alert: their high- and medium-risk subjects. */
  datatype Alert = Alert(studentId: string, high: seq<Prediction>, medium: seq<Prediction>)

  /** The alerts of the first students, skipping those with neither kind of subject. */
  function AlertsOf(ids: seq<string>, preds: seq<Prediction>): seq<Alert> {
    if ids == [] then []
    else
      var id := ids[|ids| - 1];
      var high, medium := Bucket(preds, id, true), Bucket(preds, id, false);
      AlertsOf(ids[..|ids| - 1], preds) + if high == [] && medium == [] then [] else [Alert(id, high, medium)]
  }

  lemma AlertsStep(ids: seq<string>, preds: seq<Prediction>, i: nat)
    requires i < |ids|
    ensures AlertsOf(ids[..i + 1], preds) == AlertsOf(ids[..i], preds) +
      if Bucket(preds, ids[i], true) == [] && Bucket(preds, ids[i], false) == [] then []
      else [Alert(ids[i], Bucket(preds, ids[i], true), Bucket(preds, ids[i], false))]
  {
    assert ids[..i + 1][..i] == ids[..i];
  }

  /** `generate_proactive_alerts`. */
  method GenerateProactiveAlerts(preds: seq<Prediction>) returns (alerts: seq<Alert>)
    ensures alerts == AlertsOf(Unique(Ids(preds)), preds)
  {
    var ids := Unique(Ids(preds));
    alerts := [];
    var i := 0;
    while i < |ids|
      invariant 0 <= i <= |ids|
      invariant alerts == AlertsOf(ids[..i], preds)
    {
      AlertsStep(ids, preds, i);
      var high := Bucket(preds, ids[i], true);
      var medium := Bucket(preds, ids[i], false);
      if !(high == [] && medium == []) {
        alerts := alerts + [Alert(ids[i], high, medium)];
      }
      i := i + 1;
    }
    assert ids[..i] == ids;
  }

  /**
   * Every alert is about a listed student and holds at least one subject,
   * each of that student and of the bucket's range; an alert's high and
   * medium subjects are disjoint.
   */
  lemma {:induction false} AlertsSound(ids: seq<string>, preds: seq<Prediction>)
    ensures forall a :: a in AlertsOf(ids, preds) ==> a.studentId in ids && (a.high != [] || a.medium != [])
    ensures forall a, p :: a in AlertsOf(ids, preds) && p in a.high ==> p in preds && p.studentId == a.studentId && HighRisk(p.prob)
    ensures forall a, p :: a in AlertsOf(ids, preds) && p in a.medium ==> p in preds && p.studentId == a.studentId && MediumRisk(p.prob)
    ensures forall a, p :: a in AlertsOf(ids, preds) && p in a.high ==> p !in a.medium
  {
    if ids != [] {
      AlertsSound(ids[..|ids| - 1], preds);
      assert forall x :: x in ids[..|ids| - 1] ==> x in ids;
    }
  }

  /** Every high- or medium-risk prediction of a listed student is reported in that student's alert. */
  lemma {:induction false} AlertsComplete(ids: seq<string>, preds: seq<Prediction>)
    ensures forall p :: p in preds && p.studentId in ids && (HighRisk(p.prob) || MediumRisk(p.prob)) ==>
      exists a :: a in AlertsOf(ids, preds) && a.studentId == p.studentId && (p in a.high || p in a.medium)
  {
    if ids != [] {
      var init, id := ids[..|ids| - 1], ids[|ids| - 1];
      AlertsComplete(init, preds);
      forall p | p in preds && p.studentId in ids && (HighRisk(p.prob) || MediumRisk(p.prob))
        ensures exists a :: a in AlertsOf(ids, preds) && a.studentId == p.studentId && (p in a.high || p in a.medium)
      {
        if p.studentId in init {
          var a :| a in AlertsOf(init, preds) && a.studentId == p.studentId && (p in a.high || p in a.medium);
          assert a in AlertsOf(ids, preds);
        } else {
          assert p.studentId == id;
          var a := Alert(id, Bucket(preds, id, true), Bucket(preds, id, false));
          assert p in a.high || p in a.medium;
          assert a in AlertsOf(ids, preds);
        }
      }
    }
  }

  /** A student is listed at most once, since each id is visited once. */
  lemma {:induction false} AlertsDistinct(ids: seq<string>, preds: seq<Prediction>)
    requires forall i, j :: 0 <= i < j < |ids| ==> ids[i] != ids[j]
    ensures forall i, j :: 0 <= i < j < |AlertsOf(ids, preds)| ==> AlertsOf(ids, preds)[i].studentId != AlertsOf(ids, preds)[j].studentId
  {
    if ids != [] {
      var init := ids[..|ids| - 1];
      AlertsDistinct(init, preds);
      AlertsSound(init, preds);
      assert ids[|ids| - 1] !in init;
    }
  }
}
